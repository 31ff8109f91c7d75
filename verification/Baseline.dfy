/**
 The documentation gate's baseline: findings are written as sorted lines of three
 tab-separated parts under a comment header, and loaded back into a counter that the gate
 compares with the current findings. What was written is what is loaded, and the gate is
 clean right after a rewrite, exactly for findings the format can carry.
 */
module Baseline {
  import opened Sorting
  import opened Text
  import opened Wrappers

  datatype Finding = Finding(path: string, rule: string, key: string)

  function Format(f: Finding): string { f.path + "\t" + f.rule + "\t" + f.key }

  // --- writing ---------------------------------------------------------------

  function Formats(findings: seq<Finding>): (r: seq<string>)
    ensures |r| == |findings| && forall i :: 0 <= i < |r| ==> r[i] == Format(findings[i])
  {
    seq(|findings|, i requires 0 <= i < |findings| => Format(findings[i]))
  }

  function Lines(header: seq<string>, findings: seq<Finding>): seq<string> {
    header + Sort(Formats(findings), StringLeq)
  }

  function Join(lines: seq<string>): string {
    if lines == [] then "" else if |lines| == 1 then lines[0] else lines[0] + "\n" + Join(lines[1..])
  }

  function Written(header: seq<string>, findings: seq<Finding>): string { Join(Lines(header, findings)) + "\n" }

  method WriteBaseline(header: seq<string>, findings: seq<Finding>) returns (text: string)
    ensures text == Written(header, findings)
  {
    hide Sort, Join;
    var lines := header;
    var sorted := Sort(Formats(findings), StringLeq);
    for i := 0 to |sorted|
      invariant lines == header + sorted[..i]
    {
      lines := lines + [sorted[i]];
    }
    assert sorted[..|sorted|] == sorted;
    text := Join(lines) + "\n";
  }

  // The file does not depend on the order the findings were collected in.
  lemma WrittenOrderFree(header: seq<string>, a: seq<Finding>, b: seq<Finding>)
    requires multiset(a) == multiset(b)
    ensures Written(header, a) == Written(header, b)
  {
    hide Sort, Join, StringLeq;
    FormatsPermuted(a, b);
    StringOrder();
    SortDependsOnMultiset(Formats(a), Formats(b), StringLeq);
  }

  lemma {:induction false} FormatsPermuted(a: seq<Finding>, b: seq<Finding>)
    requires multiset(a) == multiset(b)
    ensures multiset(Formats(a)) == multiset(Formats(b))
    decreases |a|
  {
    hide Format, Formats, Without;
    assert |a| == |multiset(a)| == |multiset(b)| == |b|;
    if a == [] {
      assert a == b;
    } else {
      assert a[0] in multiset(b);
      var k :| 0 <= k < |b| && b[k] == a[0];
      FormatsWithout(a, 0);
      FormatsWithout(b, k);
      FormatsPermuted(Without(a, 0), Without(b, k));
    }
  }

  lemma FormatsWithout(a: seq<Finding>, k: nat)
    requires k < |a|
    ensures multiset(Formats(a)) == multiset(Formats(Without(a, k))) + multiset{Format(a[k])}
  {
    hide Format;
    assert Formats(Without(a, k)) == Without(Formats(a), k);
  }

  // --- reading ---------------------------------------------------------------

  predicate Break(c: char) { c == '\n' || c == '\r' }

  // The position of the first line break, or the length.
  function BreakAt(text: string): (k: nat)
    ensures k <= |text| && (k < |text| ==> Break(text[k])) && forall i :: 0 <= i < k ==> !Break(text[i])
  {
    if text == "" || Break(text[0]) then 0 else 1 + BreakAt(text[1..])
  }

  // The lines of a file opened as text: "\n", "\r" and "\r\n" all end a line.
  function FileLines(text: string): (r: seq<string>)
    ensures forall i :: 0 <= i < |r| ==> Unbroken(r[i])
  {
    if text == "" then []
    else
      var k := BreakAt(text);
      if k == |text| then [text]
      else if text[k] == '\r' && k + 1 < |text| && text[k + 1] == '\n' then [text[..k]] + FileLines(text[k + 2..])
      else [text[..k]] + FileLines(text[k + 1..])
  }

  predicate Unbroken(s: string) { forall i :: 0 <= i < |s| ==> !Break(s[i]) }

  // The position of the first tab, or the length.
  function TabAt(s: string): (k: nat)
    ensures k <= |s| && (k < |s| ==> s[k] == '\t') && forall i :: 0 <= i < k ==> s[i] != '\t'
  {
    if s == "" || s[0] == '\t' then 0 else 1 + TabAt(s[1..])
  }

  function SplitTabs(s: string): (r: seq<string>)
    ensures r != []
  {
    var k := TabAt(s);
    if k == |s| then [s] else [s[..k]] + SplitTabs(s[k + 1..])
  }

  predicate Skipped(line: string) { "#" <= line || Strip(line) == "" }

  // What one line adds to the counter.
  function EntryOf(line: string): Option<Finding> {
    if Skipped(line) then None
    else
      var parts := SplitTabs(line);
      if |parts| != 3 then None else Some(Finding(parts[0], parts[1], parts[2]))
  }

  function Loaded(lines: seq<string>): multiset<Finding> {
    if lines == [] then multiset{}
    else
      var n := |lines| - 1;
      var entry := EntryOf(lines[n]);
      Loaded(lines[..n]) + if entry.Some? then multiset{entry.value} else multiset{}
  }

  method LoadBaseline(text: string) returns (counter: multiset<Finding>)
    ensures counter == Loaded(FileLines(text))
  {
    hide FileLines, SplitTabs, Strip, Loaded;
    var lines := FileLines(text);
    LoadedNone();
    counter := multiset{};
    for i := 0 to |lines|
      invariant counter == Loaded(lines[..i])
    {
      LoadedStep(lines, i);
      var line := lines[i];
      if !("#" <= line || Strip(line) == "") {
        var parts := SplitTabs(line);
        if |parts| == 3 {
          var key := Finding(parts[0], parts[1], parts[2]);
          Incremented(counter, key);
          counter := counter[key := counter[key] + 1];
        }
      }
    }
    assert lines[..|lines|] == lines;
  }

  lemma LoadedNone()
    ensures Loaded([]) == multiset{}
  {
  }

  lemma LoadedStep(lines: seq<string>, i: nat)
    requires i < |lines|
    ensures var entry := EntryOf(lines[i]);
            Loaded(lines[..i + 1]) == Loaded(lines[..i]) + if entry.Some? then multiset{entry.value} else multiset{}
  {
    hide EntryOf;
    assert lines[..i + 1][..i] == lines[..i];
  }

  lemma Incremented(counter: multiset<Finding>, key: Finding)
    ensures counter[key := counter[key] + 1] == counter + multiset{key}
  {
  }

  // --- the gate --------------------------------------------------------------

  // A key the baseline does not carry is new, as often as it occurs; occurrences of a
  // carried key are not counted. An entry beyond the current count is unused.
  method Compare(current: multiset<Finding>, baseline: multiset<Finding>)
    returns (added: multiset<Finding>, unused: multiset<Finding>)
    ensures forall f :: added[f] == if f in baseline then 0 else current[f]
    ensures unused == baseline - current
  {
    added, unused := multiset{}, multiset{};
    var keys := set f | f in current;
    while keys != {}
      invariant forall f :: f in keys ==> f in current
      invariant forall f :: added[f] == if f in keys || f in baseline then 0 else current[f]
      decreases keys
    {
      var key :| key in keys;
      keys := keys - {key};
      if key !in baseline {
        added := added[key := current[key]];
      }
    }
    keys := set f | f in baseline;
    while keys != {}
      invariant forall f :: f in keys ==> f in baseline
      invariant forall f :: unused[f] == if f in keys then 0 else (baseline - current)[f]
      decreases keys
    {
      var key :| key in keys;
      keys := keys - {key};
      var surplus := baseline[key] as int - current[key];
      if surplus > 0 {
        unused := unused[key := surplus];
      }
    }
  }

  // The exit status: nothing new, and under the strict flag nothing unused.
  method Gate(findings: seq<Finding>, text: string, strict: bool) returns (status: nat)
    ensures status == GateStatus(findings, text, strict)
  {
    var baseline := LoadBaseline(text);
    var added, unused := Compare(multiset(findings), baseline);
    if added != multiset{} {
      var f :| f in added;
      assert f in findings && f !in baseline;
      status := 1;
    } else if strict && unused != multiset{} {
      CarriedIff(findings, baseline, added);
      status := 1;
    } else {
      CarriedIff(findings, baseline, added);
      status := 0;
    }
  }

  ghost predicate Carried(findings: seq<Finding>, baseline: multiset<Finding>) {
    forall f :: f in findings ==> f in baseline
  }

  ghost function GateStatus(findings: seq<Finding>, text: string, strict: bool): nat {
    var baseline := Loaded(FileLines(text));
    if Carried(findings, baseline) && (strict ==> baseline - multiset(findings) == multiset{}) then 0 else 1
  }

  lemma CarriedIff(findings: seq<Finding>, baseline: multiset<Finding>, added: multiset<Finding>)
    requires forall f :: added[f] == if f in baseline then 0 else multiset(findings)[f]
    requires added == multiset{}
    ensures Carried(findings, baseline)
  {
    forall f | f in findings ensures f in baseline {
      assert added[f] == 0 && f in multiset(findings);
    }
  }

  // --- what the format can carry ---------------------------------------------

  predicate Untabbed(s: string) { forall i :: 0 <= i < |s| ==> s[i] != '\t' && !Break(s[i]) }

  predicate Blank(s: string) { forall i :: 0 <= i < |s| ==> White(s[i]) }

  // No tab or line break in any part, no leading '#', and not all white space.
  predicate Plain(f: Finding) {
    && Untabbed(f.path) && Untabbed(f.rule) && Untabbed(f.key)
    && !("#" <= f.path) && !(Blank(f.path) && Blank(f.rule) && Blank(f.key))
  }

  lemma {:induction false} LStripBlank(s: string)
    ensures LStrip(s) == "" <==> Blank(s)
  {
    if s != "" {
      LStripBlank(s[1..]);
      assert s == [s[0]] + s[1..];
    }
  }

  lemma StripBlank(s: string)
    ensures Strip(s) == "" <==> Blank(s)
  {
    LStripBlank(s);
    if !Blank(s) { RStripFirst(LStrip(s)); }
  }

  lemma {:induction false} TabAtExact(a: string, rest: string)
    requires Untabbed(a)
    ensures TabAt(a + "\t" + rest) == |a|
  {
    var s := a + "\t" + rest;
    if a == "" {
      assert s == "\t" + rest;
    } else {
      TabAtExact(a[1..], rest);
      assert s[1..] == a[1..] + "\t" + rest && s[0] == a[0];
    }
  }

  lemma {:induction false} TabAtEnd(s: string)
    requires Untabbed(s)
    ensures TabAt(s) == |s|
  {
    if s != "" { TabAtEnd(s[1..]); }
  }

  lemma SplitFormat(f: Finding)
    requires Untabbed(f.path) && Untabbed(f.rule) && Untabbed(f.key)
    ensures SplitTabs(Format(f)) == [f.path, f.rule, f.key]
  {
    hide TabAt, Untabbed;
    var l := Format(f);
    var rest := f.rule + "\t" + f.key;
    assert l == f.path + "\t" + rest;
    TabAtExact(f.path, rest);
    TabAtExact(f.rule, f.key);
    TabAtEnd(f.key);
    assert SplitTabs(f.key) == [f.key];
    assert l[..|f.path|] == f.path && l[|f.path| + 1..] == rest;
    assert rest[..|f.rule|] == f.rule && rest[|f.rule| + 1..] == f.key;
    assert SplitTabs(rest) == [f.rule] + [f.key];
  }

  // A line of three parts is the format of them.
  lemma SplitThree(l: string)
    requires |SplitTabs(l)| == 3 && Unbroken(l)
    ensures var p := SplitTabs(l);
            l == Format(Finding(p[0], p[1], p[2])) && Untabbed(p[0]) && Untabbed(p[1]) && Untabbed(p[2])
  {
    hide SplitTabs, TabAt, Unbroken, Untabbed;
    SplitStep(l);
    var k := TabAt(l);
    var rest := l[k + 1..];
    SplitStep(rest);
    var j := TabAt(rest);
    var last := rest[j + 1..];
    SplitStep(last);
    Pieces(l, k);
    Pieces(rest, j);
    Pieces(last, |last|);
    assert last[..|last|] == last;
    Rejoined(l[..k], rest[..j], last);
  }

  lemma Rejoined(a: string, b: string, c: string)
    ensures a + "\t" + (b + "\t" + c) == Format(Finding(a, b, c))
  {
  }

  // One cut at the first tab.
  lemma SplitStep(s: string)
    ensures var k := TabAt(s);
            SplitTabs(s) == if k == |s| then [s] else [s[..k]] + SplitTabs(s[k + 1..])
  {
    hide TabAt;
  }

  // The text before a tab has none, and neither part has a line break.
  lemma Pieces(s: string, k: nat)
    requires Unbroken(s) && k <= |s| && forall i :: 0 <= i < k ==> s[i] != '\t'
    ensures Untabbed(s[..k])
    ensures k < |s| && s[k] == '\t' ==> Unbroken(s[k + 1..]) && s == s[..k] + "\t" + s[k + 1..]
  {
    hide Break;
  }

  lemma FormatBlank(f: Finding)
    ensures Blank(Format(f)) <==> Blank(f.path) && Blank(f.rule) && Blank(f.key)
  {
    hide White;
    var l := Format(f);
    var a, b := |f.path|, |f.path| + 1 + |f.rule|;
    assert White('\t') by { TabIsWhite(); }
    if Blank(l) {
      assert forall i :: 0 <= i < |f.path| ==> f.path[i] == l[i];
      assert forall i :: 0 <= i < |f.rule| ==> f.rule[i] == l[a + 1 + i];
      assert forall i :: 0 <= i < |f.key| ==> f.key[i] == l[b + 1 + i];
    }
  }

  lemma TabIsWhite()
    ensures White('\t')
  {
  }

  lemma FormatSkipped(f: Finding)
    requires Untabbed(f.path)
    ensures Skipped(Format(f)) <==> "#" <= f.path || (Blank(f.path) && Blank(f.rule) && Blank(f.key))
  {
    hide Strip, Blank;
    StripBlank(Format(f));
    FormatBlank(f);
    var l := Format(f);
    if f.path == "" { assert l[0] == '\t'; } else { assert l[0] == f.path[0]; }
  }

  // A line is read as a finding exactly when it is that finding's format and the finding
  // is one the format can carry.
  lemma EntryExact(l: string, f: Finding)
    requires Unbroken(l)
    ensures EntryOf(l) == Some(f) <==> l == Format(f) && Plain(f)
  {
    hide SplitTabs, Skipped, Format, Untabbed, Blank, Unbroken;
    if l == Format(f) && Plain(f) {
      SplitFormat(f);
      FormatSkipped(f);
    }
    if EntryOf(l) == Some(f) {
      SplitThree(l);
      FormatSkipped(f);
    }
  }

  // --- round trip ------------------------------------------------------------

  ghost predicate AllUnbroken(lines: seq<string>) { forall i :: 0 <= i < |lines| ==> Unbroken(lines[i]) }

  // How often a finding is loaded.
  lemma {:induction false} LoadedCount(lines: seq<string>, f: Finding)
    requires AllUnbroken(lines)
    ensures Loaded(lines)[f] == if Plain(f) then multiset(lines)[Format(f)] else 0
  {
    hide EntryOf, Format, Plain, Unbroken;
    if lines != [] {
      var n := |lines| - 1;
      LoadedCount(lines[..n], f);
      EntryExact(lines[n], f);
      assert lines == lines[..n] + [lines[n]];
    }
  }

  lemma BreakAtExact(l: string, rest: string)
    requires Unbroken(l)
    ensures BreakAt(l + "\n" + rest) == |l|
  {
    var s := l + "\n" + rest;
    assert s[|l|] == '\n';
    assert forall i :: 0 <= i < |l| ==> s[i] == l[i];
  }

  lemma {:induction false} LinesReadBack(lines: seq<string>)
    requires lines != [] && AllUnbroken(lines)
    ensures FileLines(Join(lines) + "\n") == lines
  {
    hide BreakAt, Unbroken;
    if |lines| == 1 {
      var text := lines[0] + "\n" + "";
      assert Join(lines) + "\n" == text;
      BreakAtExact(lines[0], "");
      assert text[..|lines[0]|] == lines[0] && text[|lines[0]| + 1..] == "";
    } else {
      var rest := Join(lines[1..]) + "\n";
      LinesReadBack(lines[1..]);
      var text := lines[0] + "\n" + rest;
      assert Join(lines) + "\n" == text;
      BreakAtExact(lines[0], rest);
      assert text[..|lines[0]|] == lines[0] && text[|lines[0]| + 1..] == rest;
    }
  }

  ghost predicate AllPlain(findings: seq<Finding>) { forall i :: 0 <= i < |findings| ==> Plain(findings[i]) }

  // A header of comment lines.
  ghost predicate Header(header: seq<string>) {
    header != [] && forall i :: 0 <= i < |header| ==> "#" <= header[i] && Unbroken(header[i])
  }

  lemma FormatUnbroken(f: Finding)
    requires Plain(f)
    ensures Unbroken(Format(f)) && !("#" <= Format(f))
  {
    hide Blank;
    var l := Format(f);
    if f.path == "" { assert l[0] == '\t'; } else { assert l[0] == f.path[0]; }
  }

  lemma LinesUnbroken(header: seq<string>, findings: seq<Finding>)
    requires Header(header) && AllPlain(findings)
    ensures AllUnbroken(Lines(header, findings))
  {
    hide Plain, Unbroken, Format, Sort;
    var s, t := Formats(findings), Sort(Formats(findings), StringLeq);
    forall i | 0 <= i < |t| ensures Unbroken(t[i]) {
      assert t[i] in multiset(t);
      assert t[i] in multiset(s);
      var j :| 0 <= j < |s| && s[j] == t[i];
      FormatUnbroken(findings[j]);
    }
  }

  lemma FormatInjective(f: Finding, g: Finding)
    requires Plain(f) && Plain(g) && Format(f) == Format(g)
    ensures f == g
  {
    hide Format;
    SplitFormat(f);
    SplitFormat(g);
  }

  lemma {:induction false} FormatsCount(findings: seq<Finding>, f: Finding)
    requires AllPlain(findings) && Plain(f)
    ensures multiset(Formats(findings))[Format(f)] == multiset(findings)[f]
  {
    hide Format, Plain;
    if findings != [] {
      var n := |findings| - 1;
      FormatsCount(findings[..n], f);
      assert findings == findings[..n] + [findings[n]];
      assert Formats(findings) == Formats(findings[..n]) + [Format(findings[n])];
      if Format(findings[n]) == Format(f) { FormatInjective(findings[n], f); }
    }
  }

  lemma CountInLines(header: seq<string>, findings: seq<Finding>, f: Finding)
    requires Header(header) && AllPlain(findings) && Plain(f)
    ensures multiset(Lines(header, findings))[Format(f)] == multiset(findings)[f]
  {
    hide Format, Plain, Sort, Unbroken;
    FormatUnbroken(f);
    assert Format(f) !in header;
    FormatsCount(findings, f);
  }

  // Loading what was written gives the findings back exactly when all of them are plain.
  lemma RoundTrip(header: seq<string>, findings: seq<Finding>)
    requires Header(header)
    ensures Loaded(FileLines(Written(header, findings))) == multiset(findings) <==> AllPlain(findings)
  {
    hide Loaded, FileLines, Lines, Join, Plain, Header, Unbroken;
    var lines := FileLines(Written(header, findings));
    var loaded := Loaded(lines);
    if AllPlain(findings) {
      LinesUnbroken(header, findings);
      assert Lines(header, findings) != [] by { HeaderFirst(header, findings); }
      LinesReadBack(Lines(header, findings));
      forall f ensures loaded[f] == multiset(findings)[f] {
        LoadedCount(lines, f);
        if Plain(f) { CountInLines(header, findings, f); } else { assert f !in findings; }
      }
    }
    if loaded == multiset(findings) {
      forall i | 0 <= i < |findings| ensures Plain(findings[i]) {
        LoadedCount(lines, findings[i]);
        assert findings[i] in multiset(findings);
      }
    }
  }

  lemma HeaderFirst(header: seq<string>, findings: seq<Finding>)
    requires Header(header)
    ensures Lines(header, findings) != []
  {
  }

  // The gate right after a rewrite passes, strictly or not, exactly when every finding is
  // plain: one the format cannot carry comes back as new at once.
  lemma CleanAfterRewrite(header: seq<string>, findings: seq<Finding>, strict: bool)
    requires Header(header)
    ensures GateStatus(findings, Written(header, findings), strict) == 0 <==> AllPlain(findings)
  {
    hide Loaded, FileLines, Written, Plain, Header;
    RoundTrip(header, findings);
    var lines := FileLines(Written(header, findings));
    var baseline := Loaded(lines);
    if AllPlain(findings) {
      assert baseline - multiset(findings) == multiset{};
    } else {
      var i :| 0 <= i < |findings| && !Plain(findings[i]);
      LoadedCount(lines, findings[i]);
      assert findings[i] in findings && findings[i] !in baseline;
    }
  }

  // A finding on a path that starts with # is written as a comment and lost.
  lemma HashPathLost(header: seq<string>, message: string, strict: bool)
    requires Header(header)
    ensures var findings := [Finding("#a", "rule", message)];
            && Loaded(FileLines(Written(header, findings))) != multiset(findings)
            && GateStatus(findings, Written(header, findings), strict) != 0
  {
    var f := Finding("#a", "rule", message);
    assert !Plain(f) && [f][0] == f;
    RoundTrip(header, [f]);
    CleanAfterRewrite(header, [f], strict);
  }
}
