/**
 Three scanners of fenced code blocks, written apart: the prose lines, the code blocks,
 and the runnable blocks behind a marker. They agree on where a fence opens and closes.
 */
module Fences {
  import opened Wrappers
  import opened Text

  // --- one line --------------------------------------------------------------

  // The fence character, its run length and the text after it.
  datatype Fence = Fence(mark: char, len: nat, info: string)

  function FenceInfo(line: string): Option<Fence> {
    var s := LStrip(line);
    if "```" <= s then Some(Fence('`', Run(s, '`'), Strip(s[Run(s, '`')..])))
    else if "~~~" <= s then Some(Fence('~', Run(s, '~'), Strip(s[Run(s, '~')..])))
    else None
  }

  // The command extractor's own reading of a fence line: character and length only.
  function FenceMark(line: string): Option<(char, nat)> {
    var s := LStrip(line);
    if "```" <= s then Some(('`', |s| - |DropRun(s, '`')|))
    else if "~~~" <= s then Some(('~', |s| - |DropRun(s, '~')|))
    else None
  }

  function DropRun(s: string, c: char): (r: string)
    ensures |r| <= |s|
  {
    if s == "" || s[0] != c then s else DropRun(s[1..], c)
  }

  lemma {:induction false} DropRunIsRun(s: string, c: char)
    ensures DropRun(s, c) == s[Run(s, c)..]
  {
    if s != "" && s[0] == c {
      DropRunIsRun(s[1..], c);
      assert s[1..][Run(s[1..], c)..] == s[Run(s, c)..];
    }
  }

  lemma MarksAgree(line: string)
    ensures FenceMark(line).Some? <==> FenceInfo(line).Some?
    ensures FenceInfo(line).Some? ==>
              var f := FenceInfo(line).value;
              && FenceMark(line).value == (f.mark, f.len) && f.len <= |LStrip(line)|
              && f.info == Strip(LStrip(line)[f.len..])
  {
    var s := LStrip(line);
    DropRunIsRun(s, '`');
    DropRunIsRun(s, '~');
  }

  lemma MarksExist(line: string)
    ensures FenceMark(line).Some? <==> FenceInfo(line).Some?
  {
  }

  const MARKER_PREFIX: string := "<!--"
  const MARKER_SUFFIX: string := "-->"
  const MARKER_TOKEN: string := "ravel:run"

  predicate EndsWith(s: string, pat: string) {
    |pat| <= |s| && s[|s| - |pat|..] == pat
  }

  // The expectation text of a run marker; the prefix and the suffix may overlap.
  function MarkerText(line: string): Option<string> {
    var s := Strip(line);
    if !(MARKER_PREFIX <= s) || !EndsWith(s, MARKER_SUFFIX) then None
    else
      var inner := if |s| < 7 then "" else Strip(s[4..|s| - 3]);
      if MARKER_TOKEN <= inner then Some(Strip(inner[9..])) else None
  }

  lemma StripBetween(s: string)
    requires s != "" && !White(s[0]) && !White(s[|s| - 1])
    ensures Strip(" " + s + " ") == s && Strip(" " + s) == s
  {
    hide White;
    SpaceWhite();
    var t := " " + s + " ";
    assert t[1..] == s + " " && (" " + s)[1..] == s;
    assert LStrip(t) == s + " " && LStrip(" " + s) == s;
    assert (s + " ")[..|s|] == s;
    assert RStrip(s + " ") == RStrip(s) == s;
  }

  lemma SpaceWhite()
    ensures White(' ')
  {
  }

  lemma InkedMarks()
    ensures !White('<') && !White('>') && !White('r')
  {
  }

  // A marker line, indented or not, is read as the expectation written in it.
  lemma MarkerRead(pad: nat, e: string)
    requires e != "" && !White(e[0]) && !White(e[|e| - 1])
    ensures MarkerText(Spaces(pad) + ("<!-- ravel:run " + e + " -->")) == Some(e)
  {
    hide White, Strip;
    InkedMarks();
    var a, z := "<!-- ravel:run ", " -->";
    var s, inner := a + e + z, "ravel:run " + e;
    StripPadded(pad, s);
    assert s[|s| - 3..] == z[1..] && z[1..] == "-->";
    assert s[..4] == a[..4] && a[..4] == "<!--";
    assert s[4..|s| - 3] == a[4..] + e + z[..1] && a[4..] == " ravel:run " && z[..1] == " ";
    assert " ravel:run " + e + " " == " " + inner + " ";
    StripBetween(inner);
    assert inner[9..] == " " + e;
    StripBetween(e);
  }

  lemma MarkerIsNoFence(line: string)
    requires MarkerText(line).Some?
    ensures FenceInfo(line).None?
  {
    hide White, LStrip, RStrip, Run;
    var l := LStrip(line);
    var r := RStrip(l);
    assert MARKER_PREFIX <= r && r <= l;
    assert r[0] == MARKER_PREFIX[0] && l[0] == r[0];
    assert !("```" <= l) by { assert "```"[0] != l[0]; }
    assert !("~~~" <= l) by { assert "~~~"[0] != l[0]; }
  }

  // --- the state of the docs scanners ----------------------------------------

  datatype Mode = Outside | Inside(mark: char, len: nat)

  // The line closes the open fence: same character, at least as long, nothing after it.
  predicate Closes(line: string, mark: char, len: nat) {
    var f := FenceInfo(line);
    f.Some? && f.value.mark == mark && f.value.len >= len && f.value.info == ""
  }

  function Next(m: Mode, line: string): Mode {
    match m
    case Outside =>
      if FenceInfo(line).Some? then Inside(FenceInfo(line).value.mark, FenceInfo(line).value.len) else Outside
    case Inside(mark, len) => if Closes(line, mark, len) then Outside else m
  }

  // The mode before line k.
  function ModeAt(lines: seq<string>, k: nat): Mode
    requires k <= |lines|
  {
    if k == 0 then Outside else Next(ModeAt(lines, k - 1), lines[k - 1])
  }

  predicate Prose(lines: seq<string>, k: nat) {
    k < |lines| && ModeAt(lines, k).Outside? && FenceInfo(lines[k]).None?
  }

  predicate Opens(lines: seq<string>, k: nat) {
    k < |lines| && ModeAt(lines, k).Outside? && FenceInfo(lines[k]).Some?
  }

  // The first line from j on that closes the fence.
  function FindClose(lines: seq<string>, j: nat, mark: char, len: nat): (r: Option<nat>)
    ensures r.Some? ==> j <= r.value < |lines| && Closes(lines[r.value], mark, len)
    ensures forall i :: j <= i < (if r.Some? then r.value else |lines|) ==> !Closes(lines[i], mark, len)
    decreases |lines| - j
  {
    if j >= |lines| then None
    else if Closes(lines[j], mark, len) then Some(j)
    else FindClose(lines, j + 1, mark, len)
  }

  function CloseOf(lines: seq<string>, k: nat): (r: Option<nat>)
    requires k < |lines| && FenceInfo(lines[k]).Some?
    ensures r.Some? ==> k < r.value < |lines|
  {
    var f := FenceInfo(lines[k]).value;
    FindClose(lines, k + 1, f.mark, f.len)
  }

  // Until its closing line a fence stays open; after it the mode is outside again.
  lemma {:induction false} InsideUntilClose(lines: seq<string>, k: nat, j: nat)
    requires Opens(lines, k) && k < j <= |lines|
    requires CloseOf(lines, k).Some? ==> j <= CloseOf(lines, k).value
    ensures var f := FenceInfo(lines[k]).value; ModeAt(lines, j) == Inside(f.mark, f.len)
  {
    hide FenceInfo, Closes;
    if j > k + 1 { InsideUntilClose(lines, k, j - 1); }
  }

  lemma OutsideAfterClose(lines: seq<string>, k: nat)
    requires Opens(lines, k) && CloseOf(lines, k).Some?
    ensures ModeAt(lines, CloseOf(lines, k).value + 1) == Outside
  {
    InsideUntilClose(lines, k, CloseOf(lines, k).value);
  }

  // --- the docs scanners -----------------------------------------------------

  // The prose lines before line k, each with its one-based number.
  function ProseBefore(lines: seq<string>, k: nat): seq<(nat, string)>
    requires k <= |lines|
  {
    if k == 0 then []
    else ProseBefore(lines, k - 1) + if Prose(lines, k - 1) then [(k, lines[k - 1])] else []
  }

  method IterProseLines(lines: seq<string>) returns (out: seq<(nat, string)>)
    ensures out == ProseBefore(lines, |lines|)
  {
    hide FenceInfo;
    var inFence, mark, len := false, '`', 0;
    out := [];
    for i := 0 to |lines|
      invariant out == ProseBefore(lines, i)
      invariant ModeAt(lines, i) == if inFence then Inside(mark, len) else Outside
    {
      var line := lines[i];
      var info := FenceInfo(line);
      if inFence {
        if info.Some? && info.value.mark == mark && info.value.len >= len && info.value.info == "" {
          inFence := false;
        }
      } else if info.Some? {
        inFence, mark, len := true, info.value.mark, info.value.len;
      } else {
        out := out + [(i + 1, line)];
      }
    }
  }

  // A line is yielded exactly when it is prose.
  lemma {:induction false} ProseYielded(lines: seq<string>, n: nat, k: nat)
    requires n <= |lines| && k < n
    ensures (k + 1, lines[k]) in ProseBefore(lines, n) <==> Prose(lines, k)
  {
    hide Prose;
    if k < n - 1 {
      ProseYielded(lines, n - 1, k);
    } else {
      ProseNumbers(lines, n - 1);
    }
  }

  lemma {:induction false} ProseNumbers(lines: seq<string>, n: nat)
    requires n <= |lines|
    ensures forall p :: p in ProseBefore(lines, n) ==> 1 <= p.0 <= n
  {
    hide Prose;
    if n > 0 { ProseNumbers(lines, n - 1); }
  }

  // The closed code blocks from line k on, in order: info string and body.
  function BlocksFrom(lines: seq<string>, k: nat): seq<(string, seq<string>)>
    decreases |lines| - k
  {
    if k >= |lines| then []
    else if FenceInfo(lines[k]).None? then BlocksFrom(lines, k + 1)
    else
      match CloseOf(lines, k)
      case None => []
      case Some(m) => [(FenceInfo(lines[k]).value.info, lines[k + 1..m])] + BlocksFrom(lines, m + 1)
  }

  method IterCodeBlocks(lines: seq<string>) returns (out: seq<(string, seq<string>)>)
    ensures out == BlocksFrom(lines, 0)
  {
    hide FenceInfo, ModeAt, BlocksFrom, FindClose, Closes, CloseOf;
    var inFence, mark, len, info := false, '`', 0, "";
    var body: seq<string> := [];
    ghost var open := 0;
    out := [];
    for i := 0 to |lines|
      invariant !inFence ==> out + BlocksFrom(lines, i) == BlocksFrom(lines, 0)
      invariant inFence ==>
                  open < i && FenceInfo(lines[open]) == Some(Fence(mark, len, info)) && body == lines[open + 1..i]
      invariant inFence ==> CloseOf(lines, open) == FindClose(lines, i, mark, len)
      invariant inFence ==> out + BlocksFrom(lines, open) == BlocksFrom(lines, 0)
    {
      var line := lines[i];
      var f := FenceInfo(line);
      BlocksStep(lines, if inFence then open else i);
      if inFence {
        CloseStep(lines, i, mark, len);
        if f.Some? && f.value.mark == mark && f.value.len >= len && f.value.info == "" {
          assert out + ([(info, body)] + BlocksFrom(lines, i + 1)) == (out + [(info, body)]) + BlocksFrom(lines, i + 1);
          inFence := false;
          out := out + [(info, body)];
          body := [];
        } else {
          body := body + [line];
        }
      } else if f.Some? {
        inFence, mark, len, info := true, f.value.mark, f.value.len, f.value.info;
        body := [];
        open := i;
        CloseOfIs(lines, i);
      }
    }
    BlocksStep(lines, if inFence then open else |lines|);
    CloseStep(lines, |lines|, mark, len);
  }

  lemma CloseOfIs(lines: seq<string>, k: nat)
    requires k < |lines| && FenceInfo(lines[k]).Some?
    ensures var f := FenceInfo(lines[k]).value; CloseOf(lines, k) == FindClose(lines, k + 1, f.mark, f.len)
  {
  }

  lemma BlocksStep(lines: seq<string>, k: nat)
    ensures BlocksFrom(lines, k) ==
            if k >= |lines| then []
            else if FenceInfo(lines[k]).None? then BlocksFrom(lines, k + 1)
            else
              match CloseOf(lines, k)
              case None => []
              case Some(m) => [(FenceInfo(lines[k]).value.info, lines[k + 1..m])] + BlocksFrom(lines, m + 1)
  {
    hide FenceInfo, CloseOf;
  }

  lemma CloseStep(lines: seq<string>, j: nat, mark: char, len: nat)
    ensures FindClose(lines, j, mark, len) ==
            if j >= |lines| then None
            else
              var f := FenceInfo(lines[j]);
              if f.Some? && f.value.mark == mark && f.value.len >= len && f.value.info == "" then Some(j)
              else FindClose(lines, j + 1, mark, len)
  {
    hide FenceInfo;
  }

  // --- the command extractor -------------------------------------------------

  datatype Block = Block(line: nat, command: seq<string>, expectation: string)

  datatype MarkerError = NotFollowed(line: nat) | BadExpectation(line: nat) | Unclosed(line: nat)

  // The body and the closing line of the fence opened at `open`.
  method ReadFence(lines: seq<string>, open: nat) returns (body: seq<string>, close: Option<nat>)
    requires open < |lines| && FenceMark(lines[open]).Some?
    ensures FenceInfo(lines[open]).Some? && close == CloseOf(lines, open)
    ensures body == lines[open + 1..if close.Some? then close.value else |lines|]
  {
    hide FenceInfo, FenceMark, Strip;
    var (mark, len) := FenceMark(lines[open]).value;
    MarksAgree(lines[open]);
    body := [];
    var j := open + 1;
    while j < |lines|
      invariant open < j <= |lines| && body == lines[open + 1..j]
      invariant CloseOf(lines, open) == FindClose(lines, j, mark, len)
    {
      var f := FenceMark(lines[j]);
      MarksAgree(lines[j]);
      if f.Some? {
        var after := Strip(LStrip(lines[j])[f.value.1..]);
        if f.value.0 == mark && f.value.1 >= len && after == "" {
          return body, Some(j);
        }
      }
      body := body + [lines[j]];
      j := j + 1;
    }
    close := None;
  }

  // The blocks from line i on; `good` says which expectation texts parse.
  function ExtractFrom(lines: seq<string>, i: nat, good: string -> bool): Result<seq<Block>, MarkerError>
    decreases |lines| - i
  {
    if i >= |lines| then Ok([])
    else if MarkerText(lines[i]).Some? then
      var text := MarkerText(lines[i]).value;
      if i + 1 >= |lines| || FenceInfo(lines[i + 1]).None? then Err(NotFollowed(i + 1))
      else if !good(text) then Err(BadExpectation(i + 1))
      else
        match CloseOf(lines, i + 1)
        case None => Err(Unclosed(i + 2))
        case Some(m) => Prepend(Block(i + 2, lines[i + 2..m], text), ExtractFrom(lines, m + 1, good))
    else if FenceInfo(lines[i]).Some? then
      match CloseOf(lines, i)
      case None => Ok([])
      case Some(m) => ExtractFrom(lines, m + 1, good)
    else ExtractFrom(lines, i + 1, good)
  }

  function Prepend(b: Block, r: Result<seq<Block>, MarkerError>): Result<seq<Block>, MarkerError> {
    match r case Ok(bs) => Ok([b] + bs) case Err(e) => Err(e)
  }

  function Append(bs: seq<Block>, r: Result<seq<Block>, MarkerError>): Result<seq<Block>, MarkerError> {
    match r case Ok(cs) => Ok(bs + cs) case Err(e) => Err(e)
  }

  lemma AppendPrepend(bs: seq<Block>, b: Block, r: Result<seq<Block>, MarkerError>)
    ensures Append(bs, Prepend(b, r)) == Append(bs + [b], r)
  {
    if r.Ok? { assert bs + ([b] + r.value) == bs + [b] + r.value; }
  }

  method ExtractBlocks(lines: seq<string>, good: string -> bool) returns (r: Result<seq<Block>, MarkerError>)
    ensures r == ExtractFrom(lines, 0, good)
  {
    hide FenceInfo, FenceMark, MarkerText, CloseOf, LStrip, Strip;
    var blocks: seq<Block> := [];
    var i, n := 0, |lines|;
    assert Append([], ExtractFrom(lines, 0, good)) == ExtractFrom(lines, 0, good) by {
      if ExtractFrom(lines, 0, good).Ok? {
        assert [] + ExtractFrom(lines, 0, good).value == ExtractFrom(lines, 0, good).value;
      }
    }
    while i < n
      invariant Append(blocks, ExtractFrom(lines, i, good)) == ExtractFrom(lines, 0, good)
      decreases n - i
    {
      var text := MarkerText(lines[i]);
      MarksExist(lines[i]);
      if text.Some? {
        if i + 1 >= n {
          return Err(NotFollowed(i + 1));
        }
        MarksExist(lines[i + 1]);
        if FenceMark(lines[i + 1]).None? {
          return Err(NotFollowed(i + 1));
        }
        if !good(text.value) {
          return Err(BadExpectation(i + 1));
        }
        var body, close := ReadFence(lines, i + 1);
        if close.None? {
          return Err(Unclosed(i + 2));
        }
        var block := Block(i + 2, body, text.value);
        AppendPrepend(blocks, block, ExtractFrom(lines, close.value + 1, good));
        blocks := blocks + [block];
        i := close.value + 1;
      } else if FenceMark(lines[i]).Some? {
        var _, close := ReadFence(lines, i);
        i := if close.Some? then close.value + 1 else n;
      } else {
        i := i + 1;
      }
    }
    assert blocks + [] == blocks;
    r := Ok(blocks);
  }

  // --- agreement -------------------------------------------------------------

  // Line k is prose and a run marker.
  predicate Marked(lines: seq<string>, k: nat) {
    Prose(lines, k) && MarkerText(lines[k]).Some?
  }

  // What a marker must be followed by: a fence on the next line that closes, with an
  // expectation that parses.
  predicate Runnable(lines: seq<string>, k: nat, good: string -> bool) {
    && k + 1 < |lines| && MarkerText(lines[k]).Some? && good(MarkerText(lines[k]).value)
    && FenceInfo(lines[k + 1]).Some? && CloseOf(lines, k + 1).Some?
  }

  ghost predicate AllRunnable(lines: seq<string>, i: nat, good: string -> bool) {
    forall k :: i <= k < |lines| && Marked(lines, k) ==> Runnable(lines, k, good)
  }

  function BlockAt(lines: seq<string>, k: nat, good: string -> bool): Block
    requires Runnable(lines, k, good)
  {
    Block(k + 2, lines[k + 2..CloseOf(lines, k + 1).value], MarkerText(lines[k]).value)
  }

  // The fences opened directly after the marked prose lines from i on, in order.
  function MarkedFrom(lines: seq<string>, i: nat, good: string -> bool): seq<Block>
    decreases |lines| - i
  {
    if i >= |lines| then []
    else (if Marked(lines, i) && Runnable(lines, i, good) then [BlockAt(lines, i, good)] else [])
         + MarkedFrom(lines, i + 1, good)
  }

  lemma {:induction false} MarkedSkip(lines: seq<string>, a: nat, b: nat, good: string -> bool)
    requires a <= b <= |lines| && forall j :: a <= j < b ==> !Prose(lines, j)
    ensures MarkedFrom(lines, a, good) == MarkedFrom(lines, b, good)
    ensures AllRunnable(lines, a, good) <==> AllRunnable(lines, b, good)
    decreases b - a
  {
    hide Prose, Runnable, MarkerText, MarkedFrom, AllRunnable;
    if a < b {
      FirstMarked(lines, a, good);
      MarkedSkip(lines, a + 1, b, good);
    }
  }

  // Nothing in a fence, its own two lines included, is prose.
  lemma NoProseInFence(lines: seq<string>, k: nat)
    requires Opens(lines, k)
    ensures var end := if CloseOf(lines, k).Some? then CloseOf(lines, k).value + 1 else |lines|;
            forall j :: k <= j < end ==> !Prose(lines, j)
  {
    hide FenceInfo, CloseOf, ModeAt;
    var end := if CloseOf(lines, k).Some? then CloseOf(lines, k).value + 1 else |lines|;
    forall j | k <= j < end ensures !Prose(lines, j) {
      if j > k { InsideUntilClose(lines, k, j); }
    }
  }

  // The extractor succeeds exactly when every marked prose line is runnable, and then
  // returns exactly their fences: no marker in any fence becomes a block, no prose marker
  // is lost.
  lemma {:induction false} ExtractAgrees(lines: seq<string>, i: nat, good: string -> bool)
    requires i <= |lines| && ModeAt(lines, i).Outside?
    ensures ExtractFrom(lines, i, good).Ok? <==> AllRunnable(lines, i, good)
    ensures ExtractFrom(lines, i, good).Ok? ==> ExtractFrom(lines, i, good).value == MarkedFrom(lines, i, good)
    decreases |lines| - i
  {
    hide FenceInfo, CloseOf, MarkerText, ModeAt, AllRunnable, MarkedFrom, ExtractFrom;
    ExtractStep(lines, i, good);
    if i == |lines| {
      NoneLeft(lines, good);
    } else if MarkerText(lines[i]).Some? {
      MarkerIsNoFence(lines[i]);
      NextMode(lines, i);
      FirstMarked(lines, i, good);
      if Runnable(lines, i, good) {
        var m := CloseOf(lines, i + 1).value;
        NoProseInFence(lines, i + 1);
        MarkedSkip(lines, i + 1, m + 1, good);
        OutsideAfterClose(lines, i + 1);
        ExtractAgrees(lines, m + 1, good);
      }
    } else if FenceInfo(lines[i]).Some? {
      NoProseInFence(lines, i);
      var close := CloseOf(lines, i);
      MarkedSkip(lines, i, if close.Some? then close.value + 1 else |lines|, good);
      if close.Some? {
        OutsideAfterClose(lines, i);
        ExtractAgrees(lines, close.value + 1, good);
      } else {
        NoneLeft(lines, good);
      }
    } else {
      NextMode(lines, i);
      FirstMarked(lines, i, good);
      ExtractAgrees(lines, i + 1, good);
    }
  }

  lemma ExtractStep(lines: seq<string>, i: nat, good: string -> bool)
    requires i <= |lines|
    ensures ExtractFrom(lines, i, good) ==
            if i == |lines| then Ok([])
            else if MarkerText(lines[i]).Some? then
              if !Runnable(lines, i, good) then Err(ExtractFrom(lines, i, good).error)
              else Prepend(BlockAt(lines, i, good), ExtractFrom(lines, CloseOf(lines, i + 1).value + 1, good))
            else if FenceInfo(lines[i]).Some? then
              if CloseOf(lines, i).None? then Ok([]) else ExtractFrom(lines, CloseOf(lines, i).value + 1, good)
            else ExtractFrom(lines, i + 1, good)
  {
    hide FenceInfo, CloseOf, MarkerText;
  }

  lemma NoneLeft(lines: seq<string>, good: string -> bool)
    ensures AllRunnable(lines, |lines|, good) && MarkedFrom(lines, |lines|, good) == []
  {
  }

  lemma NextMode(lines: seq<string>, i: nat)
    requires i < |lines| && ModeAt(lines, i).Outside? && FenceInfo(lines[i]).None?
    ensures ModeAt(lines, i + 1).Outside?
  {
  }

  lemma FirstMarked(lines: seq<string>, i: nat, good: string -> bool)
    requires i < |lines|
    ensures AllRunnable(lines, i, good)
            <==> (Marked(lines, i) ==> Runnable(lines, i, good)) && AllRunnable(lines, i + 1, good)
    ensures MarkedFrom(lines, i, good)
            == (if Marked(lines, i) && Runnable(lines, i, good) then [BlockAt(lines, i, good)] else [])
               + MarkedFrom(lines, i + 1, good)
  {
    hide Marked, Runnable;
  }

  // The closed fences from line k on, in order, as the prose scanner's state sees them.
  function OpenedFrom(lines: seq<string>, k: nat): seq<(string, seq<string>)>
    decreases |lines| - k
  {
    if k >= |lines| then []
    else (if Opens(lines, k) && CloseOf(lines, k).Some?
          then [(FenceInfo(lines[k]).value.info, lines[k + 1..CloseOf(lines, k).value])] else [])
         + OpenedFrom(lines, k + 1)
  }

  lemma OpenedStep(lines: seq<string>, k: nat)
    requires k < |lines|
    ensures !Opens(lines, k) ==> OpenedFrom(lines, k) == OpenedFrom(lines, k + 1)
  {
    hide Opens, CloseOf, FenceInfo;
  }

  lemma {:induction false} OpenedSkip(lines: seq<string>, a: nat, b: nat)
    requires a <= b <= |lines| && forall j :: a <= j < b ==> !Opens(lines, j)
    ensures OpenedFrom(lines, a) == OpenedFrom(lines, b)
    decreases b - a
  {
    hide Opens, OpenedFrom;
    if a < b {
      OpenedStep(lines, a);
      OpenedSkip(lines, a + 1, b);
    }
  }

  lemma NoOpenInFence(lines: seq<string>, k: nat)
    requires Opens(lines, k)
    ensures var end := if CloseOf(lines, k).Some? then CloseOf(lines, k).value + 1 else |lines|;
            forall j :: k < j < end ==> !Opens(lines, j)
  {
    hide FenceInfo, CloseOf, ModeAt;
    var end := if CloseOf(lines, k).Some? then CloseOf(lines, k).value + 1 else |lines|;
    forall j | k < j < end ensures !Opens(lines, j) { InsideUntilClose(lines, k, j); }
  }

  // The two docs scanners agree: the code blocks are the fences that open where the prose
  // scanner leaves prose, with the lines up to where it returns to it.
  lemma {:induction false} CodeBlocksAgree(lines: seq<string>, i: nat)
    requires i <= |lines| && ModeAt(lines, i).Outside?
    ensures BlocksFrom(lines, i) == OpenedFrom(lines, i)
    decreases |lines| - i
  {
    hide FenceInfo, CloseOf, ModeAt;
    if i == |lines| {
    } else if FenceInfo(lines[i]).None? {
      NextMode(lines, i);
      CodeBlocksAgree(lines, i + 1);
    } else {
      NoOpenInFence(lines, i);
      var close := CloseOf(lines, i);
      OpenedSkip(lines, i + 1, if close.Some? then close.value + 1 else |lines|);
      if close.Some? {
        OutsideAfterClose(lines, i);
        CodeBlocksAgree(lines, close.value + 1);
      }
    }
  }

  lemma {:induction false} OpenedListed(lines: seq<string>, i: nat, k: nat)
    requires i <= k && Opens(lines, k) && CloseOf(lines, k).Some?
    ensures (FenceInfo(lines[k]).value.info, lines[k + 1..CloseOf(lines, k).value]) in OpenedFrom(lines, i)
    decreases k - i
  {
    hide FenceInfo, CloseOf, Opens;
    if i < k { OpenedListed(lines, i + 1, k); }
  }

  // All three together: on success each block stands right after a marked line that the
  // prose scanner yields, and its command is a body that the code-block scanner yields.
  lemma BlocksPlaced(lines: seq<string>, good: string -> bool, k: nat)
    requires ExtractFrom(lines, 0, good).Ok? && Marked(lines, k)
    ensures Runnable(lines, k, good) && BlockAt(lines, k, good) in ExtractFrom(lines, 0, good).value
    ensures (k + 1, lines[k]) in ProseBefore(lines, |lines|)
    ensures (FenceInfo(lines[k + 1]).value.info, BlockAt(lines, k, good).command) in BlocksFrom(lines, 0)
  {
    hide FenceInfo, CloseOf, MarkerText, ProseBefore, ExtractFrom, MarkedFrom, OpenedFrom, BlocksFrom;
    StartsOutside(lines);
    ExtractAgrees(lines, 0, good);
    assert Runnable(lines, k, good);
    MarkedListed(lines, 0, k, good);
    ProseYielded(lines, |lines|, k);
    NextMode(lines, k);
    CodeBlocksAgree(lines, 0);
    OpenedListed(lines, 0, k + 1);
  }

  lemma StartsOutside(lines: seq<string>)
    ensures ModeAt(lines, 0).Outside?
  {
  }

  lemma {:induction false} MarkedListed(lines: seq<string>, i: nat, k: nat, good: string -> bool)
    requires i <= k && Marked(lines, k) && Runnable(lines, k, good)
    ensures BlockAt(lines, k, good) in MarkedFrom(lines, i, good)
    decreases k - i
  {
    hide Runnable, BlockAt, MarkedFrom, FenceInfo, ModeAt, MarkerText;
    FirstMarked(lines, i, good);
    if i < k { MarkedListed(lines, i + 1, k, good); }
  }
}
