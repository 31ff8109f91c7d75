/**
 The blanker of Rust comments, strings and character literals. Functions work on the
 text that is left to scan; `prev` says whether the character before it is part of a
 word, and `alnum` is the alphanumeric test of the host language.
 */
module CommentBlanker {
  import Text

  // --- matching at the front of a text ---------------------------------------

  predicate StartsWith(t: string, pat: string) { pat <= t }

  // The index of the first occurrence of pat, or |t| when there is none.
  function Find(t: string, pat: string): (k: nat)
    ensures k <= |t|
    ensures k < |t| ==> pat <= t[k..]
    ensures forall i :: 0 <= i < k ==> !(pat <= t[i..])
  {
    if t == "" || pat <= t then 0
    else
      var k := 1 + Find(t[1..], pat);
      assert forall i :: 1 <= i < k ==> t[i..] == t[1..][i - 1..];
      k
  }

  predicate Word(c: char, alnum: char -> bool) { alnum(c) || c == '_' }

  predicate Hex(c: char) { '0' <= c <= '9' || 'a' <= c <= 'f' || 'A' <= c <= 'F' }

  // How many of the leading characters are hexadecimal digits or underscores.
  function HexRun(t: string): (k: nat)
    ensures k <= |t| && forall i :: 0 <= i < k ==> Hex(t[i]) || t[i] == '_'
    ensures k < |t| ==> !Hex(t[k]) && t[k] != '_'
  {
    if t == "" || !(Hex(t[0]) || t[0] == '_') then 0 else 1 + HexRun(t[1..])
  }

  // --- the length of a token at the front, 0 for none ------------------------

  // A line comment runs to the line break.
  function LineLen(t: string): nat { Find(t, "\n") }

  // What is left of a block comment at the given depth.
  function BlockLen(t: string, depth: nat): (k: nat)
    ensures k <= |t|
  {
    if t == "" || depth == 0 then 0
    else if StartsWith(t, "/*") then 2 + BlockLen(t[2..], depth + 1)
    else if StartsWith(t, "*/") then 2 + BlockLen(t[2..], depth - 1)
    else 1 + BlockLen(t[1..], depth)
  }

  // The opening of a raw string, b?r#*", as its length and number of hashes.
  function RawOpen(t: string): (r: (nat, nat))
    ensures r.0 <= |t| && (r.0 > 0 ==> r.0 >= 2)
  {
    var b := if t != "" && t[0] == 'b' then 1 else 0;
    if b < |t| && t[b] == 'r' then
      var h := Text.Run(t[b + 1..], '#');
      if b + 1 + h < |t| && t[b + 1 + h] == '"' then (b + 2 + h, h) else (0, 0)
    else (0, 0)
  }

  function Close(hashes: nat): string { "\"" + seq(hashes, _ => '#') }

  function RawLen(t: string): (k: nat)
    requires RawOpen(t).0 > 0
    ensures 2 <= k <= |t|
  {
    var (open, hashes) := RawOpen(t);
    var at := Find(t[open..], Close(hashes));
    if at == |t| - open then |t| else open + at + |Close(hashes)|
  }

  // From position j inside a string: to just after its closing quote, or to the end.
  function StringEnd(t: string, j: nat): (e: nat)
    requires 0 < j
    ensures e <= |t| && (j <= |t| ==> j <= e) && (j < |t| ==> j < e)
    decreases |t| - j
  {
    if j >= |t| then |t|
    else if t[j] == '"' then j + 1
    else StringEnd(t, j + if t[j] == '\\' then 2 else 1)
  }

  // A character literal: one plain character, or an escape.
  function CharLen(t: string): (k: nat)
    ensures k <= |t| && (k > 0 ==> k >= 3)
  {
    if |t| < 3 || t[0] != '\'' then 0
    else if t[1] !in ['\'', '\\', '\n'] && t[2] == '\'' then 3
    else if |t| < 4 || t[1] != '\\' then 0
    else if t[2] != '\n' && t[3] == '\'' then 4
    else if t[2] == 'x' && |t| >= 6 && Hex(t[3]) && Hex(t[4]) && t[5] == '\'' then 6
    else if t[2] == 'u' && t[3] == '{' then
      var k := HexRun(t[4..]);
      if 1 <= k <= 6 && k + 5 < |t| && t[k + 4] == '}' && t[k + 5] == '\'' then k + 6 else 0
    else 0
  }

  // How many leading characters are blanked together; 0 when the first is code.
  function Blanked(t: string, prev: bool): (k: nat)
    requires t != ""
    ensures k <= |t|
  {
    if StartsWith(t, "//") then LineLen(t)
    else if StartsWith(t, "/*") then 2 + BlockLen(t[2..], 1)
    else if t[0] in ['r', 'b'] && !prev && RawOpen(t).0 > 0 then RawLen(t)
    else if t[0] == '"' then StringEnd(t, 1)
    else if t[0] == 'b' && !prev && |t| > 1 && t[1] == '"' then StringEnd(t, 2)
    else if t[0] == '\'' then CharLen(t)
    else 0
  }

  function Blank(t: string): (r: string)
    ensures |r| == |t| && forall i :: 0 <= i < |t| ==> r[i] == if t[i] == '\n' then '\n' else ' '
  {
    seq(|t|, i requires 0 <= i < |t| => if t[i] == '\n' then '\n' else ' ')
  }

  function Strip(t: string, prev: bool, alnum: char -> bool): (r: string)
    ensures |r| == |t|
    decreases |t|
  {
    if t == "" then ""
    else
      var k := Blanked(t, prev);
      if k == 0 then [t[0]] + Strip(t[1..], Word(t[0], alnum), alnum)
      else Blank(t[..k]) + Strip(t[k..], Word(t[k - 1], alnum), alnum)
  }

  // --- the tokens against their grammar --------------------------------------

  // What is left of one nested comment, by recursive descent: other characters and
  // whole inner comments, up to the closing mark or the end of the text.
  function Nested(t: string): (k: nat)
    ensures k <= |t|
    decreases |t|
  {
    if t == "" then 0
    else if StartsWith(t, "*/") then 2
    else if StartsWith(t, "/*") then
      var inner := 2 + Nested(t[2..]);
      inner + Nested(t[inner..])
    else 1 + Nested(t[1..])
  }

  // A mark is two characters long, and a text opens with one mark at most.
  lemma MarksDiffer(t: string)
    ensures StartsWith(t, "*/") || StartsWith(t, "/*") ==> |t| >= 2
    ensures !(StartsWith(t, "*/") && StartsWith(t, "/*"))
  {
    assert |t| >= 2 && t[..2] == "*/" ==> t[0] == '*';
  }

  // An inner comment of n characters after its mark, then the m left of the outer one.
  lemma OpensLevel(t: string, depth: nat, n: nat, m: nat)
    requires StartsWith(t, "/*") && 2 + n <= |t|
    requires n == Nested(t[2..]) && m == Nested(t[2 + n..])
    requires BlockLen(t[2..], depth + 2) == n + BlockLen(t[2..][n..], depth + 1)
    requires BlockLen(t[2 + n..], depth + 1) == m + BlockLen(t[2 + n..][m..], depth)
    ensures BlockLen(t, depth + 1) == Nested(t) + BlockLen(t[Nested(t)..], depth)
  {
    hide StartsWith;
    MarksDiffer(t);
    assert BlockLen(t, depth + 1) == 2 + BlockLen(t[2..], depth + 2);
    assert Nested(t) == 2 + n + m;
    hide BlockLen, Nested;
    assert t[2..][n..] == t[2 + n..];
    assert t[2 + n..][m..] == t[2 + n + m..];
  }

  // The depth counter closes one level of nesting per level counted.
  lemma {:induction false} CounterIsNesting(t: string, depth: nat)
    ensures BlockLen(t, depth + 1) == Nested(t) + BlockLen(t[Nested(t)..], depth)
    decreases |t|
  {
    hide StartsWith;
    MarksDiffer(t);
    if t == "" {
    } else if StartsWith(t, "*/") {
    } else if StartsWith(t, "/*") {
      CounterIsNesting(t[2..], depth + 1);
      CounterIsNesting(t[2 + Nested(t[2..])..], depth);
      OpensLevel(t, depth, Nested(t[2..]), Nested(t[2 + Nested(t[2..])..]));
    } else {
      CounterIsNesting(t[1..], depth);
      assert t[1..][Nested(t[1..])..] == t[Nested(t)..];
    }
  }

  // A block comment is blanked to the mark that closes it, inner comments included.
  lemma BlockCommentEnds(t: string)
    requires StartsWith(t, "/*")
    ensures Blanked(t, true) == Blanked(t, false) == 2 + Nested(t[2..])
  {
    CounterIsNesting(t[2..], 0);
    assert !StartsWith(t, "//") by { assert t[1] == "/*"[1]; }
  }

  // The number of backslashes directly before position j, none of them before `from`.
  function Slashes(t: string, from: nat, j: nat): (n: nat)
    requires from <= j <= |t|
    ensures n <= j - from
  {
    if j == from || t[j - 1] != '\\' then 0 else 1 + Slashes(t, from, j - 1)
  }

  // A quote after an even number of backslashes.
  predicate Unescaped(t: string, from: nat, j: nat) {
    from <= j < |t| && t[j] == '"' && Slashes(t, from, j) % 2 == 0
  }

  // A string literal ends with its first unescaped quote, or with the text.
  lemma {:induction false} StringEndIsFirstQuote(t: string, from: nat, j: nat)
    requires 0 < from <= j <= |t| && Slashes(t, from, j) % 2 == 0
    ensures var e := StringEnd(t, j);
            && (forall i :: j <= i < e - 1 ==> !Unescaped(t, from, i))
            && j <= e && (Unescaped(t, from, e - 1) || (e == |t| && (j < e ==> !Unescaped(t, from, e - 1))))
    decreases |t| - j
  {
    if j < |t| && t[j] != '"' {
      if t[j] != '\\' {
        StringEndIsFirstQuote(t, from, j + 1);
      } else if j + 2 <= |t| {
        assert Slashes(t, from, j + 1) == Slashes(t, from, j) + 1;
        StringEndIsFirstQuote(t, from, j + 2);
      }
    }
  }

  // --- what blanking keeps ---------------------------------------------------

  lemma FindIs(t: string, pat: string, k: nat)
    requires k < |t| && pat <= t[k..] && forall i :: 0 <= i < k ==> !(pat <= t[i..])
    ensures Find(t, pat) == k
  {
    hide Find;
    assert Find(t, pat) >= k;
  }

  lemma {:induction false} RunIs(h: nat, rest: string)
    requires rest != "" && rest[0] != '#'
    ensures Text.Run(seq(h, _ => '#') + rest, '#') == h
  {
    var s := seq(h, _ => '#') + rest;
    if h > 0 {
      RunIs(h - 1, rest);
      assert s[1..] == seq(h - 1, _ => '#') + rest;
    } else {
      assert s == rest;
    }
  }

  // The opening of a raw string with h hashes, a byte string or not.
  function RawStart(byte: bool, h: nat): string { (if byte then "b" else "") + "r" + seq(h, _ => '#') + "\"" }

  lemma RawOpenIs(byte: bool, h: nat, rest: string)
    ensures RawOpen(RawStart(byte, h) + rest) == (|RawStart(byte, h)|, h)
  {
    var t := RawStart(byte, h) + rest;
    var b := if byte then 1 else 0;
    assert t[b] == 'r' && (byte ==> t[0] == 'b');
    assert t[b + 1..] == seq(h, _ => '#') + ("\"" + rest);
    RunIs(h, "\"" + rest);
    assert t[b + 1 + h] == t[b + 1..][h] == '"';
  }

  // A raw string is blanked up to and with the first quote that as many hashes follow as
  // opened it, whatever quotes, escapes and comment marks are inside.
  lemma RawStringBlanked(byte: bool, h: nat, body: string, rest: string)
    requires var tail := body + Close(h) + rest; forall i :: 0 <= i < |body| ==> !(Close(h) <= tail[i..])
    ensures Blanked(RawStart(byte, h) + (body + Close(h) + rest), false) == |RawStart(byte, h)| + |body| + |Close(h)|
  {
    hide RawOpen, Find, Close;
    var start, tail := RawStart(byte, h), body + Close(h) + rest;
    var t := start + tail;
    RawOpenIs(byte, h, tail);
    assert t[|start|..] == tail;
    assert tail[|body|..] == Close(h) + rest;
    CloseStarts(h);
    FindIs(tail, Close(h), |body|);
    assert t[0] == start[0];
  }

  lemma CloseStarts(h: nat)
    ensures |Close(h)| > 0
  {
  }

  // A quote before a plain character is a literal if the next character closes it, and
  // otherwise a lifetime, which is code.
  lemma LiteralOrLifetime(c: char, d: char, rest: string, prev: bool)
    requires c !in ['\'', '\\', '\n']
    ensures Blanked("'" + [c, d] + rest, prev) == if d == '\'' then 3 else 0
  {
    var t := "'" + [c, d] + rest;
    assert t[0] == '\'' && t[1] == c && t[2] == d;
  }

  // The two numeric escapes: two hexadecimal digits, or one to six in braces.
  lemma HexEscape(a: char, b: char, rest: string, prev: bool)
    requires a != '\''
    ensures Blanked("'\\x" + [a, b] + "'" + rest, prev) == if Hex(a) && Hex(b) then 6 else 0
  {
    var t := "'\\x" + [a, b] + "'" + rest;
    assert t[0] == '\'' && t[1] == '\\' && t[2] == 'x' && t[3] == a && t[4] == b && t[5] == '\'';
  }

  lemma UnicodeEscape(d: string, rest: string, prev: bool)
    requires forall i :: 0 <= i < |d| ==> Hex(d[i]) || d[i] == '_'
    ensures Blanked("'\\u{" + d + "}'" + rest, prev) == if 1 <= |d| <= 6 then |d| + 6 else 0
  {
    var t := "'\\u{" + d + "}'" + rest;
    assert t[0] == '\'' && t[1] == '\\' && t[2] == 'u' && t[3] == '{';
    assert t[4..] == d + "}'" + rest;
    HexRunExact(t[4..], |d|);
    assert t[|d| + 4] == t[4..][|d|] == '}' && t[|d| + 5] == t[4..][|d| + 1] == '\'';
  }

  // Same length, line breaks where they were, every other character kept or a space.
  ghost predicate Kept(t: string, r: string) {
    |r| == |t| && forall i :: 0 <= i < |t| ==> r[i] == t[i] || (r[i] == ' ' && t[i] != '\n')
  }

  lemma {:induction false} StripKeeps(t: string, prev: bool, alnum: char -> bool)
    ensures Kept(t, Strip(t, prev, alnum))
    decreases |t|
  {
    hide Blanked, Kept;
    if t == "" {
      KeptConcat("", "", "", "");
    } else {
      var k := Blanked(t, prev);
      if k == 0 {
        var w := Word(t[0], alnum);
        StripKeeps(t[1..], w, alnum);
        assert t == [t[0]] + t[1..];
        KeptConcat([t[0]], [t[0]], t[1..], Strip(t[1..], w, alnum));
      } else {
        var w := Word(t[k - 1], alnum);
        StripKeeps(t[k..], w, alnum);
        assert t == t[..k] + t[k..];
        KeptConcat(t[..k], Blank(t[..k]), t[k..], Strip(t[k..], w, alnum));
      }
    }
  }

  lemma KeptConcat(a: string, ra: string, b: string, rb: string)
    requires ra == a || ra == Blank(a)
    requires b == rb || Kept(b, rb)
    ensures Kept(a + b, ra + rb)
  {
  }

  // --- what blanking leaves --------------------------------------------------

  // No comment, string or character literal starts here.
  predicate Quiet(t: string) {
    t == "" || (t[0] != '"' && !StartsWith(t, "//") && !StartsWith(t, "/*") && CharLen(t) == 0)
  }

  // Nor anywhere later.
  predicate Clean(t: string) {
    t == "" || (Quiet(t) && Clean(t[1..]))
  }

  predicate Space(c: char) { c == ' ' || c == '\n' }

  lemma {:induction false} CleanBlank(b: string, t: string)
    requires Clean(t) && forall i :: 0 <= i < |b| ==> Space(b[i])
    ensures Clean(b + t)
  {
    if b == "" {
      assert b + t == t;
    } else {
      CleanBlank(b[1..], t);
      assert (b + t)[1..] == b[1..] + t;
      assert Space((b + t)[0]);
    }
  }

  // A blanked token has two characters or is the last character.
  lemma BlankedLength(t: string, prev: bool)
    requires t != "" && Blanked(t, prev) > 0
    ensures Blanked(t, prev) >= 2 || Blanked(t, prev) == |t|
  {
    LineCommentLength(t);
  }

  // So after a blanked first character comes a blank or nothing.
  lemma BlankPair(t: string, prev: bool, alnum: char -> bool)
    requires t != "" && Blanked(t, prev) > 0
    ensures var r := Strip(t, prev, alnum); Space(r[0]) && (|r| == 1 || Space(r[1]))
  {
    BlankedLength(t, prev);
  }

  lemma HexRunSame(t: string, r: string, k: nat)
    requires Kept(t, r) && HexRun(r) == k && k < |r| && r[k] == '}'
    ensures HexRun(t) == k && t[k] == '}'
  {
    HexRunExact(t, k);
  }

  lemma {:induction false} HexRunExact(t: string, k: nat)
    requires k < |t| && t[k] == '}' && forall i :: 0 <= i < k ==> Hex(t[i]) || t[i] == '_'
    ensures HexRun(t) == k
  {
    if k > 0 { HexRunExact(t[1..], k - 1); }
  }

  // Keeping a quote that opens no literal: blanking what follows opens none.
  lemma QuoteStaysOpen(t: string, alnum: char -> bool)
    requires t != "" && t[0] == '\'' && CharLen(t) == 0
    ensures CharLen([t[0]] + Strip(t[1..], Word(t[0], alnum), alnum)) == 0
  {
    hide Strip, Blanked;
    var w := Word(t[0], alnum);
    var r := [t[0]] + Strip(t[1..], w, alnum);
    StripKeeps(t[1..], w, alnum);
    assert Kept(t, r);
    PlainLiteral(t, alnum);
    EscapeLiteral(t, alnum);
    if |r| > 4 {
      var k := HexRun(r[4..]);
      if k < |r[4..]| && r[4..][k] == '}' {
        assert Kept(t[4..], r[4..]);
        HexRunSame(t[4..], r[4..], k);
      }
    }
  }

  lemma PlainLiteral(t: string, alnum: char -> bool)
    requires t != "" && t[0] == '\'' && CharLen(t) == 0
    ensures CharLen([t[0]] + Strip(t[1..], Word(t[0], alnum), alnum)) != 3
  {
    hide Blanked;
    var w := Word(t[0], alnum);
    StripKeeps(t[1..], w, alnum);
    if |t| > 1 && Blanked(t[1..], w) > 0 { BlankPair(t[1..], w, alnum); }
  }

  lemma EscapeLiteral(t: string, alnum: char -> bool)
    requires t != "" && t[0] == '\'' && CharLen(t) == 0
    ensures CharLen([t[0]] + Strip(t[1..], Word(t[0], alnum), alnum)) != 4
  {
    hide Blanked;
    var w := Word(t[0], alnum);
    StripKeeps(t[1..], w, alnum);
    if |t| > 2 {
      var w' := Word(t[1], alnum);
      if Blanked(t[1..], w) > 0 {
        BlankPair(t[1..], w, alnum);
      } else if Blanked(t[2..], w') > 0 {
        assert t[1..][1..] == t[2..];
        BlankPair(t[2..], w', alnum);
      } else {
        assert t[1..][1..] == t[2..];
      }
    }
  }

  // Nothing that could start a comment, a string or a literal is left.
  lemma {:induction false} StripClean(t: string, prev: bool, alnum: char -> bool)
    ensures Clean(Strip(t, prev, alnum))
    decreases |t|
  {
    if t != "" {
      var k := Blanked(t, prev);
      if k > 0 {
        StripClean(t[k..], Word(t[k - 1], alnum), alnum);
        CleanBlank(Blank(t[..k]), Strip(t[k..], Word(t[k - 1], alnum), alnum));
      } else {
        var w := Word(t[0], alnum);
        var u := Strip(t[1..], w, alnum);
        StripClean(t[1..], w, alnum);
        StripKeeps(t[1..], w, alnum);
        CodeIsQuiet(t, prev, u);
        if t[0] == '\'' { QuoteStaysOpen(t, alnum); }
        assert ([t[0]] + u)[1..] == u;
      }
    }
  }

  lemma CodeIsQuiet(t: string, prev: bool, u: string)
    requires t != "" && Blanked(t, prev) == 0 && Kept(t[1..], u)
    ensures t[0] != '"' && !StartsWith([t[0]] + u, "//") && !StartsWith([t[0]] + u, "/*")
    ensures t[0] == '\'' ==> CharLen(t) == 0
  {
    var r := [t[0]] + u;
    LineCommentLength(t);
    TwoChars(t, "//");
    TwoChars(t, "/*");
    TwoChars(r, "//");
    TwoChars(r, "/*");
  }

  lemma TwoChars(t: string, pat: string)
    requires |pat| == 2
    ensures StartsWith(t, pat) <==> |t| >= 2 && t[0] == pat[0] && t[1] == pat[1]
  {
    if |t| >= 2 { assert t[..2] == [t[0], t[1]] && pat == [pat[0], pat[1]]; }
  }

  lemma LineCommentLength(t: string)
    ensures StartsWith(t, "//") ==> LineLen(t) >= 2
  {
    TwoChars(t, "//");
    if StartsWith(t, "//") { assert Find(t[1..], "\n") > 0; }
  }

  // The reader's view: no quote, no // and no /* at any position.
  lemma {:induction false} CleanMeans(t: string, i: nat)
    requires Clean(t) && i < |t|
    ensures t[i] != '"' && !StartsWith(t[i..], "//") && !StartsWith(t[i..], "/*")
  {
    if i > 0 {
      CleanMeans(t[1..], i - 1);
      assert t[1..][i - 1..] == t[i..];
    } else {
      assert t[0..] == t;
    }
  }

  lemma {:induction false} CleanFixed(t: string, prev: bool, alnum: char -> bool)
    requires Clean(t)
    ensures Strip(t, prev, alnum) == t
    decreases |t|
  {
    if t != "" {
      assert Blanked(t, prev) == 0 by {
        if RawOpen(t).0 > 0 { CleanMeans(t, RawOpen(t).0 - 1); }
        if |t| > 1 { CleanMeans(t, 1); }
      }
      CleanFixed(t[1..], Word(t[0], alnum), alnum);
    }
  }

  // Blanking again changes nothing.
  lemma StripIdempotent(t: string, prev: bool, prev': bool, alnum: char -> bool)
    ensures Strip(Strip(t, prev, alnum), prev', alnum) == Strip(t, prev, alnum)
  {
    StripClean(t, prev, alnum);
    CleanFixed(Strip(t, prev, alnum), prev', alnum);
  }

  // --- what is and is not blanked --------------------------------------------

  // Code with no slash and no quote of either kind.
  predicate PlainCode(c: string) {
    forall i :: 0 <= i < |c| ==> c[i] !in ['/', '"', '\'']
  }

  function After(c: string, prev: bool, alnum: char -> bool): bool {
    if c == "" then prev else Word(c[|c| - 1], alnum)
  }

  // Code before a comment is kept to the last character.
  lemma {:induction false} CodeBefore(c: string, t: string, prev: bool, alnum: char -> bool)
    requires PlainCode(c) && t != "" && t[0] == '/'
    ensures Strip(c + t, prev, alnum) == c + Strip(t, After(c, prev, alnum), alnum)
    decreases |c|
  {
    hide Strip, Blanked, PlainCode, Word;
    if c == "" {
      assert c + t == t;
    } else {
      var u := c + t;
      NotBlanked(c, t, prev);
      StripUnfold(u, prev, alnum);
      assert u[1..] == c[1..] + t;
      var w := Word(c[0], alnum);
      PlainTail(c);
      CodeBefore(c[1..], t, w, alnum);
      assert After(c[1..], w, alnum) == After(c, prev, alnum);
      assert c == [c[0]] + c[1..];
    }
  }

  lemma PlainTail(c: string)
    requires PlainCode(c) && c != ""
    ensures PlainCode(c[1..])
  {
  }

  lemma NotBlanked(c: string, t: string, prev: bool)
    requires PlainCode(c) && c != "" && t != "" && t[0] == '/'
    ensures Blanked(c + t, prev) == 0
  {
    hide RawOpen;
    TwoChars(c + t, "//");
    TwoChars(c + t, "/*");
    NoRawOpen(c, t);
  }

  lemma NoRawOpen(c: string, t: string)
    requires PlainCode(c) && c != "" && t != "" && t[0] == '/'
    ensures RawOpen(c + t).0 == 0
    ensures (c + t)[1] != '"'
  {
    var u := c + t;
    var b := if u[0] == 'b' then 1 else 0;
    if b < |u| && u[b] == 'r' {
      RunStopsAtSlash(u[b + 1..], |c| - b - 1);
    }
  }

  lemma {:induction false} RunStopsAtSlash(u: string, k: nat)
    requires k < |u| && u[k] == '/'
    ensures Text.Run(u, '#') <= k
  {
    if k > 0 && u[0] == '#' { RunStopsAtSlash(u[1..], k - 1); }
  }

  // A line comment after code: the code stays, the comment is blanked up to the line
  // break, and scanning goes on after it.
  lemma LineCommentStripped(c: string, body: string, rest: string, prev: bool, alnum: char -> bool)
    requires PlainCode(c) && '\n' !in body
    ensures Strip(c + ("//" + body + "\n" + rest), prev, alnum)
            == c + Blank("//" + body) + "\n" + Strip(rest, Word('\n', alnum), alnum)
  {
    hide Strip, Blanked, Blank, Word, PlainCode, After;
    var comment := "//" + body;
    var t := comment + "\n" + rest;
    var w := After(c, prev, alnum);
    CodeBefore(c, t, prev, alnum);
    LineCommentBlanked(comment, rest, w);
    StripUnfold(t, w, alnum);
    assert t[..|comment|] == comment && t[|comment|..] == "\n" + rest;
    LineBreakKept(rest, Word(t[|comment| - 1], alnum), alnum);
  }

  lemma LineCommentBlanked(comment: string, rest: string, prev: bool)
    requires "//" <= comment && '\n' !in comment
    ensures Blanked(comment + "\n" + rest, prev) == |comment|
  {
    LineBreakFound(comment, rest);
  }

  lemma {:induction false} LineBreakFound(a: string, rest: string)
    requires '\n' !in a
    ensures Find(a + "\n" + rest, "\n") == |a|
  {
    var t := a + "\n" + rest;
    if a == "" {
      assert t == "\n" + rest;
    } else {
      assert t[0] == a[0] && t[1..] == a[1..] + "\n" + rest;
      LineBreakFound(a[1..], rest);
    }
  }

  lemma LineBreakKept(rest: string, prev: bool, alnum: char -> bool)
    ensures Strip("\n" + rest, prev, alnum) == "\n" + Strip(rest, Word('\n', alnum), alnum)
  {
    var t := "\n" + rest;
    TwoChars(t, "//");
    TwoChars(t, "/*");
    assert Blanked(t, prev) == 0;
    assert t[1..] == rest;
  }

  // --- the scanner -----------------------------------------------------------

  predicate PrevWord(source: string, i: nat, alnum: char -> bool)
    requires i <= |source|
  {
    i > 0 && Word(source[i - 1], alnum)
  }

  // The end of the block comment opened at i, by the depth counter.
  method ScanBlock(source: string, i: nat) returns (end: nat)
    requires i + 2 <= |source|
    ensures end == i + 2 + BlockLen(source[i + 2..], 1)
  {
    hide BlockLen;
    var n, depth := |source|, 1;
    end := i + 2;
    while end < n && depth > 0
      invariant i + 2 <= end <= n
      invariant BlockLen(source[i + 2..], 1) == end - (i + 2) + BlockLen(source[end..], depth)
      decreases n - end
    {
      var rest := source[end..];
      BlockStep(rest, depth);
      if StartsWith(rest, "/*") {
        assert rest[2..] == source[end + 2..];
        depth, end := depth + 1, end + 2;
      } else if StartsWith(rest, "*/") {
        assert rest[2..] == source[end + 2..];
        depth, end := depth - 1, end + 2;
      } else {
        assert rest[1..] == source[end + 1..];
        end := end + 1;
      }
    }
    BlockStep(source[end..], depth);
  }

  lemma BlockStep(t: string, depth: nat)
    ensures BlockLen(t, depth) ==
            if t == "" || depth == 0 then 0
            else if StartsWith(t, "/*") then 2 + BlockLen(t[2..], depth + 1)
            else if StartsWith(t, "*/") then 2 + BlockLen(t[2..], depth - 1)
            else 1 + BlockLen(t[1..], depth)
  {
  }

  // The end of the string opened at i whose body starts at `body`.
  method ScanString(source: string, i: nat, body: nat) returns (end: nat)
    requires i < body <= |source|
    ensures end == i + StringEnd(source[i..], body - i)
  {
    var n, j := |source|, body;
    ghost var t := source[i..];
    while j < n && source[j] != '"'
      invariant body <= j <= n + 1
      invariant StringEnd(t, j - i) == StringEnd(t, body - i)
      decreases n - j
    {
      assert t[j - i] == source[j];
      j := j + if source[j] == '\\' then 2 else 1;
    }
    assert j < n ==> t[j - i] == source[j];
    end := if j + 1 <= n then j + 1 else n;
  }

  // The end of what is blanked from i; i itself when the character is code.
  method TokenEnd(source: string, i: nat, prev: bool) returns (end: nat)
    requires i < |source|
    ensures i <= end <= |source| && end == i + Blanked(source[i..], prev)
  {
    hide BlockLen, StringEnd, RawOpen, RawLen, CharLen;
    var rest := source[i..];
    end := i;
    if StartsWith(rest, "//") {
      end := i + Find(rest, "\n");
    } else if StartsWith(rest, "/*") {
      end := ScanBlock(source, i);
      assert rest[2..] == source[i + 2..];
    } else if rest[0] in ['r', 'b'] && !prev && RawOpen(rest).0 > 0 {
      end := i + RawLen(rest);
    } else if rest[0] == '"' {
      end := ScanString(source, i, i + 1);
    } else if rest[0] == 'b' && !prev && i + 1 < |source| && rest[1] == '"' {
      end := ScanString(source, i, i + 2);
    } else if rest[0] == '\'' {
      end := i + CharLen(rest);
    }
  }

  method StripComments(source: string, alnum: char -> bool) returns (out: string)
    ensures out == Strip(source, false, alnum)
  {
    hide Blanked, Strip, Blank;
    var i, n := 0, |source|;
    out := "";
    assert source[0..] == source;
    while i < n
      invariant i <= n
      invariant out + Strip(source[i..], PrevWord(source, i, alnum), alnum) == Strip(source, false, alnum)
    {
      var end := TokenEnd(source, i, PrevWord(source, i, alnum));
      ScanStep(source, i, end, alnum);
      var piece := if end > i then Blank(source[i..end]) else [source[i]];
      var next := if end > i then end else i + 1;
      ghost var rest := Strip(source[next..], PrevWord(source, next, alnum), alnum);
      assert (out + piece) + rest == out + (piece + rest);
      out, i := out + piece, next;
    }
    assert source[n..] == "";
  }

  // One turn of the scanner.
  lemma ScanStep(source: string, i: nat, end: nat, alnum: char -> bool)
    requires i < |source| && i <= end <= |source|
    requires end == i + Blanked(source[i..], PrevWord(source, i, alnum))
    ensures var next := if end > i then end else i + 1;
            Strip(source[i..], PrevWord(source, i, alnum), alnum)
            == (if end > i then Blank(source[i..end]) else [source[i]])
               + Strip(source[next..], PrevWord(source, next, alnum), alnum)
  {
    hide Blanked, Strip, Blank;
    var t := source[i..];
    StripUnfold(t, PrevWord(source, i, alnum), alnum);
    if end > i {
      assert t[..end - i] == source[i..end];
      assert t[end - i..] == source[end..];
      assert t[end - i - 1] == source[end - 1];
    } else {
      assert t[1..] == source[i + 1..];
    }
  }

  lemma StripUnfold(t: string, prev: bool, alnum: char -> bool)
    requires t != ""
    ensures var k := Blanked(t, prev);
            Strip(t, prev, alnum) == if k == 0 then [t[0]] + Strip(t[1..], Word(t[0], alnum), alnum)
                                     else Blank(t[..k]) + Strip(t[k..], Word(t[k - 1], alnum), alnum)
  {
  }
}
