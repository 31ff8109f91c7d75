/**
 The string operations the scripts share: stripping white space and counting leading
 spaces.
 */
module Text {

  // What Python's str.strip removes.
  predicate White(c: char) {
    || c in [' ', '\t', '\n', '\U{b}', '\U{c}', '\r', '\U{1c}', '\U{1d}', '\U{1e}', '\U{1f}', '\U{85}', '\U{a0}']
    || c in ['\U{1680}', '\U{2028}', '\U{2029}', '\U{202f}', '\U{205f}', '\U{3000}']
    || '\U{2000}' <= c <= '\U{200a}'
  }

  function LStrip(s: string): (r: string)
    ensures |r| <= |s| && (r != "" ==> !White(r[0]))
  {
    if s == "" || !White(s[0]) then s else LStrip(s[1..])
  }

  function RStrip(s: string): (r: string)
    ensures |r| <= |s| && r <= s && (r != "" ==> !White(r[|r| - 1]))
  {
    if s == "" || !White(s[|s| - 1]) then s else RStrip(s[..|s| - 1])
  }

  function Strip(s: string): (r: string)
    ensures r != "" ==> !White(r[0]) && !White(r[|r| - 1])
  {
    RStrip(LStrip(s))
  }

  // How many of the leading characters are c.
  function Run(s: string, c: char): (k: nat)
    ensures k <= |s|
  {
    if s == "" || s[0] != c then 0 else 1 + Run(s[1..], c)
  }

  function Spaces(n: nat): string { seq(n, _ => ' ') }

  lemma {:induction false} LStripPadded(pad: nat, s: string)
    requires s != "" && !White(s[0])
    ensures LStrip(Spaces(pad) + s) == s
  {
    if pad == 0 {
      assert Spaces(pad) + s == s;
    } else {
      LStripPadded(pad - 1, s);
      assert (Spaces(pad) + s)[1..] == Spaces(pad - 1) + s;
    }
  }

  lemma {:induction false} RStripFirst(s: string)
    requires s != "" && !White(s[0])
    ensures RStrip(s) != "" && RStrip(s)[0] == s[0]
  {
    if White(s[|s| - 1]) { RStripFirst(s[..|s| - 1]); }
  }

  // A text that neither starts nor ends with white space is its own strip, and stays the
  // strip when spaces are put before it.
  lemma StripPadded(pad: nat, s: string)
    requires s != "" && !White(s[0]) && !White(s[|s| - 1])
    ensures Strip(Spaces(pad) + s) == s && Strip(s) == s
  {
    LStripPadded(pad, s);
  }

  // The number of leading spaces.
  function Indent(s: string): (k: nat)
    ensures k <= |s| && (forall i :: 0 <= i < k ==> s[i] == ' ') && (k < |s| ==> s[k] != ' ')
  {
    if s == "" || s[0] != ' ' then 0 else 1 + Indent(s[1..])
  }

  lemma {:induction false} IndentPadded(pad: nat, s: string)
    requires s == "" || s[0] != ' '
    ensures Indent(Spaces(pad) + s) == pad
  {
    if pad == 0 {
      assert Spaces(pad) + s == s;
    } else {
      IndentPadded(pad - 1, s);
      assert (Spaces(pad) + s)[1..] == Spaces(pad - 1) + s;
    }
  }

  predicate Contains(s: string, pat: string) {
    exists i :: 0 <= i <= |s| && pat <= s[i..]
  }
}
