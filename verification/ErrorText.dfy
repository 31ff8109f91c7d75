/**
 Cutting an error body to 512 bytes without splitting a character. Bodies are UTF-8, as
 section 3 of RFC 3629 defines it.
 */
module ErrorText {
  import opened Numbers
  import opened Wire

  const MAX_ERROR_BODY: nat := 512

  // --- UTF-8 -----------------------------------------------------------------

  function Utf8(c: char): (r: Bytes)
    ensures 1 <= |r| <= 4 && !Continues(r[0]) && forall i :: 1 <= i < |r| ==> Continues(r[i])
  {
    var n := c as int;
    if n < 0x80 then [n]
    else if n < 0x800 then [0xC0 + n / 64, Tail(n)]
    else if n < 0x10000 then [0xE0 + n / 4096, Tail(n / 64), Tail(n)]
    else [0xF0 + n / 262144, Tail(n / 4096), Tail(n / 64), Tail(n)]
  }

  function Tail(n: nat): (b: Byte)
    ensures Continues(b)
  {
    0x80 + n % 64
  }

  predicate Continues(b: Byte) { 0x80 <= b < 0xC0 }

  function Encoded(s: string): Bytes { if s == "" then [] else Utf8(s[0]) + Encoded(s[1..]) }

  // --- truncation ------------------------------------------------------------

  predicate Boundary(body: Bytes, i: nat)
    requires i <= |body|
  {
    i == 0 || i == |body| || !Continues(body[i])
  }

  // The last boundary at or before a position.
  function LastBoundary(body: Bytes, end: nat): (k: nat)
    requires end <= |body|
    ensures k <= end && Boundary(body, k) && forall i :: k < i <= end ==> !Boundary(body, i)
  {
    if Boundary(body, end) then end else LastBoundary(body, end - 1)
  }

  function Cut(body: Bytes): Bytes { body[..LastBoundary(body, Min(|body|, MAX_ERROR_BODY))] }

  method Truncated(body: Bytes) returns (r: Bytes)
    ensures r == Cut(body)
  {
    var end: nat := Min(|body|, MAX_ERROR_BODY);
    while !Boundary(body, end)
      invariant end <= |body| && LastBoundary(body, end) == LastBoundary(body, Min(|body|, MAX_ERROR_BODY))
      decreases end
    {
      end := end - 1;
    }
    r := body[..end];
  }

  // --- what is kept ----------------------------------------------------------

  // How many whole characters fit, taken one by one.
  function CharsWithin(s: string, budget: nat): (k: nat)
    ensures k <= |s|
  {
    if s == "" || |Utf8(s[0])| > budget then 0 else 1 + CharsWithin(s[1..], budget - |Utf8(s[0])|)
  }

  // Past a character, boundaries are those of the rest.
  lemma BoundaryShift(c: char, s: string, j: nat)
    requires j <= |Encoded(s)|
    ensures Boundary(Utf8(c) + Encoded(s), |Utf8(c)| + j) <==> Boundary(Encoded(s), j)
  {
  }

  lemma {:induction false} LastBoundaryShift(c: char, s: string, n: nat)
    requires n <= |Encoded(s)|
    ensures LastBoundary(Utf8(c) + Encoded(s), |Utf8(c)| + n) == |Utf8(c)| + LastBoundary(Encoded(s), n)
  {
    hide Utf8, Encoded;
    BoundaryShift(c, s, n);
    if !Boundary(Encoded(s), n) { LastBoundaryShift(c, s, n - 1); }
  }

  // Inside the first character the only boundary is the start.
  lemma LastBoundaryInside(c: char, s: string, n: nat)
    requires n < |Utf8(c)|
    ensures LastBoundary(Utf8(c) + Encoded(s), n) == 0
  {
    hide Utf8, Encoded;
    var body := Utf8(c) + Encoded(s);
    assert forall i :: 0 <= i < |Utf8(c)| ==> body[i] == Utf8(c)[i];
  }

  lemma {:induction false} BoundaryOfChars(s: string, budget: nat)
    ensures LastBoundary(Encoded(s), Min(|Encoded(s)|, budget)) == |Encoded(s[..CharsWithin(s, budget)])|
  {
    hide Utf8;
    if s != "" {
      var u, rest, m := Utf8(s[0]), Encoded(s[1..]), CharsWithin(s, budget);
      if |u| > budget {
        LastBoundaryInside(s[0], s[1..], budget);
        assert s[..0] == "";
      } else {
        BoundaryOfChars(s[1..], budget - |u|);
        LastBoundaryShift(s[0], s[1..], Min(|rest|, budget - |u|));
        assert s[..m][1..] == s[1..][..m - 1];
      }
    }
  }

  lemma {:induction false} EncodedPrefix(s: string, k: nat)
    requires k <= |s|
    ensures Encoded(s[..k]) <= Encoded(s)
  {
    hide Utf8;
    if k > 0 {
      EncodedPrefix(s[1..], k - 1);
      assert s[..k][1..] == s[1..][..k - 1];
    }
  }

  // A cut body is a whole number of characters: as many as fit, no more and no fewer.
  lemma CutKeepsCharacters(s: string)
    ensures Cut(Encoded(s)) == Encoded(s[..CharsWithin(s, MAX_ERROR_BODY)])
  {
    hide Utf8, Encoded, CharsWithin;
    var k := CharsWithin(s, MAX_ERROR_BODY);
    BoundaryOfChars(s, MAX_ERROR_BODY);
    EncodedPrefix(s, k);
  }

  // Every character left out would have gone past the budget.
  lemma {:induction false} CharsWithinMost(s: string, budget: nat, k: nat)
    requires k <= |s|
    ensures |Encoded(s[..k])| <= budget <==> k <= CharsWithin(s, budget)
  {
    hide Utf8;
    if k == 0 {
      assert s[..0] == "";
    } else {
      var u := |Utf8(s[0])|;
      assert s[..k][1..] == s[1..][..k - 1];
      if u <= budget { CharsWithinMost(s[1..], budget - u, k - 1); }
    }
  }

  // The longest prefix of whole characters in at most 512 bytes, which loses a short body
  // nothing and a long one at most three bytes of the 512.
  lemma CutIsLongest(s: string, k: nat)
    requires k <= |s|
    ensures |Encoded(s[..k])| <= 512 <==> Encoded(s[..k]) <= Cut(Encoded(s))
    ensures Min(|Encoded(s)|, 512) - 3 <= |Cut(Encoded(s))| <= 512
  {
    hide Utf8, Encoded, CharsWithin, Cut;
    var m := CharsWithin(s, MAX_ERROR_BODY);
    CutKeepsCharacters(s);
    CharsWithinMost(s, MAX_ERROR_BODY, k);
    CharsWithinMost(s, MAX_ERROR_BODY, m);
    if k <= m {
      EncodedPrefix(s[..m], k);
      assert s[..m][..k] == s[..k];
    }
    if m < |s| {
      CharsWithinMost(s, MAX_ERROR_BODY, m + 1);
      OneMore(s, m);
      EncodedPrefix(s, m + 1);
    } else {
      assert s[..m] == s;
    }
  }

  // A character is at most four bytes.
  lemma {:induction false} OneMore(s: string, m: nat)
    requires m < |s|
    ensures |Encoded(s[..m])| < |Encoded(s[..m + 1])| <= |Encoded(s[..m])| + 4
  {
    hide Utf8;
    assert s[..m + 1][1..] == s[1..][..m];
    if m == 0 {
      assert s[..0] == "" && s[1..][..0] == "";
    } else {
      assert s[..m][1..] == s[1..][..m - 1];
      OneMore(s[1..], m - 1);
    }
  }
}
