/** The Python `str` methods the system relies on, restricted to ASCII case
    mapping: `lower`, `capitalize`, `zfill`, `rstrip` with one character,
    `split(c)[0]` and `rfind`. */
module PyStr {
  import opened Wrappers

  predicate IsUpper(c: char) { 'A' <= c <= 'Z' }
  predicate IsLower(c: char) { 'a' <= c <= 'z' }
  predicate IsDigit(c: char) { '0' <= c <= '9' }

  /** ASCII lower-casing of one character; every other character is unchanged. */
  function LowerChar(c: char): char {
    if IsUpper(c) then (c as int + 32) as char else c
  }

  /** ASCII upper-casing of one character; every other character is unchanged. */
  function UpperChar(c: char): char {
    if IsLower(c) then (c as int - 32) as char else c
  }

  /** `str.lower()` */
  function Lower(s: string): (r: string)
    ensures |r| == |s|
    ensures forall i :: 0 <= i < |s| ==> r[i] == LowerChar(s[i])
  {
    if s == [] then [] else [LowerChar(s[0])] + Lower(s[1..])
  }

  /** Django's `iexact` lookup: equality after case folding. */
  predicate EqualsIgnoreCase(a: string, b: string) {
    Lower(a) == Lower(b)
  }

  /** `str.capitalize()`: first character upper-cased, all others lower-cased. */
  function Capitalize(s: string): (r: string)
    ensures |r| == |s|
    ensures |s| > 0 ==> !IsLower(r[0])
    ensures forall i :: 1 <= i < |r| ==> !IsUpper(r[i])
  {
    if s == [] then [] else [UpperChar(s[0])] + Lower(s[1..])
  }

  /** Capitalising never changes what a case-insensitive comparison sees, so the
      capitalised city in the criterion names the same records the raw input matches. */
  lemma CapitalizeIgnoresCase(s: string)
    ensures EqualsIgnoreCase(Capitalize(s), s)
  {
    var r := Capitalize(s);
    forall i | 0 <= i < |s|
      ensures LowerChar(r[i]) == LowerChar(s[i])
    {
      if i > 0 {
        assert r[i] == Lower(s[1..])[i - 1];
      }
    }
  }

  lemma CapitalizeIdempotent(s: string)
    ensures Capitalize(Capitalize(s)) == Capitalize(s)
  {
    var r := Capitalize(s);
    if s != [] {
      forall i | 1 <= i < |s|
        ensures Lower(r[1..])[i - 1] == r[i]
      {
        assert r[i] == Lower(s[1..])[i - 1];
      }
    }
  }

  predicate AllZeros(s: string) {
    forall i :: 0 <= i < |s| ==> s[i] == '0'
  }

  function Zeros(n: nat): (r: string)
    ensures |r| == n && AllZeros(r)
  {
    if n == 0 then [] else ['0'] + Zeros(n - 1)
  }

  predicate HasSign(s: string) {
    |s| > 0 && (s[0] == '+' || s[0] == '-')
  }

  /** `str.zfill(width)`: left-pad with '0' up to `width`; a leading sign stays in front. */
  function ZFill(s: string, width: int): (r: string)
    ensures |r| == if |s| >= width then |s| else width
    ensures |s| >= width ==> r == s
    ensures |s| < width && !HasSign(s) ==>
      r[|r| - |s|..] == s && AllZeros(r[..|r| - |s|])
    ensures |s| < width && HasSign(s) ==>
      r[0] == s[0] && r[|r| - |s| + 1..] == s[1..] && AllZeros(r[1..|r| - |s| + 1])
  {
    if |s| >= width then s
    else if HasSign(s) then [s[0]] + Zeros(width - |s|) + s[1..]
    else Zeros(width - |s|) + s
  }

  /** A string of digits pads to a string of digits of exactly the requested width. */
  lemma ZFillDigits(s: string, width: int)
    requires forall i :: 0 <= i < |s| ==> IsDigit(s[i])
    requires |s| <= width
    ensures |ZFill(s, width)| == width
    ensures forall i :: 0 <= i < width ==> IsDigit(ZFill(s, width)[i])
  {
    var r := ZFill(s, width);
    forall i | 0 <= i < width
      ensures IsDigit(r[i])
    {
      if i >= width - |s| {
        assert r[i] == r[width - |s|..][i - (width - |s|)];
      } else {
        assert r[i] == r[..width - |s|][i];
      }
    }
  }

  /** `s.rstrip(c)` for a single character `c`. */
  function RStrip(s: string, c: char): (r: string)
    ensures |r| <= |s| && r == s[..|r|]
    ensures r == [] || r[|r| - 1] != c
    ensures forall i :: |r| <= i < |s| ==> s[i] == c
  {
    if s != [] && s[|s| - 1] == c then RStrip(s[..|s| - 1], c) else s
  }

  /** `s.split(c)[0]`: everything before the first `c`, or all of `s`. */
  function BeforeFirst(s: string, c: char): (r: string)
    ensures |r| <= |s| && r == s[..|r|]
    ensures c !in r
    ensures |r| == |s| || s[|r|] == c
  {
    if s == [] || s[0] == c then [] else [s[0]] + BeforeFirst(s[1..], c)
  }

  /** `s.rfind(c)`, with `None` for Python's -1. */
  function RFind(s: string, c: char): (r: Option<nat>)
    ensures r.None? <==> c !in s
    ensures r.Some? ==> r.value < |s| && s[r.value] == c
    ensures r.Some? ==> forall j :: r.value < j < |s| ==> s[j] != c
  {
    if s == [] then None
    else if s[|s| - 1] == c then Some(|s| - 1)
    else
      assert s == s[..|s| - 1] + [s[|s| - 1]];
      RFind(s[..|s| - 1], c)
  }
}
