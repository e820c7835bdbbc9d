/** The JavaScript string primitives the pages rely on: `trim`, the regular
    expression class `\s`, `toLowerCase`/`toUpperCase`, `includes`,
    `startsWith`, `Number(...)` on a string and decimal `toString`. */
module Text {
  import Seqs
  import opened Wrappers

  /** `s || d` on a string: an empty string falls back to `d`. */
  function OrElse(s: string, d: string): (r: string)
    ensures d != "" ==> r != ""
    ensures r == s || r == d
    ensures s != "" ==> r == s
  {
    if s == "" then d else s
  }

  /** `s || d` on a nullable string: null and the empty string fall back to `d`. */
  function OptOrElse(s: Option<string>, d: string): (r: string)
    ensures d != "" ==> r != ""
    ensures s.Some? && s.value != "" ==> r == s.value
    ensures s.None? ==> r == d
  {
    if s.Some? then OrElse(s.value, d) else d
  }

  /** ECMAScript WhiteSpace and LineTerminator code points: what `trim` removes
      and what the regular expression class `\s` matches. */
  predicate IsSpace(c: char) {
    var n := c as int;
    n == 0x09 || n == 0x0A || n == 0x0B || n == 0x0C || n == 0x0D || n == 0x20 ||
    n == 0xA0 || n == 0x1680 || (0x2000 <= n <= 0x200A) || n == 0x2028 || n == 0x2029 ||
    n == 0x202F || n == 0x205F || n == 0x3000 || n == 0xFEFF
  }

  /** Every character of `s` is white space (so `s.trim()` is falsy). */
  predicate Blank(s: string) {
    forall i :: 0 <= i < |s| ==> IsSpace(s[i])
  }

  /** The first index at or after `i` that is not white space, or `|s|`. */
  function SkipSpace(s: string, i: nat): (k: nat)
    requires i <= |s|
    ensures i <= k <= |s|
    ensures forall j :: i <= j < k ==> IsSpace(s[j])
    ensures k < |s| ==> !IsSpace(s[k])
    decreases |s| - i
  {
    if i < |s| && IsSpace(s[i]) then SkipSpace(s, i + 1) else i
  }

  /** Moving down from `hi` (never below `lo`), the end of the last character
      that is not white space, or `lo`. */
  function SkipSpaceBack(s: string, lo: nat, hi: nat): (k: nat)
    requires lo <= hi <= |s|
    ensures lo <= k <= hi
    ensures forall j :: k <= j < hi ==> IsSpace(s[j])
    ensures k > lo ==> !IsSpace(s[k - 1])
  {
    if hi > lo && IsSpace(s[hi - 1]) then SkipSpaceBack(s, lo, hi - 1) else hi
  }

  /** The number of white-space characters `trim` cuts from the front of `s`. */
  function Lead(s: string): (k: nat)
    ensures k <= |s|
  {
    SkipSpace(s, 0)
  }

  /** White space before `lo` and from `hi` on, with nothing between: all blank. */
  lemma BlankOutsideCut(s: string, lo: nat, hi: nat)
    requires lo <= hi <= |s|
    requires forall j :: 0 <= j < lo ==> IsSpace(s[j])
    requires forall j :: hi <= j < |s| ==> IsSpace(s[j])
    ensures hi == lo ==> Blank(s)
  {
  }

  /** `s.trim()`: white space cut away on either side, empty exactly when `s`
      is blank (`TrimIsSlice` states that only white space is cut). */
  function Trim(s: string): (r: string)
    ensures |r| <= |s|
    ensures r == [] || (!IsSpace(r[0]) && !IsSpace(r[|r| - 1]))
    ensures r == [] <==> Blank(s)
  {
    var lo := Lead(s);
    var hi := SkipSpaceBack(s, lo, |s|);
    BlankOutsideCut(s, lo, hi);
    s[lo..hi]
  }

  /** What `trim` keeps is one contiguous slice of `s`, and what it cuts on
      either side is white space. */
  lemma TrimIsSlice(s: string)
    ensures Lead(s) + |Trim(s)| <= |s|
    ensures Trim(s) == s[Lead(s)..Lead(s) + |Trim(s)|]
    ensures Blank(s[..Lead(s)]) && Blank(s[Lead(s) + |Trim(s)|..])
  {
    var lo := Lead(s);
    var hi := SkipSpaceBack(s, lo, |s|);
    assert Trim(s) == s[lo..hi];
    assert lo + |Trim(s)| == hi;
    forall j | 0 <= j < |s| - hi ensures IsSpace(s[hi..][j]) {
      assert s[hi..][j] == s[hi + j];
    }
  }

  /** Trimming is idempotent, and leaves a string without white space at its ends alone. */
  lemma TrimFixedPoint(s: string)
    requires s == [] || (!IsSpace(s[0]) && !IsSpace(s[|s| - 1]))
    ensures Trim(s) == s
  {
  }

  /** Trimming twice is trimming once. */
  lemma TrimIdempotent(s: string)
    ensures Trim(Trim(s)) == Trim(s)
  {
    TrimFixedPoint(Trim(s));
  }

  function NotSpace(c: char): bool { !IsSpace(c) }

  /** `s.replace(/\s/g, "")`: every white-space character deleted, the rest kept in order. */
  function StripSpaces(s: string): (r: string)
    ensures forall i :: 0 <= i < |r| ==> !IsSpace(r[i])
    ensures Seqs.IsSubsequence(r, s)
  {
    Seqs.FilterIsSubsequence(s, NotSpace);
    Seqs.Filter(s, NotSpace)
  }

  /** Deleting white space works piecewise: on a concatenation it is the
      concatenation of the pieces, a piece without white space is kept whole,
      and a single white-space character disappears. */
  lemma StripSpacesPieces(a: string, b: string)
    ensures StripSpaces(a + b) == StripSpaces(a) + StripSpaces(b)
    ensures (forall i :: 0 <= i < |a| ==> !IsSpace(a[i])) ==> StripSpaces(a) == a
    ensures |a| == 1 && IsSpace(a[0]) ==> StripSpaces(a) == []
  {
    Seqs.FilterConcat(a, b, NotSpace);
    if forall i :: 0 <= i < |a| ==> !IsSpace(a[i]) {
      Seqs.FilterKeepsAll(a, NotSpace);
    }
  }

  /** ASCII lower-casing of one character. */
  function LowerChar(c: char): char {
    if 'A' <= c <= 'Z' then (c as int + 32) as char else c
  }

  /** ASCII upper-casing of one character. */
  function UpperChar(c: char): char {
    if 'a' <= c <= 'z' then (c as int - 32) as char else c
  }

  /** `s.toLowerCase()` on the ASCII letters. */
  function Lower(s: string): (r: string)
    ensures |r| == |s|
    ensures forall i :: 0 <= i < |s| ==> r[i] == LowerChar(s[i])
  {
    seq(|s|, i requires 0 <= i < |s| => LowerChar(s[i]))
  }

  /** `s.toUpperCase()` on the ASCII letters. */
  function Upper(s: string): (r: string)
    ensures |r| == |s|
    ensures forall i :: 0 <= i < |s| ==> r[i] == UpperChar(s[i])
  {
    seq(|s|, i requires 0 <= i < |s| => UpperChar(s[i]))
  }

  /** `s.startsWith(p)`. */
  predicate StartsWith(s: string, p: string) {
    |p| <= |s| && s[..|p|] == p
  }

  /** `needle` occurs in `hay` starting at position `i`. */
  predicate OccursAt(hay: string, needle: string, i: int) {
    0 <= i && i + |needle| <= |hay| && hay[i..i + |needle|] == needle
  }

  /** `hay.includes(needle)`, scanning the start positions from the left. */
  predicate Contains(hay: string, needle: string)
    decreases |hay|
  {
    StartsWith(hay, needle) || (|hay| > 0 && Contains(hay[1..], needle))
  }

  /** The scan finds `needle` exactly when it occurs at some position. */
  lemma {:induction false} ContainsIffOccurs(hay: string, needle: string)
    ensures Contains(hay, needle) <==> exists i :: OccursAt(hay, needle, i)
    decreases |hay|
  {
    if StartsWith(hay, needle) {
      assert OccursAt(hay, needle, 0);
    } else if |hay| > 0 {
      ContainsIffOccurs(hay[1..], needle);
      if Contains(hay[1..], needle) {
        var i :| OccursAt(hay[1..], needle, i);
        assert hay[i + 1..i + 1 + |needle|] == hay[1..][i..i + |needle|];
        assert OccursAt(hay, needle, i + 1);
      } else {
        forall i | OccursAt(hay, needle, i)
          ensures false
        {
          if i > 0 {
            assert hay[1..][i - 1..i - 1 + |needle|] == hay[i..i + |needle|];
            assert OccursAt(hay[1..], needle, i - 1);
          }
        }
      }
    }
  }

  /** The empty string is contained in every string (`s.includes("")` is true). */
  lemma ContainsEmpty(hay: string)
    ensures Contains(hay, [])
  {
    assert StartsWith(hay, []);
  }

  /** The ASCII decimal digit for `d`. */
  function DigitChar(d: nat): char
    requires d < 10
  {
    ('0' as int + d) as char
  }

  predicate IsDigit(c: char) {
    '0' <= c <= '9'
  }

  /** Digits are not white space. */
  lemma DigitIsNotSpace(c: char)
    requires IsDigit(c)
    ensures !IsSpace(c)
  {
  }

  /** `n.toString()` for a natural number: its decimal digits, most significant first. */
  function ShowNat(n: nat): (r: string)
    ensures |r| >= 1
    ensures forall i :: 0 <= i < |r| ==> IsDigit(r[i])
    ensures n > 0 ==> r[0] != '0'
  {
    if n < 10 then [DigitChar(n)] else ShowNat(n / 10) + [DigitChar(n % 10)]
  }

  /** The value of a string of decimal digits, read left to right. */
  function DigitsValue(s: string): nat
    requires forall i :: 0 <= i < |s| ==> IsDigit(s[i])
  {
    if |s| == 0 then 0
    else
      assert IsDigit(s[|s| - 1]);
      DigitsValue(s[..|s| - 1]) * 10 + (s[|s| - 1] as int - '0' as int)
  }

  /** Reading back the decimal rendering of `n` yields `n`. */
  lemma {:induction false} DigitsValueShowNat(n: nat)
    ensures DigitsValue(ShowNat(n)) == n
  {
    if n >= 10 {
      var s := ShowNat(n);
      assert s[..|s| - 1] == ShowNat(n / 10);
      DigitsValueShowNat(n / 10);
    }
  }

  function Pow10(k: nat): (p: nat)
    ensures p >= 1
  {
    if k == 0 then 1 else 10 * Pow10(k - 1)
  }

  /** A number from 10^(k-1) up to 10^k renders as exactly k digits. */
  lemma {:induction false} ShowNatLength(n: nat, k: nat)
    requires k >= 1 && Pow10(k - 1) <= n < Pow10(k)
    ensures |ShowNat(n)| == k
  {
    if k > 1 {
      ShowNatLength(n / 10, k - 1);
    }
  }

  /** Six-digit numbers render as exactly six characters. */
  lemma ShowNatSixDigits(n: nat)
    requires 100000 <= n <= 999999
    ensures |ShowNat(n)| == 6
  {
    assert Pow10(5) == 100000 && Pow10(6) == 1000000;
    ShowNatLength(n, 6);
  }

  /** The result of JavaScript's `Number(s)`: a number, or `NaN`. */
  datatype JsNumber = Num(v: int) | NaN {
    /** `x || 0`: `NaN` and `0` are falsy and both become `0`. */
    function OrZero(): int {
      if NaN? then 0 else v
    }
  }

  /** `Number(s)` for a string: surrounding white space is ignored, the empty
      string is `0`, an optional sign followed by decimal digits is that
      integer, and anything else is `NaN`. */
  function ParseNumber(s: string): (r: JsNumber)
    ensures Blank(s) ==> r == Num(0)
  {
    var t := Trim(s);
    if t == [] then Num(0) else ParseSigned(t)
  }

  /** An optional sign followed by at least one decimal digit, else `NaN`. */
  function ParseSigned(t: string): JsNumber
    requires t != []
  {
    var body := if t[0] == '-' || t[0] == '+' then t[1..] else t;
    if body != [] && forall i :: 0 <= i < |body| ==> IsDigit(body[i]) then
      var m: int := DigitsValue(body);
      Num(if t[0] == '-' then -m else m)
    else
      NaN
  }

  /** `Number(n.toString())` gives back `n`: decimal rendering and parsing are inverse. */
  lemma ParseShowNat(n: nat)
    ensures ParseNumber(ShowNat(n)) == Num(n)
  {
    var s := ShowNat(n);
    DigitIsNotSpace(s[0]);
    DigitIsNotSpace(s[|s| - 1]);
    TrimFixedPoint(s);
    assert Trim(s) == s && s != [];
    DigitsValueShowNat(n);
    assert ParseSigned(s) == Num(n);
  }
}
