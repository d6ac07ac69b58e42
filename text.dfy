/** The Python string operations the auditor relies on, written out for
    `seq<char>`: `strip`, `replace`, `lower`/`upper` (ASCII letters), `in` on
    strings, `isdigit` (ASCII digits), `str(int)`, `zfill`, `'{:04X}'` and
    `split`. */
module Text {

  import opened Wrappers

  // ---------------------------------------------------------------------
  // Character classes
  // ---------------------------------------------------------------------

  /** The characters Python's `str.isspace()` accepts, hence those `strip()` removes. */
  const Whitespace: set<char> := {
    ' ', '\t', '\n', '\U{0B}', '\U{0C}', '\r', '\U{1C}', '\U{1D}', '\U{1E}', '\U{1F}',
    '\U{85}', '\U{A0}', '\U{1680}',
    '\U{2000}', '\U{2001}', '\U{2002}', '\U{2003}', '\U{2004}', '\U{2005}',
    '\U{2006}', '\U{2007}', '\U{2008}', '\U{2009}', '\U{200A}',
    '\U{2028}', '\U{2029}', '\U{202F}', '\U{205F}', '\U{3000}'}

  predicate IsSpace(c: char) {
    c in Whitespace
  }

  predicate IsDigitChar(c: char) { '0' <= c <= '9' }

  /** `s.isdigit()` for ASCII digits: non-empty and all digits. */
  predicate IsDigits(s: string) {
    |s| > 0 && forall i :: 0 <= i < |s| ==> IsDigitChar(s[i])
  }

  predicate AllDigits(s: string) {
    forall i :: 0 <= i < |s| ==> IsDigitChar(s[i])
  }

  // ---------------------------------------------------------------------
  // strip
  // ---------------------------------------------------------------------

  function StripLeft(s: string): string {
    if |s| > 0 && IsSpace(s[0]) then StripLeft(s[1..]) else s
  }

  function StripRight(s: string): string {
    if |s| > 0 && IsSpace(s[|s| - 1]) then StripRight(s[..|s| - 1]) else s
  }

  /** Python `s.strip()`: drop leading and trailing whitespace. */
  function Strip(s: string): string {
    StripRight(StripLeft(s))
  }

  /** `lstrip` removes exactly a leading run of whitespace. */
  lemma {:induction false} StripLeftFacts(s: string)
    ensures var r := StripLeft(s);
      && |r| <= |s| && r == s[|s| - |r|..]
      && (forall i :: 0 <= i < |s| - |r| ==> IsSpace(s[i]))
      && (r == [] || !IsSpace(r[0]))
  {
    if |s| > 0 && IsSpace(s[0]) {
      StripLeftFacts(s[1..]);
    }
  }

  /** `rstrip` removes exactly a trailing run of whitespace. */
  lemma {:induction false} StripRightFacts(s: string)
    ensures var r := StripRight(s);
      && |r| <= |s| && r == s[..|r|]
      && (forall i :: |r| <= i < |s| ==> IsSpace(s[i]))
      && (r == [] || !IsSpace(r[|r| - 1]))
  {
    if |s| > 0 && IsSpace(s[|s| - 1]) {
      StripRightFacts(s[..|s| - 1]);
    }
  }

  /** A string with no whitespace at either end is its own strip. */
  lemma StripNoEdges(s: string)
    requires |s| > 0 && !IsSpace(s[0]) && !IsSpace(s[|s| - 1])
    ensures Strip(s) == s
  {
  }

  /** The stripped string is blank exactly when the input is all whitespace. */
  lemma StripBlank(s: string)
    ensures Strip(s) == "" <==> forall i :: 0 <= i < |s| ==> IsSpace(s[i])
  {
    var l := StripLeft(s);
    StripLeftFacts(s);
    StripRightFacts(l);
    if Strip(s) == "" {
      assert l == [];
    } else {
      assert l != [] && !IsSpace(l[0]);
      assert s[|s| - |l|] == l[0];
    }
  }

  /** A non-blank stripped string has no whitespace at either end. */
  lemma StripEdges(s: string)
    ensures Strip(s) != "" ==> !IsSpace(Strip(s)[0]) && !IsSpace(Strip(s)[|Strip(s)| - 1])
  {
    var l := StripLeft(s);
    StripLeftFacts(s);
    StripRightFacts(l);
    var r := Strip(s);
    if r != "" {
      assert r[0] == l[0];
    }
  }

  /** `s.strip() == ''`. */
  predicate IsBlank(s: string) {
    Strip(s) == ""
  }

  // ---------------------------------------------------------------------
  // replace, lower, upper
  // ---------------------------------------------------------------------

  /** `s.replace(c, '')`. */
  function RemoveAll(s: string, c: char): (r: string)
    ensures |r| <= |s|
  {
    if s == [] then [] else (if s[0] == c then [] else [s[0]]) + RemoveAll(s[1..], c)
  }

  /** `replace(c, '')` removes every `c` and keeps every other character. */
  lemma {:induction false} RemoveAllFacts(s: string, c: char)
    ensures c !in RemoveAll(s, c)
    ensures forall x :: x in RemoveAll(s, c) <==> x in s && x != c
    ensures c !in s ==> RemoveAll(s, c) == s
  {
    if s != [] {
      RemoveAllFacts(s[1..], c);
      assert s == [s[0]] + s[1..];
    }
  }

  lemma {:induction false} RemoveAllAppend(a: string, b: string, c: char)
    ensures RemoveAll(a + b, c) == RemoveAll(a, c) + RemoveAll(b, c)
  {
    if a == [] {
      assert a + b == b;
    } else {
      assert (a + b)[1..] == a[1..] + b;
      RemoveAllAppend(a[1..], b, c);
    }
  }

  /** `s.replace(c, '', 1)`: drop the first occurrence of `c`, if any. */
  function RemoveFirst(s: string, c: char): (r: string)
    ensures c !in s ==> r == s
    ensures |r| == if c in s then |s| - 1 else |s|
  {
    if s == [] then [] else if s[0] == c then s[1..] else [s[0]] + RemoveFirst(s[1..], c)
  }

  /** `s.replace(pat, rep)`: leftmost, non-overlapping replacement. */
  function ReplaceAll(s: string, pat: string, rep: string): string
    requires pat != []
    decreases |s|
  {
    if s == [] then []
    else if pat <= s then rep + ReplaceAll(s[|pat|..], pat, rep)
    else [s[0]] + ReplaceAll(s[1..], pat, rep)
  }

  lemma {:induction false} ReplaceSkips(a: string, b: string, pat: string, rep: string)
    requires pat != [] && pat[0] !in a
    ensures ReplaceAll(a + b, pat, rep) == a + ReplaceAll(b, pat, rep)
  {
    if a != [] {
      assert (a + b)[1..] == a[1..] + b;
      assert (a + b)[0] == a[0] && pat[0] != a[0];
      assert !(pat <= a + b);
      assert ReplaceAll(a + b, pat, rep) == [a[0]] + ReplaceAll(a[1..] + b, pat, rep);
      ReplaceSkips(a[1..], b, pat, rep);
      assert [a[0]] + (a[1..] + ReplaceAll(b, pat, rep)) == a + ReplaceAll(b, pat, rep);
    } else {
      assert a + b == b;
    }
  }

  function LowerChar(c: char): char {
    if 'A' <= c <= 'Z' then (c as int + 32) as char else c
  }

  function UpperChar(c: char): char {
    if 'a' <= c <= 'z' then (c as int - 32) as char else c
  }

  /** `s.lower()` on ASCII letters. */
  function Lower(s: string): (r: string)
    ensures |r| == |s|
  {
    if s == [] then [] else [LowerChar(s[0])] + Lower(s[1..])
  }

  /** `s.upper()` on ASCII letters. */
  function Upper(s: string): (r: string)
    ensures |r| == |s|
  {
    if s == [] then [] else [UpperChar(s[0])] + Upper(s[1..])
  }

  /** Case mapping works character by character. */
  lemma {:induction false} CaseMapsPointwise(s: string)
    ensures forall i :: 0 <= i < |s| ==> Lower(s)[i] == LowerChar(s[i]) && Upper(s)[i] == UpperChar(s[i])
  {
    if s != [] {
      CaseMapsPointwise(s[1..]);
      assert forall i :: 1 <= i < |s| ==> Lower(s)[i] == Lower(s[1..])[i - 1] && Upper(s)[i] == Upper(s[1..])[i - 1];
    }
  }

  // ---------------------------------------------------------------------
  // Substring test (`needle in hay`) and searching
  // ---------------------------------------------------------------------

  /** Python `needle in hay` for two strings. */
  predicate Contains(hay: string, needle: string)
    decreases |hay|
  {
    needle <= hay || (|hay| > 0 && Contains(hay[1..], needle))
  }

  /** An occurrence at a definite position. */
  predicate OccursAt(hay: string, needle: string, k: int) {
    0 <= k && k + |needle| <= |hay| && hay[k..k + |needle|] == needle
  }

  lemma ContainsIffOccurs(hay: string, needle: string)
    ensures Contains(hay, needle) <==> exists k :: OccursAt(hay, needle, k)
  {
    if Contains(hay, needle) {
      var k := OccurrenceOf(hay, needle);
    }
    forall k | OccursAt(hay, needle, k) ensures Contains(hay, needle) {
      OccurrenceContained(hay, needle, k);
    }
  }

  /** A containment has a position. */
  lemma {:induction false} OccurrenceOf(hay: string, needle: string) returns (k: nat)
    requires Contains(hay, needle)
    ensures OccursAt(hay, needle, k)
    decreases |hay|
  {
    if needle <= hay {
      k := 0;
    } else {
      var j := OccurrenceOf(hay[1..], needle);
      assert hay[j + 1..j + 1 + |needle|] == hay[1..][j..j + |needle|];
      k := j + 1;
    }
  }

  /** An occurrence at any position is a containment. */
  lemma {:induction false} OccurrenceContained(hay: string, needle: string, k: int)
    requires OccursAt(hay, needle, k)
    ensures Contains(hay, needle)
    decreases k
  {
    if k > 0 {
      assert hay[1..][k - 1..k - 1 + |needle|] == hay[k..k + |needle|];
      OccurrenceContained(hay[1..], needle, k - 1);
    } else {
      assert needle <= hay;
    }
  }

  /** The first index at or after `from` holding `c`. */
  function FindChar(s: string, c: char, from: nat): (r: Option<nat>)
    requires from <= |s|
    ensures r.Some? ==> from <= r.value < |s| && s[r.value] == c
    ensures r.Some? ==> forall j :: from <= j < r.value ==> s[j] != c
    ensures r.None? ==> forall j :: from <= j < |s| ==> s[j] != c
    decreases |s| - from
  {
    if from == |s| then None else if s[from] == c then Some(from) else FindChar(s, c, from + 1)
  }

  /** The first index at or after `from` where `pat` occurs. */
  function FindSub(s: string, pat: string, from: nat): (r: Option<nat>)
    requires from <= |s|
    ensures r.Some? ==> from <= r.value && OccursAt(s, pat, r.value)
    ensures r.Some? ==> forall j :: from <= j < r.value ==> !OccursAt(s, pat, j)
    ensures r.None? ==> forall j :: from <= j ==> !OccursAt(s, pat, j)
    decreases |s| - from
  {
    if from + |pat| > |s| then None
    else if s[from..from + |pat|] == pat then Some(from)
    else FindSub(s, pat, from + 1)
  }

  // ---------------------------------------------------------------------
  // Decimal numerals: str(n), zfill, and the value of a digit string
  // ---------------------------------------------------------------------

  function DigitChar(d: nat): (c: char)
    requires d < 10
    ensures IsDigitChar(c)
  {
    ('0' as int + d) as char
  }

  function CharValue(c: char): (d: nat)
    requires IsDigitChar(c)
    ensures d < 10 && DigitChar(d) == c
  {
    c as int - '0' as int
  }

  /** `str(n)` for a natural number. */
  function NatToString(n: nat): (r: string)
    ensures IsDigits(r)
  {
    if n < 10 then [DigitChar(n)] else NatToString(n / 10) + [DigitChar(n % 10)]
  }

  /** The number a string of decimal digits denotes (leading zeros allowed). */
  function DigitsValue(s: string): nat
    requires AllDigits(s)
  {
    if s == [] then 0 else DigitsValue(s[..|s| - 1]) * 10 + CharValue(s[|s| - 1])
  }

  function Zeros(k: nat): (r: string)
    ensures |r| == k
  {
    if k == 0 then [] else Zeros(k - 1) + "0"
  }

  /** `s.zfill(width)` for an unsigned numeral. */
  function ZFill(s: string, width: nat): (r: string)
    ensures |r| >= width && |r| >= |s|
  {
    if |s| >= width then s else Zeros(width - |s|) + s
  }

  /** Zero-filling a digit string gives a digit string. */
  lemma {:induction false} ZFillDigits(s: string, width: nat)
    requires AllDigits(s)
    ensures AllDigits(ZFill(s, width))
  {
    if |s| < width {
      ZerosDigits(width - |s|);
    }
  }

  lemma {:induction false} ZerosDigits(k: nat)
    ensures forall i :: 0 <= i < k ==> Zeros(k)[i] == '0'
  {
    if k > 0 {
      ZerosDigits(k - 1);
    }
  }

  lemma {:induction false} NatToStringValue(n: nat)
    ensures DigitsValue(NatToString(n)) == n
  {
    var s := NatToString(n);
    if n >= 10 {
      NatToStringValue(n / 10);
      assert s[..|s| - 1] == NatToString(n / 10);
    }
  }

  lemma {:induction false} LeadingZerosValue(k: nat, s: string)
    requires AllDigits(s)
    ensures AllDigits(Zeros(k) + s)
    ensures DigitsValue(Zeros(k) + s) == DigitsValue(s)
    decreases |s|
  {
    ZerosDigits(k);
    if s == [] {
      ZerosValue(k);
      assert Zeros(k) + s == Zeros(k);
    } else {
      var t := Zeros(k) + s;
      assert t[..|t| - 1] == Zeros(k) + s[..|s| - 1];
      LeadingZerosValue(k, s[..|s| - 1]);
    }
  }

  lemma {:induction false} ZerosValue(k: nat)
    ensures AllDigits(Zeros(k))
    ensures DigitsValue(Zeros(k)) == 0
  {
    ZerosDigits(k);
    if k > 0 {
      var z := Zeros(k);
      assert z == Zeros(k - 1) + "0";
      assert z[..k - 1] == Zeros(k - 1);
      ZerosValue(k - 1);
      assert DigitsValue(z) == DigitsValue(Zeros(k - 1)) * 10 + CharValue('0');
    }
  }

  /** Zero-padded numerals of distinct numbers are distinct, whatever the width. */
  lemma ZFillNatInjective(a: nat, b: nat, width: nat)
    requires ZFill(NatToString(a), width) == ZFill(NatToString(b), width)
    ensures a == b
  {
    forall n: nat ensures AllDigits(ZFill(NatToString(n), width)) && DigitsValue(ZFill(NatToString(n), width)) == n {
      NatToStringValue(n);
      ZFillDigits(NatToString(n), width);
      var s := NatToString(n);
      if |s| < width {
        LeadingZerosValue(width - |s|, s);
      }
    }
  }

  // ---------------------------------------------------------------------
  // Fixed-width upper-case hexadecimal ('{:0wX}')
  // ---------------------------------------------------------------------

  function HexDigit(d: nat): (c: char)
    requires d < 16
  {
    if d < 10 then DigitChar(d) else ('A' as int + d - 10) as char
  }

  predicate IsHexChar(c: char) {
    IsDigitChar(c) || 'A' <= c <= 'F'
  }

  lemma HexDigitInjective(a: nat, b: nat)
    requires a < 16 && b < 16 && HexDigit(a) == HexDigit(b)
    ensures a == b
  {
  }

  /** The last `width` hexadecimal digits of `n`, upper case, zero padded. */
  function Hex(n: nat, width: nat): (r: string)
    ensures |r| == width
    ensures forall i :: 0 <= i < |r| ==> IsHexChar(r[i])
  {
    if width == 0 then [] else Hex(n / 16, width - 1) + [HexDigit(n % 16)]
  }

  function Pow16(w: nat): (p: nat)
    ensures p > 0
  {
    if w == 0 then 1 else 16 * Pow16(w - 1)
  }

  /** Below 16^width the rendering is injective. */
  lemma {:induction false} HexInjective(a: nat, b: nat, width: nat)
    requires a < Pow16(width) && b < Pow16(width)
    requires Hex(a, width) == Hex(b, width)
    ensures a == b
  {
    if width > 0 {
      var ha, hb := Hex(a, width), Hex(b, width);
      assert ha[width - 1] == hb[width - 1];
      HexDigitInjective(a % 16, b % 16);
      assert ha[..width - 1] == Hex(a / 16, width - 1);
      assert hb[..width - 1] == Hex(b / 16, width - 1);
      HexInjective(a / 16, b / 16, width - 1);
    }
  }

  /** The last two digits of a four-digit rendering are the rendering of the low byte. */
  lemma LowByteDigits(n: nat)
    ensures Hex(n, 4)[2..] == Hex(n % 256, 2)
  {
    var q, r := n / 256, n % 256;
    var a, b := r / 16, r % 16;
    DivideBy16(r, a, b);
    DivideBy16(n, 16 * q + a, b);
    DivideBy16(16 * q + a, q, a);
    assert Hex(n, 4) == Hex(q, 2) + [HexDigit(a)] + [HexDigit(b)];
    DivideBy16(a, 0, a);
    assert Hex(r, 2) == Hex(0, 0) + [HexDigit(a)] + [HexDigit(b)];
  }

  /** Division by 16 is determined by quotient and remainder. */
  lemma DivideBy16(n: nat, q: nat, r: nat)
    requires n == 16 * q + r && r < 16
    ensures n / 16 == q && n % 16 == r
  {
  }

  // ---------------------------------------------------------------------
  // split / join on one separator character
  // ---------------------------------------------------------------------

  /** Python `s.split(sep)` for a one-character separator. */
  function Split(s: string, sep: char): (r: seq<string>)
    ensures |r| > 0
    ensures forall i :: 0 <= i < |r| ==> sep !in r[i]
  {
    if s == [] then [[]]
    else
      var rest := Split(s[1..], sep);
      if s[0] == sep then [[]] + rest else [[s[0]] + rest[0]] + rest[1..]
  }

  /** `sep.join(parts)`. */
  function Join(parts: seq<string>, sep: char): string {
    if |parts| <= 1 then (if parts == [] then [] else parts[0])
    else parts[0] + [sep] + Join(parts[1..], sep)
  }

  lemma {:induction false} JoinSplit(s: string, sep: char)
    ensures Join(Split(s, sep), sep) == s
  {
    if s != [] {
      var rest := Split(s[1..], sep);
      JoinSplit(s[1..], sep);
      if s[0] == sep {
        assert Split(s, sep)[1..] == rest;
      } else {
        var r := Split(s, sep);
        assert r[1..] == rest[1..];
        if |rest| > 1 {
          assert Join(rest, sep) == rest[0] + [sep] + Join(rest[1..], sep);
        }
      }
    }
  }
}
