/**
 * The JavaScript built-ins the api layer leans on, stated over Dafny sequences:
 * Array.prototype.filter and findIndex, String.prototype.trim, toLowerCase,
 * includes, split/join and replace, and the Number(...) conversion of a string.
 */
module JsRuntime {
  import opened Optional

  // ---------------------------------------------------------------------------
  // Arrays
  // ---------------------------------------------------------------------------

  /** Array.prototype.filter: the elements satisfying `f`, in their original order. */
  function Filter<T>(f: T -> bool, s: seq<T>): (r: seq<T>)
    ensures |r| <= |s|
    ensures forall k :: 0 <= k < |r| ==> r[k] in s && f(r[k])
    ensures forall k :: 0 <= k < |s| && f(s[k]) ==> s[k] in r
  {
    if s == [] then [] else (if f(s[0]) then [s[0]] else []) + Filter(f, s[1..])
  }

  /** `r` keeps some of the elements of `s`, in the order they have in `s`. */
  predicate IsSubsequence<T(==)>(r: seq<T>, s: seq<T>)
    decreases |s|
  {
    r == [] ||
    (s != [] && ((r[0] == s[0] && IsSubsequence(r[1..], s[1..])) || IsSubsequence(r, s[1..])))
  }

  lemma {:induction false} FilterIsSubsequence<T>(f: T -> bool, s: seq<T>)
    ensures IsSubsequence(Filter(f, s), s)
  {
    if s != [] {
      FilterIsSubsequence(f, s[1..]);
      var r := Filter(f, s);
      if f(s[0]) {
        assert r[0] == s[0] && r[1..] == Filter(f, s[1..]);
      } else {
        assert r == Filter(f, s[1..]);
      }
    }
  }

  lemma {:induction false} FilterConcat<T>(f: T -> bool, a: seq<T>, b: seq<T>)
    ensures Filter(f, a + b) == Filter(f, a) + Filter(f, b)
  {
    if a == [] {
      assert a + b == b;
    } else {
      assert (a + b)[0] == a[0] && (a + b)[1..] == a[1..] + b;
      FilterConcat(f, a[1..], b);
    }
  }

  /** Filtering by two predicates pointwise equal on `s` gives the same result. */
  lemma {:induction false} FilterExtensional<T>(f: T -> bool, g: T -> bool, s: seq<T>)
    requires forall x :: x in s ==> f(x) == g(x)
    ensures Filter(f, s) == Filter(g, s)
  {
    if s != [] {
      FilterExtensional(f, g, s[1..]);
    }
  }

  /** A filter that every element passes changes nothing. */
  lemma {:induction false} FilterKeepsAll<T>(f: T -> bool, s: seq<T>)
    requires forall x :: x in s ==> f(x)
    ensures Filter(f, s) == s
  {
    if s != [] {
      FilterKeepsAll(f, s[1..]);
    }
  }

  /** Filtering the result of a filter is filtering once by the conjunction. */
  lemma {:induction false} FilterCompose<T>(f: T -> bool, g: T -> bool, h: T -> bool, s: seq<T>)
    requires forall x :: h(x) == (f(x) && g(x))
    ensures Filter(g, Filter(f, s)) == Filter(h, s)
  {
    if s != [] {
      FilterCompose(f, g, h, s[1..]);
      var head := if f(s[0]) then [s[0]] else [];
      FilterConcat(g, head, Filter(f, s[1..]));
    }
  }

  /** `active ? s.filter(f) : s`: a filter applied only when its parameter is set. */
  function FilterIf<T>(active: bool, f: T -> bool, s: seq<T>): seq<T> {
    if active then Filter(f, s) else s
  }

  /** One optional filter applied after a filter by `g` is one filter by both. */
  lemma FilterIfStep<T>(active: bool, f: T -> bool, g: T -> bool, h: T -> bool, s: seq<T>)
    requires forall x :: h(x) == (g(x) && (active ==> f(x)))
    ensures FilterIf(active, f, Filter(g, s)) == Filter(h, s)
  {
    if active {
      FilterCompose(g, f, h, s);
    } else {
      FilterExtensional(g, h, s);
    }
  }

  /** Five optional filters in a row are one filter by the conjunction of the active ones. */
  lemma FilterStages<T>(s: seq<T>, a1: bool, f1: T -> bool, a2: bool, f2: T -> bool, a3: bool, f3: T -> bool,
                        a4: bool, f4: T -> bool, a5: bool, f5: T -> bool, h: T -> bool)
    requires forall x :: h(x) == ((a1 ==> f1(x)) && (a2 ==> f2(x)) && (a3 ==> f3(x)) && (a4 ==> f4(x)) && (a5 ==> f5(x)))
    ensures FilterIf(a5, f5, FilterIf(a4, f4, FilterIf(a3, f3, FilterIf(a2, f2, FilterIf(a1, f1, s))))) == Filter(h, s)
  {
    var g0 := (x: T) => true;
    var g1 := (x: T) => a1 ==> f1(x);
    var g2 := (x: T) => g1(x) && (a2 ==> f2(x));
    var g3 := (x: T) => g2(x) && (a3 ==> f3(x));
    var g4 := (x: T) => g3(x) && (a4 ==> f4(x));
    FilterKeepsAll(g0, s);
    FilterIfStep(a1, f1, g0, g1, s);
    FilterIfStep(a2, f2, g1, g2, s);
    FilterIfStep(a3, f3, g2, g3, s);
    FilterIfStep(a4, f4, g3, g4, s);
    FilterIfStep(a5, f5, g4, h, s);
  }

  /** Array.prototype.findIndex, with `None` for JavaScript's -1. */
  function FindIndex<T>(s: seq<T>, f: T -> bool): (r: Option<nat>)
    ensures r.None? ==> forall k :: 0 <= k < |s| ==> !f(s[k])
    ensures r.Some? ==> r.value < |s| && f(s[r.value]) && forall k :: 0 <= k < r.value ==> !f(s[k])
  {
    if s == [] then None
    else if f(s[0]) then Some(0)
    else match FindIndex(s[1..], f)
      case None => None
      case Some(k) => Some(k + 1)
  }

  // ---------------------------------------------------------------------------
  // Strings
  // ---------------------------------------------------------------------------

  /** The white space and line terminators that String.prototype.trim removes. */
  predicate IsSpace(c: char) {
    c == '\t' || c == '\n' || c == '\U{B}' || c == '\U{C}' || c == '\r' || c == ' ' ||
    c == '\U{A0}' || c == '\U{1680}' || ('\U{2000}' <= c <= '\U{200A}') ||
    c == '\U{2028}' || c == '\U{2029}' || c == '\U{202F}' || c == '\U{205F}' ||
    c == '\U{3000}' || c == '\U{FEFF}'
  }

  function TrimStart(s: string): (r: string)
    ensures |r| <= |s| && r == s[|s| - |r|..]
    ensures forall k :: 0 <= k < |s| - |r| ==> IsSpace(s[k])
    ensures r != [] ==> !IsSpace(r[0])
  {
    if s != [] && IsSpace(s[0]) then TrimStart(s[1..]) else s
  }

  function TrimEnd(s: string): (r: string)
    ensures |r| <= |s| && r == s[..|r|]
    ensures forall k :: |r| <= k < |s| ==> IsSpace(s[k])
    ensures r != [] ==> !IsSpace(r[|r| - 1])
  {
    if s != [] && IsSpace(s[|s| - 1]) then TrimEnd(s[..|s| - 1]) else s
  }

  /** `r` is the stretch of `s` starting at `a`, and everything of `s` outside it is white space. */
  predicate StretchAt(s: string, r: string, a: nat) {
    a + |r| <= |s| && r == s[a..a + |r|] &&
    forall k :: 0 <= k < |s| && (k < a || a + |r| <= k) ==> IsSpace(s[k])
  }

  /** String.prototype.trim: white space removed at the start and at the end; a
      non-empty result neither starts nor ends with white space. */
  function Trim(s: string): (r: string)
    ensures |r| <= |s|
    ensures r != [] ==> !IsSpace(r[0]) && !IsSpace(r[|r| - 1])
  {
    var t := TrimStart(s);
    var r := TrimEnd(t);
    assert r != [] ==> !IsSpace(r[0]) by {
      if r != [] {
        assert t != [] && r[0] == t[0];
      }
    }
    r
  }

  /** White space cut from the start of `s` (leaving `t`) and then from the end of `t`
      (leaving `r`) leaves a stretch of `s`. */
  lemma TrimStretch(s: string, t: string, r: string)
    requires |t| <= |s| && t == s[|s| - |t|..] && forall k :: 0 <= k < |s| - |t| ==> IsSpace(s[k])
    requires |r| <= |t| && r == t[..|r|] && forall k :: |r| <= k < |t| ==> IsSpace(t[k])
    ensures StretchAt(s, r, |s| - |t|)
  {
    var a := |s| - |t|;
    assert r == t[..|r|] && t == s[a..];
    assert r == s[a..a + |r|] by {
      assert s[a..][..|r|] == s[a..a + |r|];
    }
    forall k | 0 <= k < |s| && (k < a || a + |r| <= k)
      ensures IsSpace(s[k])
    {
      if k >= a {
        assert s[k] == t[k - a];
      }
    }
  }

  /** Trim removes white space at the two ends and nothing else: its result is a
      stretch of `s`, and everything of `s` outside that stretch is white space. */
  lemma TrimCutsOnlyWhiteSpace(s: string)
    ensures exists a: nat :: StretchAt(s, Trim(s), a)
  {
    var t := TrimStart(s);
    assert Trim(s) == TrimEnd(t);
    TrimStretch(s, t, TrimEnd(t));
    assert StretchAt(s, Trim(s), |s| - |t|);
  }

  /** Trimming keeps every character that is not white space. */
  lemma TrimKeeps(s: string, k: nat)
    requires k < |s| && !IsSpace(s[k])
    ensures s[k] in Trim(s)
  {
    var r := Trim(s);
    TrimCutsOnlyWhiteSpace(s);
    var a: nat :| StretchAt(s, r, a);
    assert r[k - a] == s[k];
  }

  /** Trimming leaves nothing exactly when the string is all white space. */
  lemma TrimEmpty(s: string)
    ensures Trim(s) == [] <==> forall k :: 0 <= k < |s| ==> IsSpace(s[k])
  {
  }

  /** A string whose ends are not white space is its own trim. */
  lemma TrimUnchanged(s: string)
    requires s != [] ==> !IsSpace(s[0]) && !IsSpace(s[|s| - 1])
    ensures Trim(s) == s
  {
  }

  /** A string that is its own trim has no white space at its ends. */
  lemma TrimmedEnds(s: string)
    requires s != [] && Trim(s) == s
    ensures !IsSpace(s[0]) && !IsSpace(s[|s| - 1])
  {
    var r := Trim(s);
    assert r[0] == s[0] && r[|r| - 1] == s[|s| - 1];
  }

  /** Trimming twice is trimming once. */
  lemma TrimIdempotent(s: string)
    ensures Trim(Trim(s)) == Trim(s)
  {
    TrimUnchanged(Trim(s));
  }

  /** The one-character case mapping of toLowerCase, for the ASCII and Latin-1 letters. */
  function LowerChar(c: char): char {
    if 'A' <= c <= 'Z' || ('\U{C0}' <= c <= '\U{DE}' && c != '\U{D7}')
    then (c as int + 32) as char
    else c
  }

  /** String.prototype.toLowerCase, character by character. */
  function ToLower(s: string): (r: string)
    ensures |r| == |s|
    ensures forall k :: 0 <= k < |s| ==> r[k] == LowerChar(s[k])
  {
    if s == [] then [] else [LowerChar(s[0])] + ToLower(s[1..])
  }

  predicate OccursAt(haystack: string, needle: string, i: nat) {
    i + |needle| <= |haystack| && haystack[i..i + |needle|] == needle
  }

  /** String.prototype.includes: try each start position from the left. */
  function Includes(haystack: string, needle: string): bool
    decreases |haystack|
  {
    OccursAt(haystack, needle, 0) || (haystack != [] && Includes(haystack[1..], needle))
  }

  lemma {:induction false} IncludesIffOccurs(haystack: string, needle: string)
    ensures Includes(haystack, needle) <==> exists i: nat :: OccursAt(haystack, needle, i)
    decreases |haystack|
  {
    if haystack != [] {
      IncludesIffOccurs(haystack[1..], needle);
      if Includes(haystack[1..], needle) {
        var i: nat :| OccursAt(haystack[1..], needle, i);
        assert haystack[1..][i..i + |needle|] == haystack[i + 1..i + 1 + |needle|];
        assert OccursAt(haystack, needle, i + 1);
      }
      if i: nat :| OccursAt(haystack, needle, i) {
        if i > 0 {
          assert haystack[1..][i - 1..i - 1 + |needle|] == haystack[i..i + |needle|];
          assert OccursAt(haystack[1..], needle, i - 1);
        }
      }
    } else {
      if i: nat :| OccursAt(haystack, needle, i) {
        assert i == 0;
      }
    }
  }

  function NotChar(c: char): char -> bool {
    x => x != c
  }

  /** `s.split(c).join("")` for a one-character separator: every `c` deleted, the
      other characters kept in their order. */
  function RemoveAll(s: string, c: char): (r: string)
    ensures forall k :: 0 <= k < |r| ==> r[k] in s && r[k] != c
    ensures forall x :: x in s && x != c ==> x in r
  {
    Filter(NotChar(c), s)
  }

  /** The characters left by RemoveAll keep the order they have in `s`. */
  lemma RemoveAllIsSubsequence(s: string, c: char)
    ensures IsSubsequence(RemoveAll(s, c), s)
  {
    FilterIsSubsequence(NotChar(c), s);
  }

  lemma RemoveAllConcat(a: string, b: string, c: char)
    ensures RemoveAll(a + b, c) == RemoveAll(a, c) + RemoveAll(b, c)
  {
    FilterConcat(NotChar(c), a, b);
  }

  lemma RemoveAllAbsent(s: string, c: char)
    requires c !in s
    ensures RemoveAll(s, c) == s
  {
    FilterKeepsAll(NotChar(c), s);
  }

  /** Every character other than `c` keeps its number of occurrences. */
  lemma {:induction false} RemoveAllCounts(s: string, c: char)
    ensures multiset(RemoveAll(s, c))[c] == 0
    ensures forall x :: x != c ==> multiset(RemoveAll(s, c))[x] == multiset(s)[x]
  {
    if s != [] {
      RemoveAllCounts(s[1..], c);
      assert s == [s[0]] + s[1..];
      assert RemoveAll(s, c) == (if s[0] != c then [s[0]] else []) + RemoveAll(s[1..], c);
    }
  }

  function CharTest(c: char): char -> bool {
    x => x == c
  }

  /** String.prototype.indexOf for a single character. */
  function IndexOf(s: string, c: char): Option<nat> {
    FindIndex(s, CharTest(c))
  }

  /** `s.replace(a, b)` with one-character strings: only the first `a` becomes `b`. */
  function ReplaceFirst(s: string, a: char, b: char): (r: string)
    ensures a !in s ==> r == s
    ensures a in s ==> exists i :: 0 <= i < |s| && s[i] == a && a !in s[..i] && r == s[..i] + [b] + s[i + 1..]
  {
    match IndexOf(s, a)
    case None =>
      assert a !in s by {
        forall k | 0 <= k < |s| ensures s[k] != a {
          assert !CharTest(a)(s[k]);
        }
      }
      s
    case Some(i) =>
      assert s[i] == a by {
        assert CharTest(a)(s[i]);
      }
      assert a !in s[..i] by {
        forall k | 0 <= k < i ensures s[..i][k] != a {
          assert !CharTest(a)(s[k]);
        }
      }
      assert s[i := b] == s[..i] + [b] + s[i + 1..];
      s[i := b]
  }

  /** Replacing the first `a` by `b` moves one occurrence from `a` to `b` and leaves
      every other character's count alone. */
  lemma ReplaceFirstCounts(s: string, a: char, b: char)
    ensures a in s ==> multiset(ReplaceFirst(s, a, b)) == multiset(s) - multiset{a} + multiset{b}
  {
    if a in s {
      var r := ReplaceFirst(s, a, b);
      var i :| 0 <= i < |s| && s[i] == a && a !in s[..i] && r == s[..i] + [b] + s[i + 1..];
      SwapAt(s, i, b);
    }
  }

  /** Putting `x` in place of the element at `i` swaps one occurrence. */
  lemma SwapAt<T>(s: seq<T>, i: nat, x: T)
    requires i < |s|
    ensures multiset(s[..i] + [x] + s[i + 1..]) == multiset(s) - multiset{s[i]} + multiset{x}
  {
    assert s == s[..i] + [s[i]] + s[i + 1..];
  }

  // ---------------------------------------------------------------------------
  // Numbers
  // ---------------------------------------------------------------------------

  /** A JavaScript number: a finite value, or one of NaN, Infinity and -Infinity. */
  datatype Num = Finite(value: real) | NonFinite

  predicate IsDigit(c: char) {
    '0' <= c <= '9'
  }

  predicate AllDigits(s: string) {
    forall k :: 0 <= k < |s| ==> IsDigit(s[k])
  }

  function DigitValue(c: char): nat
    requires IsDigit(c)
  {
    c as int - '0' as int
  }

  function Digit(d: nat): (c: char)
    requires d < 10
    ensures IsDigit(c) && DigitValue(c) == d
  {
    ('0' as int + d) as char
  }

  /** The natural number written by a string of decimal digits. */
  function DigitsValue(s: string): nat
    requires AllDigits(s)
  {
    if s == [] then 0 else 10 * DigitsValue(s[..|s| - 1]) + DigitValue(s[|s| - 1])
  }

  function Pow10(n: nat): (r: nat)
    ensures r >= 1
  {
    if n == 0 then 1 else 10 * Pow10(n - 1)
  }

  /** The decimal digits of `n`, as Number.prototype.toString writes them. */
  function NatDigits(n: nat): (r: string)
    ensures r != [] && AllDigits(r) && DigitsValue(r) == n
  {
    if n < 10 then [Digit(n)]
    else
      var r := NatDigits(n / 10) + [Digit(n % 10)];
      assert r[..|r| - 1] == NatDigits(n / 10);
      r
  }

  /** A character that can stand in a decimal literal: a digit, the point or a sign. */
  predicate NumberChar(c: char) {
    IsDigit(c) || c == '.' || c == '-' || c == '+'
  }

  /** An unsigned decimal literal without exponent: `digits`, `digits.digits?` or `.digits`. */
  function ParseUnsigned(s: string): (r: Option<real>)
    ensures r.Some? ==> r.value >= 0.0
    ensures r.Some? ==> forall k :: 0 <= k < |s| ==> IsDigit(s[k]) || s[k] == '.'
  {
    match IndexOf(s, '.')
    case None =>
      if s != [] && AllDigits(s) then Some(DigitsValue(s) as real) else None
    case Some(k) =>
      var whole, fraction := s[..k], s[k + 1..];
      if (whole != [] || fraction != []) && AllDigits(whole) && AllDigits(fraction)
      then
        assert forall j :: 0 <= j < |s| ==> s[j] == (if j < k then whole[j] else if j == k then '.' else fraction[j - k - 1]);
        Some(DecimalValue(whole, fraction))
      else None
  }

  /** The value of `whole.fraction` written in decimal digits. */
  function DecimalValue(whole: string, fraction: string): (r: real)
    requires AllDigits(whole) && AllDigits(fraction)
    ensures r >= 0.0
  {
    DigitsValue(whole) as real + DigitsValue(fraction) as real / Pow10(|fraction|) as real
  }

  /** Number(s) for a string: surrounding white space is ignored, the empty string is 0,
      an optional sign precedes an unsigned decimal literal or Infinity, and
      anything else is NaN. */
  function NumberOf(s: string): (r: Num)
    ensures r.Finite? ==> forall k :: 0 <= k < |Trim(s)| ==> NumberChar(Trim(s)[k])
  {
    var t := Trim(s);
    if t == [] then Finite(0.0)
    else
      var sign, body := if t[0] == '-' then -1.0 else 1.0, if t[0] == '-' || t[0] == '+' then t[1..] else t;
      if body == "Infinity" then NonFinite
      else match ParseUnsigned(body)
        case Some(x) =>
          assert forall k :: 0 < k < |t| ==> t[k] == body[k - (|t| - |body|)];
          Finite(sign * x)
        case None => NonFinite
  }

  /** Number(...) of a run of digits is the number they write; the empty run is 0. */
  lemma NumberOfDigits(d: string)
    requires AllDigits(d)
    ensures NumberOf(d) == Finite(DigitsValue(d) as real)
  {
    if d != [] {
      assert IndexOf(d, '.').None?;
      NumberOfUnsigned(d, DigitsValue(d) as real);
    }
  }

  /** A text of digits and points that parses as an unsigned literal is read as that literal. */
  lemma NumberOfUnsigned(t: string, x: real)
    requires t != [] && (IsDigit(t[0]) || t[0] == '.') && (IsDigit(t[|t| - 1]) || t[|t| - 1] == '.')
    requires ParseUnsigned(t) == Some(x)
    ensures NumberOf(t) == Finite(x)
  {
    TrimUnchanged(t);
    assert t[0] != '-' && t[0] != '+' && t[0] != 'I';
  }

  /** Number(...) of a text holding a comma is not a finite number. */
  lemma NumberOfComma(s: string, k: nat)
    requires k < |s| && s[k] == ','
    ensures NumberOf(s) == NonFinite
  {
    TrimKeeps(s, k);
    var t := Trim(s);
    var j :| 0 <= j < |t| && t[j] == ',';
    assert !NumberChar(t[j]);
  }

  /** After a run of digits, the first non-digit separator is the one that ends the run. */
  lemma IndexOfAfterDigits(whole: string, sep: char, rest: string)
    requires AllDigits(whole) && !IsDigit(sep)
    ensures IndexOf(whole + [sep] + rest, sep) == Some(|whole|)
  {
    var s := whole + [sep] + rest;
    assert CharTest(sep)(s[|whole|]);
  }

  /** An unsigned literal with a point reads as whole + fraction / 10^|fraction|. */
  lemma ParseUnsignedPoint(whole: string, fraction: string)
    requires (whole != [] || fraction != []) && AllDigits(whole) && AllDigits(fraction)
    ensures ParseUnsigned(whole + "." + fraction) == Some(DecimalValue(whole, fraction))
  {
    var s := whole + "." + fraction;
    IndexOfAfterDigits(whole, '.', fraction);
    assert s[..|whole|] == whole;
    assert s[|whole| + 1..] == fraction;
  }

  /** Number(...) of `whole.fraction` is its decimal value; either part may be empty, not both. */
  lemma NumberOfPoint(whole: string, fraction: string)
    requires (whole != [] || fraction != []) && AllDigits(whole) && AllDigits(fraction)
    ensures NumberOf(whole + "." + fraction) == Finite(DecimalValue(whole, fraction))
  {
    var s := whole + "." + fraction;
    assert s[0] == '.' || s[0] == whole[0];
    assert s[|s| - 1] == '.' || s[|s| - 1] == fraction[|fraction| - 1];
    ParseUnsignedPoint(whole, fraction);
    NumberOfUnsigned(s, DecimalValue(whole, fraction));
  }

  /** The two digits of a number below 100, with a leading zero. */
  function TwoDigits(m: nat): (r: string)
    requires m < 100
    ensures |r| == 2 && AllDigits(r) && DigitsValue(r) == m
  {
    var r := [Digit(m / 10), Digit(m % 10)];
    assert DigitsValue(r[..1]) == m / 10 by {
      assert r[..1][..0] == [];
    }
    r
  }

  /** `(c / 100).toFixed(2)` for a natural number of cents `c`. */
  function FixedTwo(c: nat): string {
    NatDigits(c / 100) + "." + TwoDigits(c % 100)
  }

  /** Number(...) reads back what toFixed(2) writes. */
  lemma NumberOfFixedTwo(c: nat)
    ensures NumberOf(FixedTwo(c)) == Finite(c as real / 100.0)
  {
    var whole, fraction := NatDigits(c / 100), TwoDigits(c % 100);
    calc {
      NumberOf(FixedTwo(c));
      { assert FixedTwo(c) == whole + "." + fraction; }
      NumberOf(whole + "." + fraction);
      { NumberOfPoint(whole, fraction); }
      Finite(DecimalValue(whole, fraction));
      { FixedTwoValue(c); }
      Finite(c as real / 100.0);
    }
  }

  lemma FixedTwoValue(c: nat)
    ensures DecimalValue(NatDigits(c / 100), TwoDigits(c % 100)) == c as real / 100.0
  {
    DecimalCents(NatDigits(c / 100), TwoDigits(c % 100));
    CentsAsReal(c, c / 100, c % 100);
  }

  lemma DecimalCents(whole: string, fraction: string)
    requires AllDigits(whole) && AllDigits(fraction) && |fraction| == 2
    ensures DecimalValue(whole, fraction) == DigitsValue(whole) as real + DigitsValue(fraction) as real / 100.0
  {
    assert Pow10(2) == 100 by {
      assert Pow10(1) == 10;
    }
  }

  lemma CentsAsReal(c: nat, w: nat, f: nat)
    requires c == 100 * w + f
    ensures c as real / 100.0 == w as real + f as real / 100.0
  {
  }
}
