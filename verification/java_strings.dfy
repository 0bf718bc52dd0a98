/** The parts of `java.lang.String` and commons-lang `StringUtils` that the
    driver relies on: lexicographic comparison, blankness, searching,
    case-insensitive equality, and the 32-bit hash arithmetic of
    `String.hashCode` and `HashCodeBuilder`. */
module JavaStrings {
  import opened Results

  /** Java's `int`. */
  type int32 = x: int | -0x8000_0000 <= x < 0x8000_0000

  // ---------------------------------------------------------------------
  // UTF-16: a Java string is a sequence of 16-bit code units
  // ---------------------------------------------------------------------

  predicate IsHighSurrogate(u: int)
  {
    0xD800 <= u <= 0xDBFF
  }

  predicate IsLowSurrogate(u: int)
  {
    0xDC00 <= u <= 0xDFFF
  }

  /** The UTF-16 code units of one character: the character itself below
      U+10000, otherwise a high surrogate followed by a low one. The units
      decode back to the character, and a character encoded alone never
      starts with a high surrogate. */
  function Utf16(c: char): (r: seq<int>)
    ensures 1 <= |r| <= 2
    ensures |r| == 1 ==> 0 <= r[0] < 0x1_0000 && !IsHighSurrogate(r[0]) && r[0] == c as int
    ensures |r| == 2 ==> IsHighSurrogate(r[0]) && IsLowSurrogate(r[1])
                         && 0x1_0000 + (r[0] - 0xD800) * 0x400 + (r[1] - 0xDC00) == c as int
  {
    var n := c as int;
    if n < 0x1_0000 then [n]
    else [0xD800 + (n - 0x1_0000) / 0x400, 0xDC00 + (n - 0x1_0000) % 0x400]
  }

  /** Different characters have different encodings. */
  lemma Utf16Injective(c: char, d: char)
    requires Utf16(c) == Utf16(d)
    ensures c == d
  {
  }

  /** The code units of a string, character by character. */
  function Units(s: string): (r: seq<int>)
    ensures |s| <= |r| <= 2 * |s|
  {
    if |s| == 0 then [] else Utf16(s[0]) + Units(s[1..])
  }

  /** The encoding of strings is a prefix code: the units determine the
      string. */
  lemma {:induction false} UnitsInjective(a: string, b: string)
    requires Units(a) == Units(b)
    ensures a == b
  {
    if |a| != 0 && |b| != 0 {
      var ua, ub := Utf16(a[0]), Utf16(b[0]);
      assert Units(a) == ua + Units(a[1..]);
      assert Units(b) == ub + Units(b[1..]);
      assert Units(a)[0] == ua[0] && Units(b)[0] == ub[0];
      assert |ua| == |ub|;
      if |ua| == 2 {
        assert Units(a)[1] == ua[1] && Units(b)[1] == ub[1];
      }
      assert ua == ub;
      Utf16Injective(a[0], b[0]);
      assert Units(a[1..]) == Units(a)[|ua|..] == Units(b)[|ub|..] == Units(b[1..]);
      UnitsInjective(a[1..], b[1..]);
      assert a == [a[0]] + a[1..] && b == [b[0]] + b[1..];
    }
  }

  // ---------------------------------------------------------------------
  // String.compareTo
  // ---------------------------------------------------------------------

  /** Lexicographic comparison of code units: the difference of the first
      pair of differing units, or the difference of the lengths when one
      sequence is a prefix of the other. */
  function CompareUnits(a: seq<int>, b: seq<int>): int
  {
    if |a| == 0 || |b| == 0 then |a| - |b|
    else if a[0] != b[0] then a[0] - b[0]
    else CompareUnits(a[1..], b[1..])
  }

  /** `a.compareTo(b)`, which compares UTF-16 code units, not characters. */
  function CompareStrings(a: string, b: string): int
  {
    CompareUnits(Units(a), Units(b))
  }

  lemma {:induction false} CompareUnitsZeroIffEqual(a: seq<int>, b: seq<int>)
    ensures CompareUnits(a, b) == 0 <==> a == b
  {
    if |a| == 0 || |b| == 0 {
    } else if a[0] != b[0] {
    } else {
      CompareUnitsZeroIffEqual(a[1..], b[1..]);
      assert a == [a[0]] + a[1..] && b == [b[0]] + b[1..];
    }
  }

  lemma {:induction false} CompareUnitsAntisymmetric(a: seq<int>, b: seq<int>)
    ensures CompareUnits(a, b) == -CompareUnits(b, a)
  {
    if |a| == 0 || |b| == 0 {
    } else if a[0] != b[0] {
    } else {
      CompareUnitsAntisymmetric(a[1..], b[1..]);
    }
  }

  lemma {:induction false} CompareUnitsTransitive(a: seq<int>, b: seq<int>, c: seq<int>)
    requires CompareUnits(a, b) <= 0 && CompareUnits(b, c) <= 0
    ensures CompareUnits(a, c) <= 0
  {
    if |a| == 0 || |b| == 0 || |c| == 0 {
    } else if a[0] == b[0] && b[0] == c[0] {
      CompareUnitsTransitive(a[1..], b[1..], c[1..]);
    }
  }

  lemma CompareZeroIffEqual(a: string, b: string)
    ensures CompareStrings(a, b) == 0 <==> a == b
  {
    CompareUnitsZeroIffEqual(Units(a), Units(b));
    if Units(a) == Units(b) { UnitsInjective(a, b); }
  }

  lemma CompareAntisymmetric(a: string, b: string)
    ensures CompareStrings(a, b) == -CompareStrings(b, a)
  {
    CompareUnitsAntisymmetric(Units(a), Units(b));
  }

  lemma CompareTransitive(a: string, b: string, c: string)
    requires CompareStrings(a, b) <= 0 && CompareStrings(b, c) <= 0
    ensures CompareStrings(a, c) <= 0
  {
    CompareUnitsTransitive(Units(a), Units(b), Units(c));
  }

  /** Order by code units differs from order by characters: U+1F600 is
      stored as the surrogates D83D DE00, so it sorts before U+FFFD. */
  lemma SupplementarySortsBelowHighBmp()
    ensures CompareStrings("\U{1F600}", "\U{FFFD}") < 0
    ensures '\U{1F600}' as int > '\U{FFFD}' as int
  {
    assert Units("\U{1F600}") == [0xD83D, 0xDE00] by {
      assert Utf16('\U{1F600}') == [0xD83D, 0xDE00];
    }
    assert Units("\U{FFFD}") == [0xFFFD];
  }

  // ---------------------------------------------------------------------
  // StringUtils.isBlank / isNotBlank
  // ---------------------------------------------------------------------

  /** `Character.isWhitespace`: the Unicode space, line and paragraph
      separators other than the non-breaking ones, and the control
      characters HT, LF, VT, FF, CR and FS..US. */
  predicate IsJavaWhitespace(c: char)
  {
    var n := c as int;
    || 0x09 <= n <= 0x0D
    || 0x1C <= n <= 0x20
    || n == 0x1680
    || 0x2000 <= n <= 0x2006
    || 0x2008 <= n <= 0x200A
    || n == 0x2028 || n == 0x2029 || n == 0x205F || n == 0x3000
  }

  /** `StringUtils.isBlank`: null, empty, or whitespace only. */
  predicate IsBlank(s: Option<string>)
  {
    s.None? || forall i :: 0 <= i < |s.value| ==> IsJavaWhitespace(s.value[i])
  }

  predicate IsNotBlank(s: Option<string>)
  {
    !IsBlank(s)
  }

  // ---------------------------------------------------------------------
  // indexOf / StringUtils.substringAfter
  // ---------------------------------------------------------------------

  predicate OccursAt(s: string, sep: string, i: nat)
  {
    i + |sep| <= |s| && s[i..i + |sep|] == sep
  }

  /** `s.indexOf(sep, from)`, with `None` for Java's -1. */
  function IndexOfFrom(s: string, sep: string, from: nat): (r: Option<nat>)
    ensures r.Some? ==> from <= r.value && OccursAt(s, sep, r.value)
    ensures r.Some? ==> forall k :: from <= k < r.value ==> !OccursAt(s, sep, k)
    ensures r.None? ==> forall k: nat :: from <= k ==> !OccursAt(s, sep, k)
    decreases |s| - from
  {
    if from + |sep| > |s| then None
    else if s[from..from + |sep|] == sep then Some(from)
    else IndexOfFrom(s, sep, from + 1)
  }

  function IndexOf(s: string, sep: string): Option<nat>
  {
    IndexOfFrom(s, sep, 0)
  }

  /** `StringUtils.substringAfter(s, sep)`: the text after the FIRST
      occurrence of `sep`, or "" when `sep` does not occur. */
  function SubstringAfter(s: string, sep: string): (r: string)
    ensures IndexOf(s, sep).Some? ==>
              var k := IndexOf(s, sep).value;
              s == s[..k] + sep + r && (forall j :: 0 <= j < k ==> !OccursAt(s, sep, j))
    ensures IndexOf(s, sep).None? ==> r == "" && forall j: nat :: !OccursAt(s, sep, j)
  {
    match IndexOf(s, sep)
    case None => ""
    case Some(k) =>
      assert s == s[..k] + s[k..k + |sep|] + s[k + |sep|..];
      s[k + |sep|..]
  }

  /** A separator at the very start is stripped exactly once: whatever
      follows it, including further copies of the separator, is kept. */
  lemma SubstringAfterLeadingSeparator(sep: string, rest: string)
    ensures SubstringAfter(sep + rest, sep) == rest
  {
    assert OccursAt(sep + rest, sep, 0) by {
      assert (sep + rest)[0..|sep|] == sep;
    }
  }

  // ---------------------------------------------------------------------
  // startsWith / endsWith / equalsIgnoreCase
  // ---------------------------------------------------------------------

  predicate StartsWith(s: string, prefix: string)
  {
    |prefix| <= |s| && s[..|prefix|] == prefix
  }

  predicate EndsWith(s: string, suffix: string)
  {
    |suffix| <= |s| && s[|s| - |suffix|..] == suffix
  }

  /** A one-character prefix is the first character. */
  lemma StartsWithChar(s: string, c: char)
    ensures StartsWith(s, [c]) <==> 0 < |s| && s[0] == c
  {
    if 0 < |s| && s[0] == c { assert s[..1] == [c]; }
  }

  /** A one-character suffix is the last character. */
  lemma EndsWithChar(s: string, c: char)
    ensures EndsWith(s, [c]) <==> 0 < |s| && s[|s| - 1] == c
  {
    if 0 < |s| && s[|s| - 1] == c { assert s[|s| - 1..] == [c]; }
  }

  function AsciiUpper(c: char): char
  {
    if 'a' <= c <= 'z' then (c as int - 32) as char else c
  }

  /** `String.equalsIgnoreCase`, with case folding of ASCII letters. */
  predicate EqualsIgnoreCase(a: string, b: string)
  {
    |a| == |b| && forall i :: 0 <= i < |a| ==> AsciiUpper(a[i]) == AsciiUpper(b[i])
  }

  // ---------------------------------------------------------------------
  // 32-bit hash arithmetic
  // ---------------------------------------------------------------------

  /** Two's-complement wrap-around of Java `int` arithmetic. */
  function WrapInt32(x: int): (r: int32)
    ensures (r - x) % 0x1_0000_0000 == 0
    ensures -0x8000_0000 <= x < 0x8000_0000 ==> r == x
  {
    (x + 0x8000_0000) % 0x1_0000_0000 - 0x8000_0000
  }

  /** h = 31 * h + u over the code units, wrapping. */
  function UnitsHash(us: seq<int>): int32
  {
    if |us| == 0 then 0
    else WrapInt32(31 * UnitsHash(us[..|us| - 1]) + us[|us| - 1])
  }

  /** `String.hashCode`, over the UTF-16 code units. */
  function StringHash(s: string): int32
  {
    UnitsHash(Units(s))
  }

  /** `HashCodeBuilder()` starts at 17 and multiplies by 37 per field. */
  const HashSeed: int32 := 17

  /** `HashCodeBuilder.append`: a null field contributes 0. */
  function HashAppend(total: int32, fieldHash: int32): int32
  {
    WrapInt32(total * 37 + fieldHash)
  }

  function OptionalStringHash(s: Option<string>): int32
  {
    match s
    case None => 0
    case Some(v) => StringHash(v)
  }
}
