/**
 * The parts of `java.lang.String`, `java.lang.Character` and Java's fixed-width
 * integer arithmetic that the modelled code relies on, stated over Dafny's
 * `string` (a sequence of Unicode scalar values).
 */
module JavaLang {

  import opened Wrappers

  // ---------------------------------------------------------------- integers

  const TWO_31: int := 0x8000_0000
  const TWO_32: int := 0x1_0000_0000
  const TWO_63: int := 0x8000_0000_0000_0000
  const TWO_64: int := 0x1_0000_0000_0000_0000

  /** A Java `byte`. */
  newtype JByte = x: int | -128 <= x < 128

  predicate IsInt(x: int) { -TWO_31 <= x < TWO_31 }
  predicate IsLong(x: int) { -TWO_63 <= x < TWO_63 }

  /** The two's-complement wrap-around of Java `int` arithmetic. */
  function Wrap32(x: int): (r: int)
    ensures IsInt(r)
    ensures (r - x) % TWO_32 == 0
    ensures IsInt(x) ==> r == x
  {
    (x + TWO_31) % TWO_32 - TWO_31
  }

  /** The two's-complement wrap-around of Java `long` arithmetic. */
  function Wrap64(x: int): (r: int)
    ensures IsLong(r)
    ensures (r - x) % TWO_64 == 0
    ensures IsLong(x) ==> r == x
  {
    (x + TWO_63) % TWO_64 - TWO_63
  }

  /** Java's `/` on integers: the quotient truncated toward zero. */
  function Quot(a: int, b: int): (q: int)
    requires b > 0
    ensures a >= 0 ==> q == a / b
    ensures a < 0 ==> q == -((-a) / b)
  {
    if a >= 0 then a / b else -((-a) / b)
  }

  /** Java's `%` on integers: the remainder takes the sign of the dividend. */
  function Rem(a: int, b: int): (r: int)
    requires b > 0
    ensures a == Quot(a, b) * b + r
    ensures a >= 0 ==> 0 <= r < b
    ensures a < 0 ==> -b < r <= 0
  {
    a - Quot(a, b) * b
  }

  // ------------------------------------------------------------- characters

  /** `String.trim` removes every char whose code is at most U+0020. */
  predicate IsTrimmable(c: char) { c <= ' ' }

  /** `Character.isWhitespace`: Unicode space, line and paragraph separators other than
      the three no-break spaces, plus U+0009..U+000D and U+001C..U+001F. */
  predicate IsWhitespace(c: char) {
    || c == ' ' || ('\t' <= c <= '\r') || ('\U{1C}' <= c <= '\U{1F}')
    || c == '\U{1680}' || ('\U{2000}' <= c <= '\U{2006}') || ('\U{2008}' <= c <= '\U{200A}')
    || c == '\U{2028}' || c == '\U{2029}' || c == '\U{205F}' || c == '\U{3000}'
  }

  /** `String.isBlank` / commons-lang `StringUtils.isBlank` on a non-null string. */
  predicate IsBlank(s: string) {
    forall i :: 0 <= i < |s| ==> IsWhitespace(s[i])
  }

  /** `StringUtils.isBlank` on a possibly-null string. */
  predicate IsBlankOrNull(s: Option<string>) {
    s.None? || IsBlank(s.value)
  }

  /** What string concatenation appends for a possibly-null string. */
  function Str(o: Option<string>): string
  {
    if o.Some? then o.value else "null"
  }

  /** Lower-cases the ASCII letters and leaves every other character alone. */
  function ToLowerAscii(s: string): (r: string)
    ensures |r| == |s|
    ensures forall i :: 0 <= i < |s| ==> r[i] == LowerChar(s[i])
  {
    seq(|s|, i requires 0 <= i < |s| => LowerChar(s[i]))
  }

  function LowerChar(c: char): (r: char)
    ensures 'A' <= c <= 'Z' ==> r as int == c as int + 32
    ensures !('A' <= c <= 'Z') ==> r == c
  {
    if 'A' <= c <= 'Z' then (c as int + 32) as char else c
  }

  // ---------------------------------------------------------------- strings

  /** Java's `trim()`: drop the trimmable chars at both ends. */
  function Trim(s: string): (r: string)
    ensures |r| <= |s|
    ensures Contains(s, r)
    ensures r != [] ==> !IsTrimmable(r[0]) && !IsTrimmable(r[|r| - 1])
    ensures (forall i :: 0 <= i < |s| ==> IsTrimmable(s[i])) <==> r == []
    ensures s != [] && !IsTrimmable(s[0]) && !IsTrimmable(s[|s| - 1]) ==> r == s
  {
    var a := TrimStart(s);
    var r := TrimEnd(a);
    assert s[|s| - |a|..][0..|r|] == r;
    assert OccursAt(s, r, |s| - |a|);
    r
  }

  /**
   * `trim()` keeps exactly the text between the trimmable characters at the
   * start and those at the end: it sits in `s` at the first character that
   * cannot be trimmed, and everything around it can be.
   */
  lemma TrimIsMiddle(s: string)
    ensures var r := Trim(s);
      var i := |s| - |TrimStart(s)|;
      && OccursAt(s, r, i)
      && (forall k | 0 <= k < i :: IsTrimmable(s[k]))
      && (forall k | i + |r| <= k < |s| :: IsTrimmable(s[k]))
      && (i < |s| ==> !IsTrimmable(s[i]))
  {
    var a := TrimStart(s);
    TrimSlice(s, a, TrimEnd(a));
  }

  /** Where the trimmed text sits in the text. */
  lemma TrimSlice(s: string, a: string, r: string)
    requires |a| <= |s| && a == s[|s| - |a|..] && |r| <= |a| && r == a[..|r|]
    requires forall k | |r| <= k < |a| :: IsTrimmable(a[k])
    requires forall k | 0 <= k < |s| - |a| :: IsTrimmable(s[k])
    ensures var i := |s| - |a|;
      && OccursAt(s, r, i) && r == s[i..i + |r|]
      && (forall k | 0 <= k < i :: IsTrimmable(s[k]))
      && (forall k | i + |r| <= k < |s| :: IsTrimmable(s[k]))
  {
    var i := |s| - |a|;
    assert s[i..i + |r|] == r;
    assert forall k | i + |r| <= k < |s| :: s[k] == a[k - i];
  }

  function TrimStart(s: string): (r: string)
    ensures |r| <= |s| && r == s[|s| - |r|..]
    ensures forall i :: 0 <= i < |s| - |r| ==> IsTrimmable(s[i])
    ensures r != [] ==> !IsTrimmable(r[0])
  {
    if s != [] && IsTrimmable(s[0]) then TrimStart(s[1..]) else s
  }

  function TrimEnd(s: string): (r: string)
    ensures |r| <= |s| && r == s[..|r|]
    ensures forall i :: |r| <= i < |s| ==> IsTrimmable(s[i])
    ensures r != [] ==> !IsTrimmable(r[|r| - 1])
  {
    if s != [] && IsTrimmable(s[|s| - 1]) then TrimEnd(s[..|s| - 1]) else s
  }

  /** `sym` occurs in `s` starting at index `i`. */
  predicate OccursAt(s: string, sym: string, i: int) {
    0 <= i && i + |sym| <= |s| && s[i..i + |sym|] == sym
  }

  predicate Contains(s: string, sym: string) {
    exists i :: 0 <= i <= |s| && OccursAt(s, sym, i)
  }

  /** `s.indexOf(sym)`: the first occurrence, or -1. */
  function IndexOf(s: string, sym: string): (r: int)
    ensures r == -1 || OccursAt(s, sym, r)
    ensures r == -1 <==> !Contains(s, sym)
    ensures r != -1 ==> forall j :: 0 <= j < r ==> !OccursAt(s, sym, j)
  {
    IndexFrom(s, sym, 0)
  }

  function IndexFrom(s: string, sym: string, from: nat): (r: int)
    requires from <= |s| + 1
    ensures r == -1 || (from <= r && OccursAt(s, sym, r))
    ensures r == -1 ==> forall j :: from <= j ==> !OccursAt(s, sym, j)
    ensures r != -1 ==> forall j :: from <= j < r ==> !OccursAt(s, sym, j)
    decreases |s| + 1 - from
  {
    if from + |sym| > |s| then -1
    else if s[from..from + |sym|] == sym then from
    else IndexFrom(s, sym, from + 1)
  }

  /** `s.lastIndexOf(sym)`: the last occurrence, or -1 (for an empty `sym` it is `|s|`). */
  function LastIndexOf(s: string, sym: string): (r: int)
    ensures r == -1 || OccursAt(s, sym, r)
    ensures r == -1 <==> !Contains(s, sym)
    ensures r != -1 ==> forall j :: r < j ==> !OccursAt(s, sym, j)
  {
    if |sym| > |s| then -1 else LastIndexDownFrom(s, sym, |s| - |sym|)
  }

  function LastIndexDownFrom(s: string, sym: string, from: int): (r: int)
    requires -1 <= from && from + |sym| <= |s|
    ensures r == -1 || (r <= from && OccursAt(s, sym, r))
    ensures r == -1 ==> forall j :: j <= from ==> !OccursAt(s, sym, j)
    ensures r != -1 ==> forall j :: r < j <= from ==> !OccursAt(s, sym, j)
    decreases from + 1
  {
    if from < 0 then -1
    else if s[from..from + |sym|] == sym then from
    else LastIndexDownFrom(s, sym, from - 1)
  }

  predicate EndsWith(s: string, suffix: string) {
    |suffix| <= |s| && s[|s| - |suffix|..] == suffix
  }

  predicate StartsWith(s: string, prefix: string) {
    |prefix| <= |s| && s[..|prefix|] == prefix
  }
}
