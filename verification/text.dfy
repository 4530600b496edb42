/** Character and string primitives the two backends rely on: ASCII case
    folding, digit filtering, the JVM's notion of a blank string, Kotlin's
    `split` on a single delimiter, and Kotlin's decimal integer parsing. */
module Text {
  import opened Wrappers

  // ---------------------------------------------------------------------
  // Characters
  // ---------------------------------------------------------------------

  predicate IsAsciiDigit(c: char) {
    '0' <= c <= '9'
  }

  predicate IsAsciiUpper(c: char) {
    'A' <= c <= 'Z'
  }

  /** ASCII lower-casing; every other character is left alone. */
  function LowerChar(c: char): char {
    if IsAsciiUpper(c) then (c as int + 32) as char else c
  }

  function Lower(s: string): (r: string)
    ensures |r| == |s|
    ensures forall i :: 0 <= i < |s| ==> r[i] == LowerChar(s[i])
  {
    seq(|s|, i requires 0 <= i < |s| => LowerChar(s[i]))
  }

  lemma LowerIdempotent(s: string)
    ensures Lower(Lower(s)) == Lower(s)
  {
  }

  /** Kotlin's `Char.lowercase()` (Unicode lower-casing, independent of the
      locale), as far as it decides whether a lower-cased string equals an
      ASCII word. Only the ASCII capitals and U+212A KELVIN SIGN (to 'k')
      lower-case into ASCII alone. U+0130 LATIN CAPITAL LETTER I WITH DOT
      ABOVE becomes "i" followed by U+0307 COMBINING DOT ABOVE, and every
      other character becomes a non-ASCII character or itself; keeping such
      a character as it is gives the same answer to every comparison with
      an ASCII word. */
  function RootLowerChar(c: char): (r: char)
    ensures c < 128 as char ==> r == LowerChar(c)
    ensures c == '\U{212A}' ==> r == 'k'
  {
    if c == '\U{212A}' then 'k' else LowerChar(c)
  }

  /** Kotlin's `String.lowercase()`, character by character. */
  function RootLower(s: string): (r: string)
    ensures |r| == |s|
  {
    seq(|s|, i requires 0 <= i < |s| => RootLowerChar(s[i]))
  }

  predicate IsAscii(s: string) {
    forall i :: 0 <= i < |s| ==> s[i] < 128 as char
  }

  /** On ASCII text the Unicode lower-casing is the ASCII one. */
  lemma RootLowerAscii(s: string)
    requires IsAscii(s)
    ensures RootLower(s) == Lower(s)
  {
  }

  /** Lower-casing twice is lower-casing once. */
  lemma RootLowerIdempotent(s: string)
    ensures RootLower(RootLower(s)) == RootLower(s)
  {
  }

  /** The Kelvin sign makes "wor\U{212A}" lower-case to "work", which the
      ASCII lower-casing does not. */
  lemma RootLowerBeyondAscii()
    ensures RootLower("wor\U{212A}") == "work"
    ensures Lower("wor\U{212A}") != "work"
  {
    assert Lower("wor\U{212A}")[3] == '\U{212A}';
  }

  /** Kotlin's `Char.isWhitespace()` on the JVM: `Character.isWhitespace`
      (the ASCII controls TAB..CR and FS..US, and the Unicode space separators
      other than the no-break ones) together with `Character.isSpaceChar`
      (all space, line and paragraph separators). */
  predicate IsJvmWhitespace(c: char) {
    || ('\t' <= c <= '\r')
    || ('\U{1C}' <= c <= ' ')
    || c == '\U{A0}'
    || c == '\U{1680}'
    || ('\U{2000}' <= c <= '\U{200A}')
    || c == '\U{2028}'
    || c == '\U{2029}'
    || c == '\U{202F}'
    || c == '\U{205F}'
    || c == '\U{3000}'
  }

  /** Kotlin's `CharSequence.isBlank()`: empty, or whitespace only. */
  predicate IsBlank(s: string) {
    forall i :: 0 <= i < |s| ==> IsJvmWhitespace(s[i])
  }

  /** Kotlin's `String?.isNullOrBlank()`. */
  predicate IsNullOrBlank(s: Option<string>) {
    s.None? || IsBlank(s.value)
  }

  // ---------------------------------------------------------------------
  // Keeping the characters of one class (digit-only phone numbers)
  // ---------------------------------------------------------------------

  /** The characters of `s` that satisfy `keep`, in their original order. */
  function Keep(s: string, keep: char -> bool): (r: string)
    ensures |r| <= |s|
    ensures forall i :: 0 <= i < |r| ==> keep(r[i])
  {
    if |s| == 0 then ""
    else
      assert s == [s[0]] + s[1..];
      if keep(s[0]) then [s[0]] + Keep(s[1..], keep) else Keep(s[1..], keep)
  }

  /** Filtering distributes over concatenation, so kept characters keep
      their relative order. */
  lemma {:induction false} KeepAppend(a: string, b: string, keep: char -> bool)
    ensures Keep(a + b, keep) == Keep(a, keep) + Keep(b, keep)
  {
    if |a| == 0 {
      assert a + b == b;
    } else {
      assert (a + b)[0] == a[0];
      assert (a + b)[1..] == a[1..] + b;
      KeepAppend(a[1..], b, keep);
    }
  }

  /** Every kept character occurs in the result exactly as often as in the
      input. */
  lemma {:induction false} KeepCounts(s: string, keep: char -> bool, c: char)
    requires keep(c)
    ensures multiset(Keep(s, keep))[c] == multiset(s)[c]
  {
    if |s| != 0 {
      assert s == [s[0]] + s[1..];
      KeepCounts(s[1..], keep, c);
    }
  }

  /** A string made only of kept characters is its own filtered form; in
      particular filtering twice is filtering once. */
  lemma {:induction false} KeepFixpoint(s: string, keep: char -> bool)
    requires forall i :: 0 <= i < |s| ==> keep(s[i])
    ensures Keep(s, keep) == s
  {
    if |s| != 0 {
      KeepFixpoint(s[1..], keep);
    }
  }

  // ---------------------------------------------------------------------
  // Kotlin `String.split(delimiter)` on a one-character delimiter
  // ---------------------------------------------------------------------

  /** Inverse of Split: the parts glued back with the delimiter. */
  function Join(parts: seq<string>, sep: char): string {
    if |parts| == 0 then ""
    else if |parts| == 1 then parts[0]
    else parts[0] + [sep] + Join(parts[1..], sep)
  }

  /** Every occurrence of `sep` separates two parts; empty parts, including
      leading and trailing ones, are kept (Kotlin does not drop trailing
      empty strings), so even "" splits into one part. */
  function Split(s: string, sep: char): (parts: seq<string>)
    ensures |parts| >= 1
    ensures forall i :: 0 <= i < |parts| ==> sep !in parts[i]
    ensures Join(parts, sep) == s
  {
    if |s| == 0 then [""]
    else
      assert s == [s[0]] + s[1..];
      var rest := Split(s[1..], sep);
      if s[0] == sep then
        [""] + rest
      else
        var parts := [[s[0]] + rest[0]] + rest[1..];
        assert parts[1..] == rest[1..];
        assert forall i :: 1 <= i < |parts| ==> parts[i] == rest[i];
        parts
  }

  /** Splitting a string that starts with a delimiter-free prefix glues that
      prefix to the first part. */
  lemma {:induction false} SplitPrefix(a: string, t: string, sep: char)
    requires sep !in a
    ensures Split(a + t, sep) == [a + Split(t, sep)[0]] + Split(t, sep)[1..]
  {
    if |a| == 0 {
      var p := Split(t, sep);
      assert a + t == t && a + p[0] == p[0];
      assert [p[0]] + p[1..] == p;
    } else {
      assert (a + t)[0] == a[0];
      assert (a + t)[1..] == a[1..] + t;
      SplitPrefix(a[1..], t, sep);
      assert [a[0]] + (a[1..] + Split(t, sep)[0]) == a + Split(t, sep)[0];
    }
  }

  /** Round trip: splitting the join of delimiter-free parts gives the parts
      back. */
  lemma {:induction false} SplitJoin(parts: seq<string>, sep: char)
    requires |parts| >= 1
    requires forall i :: 0 <= i < |parts| ==> sep !in parts[i]
    ensures Split(Join(parts, sep), sep) == parts
  {
    if |parts| == 1 {
      SplitPrefix(parts[0], "", sep);
      assert parts[0] + "" == parts[0];
    } else {
      var t := [sep] + Join(parts[1..], sep);
      assert Join(parts, sep) == parts[0] + t;
      SplitPrefix(parts[0], t, sep);
      assert t[0] == sep && t[1..] == Join(parts[1..], sep);
      SplitJoin(parts[1..], sep);
      assert Split(t, sep) == [""] + parts[1..];
      assert parts[0] + "" == parts[0];
    }
  }

  // ---------------------------------------------------------------------
  // Decimal integers: Kotlin `toIntOrNull()` / `toLong()` and `toString()`
  // ---------------------------------------------------------------------

  const IntMin: int := -0x8000_0000
  const IntMax: int := 0x7FFF_FFFF
  const LongMin: int := -0x8000_0000_0000_0000
  const LongMax: int := 0x7FFF_FFFF_FFFF_FFFF

  predicate AllDigits(s: string) {
    forall i :: 0 <= i < |s| ==> IsAsciiDigit(s[i])
  }

  /** The value of a run of decimal digits, most significant first. */
  function DigitsValue(s: string): nat
    requires AllDigits(s)
  {
    if |s| == 0 then 0
    else DigitsValue(s[..|s| - 1]) * 10 + (s[|s| - 1] as int - '0' as int)
  }

  /** Parses an optional sign followed by at least one ASCII digit; any
      other shape, or a value outside [lo, hi], yields None. */
  function ParseDecimal(s: string, lo: int, hi: int): (r: Option<int>)
    ensures r.Some? ==> lo <= r.value <= hi
    ensures r.Some? ==> |s| > 0 && (AllDigits(s) || ((s[0] == '-' || s[0] == '+') && |s| > 1 && AllDigits(s[1..])))
  {
    if |s| == 0 then None
    else if s[0] == '-' || s[0] == '+' then
      if |s| == 1 || !AllDigits(s[1..]) then None
      else
        var v: int := if s[0] == '-' then 0 - DigitsValue(s[1..]) as int else DigitsValue(s[1..]);
        if lo <= v <= hi then Some(v) else None
    else if !AllDigits(s) then None
    else
      var v := DigitsValue(s);
      if lo <= v <= hi then Some(v) else None
  }

  /** Kotlin `String.toIntOrNull()` (32-bit). */
  function ToIntOrNull(s: string): Option<int> {
    ParseDecimal(s, IntMin, IntMax)
  }

  /** Kotlin `String.toLong()` (64-bit), with its exception as None. */
  function ToLongOrNull(s: string): Option<int> {
    ParseDecimal(s, LongMin, LongMax)
  }

  function DigitChar(d: nat): char
    requires d < 10
  {
    ('0' as int + d) as char
  }

  /** Decimal rendering of a natural number without leading zeros. */
  function NatToString(n: nat): (s: string)
    ensures |s| >= 1 && AllDigits(s)
    ensures |s| > 1 ==> s[0] != '0'
  {
    if n < 10 then [DigitChar(n)]
    else NatToString(n / 10) + [DigitChar(n % 10)]
  }

  /** Kotlin `Int.toString()` / `Long.toString()`. */
  function IntToString(i: int): string {
    if i < 0 then "-" + NatToString(-i) else NatToString(i)
  }

  lemma {:induction false} DigitsValueOfNatToString(n: nat)
    ensures DigitsValue(NatToString(n)) == n
  {
    if n >= 10 {
      var s := NatToString(n);
      assert s[..|s| - 1] == NatToString(n / 10);
      DigitsValueOfNatToString(n / 10);
    }
  }

  /** Leading zeros do not change the value of a digit run. */
  lemma {:induction false} DigitsValueLeadingZero(s: string)
    requires AllDigits(s)
    ensures AllDigits("0" + s) && DigitsValue("0" + s) == DigitsValue(s)
  {
    if |s| > 0 {
      var z := "0" + s;
      assert z[..|z| - 1] == "0" + s[..|s| - 1];
      DigitsValueLeadingZero(s[..|s| - 1]);
    }
  }

  /** Round trip: parsing the rendering of any in-range integer gives it
      back. */
  lemma ParseIntToString(i: int, lo: int, hi: int)
    requires lo <= i <= hi
    ensures ParseDecimal(IntToString(i), lo, hi) == Some(i)
  {
    if i < 0 {
      var s := IntToString(i);
      assert s[1..] == NatToString(-i);
      DigitsValueOfNatToString(-i);
    } else {
      DigitsValueOfNatToString(i);
    }
  }

  /** The other direction is lossy: parsing accepts leading zeros and a
      plus sign, so different strings name the same number. */
  lemma ParseNotInjective()
    ensures ToLongOrNull("007") == Some(7) && IntToString(7) == "7"
    ensures ToLongOrNull("+7") == Some(7)
  {
    assert "007"[..2] == "00" && "00"[..1] == "0" && "0"[..0] == "";
    assert "+7"[1..] == "7" && "7"[..0] == "";
  }
}
