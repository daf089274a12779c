/** The handful of java.lang behaviours the screens of the app rely on:
    `String.trim`, `String.toLowerCase`, `String.length` (UTF-16 code units),
    truncating `long` division, the narrowing `(int)` cast, and the decimal
    rendering `StringBuilder.append` uses for integers. Java strings are
    modelled as sequences of Unicode characters. */
module JavaLang {

  /** A Java reference that may be null. */
  datatype Option<+T> = None | Some(value: T)

  // ---------------------------------------------------------------------------
  // String.trim
  // ---------------------------------------------------------------------------

  /** `String.trim` strips every character whose code is at most U+0020. */
  predicate IsTrimmable(c: char) {
    c <= ' '
  }

  /** Drops the trimmable characters at the front. */
  function TrimStart(s: string): (r: string)
    ensures |r| <= |s| && r == s[|s| - |r|..]
    ensures r == [] || !IsTrimmable(r[0])
    ensures forall i :: 0 <= i < |s| - |r| ==> IsTrimmable(s[i])
  {
    if s != [] && IsTrimmable(s[0]) then TrimStart(s[1..]) else s
  }

  /** Drops the trimmable characters at the back. */
  function TrimEnd(s: string): (r: string)
    ensures |r| <= |s| && r == s[..|r|]
    ensures r == [] || !IsTrimmable(r[|r| - 1])
    ensures forall i :: |r| <= i < |s| ==> IsTrimmable(s[i])
  {
    if s != [] && IsTrimmable(s[|s| - 1]) then TrimEnd(s[..|s| - 1]) else s
  }

  /** `r` is `s` with the `i` characters before it and the characters after it
      removed, all of which are trimmable. */
  predicate TrimmedAt(s: string, i: int, r: string) {
    && 0 <= i <= |s| - |r|
    && r == s[i..i + |r|]
    && (forall j :: 0 <= j < i ==> IsTrimmable(s[j]))
    && (forall j :: i + |r| <= j < |s| ==> IsTrimmable(s[j]))
  }

  /** `String.trim`: the infix of `s` left after removing trimmable
      characters from both ends; it neither starts nor ends with one. */
  function Trim(s: string): (r: string)
    ensures TrimmedAt(s, |s| - |TrimStart(s)|, r)
    ensures r == [] || (!IsTrimmable(r[0]) && !IsTrimmable(r[|r| - 1]))
  {
    var t := TrimStart(s);
    var r := TrimEnd(t);
    TrimmedInside(s, |s| - |t|, t, r);
    r
  }

  /** Removing trimmable characters from the back of a suffix whose dropped
      front was trimmable leaves an infix trimmed on both sides. */
  lemma TrimmedInside(s: string, i: nat, t: string, r: string)
    requires i <= |s| && t == s[i..] && (forall j :: 0 <= j < i ==> IsTrimmable(s[j]))
    requires |r| <= |t| && r == t[..|r|] && (forall j :: |r| <= j < |t| ==> IsTrimmable(t[j]))
    requires t == [] || !IsTrimmable(t[0])
    requires r == [] || !IsTrimmable(r[|r| - 1])
    ensures TrimmedAt(s, i, r)
    ensures r == [] || (!IsTrimmable(r[0]) && !IsTrimmable(r[|r| - 1]))
  {
    assert r != [] ==> r[0] == t[0];
    assert r == s[i..i + |r|];
    forall j | i + |r| <= j < |s|
      ensures IsTrimmable(s[j])
    {
      assert s[j] == t[j - i];
    }
  }

  /** A string trims to nothing exactly when it holds only trimmable characters. */
  lemma TrimEmptyIff(s: string)
    ensures Trim(s) == [] <==> forall i :: 0 <= i < |s| ==> IsTrimmable(s[i])
  {
    var k := |s| - |TrimStart(s)|;
    if Trim(s) != [] {
      assert !IsTrimmable(s[k]);
    }
  }

  /** Trimming a trimmed string changes nothing. */
  lemma TrimIdempotent(s: string)
    ensures Trim(Trim(s)) == Trim(s)
  {
    var r := Trim(s);
    assert TrimStart(r) == r;
    assert TrimEnd(r) == r;
  }

  // ---------------------------------------------------------------------------
  // String.toLowerCase and String.length
  // ---------------------------------------------------------------------------

  /** Lower-cases one character: the ASCII letters A..Z become a..z. */
  function LowerChar(c: char): (r: char)
    ensures 'A' <= c <= 'Z' ==> 'a' <= r <= 'z' && r as int - c as int == 32
    ensures !('A' <= c <= 'Z') ==> r == c
  {
    if 'A' <= c <= 'Z' then (c as int + 32) as char else c
  }

  /** `String.toLowerCase`, restricted to ASCII letters (see README). */
  function ToLowerCase(s: string): (r: string)
    ensures |r| == |s|
    ensures forall i :: 0 <= i < |s| ==> r[i] == LowerChar(s[i])
  {
    seq(|s|, i requires 0 <= i < |s| => LowerChar(s[i]))
  }

  /** Number of UTF-16 code units a character occupies in a Java string. */
  function CodeUnits(c: char): nat {
    if c as int >= 0x1_0000 then 2 else 1
  }

  /** `String.length`: the number of UTF-16 code units, so a character outside
      the Basic Multilingual Plane counts twice. */
  function Utf16Length(s: string): (n: nat)
    ensures |s| <= n <= 2 * |s|
    ensures n == 0 <==> s == []
  {
    if s == [] then 0 else CodeUnits(s[0]) + Utf16Length(s[1..])
  }

  /** A single character is one code unit, or two exactly when it lies
      outside the Basic Multilingual Plane. */
  lemma Utf16LengthOfChar(c: char)
    ensures Utf16Length([c]) == 2 <==> c as int >= 0x1_0000
    ensures Utf16Length([c]) == 1 <==> c as int < 0x1_0000
  {
    assert [c][1..] == [];
  }

  /** `String.length` agrees with the number of characters exactly when no
      character lies outside the Basic Multilingual Plane. */
  lemma {:induction false} Utf16LengthIsCharCount(s: string)
    ensures Utf16Length(s) == |s| <==> forall i :: 0 <= i < |s| ==> s[i] as int < 0x1_0000
  {
    if s != [] {
      Utf16LengthIsCharCount(s[1..]);
      if forall i :: 0 <= i < |s| ==> s[i] as int < 0x1_0000 {
        assert forall i :: 0 <= i < |s[1..]| ==> s[1..][i] as int < 0x1_0000 by {
          forall i | 0 <= i < |s[1..]| ensures s[1..][i] as int < 0x1_0000 {
            assert s[1..][i] == s[i + 1];
          }
        }
      } else {
        var k :| 0 <= k < |s| && s[k] as int >= 0x1_0000;
        if k > 0 {
          assert s[1..][k - 1] == s[k];
        }
      }
    }
  }

  /** The UTF-16 length of a concatenation is the sum of the lengths. */
  lemma {:induction false} Utf16LengthAppend(a: string, b: string)
    ensures Utf16Length(a + b) == Utf16Length(a) + Utf16Length(b)
  {
    if a == [] {
      assert a + b == b;
    } else {
      assert (a + b)[1..] == a[1..] + b;
      Utf16LengthAppend(a[1..], b);
    }
  }

  // ---------------------------------------------------------------------------
  // long and int arithmetic
  // ---------------------------------------------------------------------------

  const LONG_MIN: int := -0x8000_0000_0000_0000
  const LONG_MAX: int := 0x7FFF_FFFF_FFFF_FFFF
  const INT_MIN: int := -0x8000_0000
  const INT_MAX: int := 0x7FFF_FFFF

  /** A Java `long`. */
  type Long = x: int | LONG_MIN <= x <= LONG_MAX

  /** A Java `int`. */
  type Int = x: int | INT_MIN <= x <= INT_MAX

  /** Java's integer division, which truncates toward zero (Dafny's `/` is
      Euclidean and differs for a negative dividend). */
  function JavaDiv(a: int, b: int): (q: int)
    requires b > 0
    ensures a >= 0 ==> 0 <= q && q * b <= a < q * b + b
    ensures a < 0 ==> q <= 0 && q * b - b < a <= q * b
  {
    if a >= 0 then
      DivBounds(a, b);
      a / b
    else
      DivBounds(-a, b);
      assert -((-a) / b) * b == -(((-a) / b) * b);
      -((-a) / b)
  }

  /** The Euclidean quotient of a non-negative number brackets it. */
  lemma DivBounds(n: nat, b: int)
    requires b > 0
    ensures 0 <= n / b && (n / b) * b <= n < (n / b) * b + b
  {
    assert n == (n / b) * b + n % b;
  }

  /** The narrowing cast `(int)` from `long`: keeps the low 32 bits and reads
      them as a two's complement number. */
  function ToInt(x: int): (r: Int)
    ensures INT_MIN <= x <= INT_MAX ==> r == x
    ensures (r - x) % 0x1_0000_0000 == 0
  {
    var low := x % 0x1_0000_0000;
    if low <= INT_MAX then low else low - 0x1_0000_0000
  }

  // ---------------------------------------------------------------------------
  // Decimal rendering (Long.toString / Integer.toString)
  // ---------------------------------------------------------------------------

  function DigitChar(d: nat): (c: char)
    requires d < 10
    ensures '0' <= c <= '9'
  {
    ('0' as int + d) as char
  }

  function DigitValue(c: char): nat
    requires '0' <= c <= '9'
  {
    c as int - '0' as int
  }

  predicate IsDigits(s: string) {
    forall i :: 0 <= i < |s| ==> '0' <= s[i] <= '9'
  }

  /** The decimal digits of `n`, most significant first, no leading zero. */
  function NatToString(n: nat): (s: string)
    ensures s != [] && IsDigits(s)
    ensures |s| > 1 ==> s[0] != '0'
  {
    if n < 10 then [DigitChar(n)] else NatToString(n / 10) + [DigitChar(n % 10)]
  }

  /** How Java renders an integer: a minus sign for a negative value, then
      the digits of its magnitude. */
  function IntToString(n: int): (s: string)
    ensures n >= 0 <==> IsDigits(s)
    ensures n < 0 ==> s[0] == '-' && IsDigits(s[1..])
    ensures n >= 0 ==> ParseDigits(s) == n
    ensures n < 0 ==> ParseDigits(s[1..]) == -n
  {
    if n >= 0 then
      NatToStringRoundTrip(n);
      NatToString(n)
    else
      var digits := NatToString(-n);
      NatToStringRoundTrip(-n);
      assert ("-" + digits)[0] == '-';
      assert ("-" + digits)[1..] == digits;
      "-" + digits
  }

  /** Reads a string of decimal digits back as a number. */
  function ParseDigits(s: string): nat
    requires IsDigits(s)
  {
    if s == [] then 0 else ParseDigits(s[..|s| - 1]) * 10 + DigitValue(s[|s| - 1])
  }

  /** Rendering then reading a natural number gives it back. */
  lemma {:induction false} NatToStringRoundTrip(n: nat)
    ensures ParseDigits(NatToString(n)) == n
  {
    if n >= 10 {
      var s := NatToString(n);
      assert s[..|s| - 1] == NatToString(n / 10);
      NatToStringRoundTrip(n / 10);
    }
  }

  /** Distinct numbers render as distinct strings. */
  lemma NatToStringInjective(m: nat, n: nat)
    requires NatToString(m) == NatToString(n)
    ensures m == n
  {
    NatToStringRoundTrip(m);
    NatToStringRoundTrip(n);
  }

  /** A string that differs from `p` at position `i` does not start with `p`. */
  lemma NotPrefix(t: string, p: string, i: nat)
    requires i < |t| && i < |p| && t[i] != p[i]
    ensures !(|t| >= |p| && t[..|p|] == p)
  {
    assert |t| >= |p| ==> t[..|p|][i] == t[i];
  }

  /** Concatenation regroups freely. */
  lemma AppendAssoc(a: string, b: string, c: string)
    ensures a + b + c == a + (b + c)
  {
  }
}
