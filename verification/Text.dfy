/** Decimal numbers and splitting, as the parsers of the repository use them. */
module Text {
  import opened Basics

  /** A conversion that may also stop at an unchecked arithmetic operation, which panics or wraps
      depending on the build profile. */
  datatype Parsed<+T> = Ok(value: T) | Bad | Overflow

  const MAX16: nat := 0xFFFF
  const MAX64: nat := 0xFFFF_FFFF_FFFF_FFFF

  predicate IsDigit(c: char) {
    '0' <= c <= '9'
  }

  predicate AllDigits(s: string) {
    forall i :: 0 <= i < |s| ==> IsDigit(s[i])
  }

  function DigitValue(c: char): nat
    requires IsDigit(c)
  {
    (c - '0') as nat
  }

  function DigitChar(d: nat): (c: char)
    requires d < 10
    ensures IsDigit(c) && DigitValue(c) == d
  {
    '0' + d as char
  }

  function Value(s: string): nat
    requires AllDigits(s)
  {
    if s == "" then 0 else Value(s[..|s| - 1]) * 10 + DigitValue(s[|s| - 1])
  }

  /** Display of an unsigned integer. */
  function Dec(n: nat): (s: string)
    ensures s != "" && AllDigits(s)
  {
    if n < 10 then [DigitChar(n)] else Dec(n / 10) + [DigitChar(n % 10)]
  }

  /** The notation is the decimal one, and the digits mean what they say. */
  lemma DecimalNotation(n: nat, d: nat)
    requires d < 10
    ensures Dec(d) == ["0123456789"[d]] && IsDigit("0123456789"[d]) && DigitValue("0123456789"[d]) == d
    ensures n > 0 ==> Dec(10 * n + d) == Dec(n) + Dec(d)
  {
    hide Dec;
    assert DigitChar(d) == "0123456789"[d];
    DecLast(d);
    if n > 0 {
      DecLast(10 * n + d);
    }
  }

  lemma DecLast(n: nat)
    ensures Dec(n) == if n < 10 then [DigitChar(n)] else Dec(n / 10) + [DigitChar(n % 10)]
  {
  }

  /** One more digit at the end. */
  lemma ValueAppend(s: string, c: char)
    requires AllDigits(s) && IsDigit(c)
    ensures Value(s + [c]) == 10 * Value(s) + (c as int - '0' as int)
  {
    assert (s + [c])[..|s|] == s;
  }

  lemma {:induction false} ValueOfDec(n: nat)
    ensures Value(Dec(n)) == n
  {
    var s := Dec(n);
    if n < 10 {
      assert s[..|s| - 1] == "";
    } else {
      ValueOfDec(n / 10);
      assert s[..|s| - 1] == Dec(n / 10);
    }
  }

  /** `str::parse` at an unsigned type with the given maximum: an optional plus sign, then digits. */
  function ParseUint(s: string, max: nat): Option<nat> {
    var d := if |s| > 1 && s[0] == '+' then s[1..] else s;
    if d != "" && AllDigits(d) && Value(d) <= max then Some(Value(d)) else None
  }

  lemma ParseDec(n: nat, max: nat)
    ensures ParseUint(Dec(n), max) == if n <= max then Some(n) else None
  {
    ValueOfDec(n);
    assert IsDigit(Dec(n)[0]);
  }

  /** An unsigned number may have a plus sign; nothing else but digits is accepted. */
  lemma ParseUintSyntax(s: string, max: nat)
    ensures ParseUint(s, max).Some? ==> s != "" && (s[0] == '+' || IsDigit(s[0])) && IsDigit(s[|s| - 1])
    ensures ParseUint(s, max).Some? ==> forall i :: 1 <= i < |s| ==> IsDigit(s[i])
    ensures s != "" && AllDigits(s) ==> ParseUint("+" + s, max) == ParseUint(s, max)
    ensures s != "" && AllDigits(s) ==> ParseUint(s, max) == if Value(s) <= max then Some(Value(s)) else None
  {
    assert ("+" + s)[1..] == s;
    if s != "" && AllDigits(s) {
      assert IsDigit(s[0]);
    }
    if ParseUint(s, max).Some? {
      var d := if |s| > 1 && s[0] == '+' then s[1..] else s;
      assert IsDigit(d[|d| - 1]) && IsDigit(d[0]);
      forall i | 1 <= i < |s|
        ensures IsDigit(s[i])
      {
        assert s[i] == if d == s then d[i] else d[i - 1];
      }
    }
  }

  /** The widths of the integers. */
  lemma Widths()
    ensures MAX16 + 1 == 0x1_0000 && MAX64 + 1 == 0x1_0000_0000_0000_0000
  {
  }

  lemma NotInDigits(s: string, c: char)
    requires AllDigits(s) && !IsDigit(c)
    ensures c !in s
  {
  }

  /** `str::split` on one character: never empty. */
  function Split(s: string, c: char): (parts: seq<string>)
    ensures parts != []
  {
    if s == "" then [""]
    else
      var rest := Split(s[1..], c);
      if s[0] == c then [""] + rest else [[s[0]] + rest[0]] + rest[1..]
  }

  lemma {:induction false} SplitWhole(s: string, c: char)
    requires c !in s
    ensures Split(s, c) == [s]
  {
    if s != "" {
      SplitWhole(s[1..], c);
      assert [s[0]] + s[1..] == s;
    }
  }

  lemma {:induction false} SplitFirst(a: string, c: char, b: string)
    requires c !in a
    ensures Split(a + [c] + b, c) == [a] + Split(b, c)
  {
    var s := a + [c] + b;
    if a == "" {
      assert s[1..] == b;
    } else {
      SplitFirst(a[1..], c, b);
      assert s[1..] == a[1..] + [c] + b;
      assert [s[0]] + a[1..] == a;
    }
  }

  lemma {:induction false} PartsAvoid(s: string, c: char)
    ensures forall i :: 0 <= i < |Split(s, c)| ==> c !in Split(s, c)[i]
  {
    if s != "" {
      PartsAvoid(s[1..], c);
    }
  }

  lemma Associate(a: string, b: string, c: string)
    ensures a + (b + c) == a + b + c
  {
  }

  function StripPrefix(s: string, c: char): Option<string> {
    if s != "" && s[0] == c then Some(s[1..]) else None
  }

  function StripSuffix(s: string, suffix: string): Option<string> {
    if |suffix| <= |s| && s[|s| - |suffix|..] == suffix then Some(s[..|s| - |suffix|]) else None
  }

  lemma StripAppended(s: string, suffix: string)
    ensures StripSuffix(s + suffix, suffix) == Some(s)
  {
    assert (s + suffix)[|s|..] == suffix && (s + suffix)[..|s|] == s;
  }
}
