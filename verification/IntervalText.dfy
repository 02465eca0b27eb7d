/** Interval strings: the parser of `src/interval.rs` and the one of the program macro
    (`derive/src/lib.rs`). */
module IntervalText {
  import opened Basics
  import opened Text

  datatype Unit = Seconds | Millis | Micros | Nanos

  function Suffix(u: Unit): string {
    match u case Seconds => "s" case Millis => "ms" case Micros => "us" case Nanos => "ns"
  }

  function Nanoseconds(u: Unit): nat {
    match u case Seconds => 1_000_000_000 case Millis => 1_000_000 case Micros => 1_000 case Nanos => 1
  }

  /** The product of a number and a unit, as far as it fits 64 bits. */
  function Product64(n: nat, factor: nat): (r: Parsed<nat>)
    ensures r != Bad
  {
    if n * factor <= MAX64 then Ok(n * factor) else Overflow
  }

  /** `v.parse::<u64>()? * factor` */
  function Scaled(v: string, factor: nat): Parsed<nat> {
    match ParseUint(v, MAX64)
    case None => Bad
    case Some(n) => Product64(n, factor)
  }

  function ParseInterval(s: string): Parsed<nat> {
    if StripSuffix(s, "ms").Some? then Scaled(StripSuffix(s, "ms").value, 1_000_000)
    else if StripSuffix(s, "us").Some? then Scaled(StripSuffix(s, "us").value, 1_000)
    else if StripSuffix(s, "ns").Some? then Scaled(StripSuffix(s, "ns").value, 1)
    else if StripSuffix(s, "s").Some? then Scaled(StripSuffix(s, "s").value, 1_000_000_000)
    else Scaled(s, 1_000_000_000)
  }

  function MacroParseInterval(s: string): Parsed<nat> {
    if StripSuffix(s, "ms").Some? then Scaled(StripSuffix(s, "ms").value, 1_000_000)
    else if StripSuffix(s, "us").Some? then Scaled(StripSuffix(s, "us").value, 1_000)
    else if StripSuffix(s, "ns").Some? then Scaled(StripSuffix(s, "ns").value, 1)
    else if StripSuffix(s, "s").Some? then Scaled(StripSuffix(s, "s").value, 1_000_000_000)
    else Bad
  }

  /** No unit is mistaken for another although all end in the same letter: a printed interval
      parses to its nanoseconds, and overflows exactly when they do not fit 64 bits. */
  lemma PrintParse(n: nat, u: Unit)
    requires n <= MAX64
    ensures ParseInterval(Dec(n) + Suffix(u)) == Product64(n, Nanoseconds(u))
  {
    hide ParseInterval, Product64, Scaled, StripSuffix;
    var d := Dec(n);
    StripAppended(d, Suffix(u));
    OtherSuffixesFail(d, u);
    ScaledDec(n, Nanoseconds(u));
    FirstSuffixWins(d + Suffix(u), u, d);
  }

  /** The product of a number and a unit, as far as it fits 64 bits. */
  function Fitting(product: nat): Parsed<nat> {
    if product < 0x1_0000_0000_0000_0000 then Ok(product) else Overflow
  }

  /** The four units in letters and nanoseconds, for both parsers; the runtime takes a bare number
      for seconds. */
  lemma UnitTexts(n: nat)
    requires n < 0x1_0000_0000_0000_0000
    ensures ParseInterval(Dec(n) + "s") == MacroParseInterval(Dec(n) + "s") == Fitting(n * 1_000_000_000)
    ensures ParseInterval(Dec(n) + "ms") == MacroParseInterval(Dec(n) + "ms") == Fitting(n * 1_000_000)
    ensures ParseInterval(Dec(n) + "us") == MacroParseInterval(Dec(n) + "us") == Fitting(n * 1_000)
    ensures ParseInterval(Dec(n) + "ns") == MacroParseInterval(Dec(n) + "ns") == Fitting(n)
    ensures ParseInterval(Dec(n)) == Fitting(n * 1_000_000_000)
  {
    hide ParseInterval, MacroParseInterval, Dec, Product64, Fitting;
    UnitText(n, Seconds);
    UnitText(n, Millis);
    UnitText(n, Micros);
    UnitText(n, Nanos);
    BareNumber(n);
    ProductFits(n, 1_000_000_000);
    ProductFits(n, 1_000_000);
    ProductFits(n, 1_000);
    ProductFits(n, 1);
  }

  lemma ProductFits(n: nat, factor: nat)
    ensures Product64(n, factor) == Fitting(n * factor)
  {
  }

  lemma UnitText(n: nat, u: Unit)
    requires n <= MAX64
    ensures ParseInterval(Dec(n) + Suffix(u)) == MacroParseInterval(Dec(n) + Suffix(u)) == Product64(n, Nanoseconds(u))
  {
    hide ParseInterval, MacroParseInterval, Dec, Product64;
    PrintParse(n, u);
    SuffixMeansAgreed(n, Suffix(u));
  }

  lemma SuffixMeansAgreed(n: nat, suffix: string)
    requires suffix in {"s", "ms", "us", "ns"}
    ensures ParseInterval(Dec(n) + suffix) == MacroParseInterval(Dec(n) + suffix)
  {
    hide ParseInterval, MacroParseInterval;
    var s := Dec(n) + suffix;
    ParsersAgreeExactly(s);
    ParseUintSyntax(s, MAX64);
    assert s[|s| - 1] == 's';
  }

  /** The suffix tests pick unit `u` when only its suffix, or besides it that of seconds, is there. */
  lemma FirstSuffixWins(s: string, u: Unit, d: string)
    requires StripSuffix(s, Suffix(u)) == Some(d)
    requires forall x: Unit :: x != u && x != Seconds ==> StripSuffix(s, Suffix(x)) == None
    ensures ParseInterval(s) == Scaled(d, Nanoseconds(u))
  {
    hide StripSuffix, Scaled;
    assert u != Millis ==> StripSuffix(s, Suffix(Millis)) == None;
    assert u != Micros ==> StripSuffix(s, Suffix(Micros)) == None;
    assert u != Nanos ==> StripSuffix(s, Suffix(Nanos)) == None;
  }

  lemma ScaledDec(n: nat, factor: nat)
    requires n <= MAX64
    ensures Scaled(Dec(n), factor) == Product64(n, factor)
  {
    ParseDec(n, MAX64);
    hide ParseUint, Dec, Product64;
  }

  lemma OtherSuffixesFail(d: string, u: Unit)
    requires d != "" && AllDigits(d)
    ensures forall x: Unit :: x != u && x != Seconds ==> StripSuffix(d + Suffix(u), Suffix(x)) == None
  {
    var s := d + Suffix(u);
    forall x: Unit | x != u && x != Seconds
      ensures StripSuffix(s, Suffix(x)) == None
    {
      var tail := s[|s| - 2..];
      if u == Seconds {
        assert tail[0] == d[|d| - 1] && IsDigit(tail[0]);
      } else {
        assert tail == Suffix(u);
      }
      assert tail[0] != Suffix(x)[0];
    }
  }

  /** A bare number is seconds, for the runtime only. */
  lemma BareNumber(n: nat)
    requires n <= MAX64
    ensures ParseInterval(Dec(n)) == Product64(n, Nanoseconds(Seconds))
    ensures MacroParseInterval(Dec(n)) == Bad
  {
    ParseDec(n, MAX64);
    NumberHasNoSuffix(Dec(n), "ms");
    NumberHasNoSuffix(Dec(n), "us");
    NumberHasNoSuffix(Dec(n), "ns");
    NumberHasNoSuffix(Dec(n), "s");
    hide StripSuffix, ParseUint, Dec, Product64;
  }

  /** The two parsers agree on exactly the strings that are not a bare number, which only the
      runtime accepts; in particular on everything the macro accepts. */
  lemma ParsersAgreeExactly(s: string)
    ensures MacroParseInterval(s) != Bad ==> ParseInterval(s) == MacroParseInterval(s)
    ensures ParseInterval(s) == MacroParseInterval(s) <==> ParseUint(s, MAX64) == None
  {
    hide Product64;
    if ParseUint(s, MAX64).Some? {
      NumberHasNoSuffix(s, "ms");
      NumberHasNoSuffix(s, "us");
      NumberHasNoSuffix(s, "ns");
      NumberHasNoSuffix(s, "s");
    }
  }

  lemma NumberHasNoSuffix(s: string, suffix: string)
    requires ParseUint(s, MAX64).Some? && suffix != "" && suffix[|suffix| - 1] == 's'
    ensures StripSuffix(s, suffix) == None
  {
    assert IsDigit(s[|s| - 1]) by {
      var d := if |s| > 1 && s[0] == '+' then s[1..] else s;
      assert s[|s| - 1] == d[|d| - 1];
    }
  }
}
