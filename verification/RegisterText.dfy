/** Register ranges and mapping offsets (`src/io/modbus/regs.rs`). */
module RegisterText {
  import opened Basics
  import opened Text

  datatype RegKind = Coil | Discrete | InputReg | Holding

  function Letter(k: RegKind): char {
    match k case Coil => 'c' case Discrete => 'd' case InputReg => 'i' case Holding => 'h'
  }

  datatype RegBase = RegBase(kind: RegKind, offset: nat, number: nat)

  function ParseKindOffset(r: string): Parsed<(RegKind, nat)> {
    if r == "" then Bad
    else
      var v := ParseUint(r[1..], MAX16);
      if v == None then Bad
      else if r[0] == 'c' then Ok((Coil, v.value))
      else if r[0] == 'd' then Ok((Discrete, v.value))
      else if r[0] == 'i' then Ok((InputReg, v.value))
      else if r[0] == 'h' then Ok((Holding, v.value))
      else Bad
  }

  /** The end of a range: a bare number, or an offset of the same kind. */
  function ParseEnd(kind: RegKind, s: string): Parsed<nat> {
    if ParseUint(s, MAX16).Some? then Ok(ParseUint(s, MAX16).value)
    else
      match ParseKindOffset(s)
      case Ok((kind2, offset2)) => if kind2 == kind then Ok(offset2) else Bad
      case _ => Bad
  }

  /** `RegBase::from_str`; parts after the second dash are ignored. */
  function ParseRegBase(s: string): Parsed<RegBase> {
    var parts := Split(s, '-');
    match ParseKindOffset(parts[0])
    case Ok((kind, offset)) =>
      if |parts| == 1 then Ok(RegBase(kind, offset, 1))
      else
        (match ParseEnd(kind, parts[1])
         case Ok(no) =>
           if no < offset then Bad
           else if no - offset + 1 > MAX16 then Overflow
           else Ok(RegBase(kind, offset, no - offset + 1))
         case _ => Bad)
    case _ => Bad
  }

  lemma ParsePrintedOffset(k: RegKind, a: nat)
    requires a <= MAX16
    ensures ParseKindOffset([Letter(k)] + Dec(a)) == Ok((k, a))
    ensures '-' !in [Letter(k)] + Dec(a)
    ensures ParseUint([Letter(k)] + Dec(a), MAX16) == None
  {
    var r := [Letter(k)] + Dec(a);
    assert r[1..] == Dec(a);
    ParseDec(a, MAX16);
    NotInDigits(Dec(a), '-');
    assert !IsDigit(r[0]);
  }

  /** The four kinds by their letters. */
  lemma KindLetters(a: nat)
    requires a < 0x1_0000
    ensures ParseKindOffset("c" + Dec(a)) == Ok((Coil, a))
    ensures ParseKindOffset("d" + Dec(a)) == Ok((Discrete, a))
    ensures ParseKindOffset("i" + Dec(a)) == Ok((InputReg, a))
    ensures ParseKindOffset("h" + Dec(a)) == Ok((Holding, a))
  {
    ParsePrintedOffset(Coil, a);
    ParsePrintedOffset(Discrete, a);
    ParsePrintedOffset(InputReg, a);
    ParsePrintedOffset(Holding, a);
    hide ParseKindOffset, Dec;
  }

  /** No other letter and no other text is taken for a kind and an offset. */
  lemma OnlyKindLetters(r: string)
    requires ParseKindOffset(r).Ok?
    ensures r != "" && r[0] in "cdih" && ParseUint(r[1..], 0xFFFF).Some?
  {
    hide ParseUint;
  }

  /** A printed range, with or without the second letter, parses to its kind, start and length;
      it is refused when it runs backwards, and only the full range does not fit. */
  lemma RangeText(k: RegKind, a: nat, b: nat)
    requires a <= MAX16 && b <= MAX16
    ensures var expected := if b < a then Bad
                            else if a == 0 && b == MAX16 then Overflow
                            else Ok(RegBase(k, a, b - a + 1));
            && ParseRegBase([Letter(k)] + Dec(a) + "-" + Dec(b)) == expected
            && ParseRegBase([Letter(k)] + Dec(a) + "-" + ([Letter(k)] + Dec(b))) == expected
  {
    hide ParseKindOffset, Split, ParseUint, Dec, Letter;
    var first := [Letter(k)] + Dec(a);
    ParsePrintedOffset(k, a);
    ParsePrintedOffset(k, b);
    ParseDec(b, MAX16);
    NotInDigits(Dec(b), '-');
    SplitWhole(Dec(b), '-');
    SplitWhole([Letter(k)] + Dec(b), '-');
    SplitFirst(first, '-', Dec(b));
    SplitFirst(first, '-', [Letter(k)] + Dec(b));
    assert "-" == ['-'];
  }

  lemma SingleText(k: RegKind, a: nat)
    requires a <= MAX16
    ensures ParseRegBase([Letter(k)] + Dec(a)) == Ok(RegBase(k, a, 1))
  {
    ParsePrintedOffset(k, a);
    SplitWhole([Letter(k)] + Dec(a), '-');
  }

  /** A range between two kinds is refused. */
  lemma MixedKindsRefused(k: RegKind, k2: RegKind, a: nat, b: nat)
    requires a <= MAX16 && b <= MAX16 && k != k2
    ensures ParseRegBase([Letter(k)] + Dec(a) + "-" + ([Letter(k2)] + Dec(b))) == Bad
  {
    hide ParseKindOffset, Split, ParseUint, Dec, Letter;
    ParsePrintedOffset(k, a);
    ParsePrintedOffset(k2, b);
    SplitWhole([Letter(k2)] + Dec(b), '-');
    SplitFirst([Letter(k)] + Dec(a), '-', [Letter(k2)] + Dec(b));
    assert "-" == ['-'];
  }

  // ---------------------------------------------------------------- offsets

  /** Adding terms left to right in 16 bits, from `acc`. */
  function SumTerms(parts: seq<string>, acc: nat): Parsed<nat> {
    if parts == [] then Ok(acc)
    else
      match ParseUint(parts[0], MAX16)
      case None => Bad
      case Some(n) => if acc + n > MAX16 then Overflow else SumTerms(parts[1..], acc + n)
  }

  /** `calc_offset` */
  method CalcOffset(s: string) returns (r: Parsed<nat>)
    ensures r == SumTerms(Split(s, '+'), 0)
  {
    hide Split, ParseUint;
    var parts := Split(s, '+');
    var o: nat, i := 0, 0;
    assert parts[0..] == parts;
    while i < |parts|
      invariant 0 <= i <= |parts|
      invariant SumTerms(parts, 0) == SumTerms(parts[i..], o)
    {
      var v := ParseUint(parts[i], MAX16);
      assert parts[i..][0] == parts[i];
      if v == None {
        return Bad;
      }
      if o + v.value > MAX16 {
        return Overflow;
      }
      assert parts[i..][1..] == parts[i + 1..];
      o, i := o + v.value, i + 1;
    }
    r := Ok(o);
  }

  datatype Offset = Str(s: string) | Num(n: nat)

  /** `calc_offset_base` */
  function OffsetAgainst(s: string, base: nat): Parsed<nat> {
    match StripPrefix(s, '=')
    case Some(v) =>
      (match SumTerms(Split(v, '+'), 0)
       case Ok(o) => if o < base then Bad else Ok(o - base)
       case other => other)
    case None => SumTerms(Split(s, '+'), 0)
  }

  class MapOffset {
    var offset: Offset

    constructor (offset: Offset)
      ensures this.offset == offset
    {
      this.offset := offset;
    }

    /** Text is replaced by its value; a number, and text that does not evaluate, stay. */
    method Normalize(base: nat) returns (r: Parsed<()>)
      modifies this
      ensures match old(offset)
              case Num(n) => r == Ok(()) && offset == old(offset)
              case Str(s) =>
                (match OffsetAgainst(s, base)
                 case Ok(n) => r == Ok(()) && offset == Num(n)
                 case Bad => r == Bad && offset == old(offset)
                 case Overflow => r == Overflow && offset == old(offset))
    {
      if offset.Num? {
        return Ok(());
      }
      var s := offset.s;
      var v := StripPrefix(s, '=');
      var o := CalcOffset(if v.Some? then v.value else s);
      if o.Bad? {
        return Bad;
      }
      if o.Overflow? {
        return Overflow;
      }
      if v.Some? && o.value < base {
        return Bad;
      }
      offset := Num(if v.Some? then o.value - base else o.value);
      r := Ok(());
    }
  }

  function Total(xs: seq<nat>): nat {
    if xs == [] then 0 else xs[0] + Total(xs[1..])
  }

  /** `x+y+...` */
  function TermsText(xs: seq<nat>): string
    requires xs != []
  {
    if |xs| == 1 then Dec(xs[0]) else Dec(xs[0]) + "+" + TermsText(xs[1..])
  }

  function DecAll(xs: seq<nat>): (parts: seq<string>)
    ensures |parts| == |xs|
  {
    if xs == [] then [] else [Dec(xs[0])] + DecAll(xs[1..])
  }

  lemma {:induction false} SplitTerms(xs: seq<nat>)
    requires xs != []
    ensures Split(TermsText(xs), '+') == DecAll(xs)
  {
    hide Split, Dec;
    NotInDigits(Dec(xs[0]), '+');
    if |xs| == 1 {
      SplitWhole(Dec(xs[0]), '+');
    } else {
      SplitTerms(xs[1..]);
      SplitFirst(Dec(xs[0]), '+', TermsText(xs[1..]));
      assert "+" == ['+'];
    }
  }

  lemma {:induction false} SumOfTerms(xs: seq<nat>, acc: nat)
    requires acc <= MAX16 && forall i :: 0 <= i < |xs| ==> xs[i] <= MAX16
    ensures SumTerms(DecAll(xs), acc) == if acc + Total(xs) <= MAX16 then Ok(acc + Total(xs)) else Overflow
  {
    hide ParseUint, Dec;
    if xs != [] {
      ParseDec(xs[0], MAX16);
      assert DecAll(xs)[1..] == DecAll(xs[1..]);
      if acc + xs[0] <= MAX16 {
        SumOfTerms(xs[1..], acc + xs[0]);
      }
    }
  }

  /** A sum of terms evaluates to its total exactly when that fits 16 bits; with `=` the base is
      taken off, so that base plus result is the total, exactly when the total reaches it. */
  lemma OffsetText(xs: seq<nat>, base: nat)
    requires xs != [] && forall i :: 0 <= i < |xs| ==> xs[i] <= MAX16
    ensures OffsetAgainst(TermsText(xs), base) == if Total(xs) <= MAX16 then Ok(Total(xs)) else Overflow
    ensures var r := OffsetAgainst("=" + TermsText(xs), base);
            && (r.Ok? <==> base <= Total(xs) <= MAX16)
            && (r.Ok? ==> base + r.value == Total(xs))
  {
    hide Split, SumTerms, TermsText, Dec, DecAll, Total;
    SplitTerms(xs);
    SumOfTerms(xs, 0);
    var s := TermsText(xs);
    assert ("=" + s)[1..] == s;
    TermsStartWithDigit(xs);
  }

  lemma TermsStartWithDigit(xs: seq<nat>)
    requires xs != []
    ensures TermsText(xs) != "" && IsDigit(TermsText(xs)[0])
  {
    assert IsDigit(Dec(xs[0])[0]);
  }
}
