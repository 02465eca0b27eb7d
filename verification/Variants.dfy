/** OPC-UA values and the equality the output filter compares them with. */
module Variants {

  type Bits32 = x: nat | x < 0x1_0000_0000
  type Bits64 = x: nat | x < 0x1_0000_0000_0000_0000

  /** Floats are bit patterns; every other scalar is compared as it stands. */
  datatype Variant =
    | Scalar(tag: nat, data: int)
    | Float32(single: Bits32)
    | Float64(double: Bits64)
    | Array(elems: seq<Variant>)

  const SIGN32: nat := 0x8000_0000
  const INFINITY32: nat := 0x7F80_0000
  const SIGN64: nat := 0x8000_0000_0000_0000
  const INFINITY64: nat := 0x7FF0_0000_0000_0000

  predicate IsNan(bits: nat, sign: nat, infinity: nat)
    requires sign > 0
  {
    bits % sign > infinity
  }

  predicate IsZero(bits: nat, sign: nat)
    requires sign > 0
  {
    bits == 0 || bits == sign
  }

  /** IEEE 754 equality on patterns: a NaN equals nothing, the two zeros equal each other. */
  predicate FloatEq(a: nat, b: nat, sign: nat, infinity: nat)
    requires sign > 0
  {
    && !IsNan(a, sign, infinity) && !IsNan(b, sign, infinity)
    && (a == b || (IsZero(a, sign) && IsZero(b, sign)))
  }

  /** `PartialEq` on `Variant`. */
  predicate Eq(a: Variant, b: Variant) {
    match (a, b)
    case (Scalar(t, x), Scalar(u, y)) => t == u && x == y
    case (Float32(x), Float32(y)) => FloatEq(x, y, SIGN32, INFINITY32)
    case (Float64(x), Float64(y)) => FloatEq(x, y, SIGN64, INFINITY64)
    case (Array(x), Array(y)) => |x| == |y| && forall i :: 0 <= i < |x| ==> Eq(x[i], y[i])
    case _ => false
  }

  /** Equality of two 32-bit floats by the fields of IEEE 754: one sign bit, 8 of exponent, 23 of
      mantissa. */
  lemma EqIsIeee32(a: Bits32, b: Bits32)
    ensures var (s, e, m) := (a / 0x8000_0000, a / 0x80_0000 % 0x100, a % 0x80_0000);
            var (t, f, n) := (b / 0x8000_0000, b / 0x80_0000 % 0x100, b % 0x80_0000);
            Eq(Float32(a), Float32(b)) <==>
              && !(e == 255 && m != 0) && !(f == 255 && n != 0)
              && ((s == t && e == f && m == n) || (e == 0 && m == 0 && f == 0 && n == 0))
  {
    Fields32(a);
    Fields32(b);
  }

  lemma Fields32(a: Bits32)
    ensures var (s, e, m) := (a / 0x8000_0000, a / 0x80_0000 % 0x100, a % 0x80_0000);
            && a == s * 0x8000_0000 + e * 0x80_0000 + m && s <= 1
            && (IsNan(a, SIGN32, INFINITY32) <==> e == 255 && m != 0)
            && (IsZero(a, SIGN32) <==> e == 0 && m == 0)
  {
    var q := a / 0x80_0000;
    assert a == q * 0x80_0000 + a % 0x80_0000 && q / 0x100 == a / 0x8000_0000;
    assert a % SIGN32 == q % 0x100 * 0x80_0000 + a % 0x80_0000;
  }

  /** The same for 64 bits: one, 11 and 52. */
  lemma EqIsIeee64(a: Bits64, b: Bits64)
    ensures var (s, e, m) := (a / 0x8000_0000_0000_0000, a / 0x10_0000_0000_0000 % 0x800, a % 0x10_0000_0000_0000);
            var (t, f, n) := (b / 0x8000_0000_0000_0000, b / 0x10_0000_0000_0000 % 0x800, b % 0x10_0000_0000_0000);
            Eq(Float64(a), Float64(b)) <==>
              && !(e == 2047 && m != 0) && !(f == 2047 && n != 0)
              && ((s == t && e == f && m == n) || (e == 0 && m == 0 && f == 0 && n == 0))
  {
    Fields64(a);
    Fields64(b);
  }

  lemma Fields64(a: Bits64)
    ensures var (s, e, m) := (a / 0x8000_0000_0000_0000, a / 0x10_0000_0000_0000 % 0x800, a % 0x10_0000_0000_0000);
            && a == s * 0x8000_0000_0000_0000 + e * 0x10_0000_0000_0000 + m && s <= 1
            && (IsNan(a, SIGN64, INFINITY64) <==> e == 2047 && m != 0)
            && (IsZero(a, SIGN64) <==> e == 0 && m == 0)
  {
    var q := a / 0x10_0000_0000_0000;
    assert a == q * 0x10_0000_0000_0000 + a % 0x10_0000_0000_0000 && q / 0x800 == a / 0x8000_0000_0000_0000;
    assert a % SIGN64 == q % 0x800 * 0x10_0000_0000_0000 + a % 0x10_0000_0000_0000;
  }

  /** Everything else: scalars by type and value, arrays element by element, and nothing across. */
  lemma EqOfOthers(a: Variant, b: Variant)
    ensures a.Scalar? ==> (Eq(a, b) <==> a == b)
    ensures a.Array? && b.Array? ==>
              (Eq(a, b) <==> |a.elems| == |b.elems| && forall i :: 0 <= i < |a.elems| ==> Eq(a.elems[i], b.elems[i]))
    ensures Eq(a, b) ==> (a.Float32? == b.Float32?) && (a.Float64? == b.Float64?) && (a.Array? == b.Array?)
  {
  }

  predicate HasNan(v: Variant) {
    match v
    case Scalar(_, _) => false
    case Float32(b) => IsNan(b, SIGN32, INFINITY32)
    case Float64(b) => IsNan(b, SIGN64, INFINITY64)
    case Array(x) => exists i :: 0 <= i < |x| && HasNan(x[i])
  }

  predicate HasZero(v: Variant) {
    match v
    case Scalar(_, _) => false
    case Float32(b) => IsZero(b, SIGN32)
    case Float64(b) => IsZero(b, SIGN64)
    case Array(x) => exists i :: 0 <= i < |x| && HasZero(x[i])
  }

  /** Two values the filter cannot tell apart, or the same value (NaN included). */
  predicate Close(a: Variant, b: Variant) {
    a == b || Eq(a, b)
  }

  /** The other zero in place of the zeros of `v`. */
  function FlipZeros(v: Variant): Variant {
    match v
    case Scalar(_, _) => v
    case Float32(b) => if b == 0 then Float32(SIGN32) else if b == SIGN32 then Float32(0) else v
    case Float64(b) => if b == 0 then Float64(SIGN64) else if b == SIGN64 then Float64(0) else v
    case Array(x) => Array(seq(|x|, i requires 0 <= i < |x| => FlipZeros(x[i])))
  }

  lemma {:induction false} FlipIsEq(v: Variant)
    requires !HasNan(v)
    ensures Eq(FlipZeros(v), v)
    ensures HasZero(v) ==> FlipZeros(v) != v
  {
    if v.Array? {
      var f := FlipZeros(v);
      forall i | 0 <= i < |v.elems|
        ensures Eq(f.elems[i], v.elems[i]) && (HasZero(v.elems[i]) ==> f.elems[i] != v.elems[i])
      {
        FlipIsEq(v.elems[i]);
      }
      if HasZero(v) {
        var i :| 0 <= i < |v.elems| && HasZero(v.elems[i]);
        assert f.elems[i] != v.elems[i];
      }
    }
  }

  lemma {:induction false} EqWithoutZeroIsIdentity(a: Variant, v: Variant)
    requires Eq(a, v) && !HasZero(v)
    ensures a == v
  {
    if v.Array? {
      forall i | 0 <= i < |v.elems|
        ensures a.elems[i] == v.elems[i]
      {
        EqWithoutZeroIsIdentity(a.elems[i], v.elems[i]);
      }
      assert a.elems == v.elems;
    }
  }

  lemma {:induction false} EqMeansNoNan(a: Variant, v: Variant)
    requires Eq(a, v)
    ensures !HasNan(v)
  {
    if v.Array? {
      forall i | 0 <= i < |v.elems|
        ensures !HasNan(v.elems[i])
      {
        EqMeansNoNan(a.elems[i], v.elems[i]);
      }
    }
  }

  /** Being held as a different value is possible for exactly these values. */
  predicate SignedZeroRisk(v: Variant) {
    HasZero(v) && !HasNan(v)
  }

  lemma CloseIsIdentityExactly(v: Variant)
    ensures (forall a: Variant :: Close(a, v) ==> a == v) <==> !SignedZeroRisk(v)
  {
    if SignedZeroRisk(v) {
      FlipIsEq(v);
      assert Close(FlipZeros(v), v);
    } else {
      forall a: Variant | Close(a, v)
        ensures a == v
      {
        if Eq(a, v) {
          EqMeansNoNan(a, v);
          EqWithoutZeroIsIdentity(a, v);
        }
      }
    }
  }
}
