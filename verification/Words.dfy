/** The register codecs of `src/io/modbus/types.rs`. Words are 16 bits, high byte first, as in
    section 4.2 of the MODBUS Application Protocol Specification V1.1b3. Integers put their high
    word first, floats their low word. Floats are their bit patterns. */
module Words {
  import opened Basics

  type Word = x: nat | x < 0x1_0000

  const TWO32: nat := 0x1_0000_0000
  const TWO64: nat := 0x1_0000_0000_0000_0000

  // ---------------------------------------------------------------- bytes

  function HighByte(w: Word): Byte { w / 0x100 }
  function LowByte(w: Word): Byte { w % 0x100 }

  /** `u16::from(a).overflowing_shl(8).0 + u16::from(b)` */
  function Join(a: Byte, b: Byte): Word { a * 0x100 + b }

  /** `to_be_bytes` of a 32-bit value, by halves. */
  function ToBe4(v: nat): (b: seq<Byte>)
    requires v < TWO32
    ensures |b| == 4
  {
    var hi: Word, lo: Word := v / 0x1_0000, v % 0x1_0000;
    [HighByte(hi), LowByte(hi), HighByte(lo), LowByte(lo)]
  }

  function FromBe4(b: seq<Byte>): (v: nat)
    requires |b| == 4
    ensures v < TWO32
  {
    (Join(b[0], b[1]) as nat) * 0x1_0000 + Join(b[2], b[3])
  }

  /** The same bytes one by one. */
  lemma Be4Bytes(v: nat)
    requires v < TWO32
    ensures ToBe4(v) == [v / 0x100_0000, v / 0x1_0000 % 0x100, v / 0x100 % 0x100, v % 0x100]
  {
    var hi, lo := v / 0x1_0000, v % 0x1_0000;
    assert v / 0x100_0000 == hi / 0x100;
    assert v / 0x100 == hi * 0x100 + lo / 0x100;
  }

  function ToBe8(v: nat): (b: seq<Byte>)
    requires v < TWO64
    ensures |b| == 8
  {
    ToBe4(v / TWO32) + ToBe4(v % TWO32)
  }

  function FromBe8(b: seq<Byte>): (v: nat)
    requires |b| == 8
    ensures v < TWO64
  {
    FromBe4(b[..4]) * TWO32 + FromBe4(b[4..])
  }

  lemma JoinUndo(a: Byte, b: Byte, w: Word)
    ensures HighByte(Join(a, b)) == a && LowByte(Join(a, b)) == b && Join(HighByte(w), LowByte(w)) == w
  {
  }

  lemma Be4Undo(v: nat, b: seq<Byte>)
    requires v < TWO32 && |b| == 4
    ensures FromBe4(ToBe4(v)) == v && ToBe4(FromBe4(b)) == b
  {
    JoinUndo(b[0], b[1], v / 0x1_0000);
    JoinUndo(b[2], b[3], v % 0x1_0000);
    var x := FromBe4(b);
    assert x / 0x1_0000 == Join(b[0], b[1]) && x % 0x1_0000 == Join(b[2], b[3]);
    hide Join, HighByte, LowByte;
  }

  lemma Be8Undo(v: nat, b: seq<Byte>)
    requires v < TWO64 && |b| == 8
    ensures FromBe8(ToBe8(v)) == v && ToBe8(FromBe8(b)) == b
  {
    Be4Undo(v / TWO32, b[..4]);
    Be4Undo(v % TWO32, b[4..]);
    assert ToBe8(v)[..4] == ToBe4(v / TWO32) && ToBe8(v)[4..] == ToBe4(v % TWO32);
    assert FromBe8(b) / TWO32 == FromBe4(b[..4]) && FromBe8(b) % TWO32 == FromBe4(b[4..]);
    assert b[..4] + b[4..] == b;
  }

  // ---------------------------------------------------------------- one value

  datatype Elem = U16 | I16 | U32 | I32 | U64 | I64 | F32 | F64

  function Width(e: Elem): nat {
    match e
    case U16 => 1 case I16 => 1
    case U32 => 2 case I32 => 2 case F32 => 2
    case U64 => 4 case I64 => 4 case F64 => 4
  }

  function Modulus(e: Elem): nat {
    match Width(e) case 1 => 0x1_0000 case 2 => TWO32 case _ => TWO64
  }

  predicate Signed(e: Elem) {
    e == I16 || e == I32 || e == I64
  }

  predicate InRange(e: Elem, v: int) {
    if Signed(e) then 0 <= v + Modulus(e) / 2 < Modulus(e) else 0 <= v < Modulus(e)
  }

  /** The `as u16` / `as u32` / `as u64` cast of the signed encoders. */
  function AsUnsigned(e: Elem, v: int): (u: nat)
    requires InRange(e, v)
    ensures u < Modulus(e)
  {
    if v < 0 then v + Modulus(e) else v
  }

  /** The reading of a bit pattern at the element's type. */
  function AsElem(e: Elem, u: nat): (v: int)
    requires u < Modulus(e)
    ensures InRange(e, v)
  {
    if Signed(e) && u >= Modulus(e) / 2 then u - Modulus(e) else u
  }

  lemma CastsUndo(e: Elem, v: int, u: nat)
    requires InRange(e, v) && u < Modulus(e)
    ensures AsElem(e, AsUnsigned(e, v)) == v && AsUnsigned(e, AsElem(e, u)) == u
  {
  }

  function U32ToModbusArray(v: nat): (ws: seq<Word>)
    requires v < TWO32
    ensures |ws| == 2
  {
    var b := ToBe4(v);
    [Join(b[0], b[1]), Join(b[2], b[3])]
  }

  function F32ToModbusArray(v: nat): (ws: seq<Word>)
    requires v < TWO32
    ensures |ws| == 2
  {
    var b := ToBe4(v);
    [Join(b[2], b[3]), Join(b[0], b[1])]
  }

  function U64ToModbusArray(v: nat): (ws: seq<Word>)
    requires v < TWO64
    ensures |ws| == 4
  {
    var b := ToBe8(v);
    [Join(b[0], b[1]), Join(b[2], b[3]), Join(b[4], b[5]), Join(b[6], b[7])]
  }

  function F64ToModbusArray(v: nat): (ws: seq<Word>)
    requires v < TWO64
    ensures |ws| == 4
  {
    var b := ToBe8(v);
    [Join(b[6], b[7]), Join(b[4], b[5]), Join(b[2], b[3]), Join(b[0], b[1])]
  }

  function EncodeOne(e: Elem, v: int): (ws: seq<Word>)
    requires InRange(e, v)
    ensures |ws| == Width(e)
  {
    var u := AsUnsigned(e, v);
    match e
    case U16 => [u]
    case I16 => [u]
    case U32 => U32ToModbusArray(u)
    case I32 => U32ToModbusArray(u)
    case U64 => U64ToModbusArray(u)
    case I64 => U64ToModbusArray(u)
    case F32 => F32ToModbusArray(u)
    case F64 => F64ToModbusArray(u)
  }

  function BytesOf(ws: seq<Word>): (b: seq<Byte>)
    ensures |b| == 2 * |ws|
  {
    if ws == [] then [] else [HighByte(ws[0]), LowByte(ws[0])] + BytesOf(ws[1..])
  }

  /** The bytes of the words in the order in which the decoder of `e` puts them together. */
  function DecodeOne(e: Elem, ws: seq<Word>): (v: int)
    requires |ws| == Width(e)
    ensures InRange(e, v)
  {
    match e
    case U16 => ws[0]
    case I16 => AsElem(e, ws[0])
    case U32 => FromBe4(BytesOf([ws[0], ws[1]]))
    case I32 => AsElem(e, FromBe4(BytesOf([ws[0], ws[1]])))
    case U64 => FromBe8(BytesOf([ws[0], ws[1], ws[2], ws[3]]))
    case I64 => AsElem(e, FromBe8(BytesOf([ws[0], ws[1], ws[2], ws[3]])))
    case F32 => FromBe4(BytesOf([ws[1], ws[0]]))
    case F64 => FromBe8(BytesOf([ws[3], ws[2], ws[1], ws[0]]))
  }

  lemma Bytes2(a: Word, b: Word)
    ensures BytesOf([a, b]) == [HighByte(a), LowByte(a), HighByte(b), LowByte(b)]
  {
    assert [a, b][1..] == [b] && [b][1..] == [];
    assert BytesOf([b]) == [HighByte(b), LowByte(b)];
  }

  lemma Bytes4(a: Word, b: Word, c: Word, d: Word)
    ensures BytesOf([a, b, c, d]) == BytesOf([a, b]) + BytesOf([c, d])
  {
    assert [a, b, c, d][1..] == [b, c, d] && [b, c, d][1..] == [c, d];
    Bytes2(a, b);
  }

  /** Decoding two encoded words, high word first. */
  lemma TwoWords(v: nat, a: Word, b: Word)
    requires v < TWO32
    ensures BytesOf(U32ToModbusArray(v)) == ToBe4(v)
    ensures U32ToModbusArray(FromBe4(BytesOf([a, b]))) == [a, b]
  {
    var t := ToBe4(v);
    var ws := U32ToModbusArray(v);
    Bytes2(ws[0], ws[1]);
    JoinUndo(t[0], t[1], a);
    JoinUndo(t[2], t[3], b);
    assert BytesOf([ws[0], ws[1]]) == t;
    assert [ws[0], ws[1]] == ws;
    Bytes2(a, b);
    Be4Undo(v, BytesOf([a, b]));
  }

  lemma FourWords(v: nat, a: Word, b: Word, c: Word, d: Word)
    requires v < TWO64
    ensures BytesOf(U64ToModbusArray(v)) == ToBe8(v)
    ensures U64ToModbusArray(FromBe8(BytesOf([a, b, c, d]))) == [a, b, c, d]
  {
    var hi, lo := U32ToModbusArray(v / TWO32), U32ToModbusArray(v % TWO32);
    TwoWords(v / TWO32, a, b);
    TwoWords(v % TWO32, c, d);
    var ws := U64ToModbusArray(v);
    assert ws == [hi[0], hi[1], lo[0], lo[1]];
    assert [hi[0], hi[1]] == hi && [lo[0], lo[1]] == lo;
    Bytes4(hi[0], hi[1], lo[0], lo[1]);
    Bytes4(a, b, c, d);
    var bs := BytesOf([a, b, c, d]);
    Be8Undo(v, bs);
    assert bs[..4] == BytesOf([a, b]) && bs[4..] == BytesOf([c, d]);
    var x := FromBe8(bs);
    assert ToBe8(x) == bs;
    Be4Undo(0, bs[..4]);
    Be4Undo(0, bs[4..]);
    assert U64ToModbusArray(x) == U32ToModbusArray(FromBe4(bs[..4])) + U32ToModbusArray(FromBe4(bs[4..]));
  }

  /** The words as numbers: integers high word first, floats low word first. */
  lemma WordOrder(v: nat, u: nat)
    requires v < TWO32 && u < TWO64
    ensures U32ToModbusArray(v) == [v / 0x1_0000, v % 0x1_0000]
    ensures F32ToModbusArray(v) == [v % 0x1_0000, v / 0x1_0000]
    ensures U64ToModbusArray(u)
            == [u / TWO32 / 0x1_0000, u / TWO32 % 0x1_0000, u % TWO32 / 0x1_0000, u % TWO32 % 0x1_0000]
    ensures F64ToModbusArray(u)
            == [u % TWO32 % 0x1_0000, u % TWO32 / 0x1_0000, u / TWO32 % 0x1_0000, u / TWO32 / 0x1_0000]
  {
    WordOrder32(v);
    WordOrder32(u / TWO32);
    WordOrder32(u % TWO32);
    hide ToBe4, Join;
  }

  lemma WordOrder32(v: nat)
    requires v < TWO32
    ensures Join(ToBe4(v)[0], ToBe4(v)[1]) == v / 0x1_0000
    ensures Join(ToBe4(v)[2], ToBe4(v)[3]) == v % 0x1_0000
  {
    JoinUndo(0, 0, v / 0x1_0000);
    JoinUndo(0, 0, v % 0x1_0000);
  }

  // ---------------------------------------------------------------- float word order

  /** `to_swapped_modbus_endianness` on bit patterns. */
  function Swapped32(v: nat): nat
    requires v < TWO32
  {
    var b := ToBe4(v);
    FromBe4([b[2], b[3], b[0], b[1]])
  }

  function Swapped64(v: nat): nat
    requires v < TWO64
  {
    var b := ToBe8(v);
    FromBe8([b[6], b[7], b[4], b[5], b[2], b[3], b[0], b[1]])
  }

  /** The float encoding is the integer encoding of the swapped pattern, and swapping undoes
      itself. */
  lemma FloatIsSwappedInt32(v: nat)
    requires v < TWO32
    ensures Swapped32(v) < TWO32 && F32ToModbusArray(v) == U32ToModbusArray(Swapped32(v))
    ensures Swapped32(Swapped32(v)) == v
  {
    var b := ToBe4(v);
    var s := [b[2], b[3], b[0], b[1]];
    Be4Undo(v, s);
    assert ToBe4(Swapped32(v)) == s;
    assert [s[2], s[3], s[0], s[1]] == b;
  }

  lemma FloatIsSwappedInt64(v: nat)
    requires v < TWO64
    ensures Swapped64(v) < TWO64 && F64ToModbusArray(v) == U64ToModbusArray(Swapped64(v))
    ensures Swapped64(Swapped64(v)) == v
  {
    var b := ToBe8(v);
    var s := [b[6], b[7], b[4], b[5], b[2], b[3], b[0], b[1]];
    Be8Undo(v, s);
    assert ToBe8(Swapped64(v)) == s;
    assert [s[6], s[7], s[4], s[5], s[2], s[3], s[0], s[1]] == b;
  }

  /** Decoding a float is decoding the integer with its words in the other order. */
  lemma FloatWords32(v: nat, a: Word, b: Word)
    requires v < TWO32
    ensures DecodeOne(F32, F32ToModbusArray(v)) == v
    ensures F32ToModbusArray(FromBe4(BytesOf([a, b]))) == [b, a]
  {
    var ws := F32ToModbusArray(v);
    TwoWords(v, a, b);
    assert [ws[1], ws[0]] == U32ToModbusArray(v);
    Be4Undo(v, BytesOf([a, b]));
    var us := U32ToModbusArray(FromBe4(BytesOf([a, b])));
    assert us == [a, b];
    assert F32ToModbusArray(FromBe4(BytesOf([a, b]))) == [us[1], us[0]];
  }

  lemma FloatWords64(v: nat, a: Word, b: Word, c: Word, d: Word)
    requires v < TWO64
    ensures DecodeOne(F64, F64ToModbusArray(v)) == v
    ensures F64ToModbusArray(FromBe8(BytesOf([a, b, c, d]))) == [d, c, b, a]
  {
    var ws := F64ToModbusArray(v);
    FourWords(v, a, b, c, d);
    assert [ws[3], ws[2], ws[1], ws[0]] == U64ToModbusArray(v);
    Be8Undo(v, BytesOf([a, b, c, d]));
    var us := U64ToModbusArray(FromBe8(BytesOf([a, b, c, d])));
    assert us == [a, b, c, d];
    assert F64ToModbusArray(FromBe8(BytesOf([a, b, c, d]))) == [us[3], us[2], us[1], us[0]];
  }

  // ---------------------------------------------------------------- one value, both ways

  lemma DecodeEncoded(e: Elem, v: int)
    requires InRange(e, v)
    ensures DecodeOne(e, EncodeOne(e, v)) == v
  {
    var u := AsUnsigned(e, v);
    CastsUndo(e, v, u);
    var ws := EncodeOne(e, v);
    match Width(e)
    case 1 =>
    case 2 =>
      if e == F32 {
        FloatWords32(u, 0, 0);
      } else {
        TwoWords(u, 0, 0);
        Be4Undo(u, ToBe4(u));
        assert [ws[0], ws[1]] == ws;
      }
    case _ =>
      if e == F64 {
        FloatWords64(u, 0, 0, 0, 0);
      } else {
        FourWords(u, 0, 0, 0, 0);
        Be8Undo(u, ToBe8(u));
        assert [ws[0], ws[1], ws[2], ws[3]] == ws;
      }
  }

  lemma EncodeDecoded32(e: Elem, ws: seq<Word>)
    requires Width(e) == 2 && |ws| == 2
    ensures EncodeOne(e, DecodeOne(e, ws)) == ws
  {
    hide FromBe4, ToBe4, BytesOf, U32ToModbusArray, F32ToModbusArray;
    if e == F32 {
      FloatWords32(0, ws[1], ws[0]);
    } else {
      TwoWords(0, ws[0], ws[1]);
      CastsUndo(e, 0, FromBe4(BytesOf([ws[0], ws[1]])));
    }
  }

  lemma EncodeDecoded64(e: Elem, ws: seq<Word>)
    requires Width(e) == 4 && |ws| == 4
    ensures EncodeOne(e, DecodeOne(e, ws)) == ws
  {
    hide FromBe8, ToBe8, BytesOf, U64ToModbusArray, F64ToModbusArray;
    if e == F64 {
      FloatWords64(0, ws[3], ws[2], ws[1], ws[0]);
    } else {
      FourWords(0, ws[0], ws[1], ws[2], ws[3]);
      CastsUndo(e, 0, FromBe8(BytesOf([ws[0], ws[1], ws[2], ws[3]])));
    }
  }

  lemma EncodeDecoded(e: Elem, ws: seq<Word>)
    requires |ws| == Width(e)
    ensures EncodeOne(e, DecodeOne(e, ws)) == ws
  {
    match Width(e)
    case 1 => CastsUndo(e, 0, ws[0]);
    case 2 => EncodeDecoded32(e, ws);
    case _ => EncodeDecoded64(e, ws);
    hide FromBe4, FromBe8, ToBe4, ToBe8, BytesOf;
  }

  // ---------------------------------------------------------------- words as numbers

  /** The words read as one number, high word first. */
  function NumberOf(ws: seq<Word>): nat {
    if ws == [] then 0 else NumberOf(ws[..|ws| - 1]) * 0x1_0000 + ws[|ws| - 1]
  }

  lemma NumberOf2(ws: seq<Word>)
    requires |ws| == 2
    ensures NumberOf(ws) == (ws[0] as nat) * 0x1_0000 + ws[1]
  {
    assert ws[..1] == [ws[0]] && [ws[0]][..0] == [];
    assert NumberOf([ws[0]]) == ws[0];
  }

  lemma NumberOf4(ws: seq<Word>)
    requires |ws| == 4
    ensures NumberOf(ws) ==
            ((ws[0] as nat) * 0x1_0000 + ws[1]) * 0x1_0000_0000 + (ws[2] as nat) * 0x1_0000 + ws[3]
  {
    NumberOf2(ws[..2]);
    assert ws[..3][..2] == ws[..2] && ws[..4] == ws;
    assert NumberOf(ws[..3]) == NumberOf(ws[..2]) * 0x1_0000 + ws[2];
  }

  function Reversed(ws: seq<Word>): (r: seq<Word>)
    ensures |r| == |ws|
  {
    if ws == [] then [] else Reversed(ws[1..]) + [ws[0]]
  }

  /** Which values an element can have. */
  lemma Ranges(e: Elem, v: int)
    ensures InRange(e, v) <==>
            match e
            case U16 => 0 <= v < 0x1_0000
            case I16 => -0x8000 <= v < 0x8000
            case U32 => 0 <= v < 0x1_0000_0000
            case I32 => -0x8000_0000 <= v < 0x8000_0000
            case U64 => 0 <= v < 0x1_0000_0000_0000_0000
            case I64 => -0x8000_0000_0000_0000 <= v < 0x8000_0000_0000_0000
            case F32 => 0 <= v < 0x1_0000_0000
            case F64 => 0 <= v < 0x1_0000_0000_0000_0000
  {
  }

  /** The number the words of a value make up, high word first for integers and low word first for
      floats: the value itself or, if it is negative, its two's complement. */
  function Pattern(e: Elem, v: int): int {
    if v >= 0 then v
    else match e case I16 => v + 0x1_0000 case I32 => v + 0x1_0000_0000 case _ => v + 0x1_0000_0000_0000_0000
  }

  predicate LowFirst(e: Elem) {
    e == F32 || e == F64
  }

  /** What is on the wire for a value of any type. */
  lemma EncodedNumber(e: Elem, v: int)
    requires InRange(e, v)
    ensures NumberOf(if LowFirst(e) then Reversed(EncodeOne(e, v)) else EncodeOne(e, v)) == Pattern(e, v)
  {
    var u := AsUnsigned(e, v);
    assert u == Pattern(e, v);
    EncodedUnsigned(e, u);
  }

  lemma EncodedUnsigned(e: Elem, u: nat)
    requires u < Modulus(e)
    ensures var v := AsElem(e, u);
            NumberOf(if LowFirst(e) then Reversed(EncodeOne(e, v)) else EncodeOne(e, v)) == u
  {
    CastsUndo(e, 0, u);
    match Width(e)
    case 1 =>
      Number16(u);
    case 2 =>
      Number32(u);
      ReversedFloat(u, 0);
    case _ =>
      Number64(u);
      ReversedFloat(0, u);
    hide NumberOf, Reversed, U32ToModbusArray, F32ToModbusArray, U64ToModbusArray, F64ToModbusArray, AsElem, AsUnsigned;
  }

  lemma Number16(w: Word)
    ensures NumberOf([w]) == w
  {
    assert [w][..0] == [];
  }

  lemma Number32(v: nat)
    requires v < TWO32
    ensures NumberOf(U32ToModbusArray(v)) == v
  {
    var ws := U32ToModbusArray(v);
    assert ws[0] == v / 0x1_0000 && ws[1] == v % 0x1_0000 by { WordOrder32(v); }
    hide U32ToModbusArray;
    NumberOf2(ws);
    hide NumberOf;
    Quotient(v, 0x1_0000);
  }

  lemma Quotient(v: nat, d: nat)
    requires d > 0
    ensures v == v / d * d + v % d
  {
  }

  lemma Number64(u: nat)
    requires u < TWO64
    ensures NumberOf(U64ToModbusArray(u)) == u
  {
    var hi, lo, ws := U32ToModbusArray(u / TWO32), U32ToModbusArray(u % TWO32), U64ToModbusArray(u);
    assert ws == [hi[0], hi[1], lo[0], lo[1]];
    hide U32ToModbusArray, U64ToModbusArray;
    NumberOf4(ws);
    NumberOf2(hi);
    NumberOf2(lo);
    Number32(u / TWO32);
    Number32(u % TWO32);
    hide NumberOf;
    Quotient(u, TWO32);
  }

  lemma ReversedFloat(v: nat, u: nat)
    requires v < TWO32 && u < TWO64
    ensures Reversed(F32ToModbusArray(v)) == U32ToModbusArray(v)
    ensures Reversed(F64ToModbusArray(u)) == U64ToModbusArray(u)
  {
    hide ToBe4, ToBe8, Join;
    Reversed2(F32ToModbusArray(v));
    var f := F64ToModbusArray(u);
    Reversed2(f[2..]);
    assert f[1..][1..] == f[2..];
  }

  lemma Reversed2(ws: seq<Word>)
    requires |ws| == 2
    ensures Reversed(ws) == [ws[1], ws[0]]
  {
    assert ws[1..][1..] == [];
    assert Reversed(ws[1..]) == [ws[1]];
  }

  /** What is read from the wire: signed types take the upper half of the numbers as negative. */
  lemma DecodedNumber(e: Elem, ws: seq<Word>)
    requires |ws| == Width(e)
    ensures var u := NumberOf(if LowFirst(e) then Reversed(ws) else ws);
            DecodeOne(e, ws) ==
            match e
            case I16 => if u < 0x8000 then u else u - 0x1_0000
            case I32 => if u < 0x8000_0000 then u else u - 0x1_0000_0000
            case I64 => if u < 0x8000_0000_0000_0000 then u else u - 0x1_0000_0000_0000_0000
            case _ => u
  {
    EncodeDecoded(e, ws);
    var v := DecodeOne(e, ws);
    EncodedNumber(e, v);
    Ranges(e, v);
    hide EncodeOne, DecodeOne, NumberOf, Reversed, InRange;
  }

  // ---------------------------------------------------------------- arrays

  predicate AllInRange(e: Elem, xs: seq<int>) {
    forall i :: 0 <= i < |xs| ==> InRange(e, xs[i])
  }

  function EncodeAll(e: Elem, xs: seq<int>): (ws: seq<Word>)
    requires AllInRange(e, xs)
  {
    if xs == [] then [] else EncodeOne(e, xs[0]) + EncodeAll(e, xs[1..])
  }

  /** `TryFrom<RegisterSlice>` for an array of `n` elements; the slice may go on after them. */
  function DecodeAll(e: Elem, ws: seq<Word>, n: nat): (r: Option<seq<int>>)
    decreases n
  {
    if n == 0 then Some([])
    else if |ws| < Width(e) then None
    else
      match DecodeAll(e, ws[Width(e)..], n - 1)
      case None => None
      case Some(rest) => Some([DecodeOne(e, ws[..Width(e)])] + rest)
  }

  /** Words of an array of `n` elements. */
  function Size(e: Elem, n: nat): nat {
    match Width(e) case 1 => n case 2 => 2 * n case _ => 4 * n
  }

  lemma {:induction false} EncodedSize(e: Elem, xs: seq<int>)
    requires AllInRange(e, xs)
    ensures |EncodeAll(e, xs)| == Size(e, |xs|)
  {
    if xs != [] {
      EncodedSize(e, xs[1..]);
    }
  }

  /** The words of element `k` of an encoded array. */
  lemma {:induction false} ElementWords(e: Elem, xs: seq<int>, k: nat)
    requires AllInRange(e, xs) && k < |xs|
    ensures Width(e) * k + Width(e) <= |EncodeAll(e, xs)|
    ensures EncodeAll(e, xs)[Width(e) * k..][..Width(e)] == EncodeOne(e, xs[k])
  {
    hide EncodeOne, InRange;
    var w := Width(e);
    if k > 0 {
      ElementWords(e, xs[1..], k - 1);
      assert w * k == w * (k - 1) + w;
      assert EncodeAll(e, xs)[w..] == EncodeAll(e, xs[1..]);
      assert EncodeAll(e, xs)[w * k..] == EncodeAll(e, xs)[w..][w * (k - 1)..];
    } else {
      assert EncodeAll(e, xs)[0..] == EncodeAll(e, xs);
    }
  }

  /** Decoding an encoded array, with anything after it, gives the array. */
  lemma {:induction false} ArrayRoundTrip(e: Elem, xs: seq<int>, tail: seq<Word>)
    requires AllInRange(e, xs)
    ensures DecodeAll(e, EncodeAll(e, xs) + tail, |xs|) == Some(xs)
  {
    hide DecodeOne, EncodeOne, InRange, Modulus, Width, AsElem;
    if xs != [] {
      var ws := EncodeAll(e, xs) + tail;
      assert ws[..Width(e)] == EncodeOne(e, xs[0]);
      assert ws[Width(e)..] == EncodeAll(e, xs[1..]) + tail;
      DecodeEncoded(e, xs[0]);
      ArrayRoundTrip(e, xs[1..], tail);
      assert |EncodeOne(e, xs[0])| == Width(e) <= |ws|;
      assert DecodeAll(e, ws[Width(e)..], |xs| - 1) == Some(xs[1..]);
      assert [xs[0]] + xs[1..] == xs;
    }
  }

  lemma SizeStep(e: Elem, n: nat)
    ensures Size(e, 0) == 0 && Size(e, n + 1) == Width(e) + Size(e, n)
    ensures Width(e) > 0
  {
  }

  /** Decoding fails exactly for want of words, and encoding what was decoded gives back the
      words consumed. */
  lemma {:induction false} DecodeExactly(e: Elem, ws: seq<Word>, n: nat)
    ensures DecodeAll(e, ws, n).None? <==> |ws| < Size(e, n)
    ensures var r := DecodeAll(e, ws, n);
            r.Some? ==> |r.value| == n && AllInRange(e, r.value) && EncodeAll(e, r.value) == ws[..Size(e, n)]
    decreases n
  {
    hide DecodeOne, EncodeOne, InRange, Modulus, Size, Width;
    SizeStep(e, if n > 0 then n - 1 else 0);
    if n > 0 && |ws| >= Width(e) {
      DecodeExactly(e, ws[Width(e)..], n - 1);
      DecodeStepExactly(e, ws, n);
    }
  }

  lemma DecodeStepExactly(e: Elem, ws: seq<Word>, n: nat)
    requires n > 0 && |ws| >= Width(e)
    requires var r := DecodeAll(e, ws[Width(e)..], n - 1);
             r.Some? ==> |r.value| == n - 1 && AllInRange(e, r.value)
                         && Size(e, n - 1) <= |ws| - Width(e)
                         && EncodeAll(e, r.value) == ws[Width(e)..][..Size(e, n - 1)]
    ensures var r := DecodeAll(e, ws, n);
            r.Some? ==> |r.value| == n && AllInRange(e, r.value)
                        && Size(e, n) <= |ws| && EncodeAll(e, r.value) == ws[..Size(e, n)]
  {
    hide DecodeOne, EncodeOne, InRange, Modulus, Size, Width;
    SizeStep(e, n - 1);
    EncodeDecoded(e, ws[..Width(e)]);
    var rest := DecodeAll(e, ws[Width(e)..], n - 1);
    if rest.Some? {
      var x := DecodeOne(e, ws[..Width(e)]);
      var xs := [x] + rest.value;
      assert xs[1..] == rest.value && xs[0] == x;
      assert AllInRange(e, xs);
      assert EncodeAll(e, xs) == ws[..Width(e)] + ws[Width(e)..][..Size(e, n - 1)];
      assert ws[..Size(e, n)] == ws[..Width(e)] + ws[Width(e)..][..Size(e, n - 1)];
    }
  }

  function SwappedAll(xs: seq<int>, e: Elem): (ys: seq<int>)
    requires (e == F32 || e == F64) && AllInRange(e, xs)
  {
    if xs == [] then []
    else [if e == F32 then Swapped32(xs[0]) else Swapped64(xs[0])] + SwappedAll(xs[1..], e)
  }

  /** The integer type with the word count of a float type. */
  function IntOf(e: Elem): Elem {
    if e == F32 then U32 else U64
  }

  lemma SwappedFirst(e: Elem, v: int)
    requires (e == F32 || e == F64) && InRange(e, v)
    ensures var s := if e == F32 then Swapped32(v) else Swapped64(v);
            && InRange(e, s) && InRange(IntOf(e), s) && EncodeOne(e, v) == EncodeOne(IntOf(e), s)
            && (if e == F32 then Swapped32(s) else Swapped64(s)) == v
  {
    hide Swapped32, Swapped64, F32ToModbusArray, U32ToModbusArray, F64ToModbusArray, U64ToModbusArray;
    if e == F32 {
      FloatIsSwappedInt32(v);
    } else {
      FloatIsSwappedInt64(v);
    }
  }

  /** Word order of whole arrays: encoding floats is encoding the swapped patterns as integers. */
  lemma {:induction false} FloatArrayIsSwappedIntArray(e: Elem, xs: seq<int>)
    requires (e == F32 || e == F64) && AllInRange(e, xs)
    ensures var ys := SwappedAll(xs, e);
            && |ys| == |xs| && AllInRange(IntOf(e), ys) && AllInRange(e, ys)
            && EncodeAll(e, xs) == EncodeAll(IntOf(e), ys) && SwappedAll(ys, e) == xs
  {
    hide Swapped32, Swapped64, EncodeOne, InRange, Modulus;
    if xs != [] {
      SwappedFirst(e, xs[0]);
      FloatArrayIsSwappedIntArray(e, xs[1..]);
      assert SwappedAll(xs, e)[1..] == SwappedAll(xs[1..], e);
    }
  }

  // ---------------------------------------------------------------- the loops of the source

  /** `From<&[T; N]>`: push or extend word by word. */
  method EncodeArray(e: Elem, xs: seq<int>) returns (result: seq<Word>)
    requires AllInRange(e, xs)
    ensures result == EncodeAll(e, xs)
  {
    hide EncodeOne, InRange, Modulus, Width, EncodeAll;
    result := [];
    var i := 0;
    assert xs[0..] == xs;
    while i < |xs|
      invariant 0 <= i <= |xs|
      invariant result + EncodeAll(e, xs[i..]) == EncodeAll(e, xs)
    {
      EncodeStep(e, xs, i);
      var one := EncodeOne(e, xs[i]);
      assert result + (one + EncodeAll(e, xs[i + 1..])) == result + one + EncodeAll(e, xs[i + 1..]);
      result := result + one;
      i := i + 1;
    }
    EncodeNothing(e);
    assert xs[i..] == [] && result + [] == result;
  }

  lemma EncodeStep(e: Elem, xs: seq<int>, i: nat)
    requires AllInRange(e, xs) && i < |xs|
    ensures EncodeAll(e, xs[i..]) == EncodeOne(e, xs[i]) + EncodeAll(e, xs[i + 1..])
  {
    hide EncodeOne, InRange;
    assert xs[i..][1..] == xs[i + 1..];
  }

  lemma EncodeNothing(e: Elem)
    ensures EncodeAll(e, []) == []
  {
  }

  /** `TryFrom<RegisterSlice>` for the wide types: each element's words are fetched one by one and
      the first missing one ends the conversion. */
  method DecodeArray(e: Elem, ws: seq<Word>, n: nat) returns (r: Option<seq<int>>)
    ensures r == DecodeAll(e, ws, n)
    ensures r.None? <==> |ws| < Size(e, n)
  {
    DecodeExactly(e, ws, n);
    hide DecodeOne, DecodeAll, EncodeAll, AllInRange, Prepend, Size;
    var result: seq<int> := [];
    var idx, k := 0, 0;
    assert ws[0..] == ws;
    DecodeEnds(e, ws, n);
    while k < n
      invariant 0 <= k <= n && 0 <= idx <= |ws|
      invariant DecodeAll(e, ws, n) == Prepend(result, DecodeAll(e, ws[idx..], n - k))
    {
      var word := 0;
      while word < Width(e)
        invariant 0 <= word <= Width(e) && idx + word <= |ws|
      {
        if idx + word >= |ws| {
          DecodeEnds(e, ws[idx..], n - k);
          return None;
        }
        word := word + 1;
      }
      DecodeStep(e, ws, idx, n - k);
      var x := DecodeOne(e, ws[idx..idx + Width(e)]);
      PrependTwice(result, [x], DecodeAll(e, ws[idx + Width(e)..], n - k - 1));
      result := result + [x];
      idx, k := idx + Width(e), k + 1;
    }
    DecodeEnds(e, ws[idx..], 0);
    PrependNothing(result);
    r := Some(result);
  }

  lemma PrependTwice(xs: seq<int>, ys: seq<int>, r: Option<seq<int>>)
    ensures Prepend(xs, Prepend(ys, r)) == Prepend(xs + ys, r)
  {
    if r.Some? {
      assert xs + (ys + r.value) == xs + ys + r.value;
    }
  }

  lemma PrependNothing(xs: seq<int>)
    ensures Prepend(xs, Some([])) == Some(xs) && Prepend(xs, None) == None
  {
    assert xs + [] == xs;
  }

  lemma DecodeEnds(e: Elem, rest: seq<Word>, n: nat)
    ensures n == 0 ==> DecodeAll(e, rest, n) == Some([])
    ensures n > 0 && |rest| < Width(e) ==> DecodeAll(e, rest, n) == None
    ensures Prepend([], DecodeAll(e, rest, n)) == DecodeAll(e, rest, n)
    ensures forall xs :: Prepend(xs, None) == None
  {
    var r := DecodeAll(e, rest, n);
    if r.Some? {
      assert [] + r.value == r.value;
    }
  }

  lemma DecodeStep(e: Elem, ws: seq<Word>, idx: nat, n: nat)
    requires idx + Width(e) <= |ws| && n > 0
    ensures DecodeAll(e, ws[idx..], n)
            == Prepend([DecodeOne(e, ws[idx..idx + Width(e)])], DecodeAll(e, ws[idx + Width(e)..], n - 1))
  {
    hide DecodeOne, InRange, Modulus;
    assert ws[idx..][..Width(e)] == ws[idx..idx + Width(e)];
    assert ws[idx..][Width(e)..] == ws[idx + Width(e)..];
  }

  function Prepend(xs: seq<int>, r: Option<seq<int>>): Option<seq<int>> {
    match r
    case None => None
    case Some(ys) => Some(xs + ys)
  }
}
