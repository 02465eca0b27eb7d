/** The register block of the Modbus output worker, and its reading by the input worker
    (`src/io/modbus/mod.rs`). A cell is a word for holding registers and a bit for coils. */
module RegisterImage {
  import opened Basics
  import opened Words

  /** One `map` entry after offset normalisation: where its payload goes. */
  datatype Mapping<T> = Mapping(offset: nat, payload: seq<T>)

  /** Every cell of the payload is inside the block. */
  predicate Fits<T>(m: Mapping<T>, number: nat) {
    m.payload == [] || m.offset + |m.payload| <= number
  }

  predicate Covers<T>(m: Mapping<T>, c: nat) {
    m.offset <= c < m.offset + |m.payload|
  }

  /** What cell `c` holds after all mappings: the last one covering it decides. */
  function Cell<T>(maps: seq<Mapping<T>>, default: T, c: nat): T {
    if maps == [] then default
    else
      var m := maps[|maps| - 1];
      if Covers(m, c) then m.payload[c - m.offset] else Cell(maps[..|maps| - 1], default, c)
  }

  ghost predicate IsImage<T>(img: seq<T>, maps: seq<Mapping<T>>, default: T, number: nat) {
    |img| == number && forall c :: 0 <= c < number ==> img[c] == Cell(maps, default, c)
  }

  lemma {:induction false} CellWithPart<T>(maps: seq<Mapping<T>>, m: Mapping<T>, default: T, k: nat, c: nat)
    requires k < |m.payload|
    ensures Cell(maps + [Mapping(m.offset, m.payload[..k + 1])], default, c)
            == if c == m.offset + k then m.payload[k]
               else Cell(maps + [Mapping(m.offset, m.payload[..k])], default, c)
  {
    var a, b := maps + [Mapping(m.offset, m.payload[..k + 1])], maps + [Mapping(m.offset, m.payload[..k])];
    assert a[..|a| - 1] == maps && b[..|b| - 1] == maps;
  }

  lemma CellWithNothing<T>(maps: seq<Mapping<T>>, offset: nat, default: T, c: nat)
    ensures Cell(maps + [Mapping(offset, [])], default, c) == Cell(maps, default, c)
  {
    var a := maps + [Mapping(offset, [])];
    assert a[..|a| - 1] == maps;
  }

  /** The emitted loop: the block is filled mapping by mapping and cell by cell; the first cell
      outside it ends the worker before a request is generated. */
  method BuildImage<T>(maps: seq<Mapping<T>>, default: T, number: nat) returns (r: Option<seq<T>>)
    ensures r.Some? <==> forall k :: 0 <= k < |maps| ==> Fits(maps[k], number)
    ensures r.Some? ==> IsImage(r.value, maps, default, number)
  {
    var data := new T[number](_ => default);
    var j := 0;
    while j < |maps|
      invariant 0 <= j <= |maps|
      invariant forall k :: 0 <= k < j ==> Fits(maps[k], number)
      invariant IsImage(data[..], maps[..j], default, number)
    {
      var payload, offset := maps[j].payload, maps[j].offset;
      var i := 0;
      forall c | 0 <= c < number
        ensures data[..][c] == Cell(maps[..j] + [Mapping(offset, payload[..0])], default, c)
      {
        CellWithNothing(maps[..j], offset, default, c);
      }
      while i < |payload|
        invariant 0 <= i <= |payload|
        invariant i == 0 || offset + i <= number
        invariant IsImage(data[..], maps[..j] + [Mapping(offset, payload[..i])], default, number)
      {
        if i + offset >= data.Length {
          assert !Fits(maps[j], number);
          return None;
        }
        ghost var before := data[..];
        data[i + offset] := payload[i];
        forall c | 0 <= c < number
          ensures data[..][c] == Cell(maps[..j] + [Mapping(offset, payload[..i + 1])], default, c)
        {
          CellWithPart(maps[..j], maps[j], default, i, c);
          assert data[..][c] == if c == i + offset then payload[i] else before[c];
        }
        i := i + 1;
      }
      assert payload[..i] == payload;
      assert maps[..j] + [maps[j]] == maps[..j + 1];
      j := j + 1;
    }
    assert maps[..j] == maps;
    r := Some(data[..]);
  }

  ghost predicate Disjoint<T>(a: Mapping<T>, b: Mapping<T>) {
    forall c :: Covers(a, c) ==> !Covers(b, c)
  }

  /** A mapping that no later one overlaps finds its own payload in the block ... */
  lemma {:induction false} CellOfDisjoint<T>(maps: seq<Mapping<T>>, default: T, k: nat, c: nat)
    requires k < |maps| && Covers(maps[k], c)
    requires forall j :: k < j < |maps| ==> Disjoint(maps[k], maps[j])
    ensures Cell(maps, default, c) == maps[k].payload[c - maps[k].offset]
  {
    var last := |maps| - 1;
    if k < last {
      assert Disjoint(maps[k], maps[last]);
      CellOfDisjoint(maps[..last], default, k, c);
    }
  }

  /** ... and a cell nobody maps holds the default. */
  lemma {:induction false} UnmappedIsDefault<T>(maps: seq<Mapping<T>>, default: T, c: nat)
    requires forall j :: 0 <= j < |maps| ==> !Covers(maps[j], c)
    ensures Cell(maps, default, c) == default
  {
    if maps != [] {
      UnmappedIsDefault(maps[..|maps| - 1], default, c);
    }
  }

  lemma PayloadInPlace<T>(img: seq<T>, maps: seq<Mapping<T>>, default: T, number: nat, k: nat)
    requires IsImage(img, maps, default, number)
    requires k < |maps| && Fits(maps[k], number) && maps[k].payload != []
    requires forall j :: k < j < |maps| ==> Disjoint(maps[k], maps[j])
    ensures maps[k].offset + |maps[k].payload| <= |img|
    ensures img[maps[k].offset..maps[k].offset + |maps[k].payload|] == maps[k].payload
  {
    var m := maps[k];
    forall i | 0 <= i < |m.payload|
      ensures img[m.offset..m.offset + |m.payload|][i] == m.payload[i]
    {
      CellOfDisjoint(maps, default, k, m.offset + i);
    }
  }

  // ---------------------------------------------------------------- typed mappings

  /** `Registers::from(&ctx.source)` at an offset; a scalar is an array of one. */
  datatype Source = Source(offset: nat, elem: Elem, values: seq<int>)

  predicate ValidSource(s: Source) {
    AllInRange(s.elem, s.values)
  }

  function ToMapping(s: Source): Mapping<Word>
    requires ValidSource(s)
  {
    Mapping(s.offset, EncodeAll(s.elem, s.values))
  }

  function ToMappings(ss: seq<Source>): (ms: seq<Mapping<Word>>)
    requires forall k :: 0 <= k < |ss| ==> ValidSource(ss[k])
    ensures |ms| == |ss|
  {
    seq(|ss|, k requires 0 <= k < |ss| => ToMapping(ss[k]))
  }

  /** `slice_at` */
  function SliceAt<T>(cells: seq<T>, idx: nat): Option<seq<T>> {
    if idx < |cells| then Some(cells[idx..]) else None
  }

  /** What the input worker assigns for one target: `slice_at` and then the conversion. */
  function ReadTarget(cells: seq<Word>, offset: nat, e: Elem, n: nat): Option<seq<int>> {
    match SliceAt(cells, offset)
    case None => None
    case Some(s) => DecodeAll(e, s, n)
  }

  /** Reading fails exactly when a word is missing; an empty target also needs its offset to be
      inside the block. */
  lemma ReadTargetExactly(cells: seq<Word>, offset: nat, e: Elem, n: nat)
    ensures ReadTarget(cells, offset, e, n).Some? <==> offset < |cells| && offset + Size(e, n) <= |cells|
  {
    if offset < |cells| {
      DecodeExactly(e, cells[offset..], n);
    }
  }

  /** The block written by the output worker, decoded at each mapping's offset by the input
      worker, gives back every value; only an empty one may have its offset outside the block. */
  lemma ImageRoundTrip(ss: seq<Source>, number: nat, img: seq<Word>, k: nat)
    requires forall j :: 0 <= j < |ss| ==> ValidSource(ss[j])
    requires IsImage(img, ToMappings(ss), 0, number)
    requires k < |ss| && Fits(ToMapping(ss[k]), number)
    requires forall j :: k < j < |ss| ==> Disjoint(ToMapping(ss[k]), ToMapping(ss[j]))
    ensures ReadTarget(img, ss[k].offset, ss[k].elem, |ss[k].values|)
            == if ss[k].values != [] || ss[k].offset < number then Some(ss[k].values) else None
  {
    if ss[k].values == [] {
      return;
    }
    var m := ToMapping(ss[k]);
    EncodedSize(ss[k].elem, ss[k].values);
    hide DecodeAll, EncodeAll;
    PayloadInPlace(img, ToMappings(ss), 0, number, k);
    var slice := img[m.offset..];
    assert slice == m.payload + slice[|m.payload|..] by {
      assert slice[..|m.payload|] == img[m.offset..m.offset + |m.payload|];
    }
    ArrayRoundTrip(ss[k].elem, ss[k].values, slice[|m.payload|..]);
  }

  /** `slice_at` and the conversion to one or several bits. */
  function ReadCoils(cells: seq<bool>, offset: nat, n: nat): (r: Option<seq<bool>>)
    ensures r.Some? <==> offset < |cells| && offset + n <= |cells|
    ensures r.Some? ==> |r.value| == n
  {
    match SliceAt(cells, offset)
    case None => None
    case Some(s) => if n > |s| then None else Some(s[..n])
  }

  /** The same for coils, whose payload is the bits themselves. */
  lemma CoilRoundTrip(maps: seq<Mapping<bool>>, number: nat, img: seq<bool>, k: nat)
    requires IsImage(img, maps, false, number)
    requires k < |maps| && Fits(maps[k], number)
    requires forall j :: k < j < |maps| ==> Disjoint(maps[k], maps[j])
    ensures ReadCoils(img, maps[k].offset, |maps[k].payload|)
            == if maps[k].payload != [] || maps[k].offset < number then Some(maps[k].payload) else None
  {
    if maps[k].payload != [] {
      PayloadInPlace(img, maps, false, number, k);
      assert img[maps[k].offset..][..|maps[k].payload|] == maps[k].payload;
    }
  }

  // ---------------------------------------------------------------- the input worker

  datatype Target = Target(offset: nat, elem: Elem, count: nat)

  /** The context fields assigned by one input worker, one per `map` entry. */
  class Context {
    var fields: seq<seq<int>>

    constructor (fields: seq<seq<int>>)
      ensures this.fields == fields
    {
      this.fields := fields;
    }

    /** A field whose slice or conversion fails is logged and keeps its value. */
    method Assign(cells: seq<Word>, targets: seq<Target>)
      requires |fields| == |targets|
      modifies this
      ensures |fields| == |targets|
      ensures forall k :: 0 <= k < |targets| ==>
                var r := ReadTarget(cells, targets[k].offset, targets[k].elem, targets[k].count);
                fields[k] == if r.Some? then r.value else old(fields[k])
    {
      var i := 0;
      while i < |targets|
        invariant 0 <= i <= |targets| && |fields| == |targets|
        invariant forall k :: 0 <= k < i ==>
                    var r := ReadTarget(cells, targets[k].offset, targets[k].elem, targets[k].count);
                    fields[k] == if r.Some? then r.value else old(fields[k])
        invariant forall k :: i <= k < |targets| ==> fields[k] == old(fields[k])
      {
        if targets[i].offset < |cells| {
          var r := DecodeArray(targets[i].elem, cells[targets[i].offset..], targets[i].count);
          if r.Some? {
            fields := fields[i := r.value];
          }
        }
        i := i + 1;
      }
    }
  }

  function TargetsOf(ss: seq<Source>): (ts: seq<Target>)
    ensures |ts| == |ss|
  {
    seq(|ss|, k requires 0 <= k < |ss| => Target(ss[k].offset, ss[k].elem, |ss[k].values|))
  }

  /** One PLC's output block read by an input with the same mappings copies the context, whose
      fields are arrays of fixed lengths, except what a later mapping overwrites. */
  method Transfer(ss: seq<Source>, number: nat, peer: Context) returns (sent: bool)
    requires forall j :: 0 <= j < |ss| ==> ValidSource(ss[j])
    requires |peer.fields| == |ss| && forall k :: 0 <= k < |ss| ==> |peer.fields[k]| == |ss[k].values|
    modifies peer
    ensures sent <==> forall k :: 0 <= k < |ss| ==>
                        ss[k].values == [] || ss[k].offset + Size(ss[k].elem, |ss[k].values|) <= number
    ensures sent ==> |peer.fields| == |ss| && forall k :: 0 <= k < |ss| ==>
                       (forall j :: k < j < |ss| ==> Disjoint(ToMapping(ss[k]), ToMapping(ss[j]))) ==>
                         peer.fields[k] == ss[k].values
    ensures !sent ==> peer.fields == old(peer.fields)
  {
    var maps := ToMappings(ss);
    forall k | 0 <= k < |ss|
      ensures Fits(maps[k], number) <==>
              ss[k].values == [] || ss[k].offset + Size(ss[k].elem, |ss[k].values|) <= number
    {
      FitsBySize(ss[k], number);
    }
    var img := BuildImage(maps, 0, number);
    if img == None {
      return false;
    }
    peer.Assign(img.value, TargetsOf(ss));
    forall k | 0 <= k < |ss| && forall j :: k < j < |ss| ==> Disjoint(ToMapping(ss[k]), ToMapping(ss[j]))
      ensures peer.fields[k] == ss[k].values
    {
      ImageRoundTrip(ss, number, img.value, k);
    }
    return true;
  }

  lemma FitsBySize(s: Source, number: nat)
    requires ValidSource(s)
    ensures Fits(ToMapping(s), number) <==> s.values == [] || s.offset + Size(s.elem, |s.values|) <= number
  {
    EncodedSize(s.elem, s.values);
  }
}
