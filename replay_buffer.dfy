/** Model of the per-field replay store of border-tch-agent (replay_buffer.rs).

    A tensor is a value: an element kind, a shape and its elements in
    row-major order.  The store keeps one tensor of shape [capacity] ++ S,
    here held as an array of `capacity` rows, each the row-major data of
    one slot of shape S.
 */
module TchReplayBuffer {

  /** The element types that have a ZeroTensor implementation. */
  datatype Kind = Uint8 | Int | Float | Int64

  /** One tensor element.  Payloads are opaque bit patterns: no arithmetic
      is done on them; a Float element holds the IEEE-754 bits of an f32. */
  datatype Elem = U8(u: bv8) | I32(i: bv32) | F32(bits: bv32) | I64(l: bv64)

  function KindOf(e: Elem): Kind
  {
    match e
    case U8(_) => Uint8
    case I32(_) => Int
    case F32(_) => Float
    case I64(_) => Int64
  }

  /** The native zero of each element type (for f32, +0.0, whose bits are all 0). */
  function ZeroOf(k: Kind): (z: Elem)
    ensures KindOf(z) == k
  {
    match k
    case Uint8 => U8(0)
    case Int => I32(0)
    case Float => F32(0)
    case Int64 => I64(0)
  }

  /** Number of elements of a tensor of the given shape. */
  function NumElements(shape: seq<nat>): nat
  {
    if shape == [] then 1 else shape[0] * NumElements(shape[1..])
  }

  datatype Tensor = Tensor(kind: Kind, shape: seq<nat>, data: seq<Elem>)

  /** The data fits the shape and every element has the tensor's kind. */
  ghost predicate WellFormed(t: Tensor)
  {
    && |t.data| == NumElements(t.shape)
    && forall i :: 0 <= i < |t.data| ==> KindOf(t.data[i]) == t.kind
  }

  /** A row of data that fits one slot of shape `shape` and kind `k`. */
  ghost predicate IsRow(row: seq<Elem>, k: Kind, shape: seq<nat>)
  {
    WellFormed(Tensor(k, shape, row))
  }

  /** ZeroTensor::zeros for each of u8, i32, f32 and i64: a tensor of the
      requested shape whose every element is the kind's zero. */
  function Zeros(k: Kind, shape: seq<nat>): (t: Tensor)
    ensures WellFormed(t) && t.kind == k && t.shape == shape
    ensures forall i :: 0 <= i < |t.data| ==> t.data[i] == ZeroOf(k)
  {
    Tensor(k, shape, seq(NumElements(shape), _ => ZeroOf(k)))
  }

  /** Tensor::squeeze1(0) on a tensor whose leading dimension is 1: the
      leading dimension is dropped and the data is unchanged. */
  function Squeeze0(t: Tensor): (r: Tensor)
    requires WellFormed(t) && |t.shape| >= 1 && t.shape[0] == 1
    ensures WellFormed(r) && r.kind == t.kind && [1] + r.shape == t.shape
    ensures r.data == t.data
  {
    assert t.shape == [1] + t.shape[1..];
    Tensor(t.kind, t.shape[1..], t.data)
  }

  /** Row-major concatenation of rows. */
  function Flat(rows: seq<seq<Elem>>): seq<Elem>
  {
    if rows == [] then [] else rows[0] + Flat(rows[1..])
  }

  /** The rows picked by `indices`, in the order of `indices`, duplicates kept. */
  function Select(rows: seq<seq<Elem>>, indices: seq<int>): (r: seq<seq<Elem>>)
    requires forall j :: 0 <= j < |indices| ==> 0 <= indices[j] < |rows|
    ensures |r| == |indices|
    ensures forall j :: 0 <= j < |indices| ==> r[j] == rows[indices[j]]
  {
    seq(|indices|, j requires 0 <= j < |indices| => rows[indices[j]])
  }

  lemma RowBounds(j: nat, k: nat, n: nat)
    requires j < k
    ensures 0 <= j * n <= j * n + n == (j + 1) * n <= k * n
  {
  }

  lemma MulStep(j: nat, n: nat)
    requires j > 0
    ensures (j - 1) * n + n == j * n
  {
  }

  /** Flattening rows of length n gives |rows| * n elements. */
  lemma {:induction false} FlatLength(rows: seq<seq<Elem>>, n: nat)
    requires forall j :: 0 <= j < |rows| ==> |rows[j]| == n
    ensures |Flat(rows)| == |rows| * n
  {
    if rows != [] {
      FlatLength(rows[1..], n);
      MulStep(|rows|, n);
    }
  }

  /** The j-th block of n elements of the flattened rows is row j. */
  lemma {:induction false} FlatBlock(rows: seq<seq<Elem>>, n: nat, j: nat)
    requires forall i :: 0 <= i < |rows| ==> |rows[i]| == n
    requires j < |rows|
    ensures j * n + n <= |Flat(rows)| && Flat(rows)[j * n .. j * n + n] == rows[j]
  {
    FlatLength(rows, n);
    RowBounds(j, |rows|, n);
    if j > 0 {
      var tail := rows[1..];
      FlatBlock(tail, n, j - 1);
      MulStep(j, n);
      var lo := (j - 1) * n;
      assert Flat(rows) == rows[0] + Flat(tail);
      assert Flat(rows)[n + lo .. n + lo + n] == Flat(tail)[lo .. lo + n];
    }
  }

  /** FlatLength and FlatBlock for all rows at once. */
  lemma FlatRows(rows: seq<seq<Elem>>, n: nat)
    requires forall j :: 0 <= j < |rows| ==> |rows[j]| == n
    ensures |Flat(rows)| == |rows| * n
    ensures forall j :: 0 <= j < |rows| ==> j * n + n <= |Flat(rows)| && Flat(rows)[j * n .. j * n + n] == rows[j]
  {
    FlatLength(rows, n);
    forall j | 0 <= j < |rows|
      ensures j * n + n <= |Flat(rows)| && Flat(rows)[j * n .. j * n + n] == rows[j]
    {
      FlatBlock(rows, n, j);
    }
  }

  /** Flattening keeps every element's kind. */
  lemma {:induction false} FlatKinds(rows: seq<seq<Elem>>, k: Kind)
    requires forall j, i :: 0 <= j < |rows| && 0 <= i < |rows[j]| ==> KindOf(rows[j][i]) == k
    ensures forall i :: 0 <= i < |Flat(rows)| ==> KindOf(Flat(rows)[i]) == k
  {
    if rows != [] {
      FlatKinds(rows[1..], k);
      assert Flat(rows) == rows[0] + Flat(rows[1..]);
    }
  }

  /** Flattening `c` copies of a zero row of length n gives c * n zeros. */
  lemma {:induction false} FlatZeros(c: nat, n: nat, z: Elem)
    ensures Flat(seq(c, _ => seq(n, _ => z))) == seq(c * n, _ => z)
  {
    var rows := seq(c, _ => seq(n, _ => z));
    if c > 0 {
      assert rows[1..] == seq(c - 1, _ => seq(n, _ => z));
      FlatZeros(c - 1, n, z);
      assert c * n == n + (c - 1) * n;
    }
  }

  /** The store of one transition field: a fixed number of slots, each of
      the static shape S (`rowShape`) and element kind D (`kind`). */
  class TchTensorBuffer {
    const kind: Kind
    const rowShape: seq<nat>
    const buf: array<seq<Elem>>

    ghost predicate Valid()
      reads this, buf
    {
      forall i :: 0 <= i < buf.Length ==> IsRow(buf[i], kind, rowShape)
    }

    /** The whole store seen as one tensor of shape [capacity] ++ S. */
    ghost function AsTensor(): Tensor
      reads this, buf
    {
      Tensor(kind, [buf.Length] + rowShape, Flat(buf[..]))
    }

    /** TchTensorBuffer::new: capacity slots, all zero; the number of
        processes is ignored. */
    constructor (k: Kind, s: seq<nat>, capacity: nat, nProcs: nat)
      ensures Valid() && fresh(buf)
      ensures kind == k && rowShape == s && buf.Length == capacity
      ensures forall i :: 0 <= i < capacity ==> buf[i] == Zeros(k, s).data
      ensures AsTensor() == Zeros(k, [capacity] + s)
    {
      var zero := Zeros(k, s).data;
      kind, rowShape := k, s;
      buf := new seq<Elem>[capacity](_ => zero);
      new;
      assert buf[..] == seq(capacity, _ => seq(NumElements(s), _ => ZeroOf(k)));
      FlatZeros(capacity, NumElements(s), ZeroOf(k));
    }

    /** TchTensorBuffer::push: the item, of shape [1] ++ S, is copied into
        slot `index`; no other slot changes. */
    method Push(index: int, item: Tensor)
      requires Valid()
      requires 0 <= index < buf.Length
      requires WellFormed(item) && item.kind == kind
      requires |item.shape| >= 1 && item.shape[1..] == rowShape
      requires item.shape[0] == 1
      modifies buf
      ensures Valid()
      ensures buf[index] == Squeeze0(item).data == item.data
      ensures forall i :: 0 <= i < buf.Length && i != index ==> buf[i] == old(buf[i])
    {
      var row := Squeeze0(item);
      buf[index] := row.data;
    }

    /** TchTensorBuffer::batch: the rows at `indices`, in that order, as
        one tensor of shape [|indices|] ++ S.  The store is only read. */
    function Batch(indices: seq<int>): (r: Tensor)
      reads this, buf
      requires Valid()
      requires forall j :: 0 <= j < |indices| ==> 0 <= indices[j] < buf.Length
      ensures WellFormed(r) && r.kind == kind && r.shape == [|indices|] + rowShape
      ensures forall j :: 0 <= j < |indices| ==>
        var n := NumElements(rowShape);
        j * n + n <= |r.data| && r.data[j * n .. j * n + n] == buf[indices[j]]
    {
      var picked := Select(buf[..], indices);
      var n := NumElements(rowShape);
      assert forall j :: 0 <= j < |picked| ==> IsRow(picked[j], kind, rowShape);
      FlatRows(picked, n);
      FlatKinds(picked, kind);
      assert ([|indices|] + rowShape)[1..] == rowShape;
      Tensor(kind, [|indices|] + rowShape, Flat(picked))
    }
  }

  /** Two pushes to the same slot: the second item is what the slot holds,
      and a batch of that slot returns it. */
  method LastWriteWins(b: TchTensorBuffer, index: int, first: Tensor, second: Tensor)
    requires b.Valid() && 0 <= index < b.buf.Length
    requires WellFormed(first) && first.kind == b.kind && first.shape == [1] + b.rowShape
    requires WellFormed(second) && second.kind == b.kind && second.shape == [1] + b.rowShape
    modifies b.buf
    ensures b.Valid()
    ensures b.buf[index] == second.data
    ensures b.Batch([index]).data == second.data
    ensures forall i :: 0 <= i < b.buf.Length && i != index ==> b.buf[i] == old(b.buf[i])
  {
    b.Push(index, first);
    b.Push(index, second);
    assert b.Batch([index]).data[0 .. NumElements(b.rowShape)] == b.buf[index];
  }

  /** A float store of capacity 3 with scalar slots: writing 0.0, 1.0, 2.0
      to slots 0, 1, 2 and then 3.0 to slot 0 leaves the gather of
      [0, 1, 2] equal to [3.0, 1.0, 2.0] (f32 bit patterns). */
  method OverwriteScenario() returns (r: Tensor)
    ensures r == Tensor(Float, [3], [F32(0x4040_0000), F32(0x3F80_0000), F32(0x4000_0000)])
  {
    var b := new TchTensorBuffer(Float, [], 3, 1);
    assert NumElements([1]) == 1;
    b.Push(0, Tensor(Float, [1], [F32(0x0000_0000)]));
    b.Push(1, Tensor(Float, [1], [F32(0x3F80_0000)]));
    b.Push(2, Tensor(Float, [1], [F32(0x4000_0000)]));
    b.Push(0, Tensor(Float, [1], [F32(0x4040_0000)]));
    assert b.buf[0] == [F32(0x4040_0000)] && b.buf[1] == [F32(0x3F80_0000)] && b.buf[2] == [F32(0x4000_0000)];
    assert NumElements(b.rowShape) == 1;
    var ix := [0, 1, 2];
    r := b.Batch(ix);
    assert ix[0] == 0 && ix[1] == 1 && ix[2] == 2;
    assert r.data[0..1] == [F32(0x4040_0000)];
    assert r.data[1..2] == [F32(0x3F80_0000)];
    assert r.data[2..3] == [F32(0x4000_0000)];
    assert r.data == r.data[0..1] + r.data[1..2] + r.data[2..3];
  }
}
