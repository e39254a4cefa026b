/** The Parcel: a byte buffer with one cursor for typed writes and reads, and a list of binder objects. */
module BinderParcel {
  import opened WordSize
  import opened Bytes
  import opened Options

  /** A value a Parcel carries; floating point as its bits, text as the UTF-8 bytes of a Java string. */
  datatype Value =
    | IntV(v: int)
    | LongV(v: int)
    | FloatV(bits: nat)
    | DoubleV(bits: nat)
    | BytesV(bytes: Option<seq<Byte>>)
    | TextV(utf: Option<seq<Byte>>)
    | BinderV(ref: Option<nat>)

  datatype Kind = IntK | LongK | FloatK | DoubleK | BytesK | TextK | BinderK

  function KindOf(v: Value): Kind {
    match v
    case IntV(_) => IntK
    case LongV(_) => LongK
    case FloatV(_) => FloatK
    case DoubleV(_) => DoubleK
    case BytesV(_) => BytesK
    case TextV(_) => TextK
    case BinderV(_) => BinderK
  }

  /** What Java can pass to a write; a null byte array writes nothing at all. */
  predicate Writable(v: Value) {
    match v
    case IntV(i) => -TWO_31 <= i < TWO_31
    case LongV(l) => -TWO_63 <= l < TWO_63
    case FloatV(bits) => bits < TWO_32
    case DoubleV(bits) => bits < TWO_64
    case BytesV(bytes) => bytes.Some? && |bytes.value| < TWO_31
    case TextV(utf) => utf.Some? ==> |utf.value| < TWO_31
    case BinderV(_) => true
  }

  /** Every Java int, long, float and double, every array that is there, and every string and binder or null. */
  lemma JavaWrites(v: Value)
    ensures v.IntV? ==> (Writable(v) <==> -0x8000_0000 <= v.v <= 0x7FFF_FFFF)
    ensures v.LongV? ==> (Writable(v) <==> -0x8000_0000_0000_0000 <= v.v <= 0x7FFF_FFFF_FFFF_FFFF)
    ensures v.BinderV? || v == TextV(None) ==> Writable(v)
    ensures v.BytesV? && v.bytes.Some? && |v.bytes.value| <= 0x7FFF_FFFF ==> Writable(v)
    ensures v.TextV? && v.utf.Some? && |v.utf.value| <= 0x7FFF_FFFF ==> Writable(v)
  {
  }

  /** The low n bytes of a two's-complement number. */
  function Scalar(v: int, n: nat): (bs: seq<Byte>)
    ensures |bs| == n
  {
    LeBytes(if v >= 0 then v else if v + Pow256(n) >= 0 then v + Pow256(n) else 0, n)
  }

  function SignedLe(bs: seq<Byte>): int {
    var v := FromLe(bs);
    if 2 * v < Pow256(|bs|) then v else v - Pow256(|bs|)
  }

  lemma ScalarRoundTrip(v: int, n: nat)
    requires 0 - Pow256(n) <= 2 * v < Pow256(n)
    ensures SignedLe(Scalar(v, n)) == v
  {
    LeRoundTrip(if v >= 0 then v else v + Pow256(n), n);
  }

  lemma Powers()
    ensures Pow256(4) == TWO_32 && Pow256(8) == TWO_64
  {
    assert Pow256(8) == 256 * (256 * (256 * (256 * Pow256(4))));
  }

  /** What writing a value puts into the buffer when there are already n binders. */
  function Encoding(v: Value, n: nat): seq<Byte>
    requires Writable(v)
  {
    match v
    case IntV(i) => Scalar(i, 4)
    case LongV(l) => Scalar(l, 8)
    case FloatV(bits) => LeBytes(bits, 4)
    case DoubleV(bits) => LeBytes(bits, 8)
    case BytesV(bytes) => Scalar(|bytes.value|, 4) + bytes.value
    case TextV(utf) => if utf.None? then Scalar(-1, 4) else Scalar(|utf.value|, 4) + utf.value
    case BinderV(ref) => Scalar(if ref.None? then -1 else n, 4)
  }

  function BindersAfter(binders: seq<nat>, v: Value): seq<nat> {
    if v.BinderV? && v.ref.Some? then binders + [v.ref.value] else binders
  }

  /** The n bytes at the cursor, and the cursor after them; short of n, nothing moves. */
  function Take(data: seq<Byte>, at: nat, n: nat): (Option<seq<Byte>>, nat)
    requires at <= |data|
  {
    if at + n > |data| then (None, at) else (Some(data[at..at + n]), at + n)
  }

  function ReadInt(data: seq<Byte>, at: nat): (r: (int, nat))
    requires at <= |data|
    ensures at <= r.1 <= |data|
  {
    var (bs, end) := Take(data, at, 4);
    (if bs.None? then 0 else SignedLe(bs.value), end)
  }

  /** A length, then that many bytes; a length that is negative or too large reads as null. */
  function ReadCounted(data: seq<Byte>, at: nat): (r: (Option<seq<Byte>>, nat))
    requires at <= |data|
    ensures at <= r.1 <= |data|
  {
    var (n, start) := ReadInt(data, at);
    if n < 0 then (None, start) else Take(data, start, n)
  }

  /** What reading a value of some kind at the cursor yields, and where the cursor goes. */
  function ReadAt(data: seq<Byte>, at: nat, binders: seq<nat>, kind: Kind): (r: (Value, nat))
    requires at <= |data|
    ensures at <= r.1 <= |data| && KindOf(r.0) == kind
  {
    match kind
    case IntK => var (v, end) := ReadInt(data, at); (IntV(v), end)
    case LongK => var (bs, end) := Take(data, at, 8); (LongV(if bs.None? then 0 else SignedLe(bs.value)), end)
    case FloatK => var (bs, end) := Take(data, at, 4); (FloatV(if bs.None? then 0 else FromLe(bs.value)), end)
    case DoubleK => var (bs, end) := Take(data, at, 8); (DoubleV(if bs.None? then 0 else FromLe(bs.value)), end)
    case BytesK => var (bs, end) := ReadCounted(data, at); (BytesV(bs), end)
    case TextK => var (bs, end) := ReadCounted(data, at); (TextV(bs), end)
    case BinderK =>
      var (i, end) := ReadInt(data, at);
      (BinderV(if 0 <= i < |binders| then Some(binders[i]) else None), end)
  }

  ghost predicate Stands(data: seq<Byte>, at: nat, bs: seq<Byte>) {
    at + |bs| <= |data| && data[at..at + |bs|] == bs
  }

  lemma CountedRoundTrip(data: seq<Byte>, at: nat, bs: seq<Byte>)
    requires |bs| < TWO_31 && Stands(data, at, Scalar(|bs|, 4) + bs)
    ensures ReadCounted(data, at) == (Some(bs), at + 4 + |bs|)
  {
    hide Scalar, SignedLe, Pow256;
    Powers();
    ScalarRoundTrip(|bs|, 4);
    var whole := Scalar(|bs|, 4) + bs;
    assert data[at..at + 4] == data[at..at + |whole|][..4] == Scalar(|bs|, 4);
    assert data[at + 4..at + 4 + |bs|] == data[at..at + |whole|][4..] == bs;
  }

  /** Where a value was written it reads back, and the cursor ends behind it. */
  lemma ReadEncoding(data: seq<Byte>, at: nat, binders: seq<nat>, v: Value, n: nat)
    requires Writable(v) && Stands(data, at, Encoding(v, n))
    requires v.BinderV? && v.ref.Some? ==> n < TWO_31 && n < |binders| && binders[n] == v.ref.value
    ensures ReadAt(data, at, binders, KindOf(v)) == (v, at + |Encoding(v, n)|)
  {
    hide Scalar, SignedLe, Pow256, LeBytes, FromLe;
    Powers();
    match v
    case IntV(i) => ScalarRoundTrip(i, 4);
    case LongV(l) => ScalarRoundTrip(l, 8);
    case FloatV(bits) => LeRoundTrip(bits, 4);
    case DoubleV(bits) => LeRoundTrip(bits, 8);
    case BytesV(bytes) => CountedRoundTrip(data, at, bytes.value);
    case TextV(utf) => if utf.None? { ScalarRoundTrip(-1, 4); } else { CountedRoundTrip(data, at, utf.value); }
    case BinderV(ref) => ScalarRoundTrip(if ref.None? then -1 else n, 4);
  }

  /** The buffer with some bytes laid over it, grown when they reach past its end. */
  function Overwritten(data: seq<Byte>, at: nat, bs: seq<Byte>): (r: seq<Byte>)
    requires at <= |data|
    ensures at + |bs| <= |r| && Stands(r, at, bs) && r[..at] == data[..at]
  {
    data[..at] + bs + (if at + |bs| <= |data| then data[at + |bs|..] else [])
  }

  /** Byte by byte: the new bytes where they go, the old ones everywhere else, and no more than that. */
  lemma OverwrittenAt(data: seq<Byte>, at: nat, bs: seq<Byte>, i: nat)
    requires at <= |data|
    ensures |Overwritten(data, at, bs)| == if at + |bs| <= |data| then |data| else at + |bs|
    ensures i < |Overwritten(data, at, bs)| ==>
              Overwritten(data, at, bs)[i] == if at <= i < at + |bs| then bs[i - at] else data[i]
  {
  }

  /** Nothing outside [from, to) is lost or changed, and the buffer grows no further than needed. */
  ghost predicate KeepsRest(data: seq<Byte>, from: nat, to: nat, data': seq<Byte>) {
    && |data'| == (if to <= |data| then |data| else to)
    && forall i :: 0 <= i < |data| && !(from <= i < to) ==> data'[i] == data[i]
  }

  lemma KeptRest(data: seq<Byte>, at: nat, bs: seq<Byte>)
    requires at <= |data|
    ensures KeepsRest(data, at, at + |bs|, Overwritten(data, at, bs))
  {
  }

  lemma OverwrittenTwice(data: seq<Byte>, at: nat, a: seq<Byte>, b: seq<Byte>)
    requires at <= |data|
    ensures Overwritten(Overwritten(data, at, a), at + |a|, b) == Overwritten(data, at, a + b)
  {
  }

  class Parcel {
    var data: seq<Byte>
    var position: nat
    var binders: seq<nat>

    ghost predicate Valid()
      reads this
    {
      position <= |data|
    }

    constructor ()
      ensures Valid() && data == [] && position == 0 && binders == []
    {
      data, position, binders := [], 0, [];
    }

    /** Grow the buffer if needed, copy the bytes to the cursor, and move it behind them. */
    method WriteRaw(bs: seq<Byte>)
      requires Valid()
      modifies this`data, this`position
      ensures Valid() && data == Overwritten(old(data), old(position), bs) && position == old(position) + |bs|
    {
      var end := position + |bs|;
      if end > |data| { data := data + seq(end - |data|, _ => 0); }
      data := data[..position] + bs + data[end..];
      position := end;
    }

    method Write(v: Value)
      requires Valid() && Writable(v)
      modifies this
      ensures Valid() && data == Overwritten(old(data), old(position), Encoding(v, |old(binders)|))
      ensures position == old(position) + |Encoding(v, |old(binders)|)| && binders == BindersAfter(old(binders), v)
      ensures KeepsRest(old(data), old(position), position, data)
    {
      KeptRest(data, position, Encoding(v, |binders|));
      hide Overwritten, Scalar, KeepsRest;
      match v
      case IntV(i) => WriteRaw(Scalar(i, 4));
      case LongV(l) => WriteRaw(Scalar(l, 8));
      case FloatV(bits) => WriteRaw(LeBytes(bits, 4));
      case DoubleV(bits) => WriteRaw(LeBytes(bits, 8));
      case BytesV(bytes) => WriteCounted(bytes.value);
      case TextV(utf) => if utf.None? { WriteRaw(Scalar(-1, 4)); } else { WriteCounted(utf.value); }
      case BinderV(ref) =>
        if ref.None? {
          WriteRaw(Scalar(-1, 4));
        } else {
          binders := binders + [ref.value];
          WriteRaw(Scalar(|binders| - 1, 4));
        }
    }

    method WriteCounted(bs: seq<Byte>)
      requires Valid()
      modifies this`data, this`position
      ensures Valid() && data == Overwritten(old(data), old(position), Scalar(|bs|, 4) + bs)
      ensures position == old(position) + 4 + |bs|
    {
      hide Overwritten;
      OverwrittenTwice(data, position, Scalar(|bs|, 4), bs);
      WriteRaw(Scalar(|bs|, 4));
      WriteRaw(bs);
    }

    method Read(kind: Kind) returns (v: Value)
      requires Valid()
      modifies this`position
      ensures Valid() && (v, position) == ReadAt(data, old(position), binders, kind)
    {
      match kind
      case IntK => var i := ReadWord(); v := IntV(i);
      case LongK => var bs := ReadRaw(8); v := LongV(if bs.None? then 0 else SignedLe(bs.value));
      case FloatK => var bs := ReadRaw(4); v := FloatV(if bs.None? then 0 else FromLe(bs.value));
      case DoubleK => var bs := ReadRaw(8); v := DoubleV(if bs.None? then 0 else FromLe(bs.value));
      case BytesK => var bs := ReadBytes(); v := BytesV(bs);
      case TextK => var bs := ReadBytes(); v := TextV(bs);
      case BinderK => var i := ReadWord(); v := BinderV(if 0 <= i < |binders| then Some(binders[i]) else None);
    }

    method ReadRaw(n: nat) returns (bs: Option<seq<Byte>>)
      requires Valid()
      modifies this`position
      ensures Valid() && (bs, position) == Take(data, old(position), n)
    {
      if position + n > |data| { return None; }
      bs := Some(data[position..position + n]);
      position := position + n;
    }

    method ReadWord() returns (v: int)
      requires Valid()
      modifies this`position
      ensures Valid() && (v, position) == ReadInt(data, old(position))
    {
      var bs := ReadRaw(4);
      v := if bs.None? then 0 else SignedLe(bs.value);
    }

    method ReadBytes() returns (bs: Option<seq<Byte>>)
      requires Valid()
      modifies this`position
      ensures Valid() && (bs, position) == ReadCounted(data, old(position))
    {
      var n := ReadWord();
      if n < 0 { return None; }
      bs := ReadRaw(n);
    }

    method SetDataPosition(at: int)
      requires Valid()
      modifies this`position
      ensures Valid() && position == if at < 0 then old(position) else if at <= |data| then at else |data|
    {
      if at >= 0 { position := if at <= |data| then at else |data|; }
    }

    method SetDataSize(size: int)
      requires Valid()
      modifies this`data, this`position
      ensures Valid() && (size >= 0 ==> |data| == size) && (size < 0 ==> data == old(data))
      ensures forall i :: 0 <= i < |data| ==> data[i] == if i < |old(data)| then old(data)[i] else 0
      ensures position == if old(position) <= |data| then old(position) else |data|
    {
      if size >= 0 {
        data := if size <= |data| then data[..size] else data + seq(size - |data|, _ => 0);
        if position > |data| { position := |data|; }
      }
    }
  }

  // A list of values

  predicate AllWritable(vs: seq<Value>) { forall i :: 0 <= i < |vs| ==> Writable(vs[i]) }

  function BindersOf(vs: seq<Value>): (bs: seq<nat>)
    ensures |bs| <= |vs|
  {
    if vs == [] then [] else BindersAfter(BindersOf(vs[..|vs| - 1]), vs[|vs| - 1])
  }

  function EncodeAll(vs: seq<Value>): seq<Byte>
    requires AllWritable(vs)
  {
    if vs == [] then []
    else EncodeAll(vs[..|vs| - 1]) + Encoding(vs[|vs| - 1], |BindersOf(vs[..|vs| - 1])|)
  }

  lemma StandsLast(data: seq<Byte>, bs: seq<Byte>)
    ensures Stands(data + bs, |data|, bs)
  {
  }

  lemma StandsLonger(data: seq<Byte>, more: seq<Byte>, at: nat, bs: seq<Byte>)
    requires Stands(data, at, bs)
    ensures Stands(data + more, at, bs)
  {
    assert (data + more)[at..at + |bs|] == data[at..at + |bs|];
  }

  /** Value i stands in the buffer behind the ones before it, and its binder in the binder list. */
  lemma {:induction false} EncodedAt(vs: seq<Value>, i: nat)
    requires AllWritable(vs) && i < |vs|
    ensures var n := |BindersOf(vs[..i])|;
            && Stands(EncodeAll(vs), |EncodeAll(vs[..i])|, Encoding(vs[i], n))
            && |EncodeAll(vs[..i + 1])| == |EncodeAll(vs[..i])| + |Encoding(vs[i], n)|
            && (vs[i].BinderV? && vs[i].ref.Some? ==> n < |BindersOf(vs)| && BindersOf(vs)[n] == vs[i].ref.value)
    decreases |vs|
  {
    hide Encoding, Writable, Stands;
    var last := |vs| - 1;
    assert vs[..i + 1][..i] == vs[..i];
    if i == last {
      assert vs[..i + 1] == vs;
      StandsLast(EncodeAll(vs[..i]), Encoding(vs[i], |BindersOf(vs[..i])|));
    } else {
      assert vs[..last][..i] == vs[..i] && vs[..last][..i + 1] == vs[..i + 1];
      EncodedAt(vs[..last], i);
      StandsLonger(EncodeAll(vs[..last]), Encoding(vs[last], |BindersOf(vs[..last])|), |EncodeAll(vs[..i])|,
                   Encoding(vs[i], |BindersOf(vs[..i])|));
    }
  }

  /** Any list of values written from empty and read from the start comes back equal. */
  method RoundTrip(vs: seq<Value>) returns (out: seq<Value>)
    requires AllWritable(vs) && |vs| < TWO_31
    ensures out == vs
  {
    hide Encoding, Writable, ReadAt, EncodeAll, BindersOf;
    var p := new Parcel();
    var i := 0;
    WrittenNone(vs);
    while i < |vs|
      invariant 0 <= i <= |vs| && p.Valid() && fresh(p)
      invariant p.data == EncodeAll(vs[..i]) && p.position == |p.data| && p.binders == BindersOf(vs[..i])
    {
      WrittenMore(vs, i);
      p.Write(vs[i]);
      i := i + 1;
    }
    assert vs[..|vs|] == vs;
    p.SetDataPosition(0);
    out, i := [], 0;
    while i < |vs|
      invariant 0 <= i <= |vs| && p.Valid() && fresh(p) && p.data == EncodeAll(vs) && p.binders == BindersOf(vs)
      invariant p.position == |EncodeAll(vs[..i])| && out == vs[..i]
    {
      EncodedAt(vs, i);
      ReadEncoding(p.data, p.position, p.binders, vs[i], |BindersOf(vs[..i])|);
      var v := p.Read(KindOf(vs[i]));
      out := out + [v];
      i := i + 1;
    }
  }

  lemma WrittenNone(vs: seq<Value>)
    requires AllWritable(vs)
    ensures EncodeAll(vs[..0]) == [] && BindersOf(vs[..0]) == []
  {
  }

  /** Writing at the end of the buffer appends. */
  lemma WrittenMore(vs: seq<Value>, i: nat)
    requires AllWritable(vs) && i < |vs|
    ensures var n := |BindersOf(vs[..i])|;
            && EncodeAll(vs[..i + 1]) == Overwritten(EncodeAll(vs[..i]), |EncodeAll(vs[..i])|, Encoding(vs[i], n))
            && |EncodeAll(vs[..i + 1])| == |EncodeAll(vs[..i])| + |Encoding(vs[i], n)|
            && BindersOf(vs[..i + 1]) == BindersAfter(BindersOf(vs[..i]), vs[i])
  {
    hide Encoding, Writable;
    assert vs[..i + 1][..i] == vs[..i];
  }
}
