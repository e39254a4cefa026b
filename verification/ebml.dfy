/** EBML variable-length integers and elements (sections 4 and 6 of RFC 8794), as the extractor reads them. */
module Ebml {
  import opened Bytes
  import opened Options

  /** 128 to the power w: the marker bit of a w-byte integer, and how many values it can hold. */
  function Pow128(w: nat): (p: nat)
    ensures p >= 1
  {
    if w == 0 then 1 else 128 * Pow128(w - 1)
  }

  /** The marker bit within the first byte. */
  function Mask(w: nat): (m: nat)
    requires 1 <= w <= 8
    ensures 1 <= m <= 128
  {
    match w
    case 1 => 128 case 2 => 64 case 3 => 32 case 4 => 16
    case 5 => 8 case 6 => 4 case 7 => 2 case _ => 1
  }

  /** The width that a first byte announces: the position of its highest set bit; 9 when there is none. */
  function Width(first: Byte): (w: nat)
    ensures 1 <= w <= 9
  {
    if first >= 128 then 1 else if first >= 64 then 2 else if first >= 32 then 3 else if first >= 16 then 4
    else if first >= 8 then 5 else if first >= 4 then 6 else if first >= 2 then 7 else if first >= 1 then 8 else 9
  }

  /** The integer at the start of a view and its width; an id keeps its marker, a size does not. */
  function Vint(s: seq<Byte>, keep: bool): (r: Option<(nat, nat)>)
    ensures r.Some? ==> 1 <= r.value.1 <= 8 && r.value.1 <= |s|
  {
    if s == [] then None
    else
      var w := Width(s[0]);
      if w > 8 || w > |s| then None
      else Some((FromBe([if keep then s[0] else s[0] % Mask(w)] + s[1..w]), w))
  }

  function EncodeVint(v: nat, w: nat): (bs: seq<Byte>)
    ensures |bs| == w
  {
    BeBytes(Pow128(w) + v, w)
  }

  datatype Element = Element(id: nat, payload: seq<Byte>)

  /** The element at the start of a view, and its total size; an all-ones size reaches to the end of the view. */
  function ReadElement(s: seq<Byte>): (r: Option<(Element, nat)>)
    ensures r.Some? ==> 2 <= r.value.1 <= |s| && |r.value.0.payload| + 2 <= r.value.1
  {
    var id := Vint(s, true);
    if id.None? then None
    else
      var rest := s[id.value.1..];
      var size := Vint(rest, false);
      if size.None? then None
      else
        var body := rest[size.value.1..];
        var n := if size.value.0 == Pow128(size.value.1) - 1 then |body| else size.value.0;
        if n > |body| then None else Some((Element(id.value.0, body[..n]), id.value.1 + size.value.1 + n))
  }

  /** The elements of a view, up to the first that cannot be read. */
  function Elements(s: seq<Byte>): seq<Element> {
    var e := ReadElement(s);
    if e.None? then [] else [e.value.0] + Elements(s[e.value.1..])
  }

  // Printing

  /** An element with the widths chosen for its id and its size. */
  datatype Node = Node(id: nat, idWidth: nat, sizeWidth: nat, payload: seq<Byte>)

  /** The id carries its own marker; the size is known, so not all ones. */
  predicate Legal(n: Node) {
    && 1 <= n.idWidth <= 8 && Pow128(n.idWidth) <= n.id < 2 * Pow128(n.idWidth)
    && 1 <= n.sizeWidth <= 8 && |n.payload| < Pow128(n.sizeWidth) - 1
  }

  function PrintNode(n: Node): seq<Byte> {
    BeBytes(n.id, n.idWidth) + EncodeVint(|n.payload|, n.sizeWidth) + n.payload
  }

  function PrintNodes(ns: seq<Node>): seq<Byte> {
    if ns == [] then [] else PrintNode(ns[0]) + PrintNodes(ns[1..])
  }

  function Content(ns: seq<Node>): (es: seq<Element>)
    ensures |es| == |ns|
  {
    seq(|ns|, i requires 0 <= i < |ns| => Element(ns[i].id, ns[i].payload))
  }

  // A printed integer is read back, whatever follows it

  lemma {:induction false} FromBeFirst(bs: seq<Byte>)
    requires bs != []
    ensures FromBe(bs) == bs[0] * Pow256(|bs| - 1) + FromBe(bs[1..])
  {
    if |bs| > 1 {
      var n := |bs| - 1;
      FromBeFirst(bs[..n]);
      assert bs[1..][..n - 1] == bs[..n][1..];
      assert 256 * (bs[0] * Pow256(n - 1)) == bs[0] * Pow256(n);
    } else {
      assert bs[..0] == [] && bs[1..] == [];
    }
  }

  lemma {:induction false} MaskPower(w: nat)
    requires 1 <= w <= 8
    ensures Pow128(w) == Mask(w) * Pow256(w - 1)
  {
    if w > 1 {
      MaskPower(w - 1);
      Regroup(Mask(w), Pow256(w - 2));
    }
  }

  lemma Regroup(m: nat, p: nat)
    ensures 128 * (2 * m * p) == m * (256 * p)
  {
  }

  /** The first byte's highest set bit is the marker exactly when it lies between the mask and twice the mask. */
  lemma WidthIff(first: Byte, w: nat)
    requires 1 <= w <= 8
    ensures Width(first) == w <==> Mask(w) <= first < 2 * Mask(w)
  {
  }

  lemma FirstByteBounds(first: nat, rest: nat, p: nat, m: nat, v: nat)
    requires first * p + rest == m * p + v && rest < p && v < m * p
    ensures m <= first < 2 * m
    ensures (first - m) * p + rest == v
  {
    assert (first - m) * p == v - rest;
    Between(first - m, p, v, rest, m);
  }

  lemma Between(d: int, p: nat, v: nat, rest: nat, m: nat)
    requires d * p == v - rest && rest < p && v < m * p
    ensures 0 <= d < m
  {
    assert d * p > -1 * p;
    assert d * p < m * p;
    assert d > -1 by { MulLess(-1, d, p); }
    MulLess(d, m, p);
  }

  lemma MulLess(a: int, b: int, p: nat)
    requires a * p < b * p
    ensures a < b
  {
    if a >= b { MulMono(b, a, p); }
  }

  lemma MulMono(a: int, b: int, p: nat)
    requires a <= b
    ensures a * p <= b * p
  {
  }

  /** The bytes of a marked integer: where its marker is, and what is left without it. */
  lemma VintParts(v: nat, w: nat)
    requires 1 <= w <= 8 && v < Pow128(w)
    ensures var bs := EncodeVint(v, w);
            && Mask(w) <= bs[0] < 2 * Mask(w) && FromBe(bs) == Pow128(w) + v
            && (bs[0] - Mask(w)) * Pow256(w - 1) + FromBe(bs[1..]) == v
  {
    hide Mask, Pow128;
    var bs := EncodeVint(v, w);
    MaskPower(w);
    VintFits(v, w);
    BeRoundTrip(Pow128(w) + v, w);
    FromBeFirst(bs);
    FromBeBound(bs[1..]);
    hide BeBytes, FromBe, Pow256;
    FirstByteBounds(bs[0], FromBe(bs[1..]), Pow256(w - 1), Mask(w), v);
  }

  lemma VintRoundTrip(v: nat, w: nat, rest: seq<Byte>)
    requires 1 <= w <= 8 && v < Pow128(w)
    ensures Vint(EncodeVint(v, w) + rest, true) == Some((Pow128(w) + v, w))
    ensures Vint(EncodeVint(v, w) + rest, false) == Some((v, w))
  {
    hide Mask, Pow128, EncodeVint, FromBe, Width, Pow256;
    var bs, m := EncodeVint(v, w), Mask(w);
    VintParts(v, w);
    WidthIff(bs[0], w);
    var s := bs + rest;
    assert s[1..w] == bs[1..] && s[0] == bs[0];
    assert [bs[0]] + bs[1..] == bs;
    LowBits(bs[0], m);
    var low: seq<Byte> := [bs[0] % m] + bs[1..];
    assert low[1..] == bs[1..];
    FromBeFirst(low);
  }

  lemma LowBits(first: Byte, m: nat)
    requires 1 <= m <= first < 2 * m
    ensures first % m == first - m
  {
    assert first == m * 1 + (first - m);
  }

  lemma VintFits(v: nat, w: nat)
    requires 1 <= w <= 8 && v < Pow128(w)
    ensures Pow128(w) + v < Pow256(w)
  {
    hide Pow128;
    MaskPower(w);
    MulMono(2 * Mask(w), 256, Pow256(w - 1));
    assert 2 * Mask(w) * Pow256(w - 1) == 2 * (Mask(w) * Pow256(w - 1));
  }

  lemma IdIsVint(n: Node)
    requires Legal(n)
    ensures BeBytes(n.id, n.idWidth) == EncodeVint(n.id - Pow128(n.idWidth), n.idWidth)
  {
  }

  lemma ReadPrinted(n: Node, rest: seq<Byte>)
    requires Legal(n)
    ensures ReadElement(PrintNode(n) + rest) == Some((Element(n.id, n.payload), |PrintNode(n)|))
  {
    hide Vint, EncodeVint, Pow128;
    var id, size := EncodeVint(n.id - Pow128(n.idWidth), n.idWidth), EncodeVint(|n.payload|, n.sizeWidth);
    IdIsVint(n);
    var s := PrintNode(n) + rest;
    VintRoundTrip(n.id - Pow128(n.idWidth), n.idWidth, size + (n.payload + rest));
    VintRoundTrip(|n.payload|, n.sizeWidth, n.payload + rest);
    assert s == id + (size + (n.payload + rest));
    assert s[|id|..] == size + (n.payload + rest);
    assert (size + (n.payload + rest))[|size|..] == n.payload + rest;
    assert (n.payload + rest)[..|n.payload|] == n.payload;
  }

  /** A printed list of elements reads back as that list. */
  lemma {:induction false} ElementsPrinted(ns: seq<Node>)
    requires forall i :: 0 <= i < |ns| ==> Legal(ns[i])
    ensures Elements(PrintNodes(ns)) == Content(ns)
  {
    hide ReadElement, PrintNode, Legal;
    if ns == [] {
      NothingToRead();
    } else {
      var rest := PrintNodes(ns[1..]);
      ReadPrinted(ns[0], rest);
      ElementsPrinted(ns[1..]);
      var s := PrintNode(ns[0]) + rest;
      assert s[|PrintNode(ns[0])|..] == rest;
      assert Content(ns) == [Element(ns[0].id, ns[0].payload)] + Content(ns[1..]);
    }
  }

  lemma NothingToRead()
    ensures ReadElement([]).None?
  {
  }

  // The readers, with a cursor into a view

  /** The loop that looks for the marker: the mask halves until it meets a set bit. */
  method FindMarker(first: Byte) returns (mask: nat, count: nat)
    ensures count == Width(first) && (count <= 8 ==> mask == Mask(count))
  {
    mask, count := 128, 1;
    while count <= 8 && first / mask % 2 == 0
      invariant 1 <= count <= 9 && (count <= 8 ==> mask == Mask(count) && first < 2 * mask)
      invariant count == 9 ==> first < 1
    {
      Unset(first, mask);
      mask := mask / 2;
      count := count + 1;
    }
    if count <= 8 {
      Set(first, mask);
      WidthIff(first, count);
    }
  }

  lemma Unset(first: nat, mask: nat)
    requires mask > 0 && first < 2 * mask && first / mask % 2 == 0
    ensures first < mask
  {
    if first >= mask { OneQuotient(first, mask); }
  }

  lemma Set(first: nat, mask: nat)
    requires mask > 0 && first < 2 * mask && first / mask % 2 != 0
    ensures mask <= first
  {
    var q := first / mask;
    assert first == mask * q + first % mask;
    MulMono(1, q, mask);
  }

  lemma OneQuotient(first: nat, mask: nat)
    requires 0 < mask <= first < 2 * mask
    ensures first / mask == 1
  {
    var q, r := first / mask, first % mask;
    assert first == mask * q + r;
    MulLess(q, 2, mask);
    if q < 1 { MulMono(q, 0, mask); }
  }

  method ReadVint(view: seq<Byte>, position: nat, keep: bool) returns (ok: bool, value: nat, width: nat)
    requires position <= |view|
    ensures ok <==> Vint(view[position..], keep).Some?
    ensures ok ==> (value, width) == Vint(view[position..], keep).value && position + width <= |view|
  {
    hide Mask, Width;
    ok, value, width := false, 0, 0;
    if position >= |view| { return; }
    ghost var s := view[position..];
    var first := view[position];
    var mask, count := FindMarker(first);
    if count > 8 || count > |view| - position { return; }
    value := if keep then first else first % mask;
    ghost var head: seq<Byte> := [value] + s[1..count];
    FromBeOne(value);
    var i := 1;
    while i < count
      invariant 1 <= i <= count && value == FromBe(head[..i])
    {
      assert head[..i + 1][..i] == head[..i] && head[i] == view[position + i];
      value := value * 256 + view[position + i];
      i := i + 1;
    }
    assert head[..count] == head;
    ok, width := true, count;
  }

  lemma FromBeOne(b: Byte)
    ensures FromBe([b]) == b
  {
    assert [b][..0] == [];
  }

  /** Reads the element at the cursor: its id, and where its payload begins and ends. */
  method ReadAt(view: seq<Byte>, position: nat) returns (ok: bool, id: nat, payload: nat, length: nat)
    requires position <= |view|
    ensures ok <==> ReadElement(view[position..]).Some?
    ensures ok ==> position + 2 <= payload <= payload + length <= |view|
    ensures ok ==>
              var e := Element(id, view[payload..payload + length]);
              ReadElement(view[position..]) == Some((e, payload + length - position))
  {
    hide Vint, Pow128;
    id, payload, length := 0, 0, 0;
    var idWidth, sizeWidth;
    ok, id, idWidth := ReadVint(view, position, true);
    if !ok { return; }
    assert view[position..][idWidth..] == view[position + idWidth..];
    ok, length, sizeWidth := ReadVint(view, position + idWidth, false);
    if !ok { return; }
    payload := position + idWidth + sizeWidth;
    assert view[position + idWidth..][sizeWidth..] == view[payload..];
    if length == Pow128(sizeWidth) - 1 { length := |view| - payload; }
    ok := length <= |view| - payload;
    if ok { assert view[payload..][..length] == view[payload..payload + length]; }
  }
}
