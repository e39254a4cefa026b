/**
 * WebM files as trees: what a file of Info, Tracks and Clusters of unlaced SimpleBlocks means, stated
 * without any bytes, and the theorem that printing it in any legal widths and parsing gives that meaning.
 */
module WebmTree {
  import opened WordSize
  import opened Bytes
  import opened Options
  import opened Ebml
  import opened Webm

  /** An unsigned value in n bytes, under a size of sw bytes. */
  datatype U = U(sw: nat, n: nat, v: nat)

  // At every level Other is an element with an id that the reader does not handle there.

  datatype Dim = PixelWidth(u: U) | PixelHeight(u: U) | Other(node: Node)

  datatype Field =
    | Number(u: U)
    | TrackType(u: U)
    | Codec(sw: nat, name: seq<Byte>)
    | Video(sw: nat, dims: seq<Dim>)
    | Other(node: Node)

  datatype Track = TrackEntry(sw: nat, fields: seq<Field>) | Other(node: Node)

  datatype Setting = Scale(u: U) | Other(node: Node)

  /** relative is the block's time within its cluster; trackWidth the width of its track number. */
  datatype Block = Block(track: nat, trackWidth: nat, relative: int, flags: Byte, data: seq<Byte>)

  datatype Item = Time(u: U) | Simple(sw: nat, block: Block) | Other(node: Node)

  datatype Child =
    | Info(sw: nat, settings: seq<Setting>)
    | Tracks(sw: nat, entries: seq<Track>)
    | Cluster(sw: nat, items: seq<Item>)
    | Other(node: Node)

  /** The Segment, with anything else before and after it, such as the EBML header. */
  datatype File = File(header: seq<Node>, sw: nat, children: seq<Child>, trailer: seq<Node>)

  /** A block with the cluster time and the timecode scale in force where it stands. */
  datatype Stamp = Stamp(block: Block, time: int, scale: int)

  // Meaning

  function FoldT<S, T>(g: (S, T) -> S, s: S, ts: seq<T>): S {
    if ts == [] then s else FoldT(g, g(s, ts[0]), ts[1..])
  }

  function MeanDim(m: Movie, d: Dim): Movie {
    if d.Other? || !(0 < d.u.v <= 32768) then m else if d.PixelWidth? then m.(width := d.u.v) else m.(height := d.u.v)
  }

  function MeanField(t: Entry, f: Field): Entry {
    match f
    case Number(u) => t.(number := u.v)
    case TrackType(u) => t.(video := u.v == 1)
    case Codec(_, name) => if name == V_VP9 then t.(video := true) else t
    case Video(_, dims) => t.(m := FoldT(MeanDim, t.m, dims))
    case Other(_) => t
  }

  /** The last video track named is the one whose samples are kept. */
  function MeanTrack(m: Movie, e: Track): Movie {
    if e.Other? then m
    else
      var t := FoldT(MeanField, Entry(m, 1, false), e.fields);
      if t.video then t.m.(track := t.number, haveVideo := true) else t.m
  }

  function MeanSetting(m: Movie, s: Setting): Movie {
    if s.Scale? && 0 < s.u.v <= 1_000_000_000 then m.(scale := s.u.v) else m
  }

  /** The product a timestamp is made of, in nanoseconds. */
  function Nanoseconds(s: Stamp): int { (s.time + s.block.relative) * s.scale }

  function KeyFlag(b: Block): nat { if b.flags >= 128 then 1 else 0 }

  function SampleOf(s: Stamp): Sample {
    Sample(s.block.data, Pts(s.time, s.block.relative, s.scale), KeyFlag(s.block))
  }

  /** The same with the timestamp it should have. */
  function ExactSample(s: Stamp): Sample {
    Sample(s.block.data, Trunc(Nanoseconds(s), 1000), KeyFlag(s.block))
  }

  function Samples(stamps: seq<Stamp>): (samples: seq<Sample>)
    ensures |samples| == |stamps|
  {
    seq(|stamps|, i requires 0 <= i < |stamps| => SampleOf(stamps[i]))
  }

  function ExactSamples(stamps: seq<Stamp>): (samples: seq<Sample>)
    ensures |samples| == |stamps|
  {
    seq(|stamps|, i requires 0 <= i < |stamps| => ExactSample(stamps[i]))
  }

  /** The blocks of one track in a cluster, in order. */
  function StampsOf(track: nat, scale: int, time: int, items: seq<Item>): seq<Stamp>
    decreases |items|
  {
    if items == [] then []
    else match items[0]
      case Time(u) => StampsOf(track, scale, Int64(u.v), items[1..])
      case Simple(_, b) =>
        (if b.track == track then [Stamp(b, time, scale)] else []) + StampsOf(track, scale, time, items[1..])
      case Other(_) => StampsOf(track, scale, time, items[1..])
  }

  /** At most a million samples are kept. */
  function Cap(samples: seq<Sample>): seq<Sample> {
    if |samples| <= MAX_SAMPLES then samples else samples[..MAX_SAMPLES]
  }

  function MeanChild(m: Movie, c: Child): Movie {
    match c
    case Info(_, settings) => FoldT(MeanSetting, m, settings)
    case Tracks(_, entries) => FoldT(MeanTrack, m, entries)
    case Cluster(_, items) => m.(samples := Cap(m.samples + Samples(StampsOf(m.track, m.scale, 0, items))))
    case Other(_) => m
  }

  // Printing

  function UNode(id: nat, width: nat, u: U): Node { Node(id, width, u.sw, BeBytes(u.v, u.n)) }

  function DimNode(d: Dim): Node {
    if d.Other? then d.node else UNode(if d.PixelWidth? then PIXEL_WIDTH else PIXEL_HEIGHT, 1, d.u)
  }

  function Nodes<T>(node: T -> Node, ts: seq<T>): (ns: seq<Node>)
    ensures |ns| == |ts|
  {
    seq(|ts|, i requires 0 <= i < |ts| => node(ts[i]))
  }

  function FieldNode(f: Field): Node {
    match f
    case Number(u) => UNode(TRACK_NUMBER, 1, u)
    case TrackType(u) => UNode(TRACK_TYPE, 1, u)
    case Codec(sw, name) => Node(CODEC_ID, 1, sw, name)
    case Video(sw, dims) => Node(VIDEO, 1, sw, PrintNodes(Nodes(DimNode, dims)))
    case Other(node) => node
  }

  function TrackNode(e: Track): Node {
    if e.Other? then e.node else Node(TRACK_ENTRY, 1, e.sw, PrintNodes(Nodes(FieldNode, e.fields)))
  }

  function SettingNode(s: Setting): Node { if s.Other? then s.node else UNode(TIMECODE_SCALE, 3, s.u) }

  function Unsigned16(v: int): nat { if 0 <= v then v else if v >= -0x1_0000 then v + 0x1_0000 else 0 }

  function BlockPayload(b: Block): seq<Byte> {
    EncodeVint(b.track, b.trackWidth) + BeBytes(Unsigned16(b.relative), 2) + [b.flags] + b.data
  }

  function ItemNode(i: Item): Node {
    match i
    case Time(u) => UNode(TIMECODE, 1, u)
    case Simple(sw, b) => Node(SIMPLE_BLOCK, 1, sw, BlockPayload(b))
    case Other(node) => node
  }

  function ChildNode(c: Child): Node {
    match c
    case Info(sw, settings) => Node(INFO, 4, sw, PrintNodes(Nodes(SettingNode, settings)))
    case Tracks(sw, entries) => Node(TRACKS, 4, sw, PrintNodes(Nodes(TrackNode, entries)))
    case Cluster(sw, items) => Node(CLUSTER, 4, sw, PrintNodes(Nodes(ItemNode, items)))
    case Other(node) => node
  }

  function SegmentNode(f: File): Node { Node(SEGMENT, 4, f.sw, PrintNodes(Nodes(ChildNode, f.children))) }

  function Print(f: File): seq<Byte> { PrintNodes(f.header + [SegmentNode(f)] + f.trailer) }

  // Legal trees: sizes known and fitting the chosen widths, blocks unlaced

  predicate SizeOk(sw: nat, payload: seq<Byte>) { 1 <= sw <= 8 && |payload| < Pow128(sw) - 1 }

  predicate UOk(u: U, most: nat) { 1 <= u.sw <= 8 && u.n <= most && u.v < Pow256(u.n) }

  predicate DimOk(d: Dim) {
    if d.Other? then Legal(d.node) && d.node.id !in {PIXEL_WIDTH, PIXEL_HEIGHT} else UOk(d.u, 4)
  }

  predicate FieldOk(f: Field) {
    match f
    case Number(u) => UOk(u, 8)
    case TrackType(u) => UOk(u, 8)
    case Codec(sw, name) => SizeOk(sw, name)
    case Video(sw, dims) => SizeOk(sw, FieldNode(f).payload) && forall i :: 0 <= i < |dims| ==> DimOk(dims[i])
    case Other(node) => Legal(node) && node.id !in {TRACK_NUMBER, TRACK_TYPE, CODEC_ID, VIDEO}
  }

  predicate TrackOk(e: Track) {
    if e.Other? then Legal(e.node) && e.node.id != TRACK_ENTRY
    else SizeOk(e.sw, TrackNode(e).payload) && forall i :: 0 <= i < |e.fields| ==> FieldOk(e.fields[i])
  }

  predicate SettingOk(s: Setting) {
    if s.Other? then Legal(s.node) && s.node.id != TIMECODE_SCALE else UOk(s.u, 8)
  }

  predicate BlockOk(b: Block) {
    1 <= b.trackWidth <= 8 && b.track < Pow128(b.trackWidth) && -0x8000 <= b.relative < 0x8000 && b.flags / 2 % 4 == 0
  }

  predicate ItemOk(i: Item) {
    match i
    case Time(u) => UOk(u, 8)
    case Simple(sw, b) => SizeOk(sw, BlockPayload(b)) && BlockOk(b)
    case Other(node) => Legal(node) && node.id !in {TIMECODE, SIMPLE_BLOCK}
  }

  predicate ChildOk(c: Child) {
    (c.Other? || SizeOk(c.sw, ChildNode(c).payload)) &&
    match c
    case Info(_, settings) => forall i :: 0 <= i < |settings| ==> SettingOk(settings[i])
    case Tracks(_, entries) => forall i :: 0 <= i < |entries| ==> TrackOk(entries[i])
    case Cluster(_, items) => forall i :: 0 <= i < |items| ==> ItemOk(items[i])
    case Other(node) => Legal(node) && node.id !in {INFO, TRACKS, CLUSTER}
  }

  predicate FileOk(f: File) {
    && (forall i :: 0 <= i < |f.header| ==> Legal(f.header[i]) && f.header[i].id != SEGMENT)
    && (forall i :: 0 <= i < |f.trailer| ==> Legal(f.trailer[i]) && f.trailer[i].id != SEGMENT)
    && SizeOk(f.sw, SegmentNode(f).payload) && (forall i :: 0 <= i < |f.children| ==> ChildOk(f.children[i]))
  }

  // Printing and parsing level by level

  function Content1(n: Node): Element { Element(n.id, n.payload) }

  /** When each printed element does what the tree node means, so does the whole list. */
  lemma {:induction false} ListMeaning<S(!new), T>(f: (S, Element) -> S, g: (S, T) -> S, node: T -> Node, s: S,
                                         ts: seq<T>)
    requires forall i :: 0 <= i < |ts| ==> Legal(node(ts[i]))
    requires forall x: S, i :: 0 <= i < |ts| ==> f(x, Content1(node(ts[i]))) == g(x, ts[i])
    ensures Fold(f, s, Elements(PrintNodes(Nodes(node, ts)))) == FoldT(g, s, ts)
  {
    hide Elements, PrintNodes, Legal;
    ElementsPrinted(Nodes(node, ts));
    FoldContent(f, g, node, s, ts);
  }

  lemma {:induction false} FoldContent<S(!new), T>(f: (S, Element) -> S, g: (S, T) -> S, node: T -> Node, s: S,
                                         ts: seq<T>)
    requires forall x: S, i :: 0 <= i < |ts| ==> f(x, Content1(node(ts[i]))) == g(x, ts[i])
    ensures Fold(f, s, Content(Nodes(node, ts))) == FoldT(g, s, ts)
    decreases |ts|
  {
    if ts != [] {
      assert Content(Nodes(node, ts))[0] == Content1(node(ts[0]));
      assert Content(Nodes(node, ts))[1..] == Content(Nodes(node, ts[1..]));
      assert forall x: S, i :: 0 <= i < |ts[1..]| ==> f(x, Content1(node(ts[1..][i]))) == g(x, ts[1..][i]);
      FoldContent(f, g, node, g(s, ts[0]), ts[1..]);
    }
  }

  lemma {:induction false} Powers128(w: nat)
    requires 1 <= w
    ensures Pow128(w) >= 128 && Pow128(1) == 128 && Pow128(3) == 0x20_0000 && Pow128(4) == 0x1000_0000
  {
    if w > 1 { Powers128(w - 1); }
    assert Pow128(4) == 128 * (128 * Pow128(2));
  }

  lemma UMeaning(id: nat, width: nat, u: U, most: nat)
    requires UOk(u, most) && most <= 8 && 1 <= width <= 8 && Pow128(width) <= id < 2 * Pow128(width)
    ensures Legal(UNode(id, width, u)) && FromBe(UNode(id, width, u).payload) == u.v
    ensures |UNode(id, width, u).payload| == u.n
  {
    BeRoundTrip(u.v, u.n);
    Powers128(u.sw);
  }

  lemma DimMeaning(m: Movie, d: Dim)
    requires DimOk(d)
    ensures Legal(DimNode(d)) && DimStep(m, Content1(DimNode(d))) == MeanDim(m, d)
  {
    Powers128(1);
    if !d.Other? { UMeaning(DimNode(d).id, 1, d.u, 4); }
  }

  lemma VideoMeaning(m: Movie, dims: seq<Dim>)
    requires forall i :: 0 <= i < |dims| ==> DimOk(dims[i])
    ensures Fold(DimStep, m, Elements(PrintNodes(Nodes(DimNode, dims)))) == FoldT(MeanDim, m, dims)
  {
    forall x: Movie, i | 0 <= i < |dims|
      ensures Legal(DimNode(dims[i])) && DimStep(x, Content1(DimNode(dims[i]))) == MeanDim(x, dims[i])
    {
      DimMeaning(x, dims[i]);
    }
    hide DimStep, MeanDim, Legal, DimNode, Fold, FoldT;
    ListMeaning(DimStep, MeanDim, DimNode, m, dims);
  }

  lemma FieldMeaning(t: Entry, f: Field)
    requires FieldOk(f)
    ensures Legal(FieldNode(f)) && FieldStep(t, Content1(FieldNode(f))) == MeanField(t, f)
  {
    hide Elements, PrintNodes, Fold, FoldT;
    Powers128(1);
    match f
    case Number(u) => UMeaning(TRACK_NUMBER, 1, u, 8);
    case TrackType(u) => UMeaning(TRACK_TYPE, 1, u, 8);
    case Codec(_, _) =>
    case Video(_, dims) => VideoMeaning(t.m, dims);
    case Other(_) =>
  }

  lemma FieldsMeaning(t: Entry, fields: seq<Field>)
    requires forall i :: 0 <= i < |fields| ==> FieldOk(fields[i])
    ensures Fold(FieldStep, t, Elements(PrintNodes(Nodes(FieldNode, fields)))) == FoldT(MeanField, t, fields)
  {
    hide FieldStep, MeanField, Legal, FieldNode, Fold, FoldT, FieldOk;
    forall x: Entry, i | 0 <= i < |fields|
      ensures FieldStep(x, Content1(FieldNode(fields[i]))) == MeanField(x, fields[i])
    {
      FieldMeaning(x, fields[i]);
    }
    forall i | 0 <= i < |fields| ensures Legal(FieldNode(fields[i])) { FieldMeaning(t, fields[i]); }
    ListMeaning(FieldStep, MeanField, FieldNode, t, fields);
  }

  lemma TrackMeaning(m: Movie, e: Track)
    requires TrackOk(e)
    ensures Legal(TrackNode(e)) && TrackStep(m, Content1(TrackNode(e))) == MeanTrack(m, e)
  {
    hide Elements, PrintNodes, Fold, FoldT, FieldOk;
    Powers128(1);
    if !e.Other? { FieldsMeaning(Entry(m, 1, false), e.fields); }
  }

  lemma TracksMeaning(m: Movie, entries: seq<Track>)
    requires forall i :: 0 <= i < |entries| ==> TrackOk(entries[i])
    ensures Fold(TrackStep, m, Elements(PrintNodes(Nodes(TrackNode, entries)))) == FoldT(MeanTrack, m, entries)
  {
    hide TrackStep, MeanTrack, Legal, TrackNode, Fold, FoldT, TrackOk;
    forall x: Movie, i | 0 <= i < |entries|
      ensures TrackStep(x, Content1(TrackNode(entries[i]))) == MeanTrack(x, entries[i])
    {
      TrackMeaning(x, entries[i]);
    }
    forall i | 0 <= i < |entries| ensures Legal(TrackNode(entries[i])) { TrackMeaning(m, entries[i]); }
    ListMeaning(TrackStep, MeanTrack, TrackNode, m, entries);
  }

  lemma SettingMeaning(m: Movie, s: Setting)
    requires SettingOk(s)
    ensures Legal(SettingNode(s)) && InfoStep(m, Content1(SettingNode(s))) == MeanSetting(m, s)
  {
    Powers128(3);
    if s.Scale? { UMeaning(TIMECODE_SCALE, 3, s.u, 8); }
  }

  lemma InfoMeaning(m: Movie, settings: seq<Setting>)
    requires forall i :: 0 <= i < |settings| ==> SettingOk(settings[i])
    ensures Fold(InfoStep, m, Elements(PrintNodes(Nodes(SettingNode, settings)))) == FoldT(MeanSetting, m, settings)
  {
    hide InfoStep, MeanSetting, Legal, SettingNode, Fold, FoldT, SettingOk;
    forall x: Movie, i | 0 <= i < |settings|
      ensures InfoStep(x, Content1(SettingNode(settings[i]))) == MeanSetting(x, settings[i])
    {
      SettingMeaning(x, settings[i]);
    }
    forall i | 0 <= i < |settings| ensures Legal(SettingNode(settings[i])) { SettingMeaning(m, settings[i]); }
    ListMeaning(InfoStep, MeanSetting, SettingNode, m, settings);
  }

  // Blocks

  lemma TwoBytes(v: int)
    requires -0x8000 <= v < 0x8000
    ensures var bs := BeBytes(Unsigned16(v), 2); Int16(bs[0], bs[1]) == v
  {
    var u := Unsigned16(v);
    assert BeBytes(u / 256, 1) == BeBytes(u / 256 / 256, 0) + [u / 256 % 256];
    assert BeBytes(u, 2) == BeBytes(u / 256, 1) + [u % 256];
  }

  lemma BlockParts(b: Block)
    requires BlockOk(b)
    ensures var p, w := BlockPayload(b), b.trackWidth;
            && |p| == w + 3 + |b.data| && Vint(p, false) == Some((b.track, w))
            && p[w + 2] == b.flags && p[w + 3..] == b.data
            && Int16(p[w], p[w + 1]) == b.relative
  {
    hide Vint, EncodeVint, Pow128, BeBytes;
    var p, w, r := BlockPayload(b), b.trackWidth, BeBytes(Unsigned16(b.relative), 2);
    VintRoundTrip(b.track, w, r + [b.flags] + b.data);
    assert p == EncodeVint(b.track, w) + (r + [b.flags] + b.data);
    TwoBytes(b.relative);
    assert p[w] == r[0] && p[w + 1] == r[1];
  }

  lemma BlockMeaning(m: Movie, time: int, b: Block)
    requires BlockOk(b) && |m.samples| <= MAX_SAMPLES
    ensures BlockStep(m, time, BlockPayload(b))
         == m.(samples := Cap(m.samples + if b.track == m.track then [SampleOf(Stamp(b, time, m.scale))] else []))
  {
    hide Vint, BlockPayload, Pts, Int16;
    BlockParts(b);
    assert m.samples + [] == m.samples;
    var one := [SampleOf(Stamp(b, time, m.scale))];
    if |m.samples| == MAX_SAMPLES { assert (m.samples + one)[..MAX_SAMPLES] == m.samples; }
  }

  lemma ItemMeaning(c: Clock, i: Item)
    requires ItemOk(i) && |c.m.samples| <= MAX_SAMPLES
    ensures Legal(ItemNode(i))
    ensures i.Time? ==> ItemStep(c, Content1(ItemNode(i))) == c.(time := Int64(i.u.v))
    ensures i.Simple? ==> ItemStep(c, Content1(ItemNode(i))) == c.(m := BlockStep(c.m, c.time, BlockPayload(i.block)))
    ensures i.Other? ==> ItemStep(c, Content1(ItemNode(i))) == c
  {
    hide BlockStep, BlockPayload;
    Powers128(1);
    match i
    case Time(u) => UMeaning(TIMECODE, 1, u, 8);
    case Simple(_, b) => BlockParts(b);
    case Other(_) =>
  }

  lemma CapTwice(a: seq<Sample>, b: seq<Sample>)
    ensures Cap(Cap(a) + b) == Cap(a + b) && |Cap(a)| <= MAX_SAMPLES
  {
    if |a| > MAX_SAMPLES {
      assert (a[..MAX_SAMPLES] + b)[..MAX_SAMPLES] == (a + b)[..MAX_SAMPLES];
    }
  }

  lemma NoSamples(m: Movie)
    requires |m.samples| <= MAX_SAMPLES
    ensures Cap(m.samples + Samples([])) == m.samples
  {
    assert m.samples + Samples([]) == m.samples;
  }

  lemma SamplesConcat(a: seq<Stamp>, b: seq<Stamp>)
    ensures Samples(a + b) == Samples(a) + Samples(b)
  {
  }

  lemma SamplesFew(s: Stamp)
    ensures Samples([]) == [] && Samples([s]) == [SampleOf(s)]
  {
  }

  lemma {:induction false} ItemsMeaning(c: Clock, items: seq<Item>)
    requires (forall i :: 0 <= i < |items| ==> ItemOk(items[i])) && |c.m.samples| <= MAX_SAMPLES
    ensures Fold(ItemStep, c, Content(Nodes(ItemNode, items))).m
         == c.m.(samples := Cap(c.m.samples + Samples(StampsOf(c.m.track, c.m.scale, c.time, items))))
    decreases |items|
  {
    hide ItemStep, ItemOk, ItemNode, BlockPayload, BlockStep, SampleOf, Samples, Cap;
    if items == [] {
      NoSamples(c.m);
    } else {
      var first, rest := items[0], items[1..];
      assert Content(Nodes(ItemNode, items))[0] == Content1(ItemNode(first));
      assert Content(Nodes(ItemNode, items))[1..] == Content(Nodes(ItemNode, rest));
      ItemMeaning(c, first);
      match first
      case Time(u) => ItemsMeaning(c.(time := Int64(u.v)), rest);
      case Simple(_, b) =>
        ItemIsBlock(first);
        var stamps := if b.track == c.m.track then [Stamp(b, c.time, c.m.scale)] else [];
        var later := StampsOf(c.m.track, c.m.scale, c.time, rest);
        SamplesConcat(stamps, later);
        BlockMeaning(c.m, c.time, b);
        var one, more := Samples(stamps), Samples(later);
        CapTwice(c.m.samples + one, more);
        assert c.m.samples + (one + more) == (c.m.samples + one) + more;
        SamplesFew(Stamp(b, c.time, c.m.scale));
        ItemsMeaning(c.(m := c.m.(samples := Cap(c.m.samples + one))), rest);
      case Other(_) => ItemsMeaning(c, rest);
    }
  }

  lemma ItemIsBlock(i: Item)
    requires ItemOk(i) && i.Simple?
    ensures BlockOk(i.block)
  {
  }

  lemma ClusterMeaning(m: Movie, items: seq<Item>)
    requires (forall i :: 0 <= i < |items| ==> ItemOk(items[i])) && |m.samples| <= MAX_SAMPLES
    ensures Fold(ItemStep, Clock(m, 0), Elements(PrintNodes(Nodes(ItemNode, items)))).m
         == m.(samples := Cap(m.samples + Samples(StampsOf(m.track, m.scale, 0, items))))
  {
    hide ItemStep, ItemNode, ItemOk, Legal, Fold, Samples, StampsOf, Elements, PrintNodes, Cap;
    forall i | 0 <= i < |items| ensures Legal(ItemNode(items[i])) { ItemMeaning(Clock(m, 0), items[i]); }
    ElementsPrinted(Nodes(ItemNode, items));
    ItemsMeaning(Clock(m, 0), items);
  }

  // The whole file

  lemma ChildMeaning(m: Movie, c: Child)
    requires ChildOk(c) && |m.samples| <= MAX_SAMPLES
    ensures Legal(ChildNode(c)) && ChildStep(m, Content1(ChildNode(c))) == MeanChild(m, c)
  {
    hide Elements, PrintNodes, Fold, FoldT, Samples, StampsOf, UOk, SettingOk, TrackOk, ItemOk, Cap;
    Powers128(4);
    match c
    case Info(_, settings) => InfoMeaning(m, settings);
    case Tracks(_, entries) => TracksMeaning(m, entries);
    case Cluster(_, items) => ClusterMeaning(m, items);
    case Other(_) =>
  }

  lemma {:induction false} FoldTKeeps<S(!new), T(!new)>(g: (S, T) -> S, keeps: (S, S) -> bool, s: S, ts: seq<T>)
    requires forall x: S :: keeps(x, x)
    requires forall x: S, y: S, t: T :: keeps(x, y) ==> keeps(x, g(y, t))
    ensures keeps(s, FoldT(g, s, ts))
  {
    FoldTKeepsFrom(g, keeps, s, s, ts);
  }

  lemma {:induction false} FoldTKeepsFrom<S(!new), T(!new)>(g: (S, T) -> S, keeps: (S, S) -> bool, s: S, y: S,
                                            ts: seq<T>)
    requires keeps(s, y) && forall x: S, y: S, t: T :: keeps(x, y) ==> keeps(x, g(y, t))
    ensures keeps(s, FoldT(g, y, ts))
    decreases |ts|
  {
    if ts != [] { FoldTKeepsFrom(g, keeps, s, g(y, ts[0]), ts[1..]); }
  }

  predicate SameSamples(a: Movie, b: Movie) { a.samples == b.samples }

  /** Tracks and Info say nothing about samples. */
  lemma TracksKeepSamples(m: Movie, e: Track)
    ensures MeanTrack(m, e).samples == m.samples
  {
    var keeps := (a: Entry, b: Entry) => a.m.samples == b.m.samples;
    forall x: Entry, y: Entry, f: Field | keeps(x, y) ensures keeps(x, MeanField(y, f)) {
      if f.Video? { FoldTKeeps(MeanDim, SameSamples, y.m, f.dims); }
    }
    if !e.Other? { FoldTKeeps(MeanField, keeps, Entry(m, 1, false), e.fields); }
  }

  lemma ChildKeepsSamples(m: Movie, c: Child)
    requires !c.Cluster?
    ensures MeanChild(m, c).samples == m.samples
  {
    match c
    case Info(_, settings) => FoldTKeeps(MeanSetting, SameSamples, m, settings);
    case Tracks(_, entries) =>
      forall x: Movie, y: Movie, e: Track | SameSamples(x, y) ensures SameSamples(x, MeanTrack(y, e)) {
        TracksKeepSamples(y, e);
      }
      FoldTKeeps(MeanTrack, SameSamples, m, entries);
    case Other(_) =>
  }

  lemma ChildKeepsCap(m: Movie, c: Child)
    requires |m.samples| <= MAX_SAMPLES
    ensures |MeanChild(m, c).samples| <= MAX_SAMPLES
  {
    if !c.Cluster? { ChildKeepsSamples(m, c); }
  }

  lemma {:induction false} ChildrenMeaning(m: Movie, children: seq<Child>)
    requires (forall i :: 0 <= i < |children| ==> ChildOk(children[i])) && |m.samples| <= MAX_SAMPLES
    ensures Fold(ChildStep, m, Content(Nodes(ChildNode, children))) == FoldT(MeanChild, m, children)
    decreases |children|
  {
    hide ChildStep, MeanChild, ChildNode, ChildOk;
    if children != [] {
      assert Content(Nodes(ChildNode, children))[0] == Content1(ChildNode(children[0]));
      assert Content(Nodes(ChildNode, children))[1..] == Content(Nodes(ChildNode, children[1..]));
      ChildMeaning(m, children[0]);
      ChildKeepsCap(m, children[0]);
      ChildrenMeaning(MeanChild(m, children[0]), children[1..]);
    }
  }

  lemma SegmentMeaning(m: Movie, f: File)
    requires FileOk(f) && |m.samples| <= MAX_SAMPLES
    ensures Legal(SegmentNode(f)) && RootStep(m, Content1(SegmentNode(f))) == FoldT(MeanChild, m, f.children)
  {
    hide ChildStep, MeanChild, ChildNode, ChildOk, Fold, FoldT, Elements, PrintNodes;
    Powers128(4);
    forall i | 0 <= i < |f.children| ensures Legal(ChildNode(f.children[i])) { ChildMeaning(FRESH, f.children[i]); }
    ElementsPrinted(Nodes(ChildNode, f.children));
    ChildrenMeaning(m, f.children);
  }

  /** Elements before the Segment change nothing. */
  lemma {:induction false} HeaderSkipped(m: Movie, header: seq<Node>, rest: seq<Node>)
    requires forall i :: 0 <= i < |header| ==> header[i].id != SEGMENT
    ensures Fold(RootStep, m, Content(header + rest)) == Fold(RootStep, m, Content(rest))
    decreases |header|
  {
    hide ChildStep;
    var ns := header + rest;
    if header == [] {
      assert ns == rest;
    } else {
      assert ns[1..] == header[1..] + rest;
      assert Content(ns)[0] == Content1(header[0]) && Content(ns)[1..] == Content(ns[1..]);
      HeaderSkipped(m, header[1..], rest);
    }
  }

  /** Nor do elements after it. */
  lemma RootMeaning(m: Movie, header: seq<Node>, segment: Node, trailer: seq<Node>)
    requires forall i :: 0 <= i < |header| ==> header[i].id != SEGMENT
    requires forall i :: 0 <= i < |trailer| ==> trailer[i].id != SEGMENT
    ensures Fold(RootStep, m, Content(header + [segment] + trailer)) == RootStep(m, Content1(segment))
  {
    hide RootStep;
    var rest := [segment] + trailer;
    assert header + [segment] + trailer == header + rest;
    HeaderSkipped(m, header, rest);
    assert rest[1..] == trailer && Content(rest)[0] == Content1(segment) && Content(rest)[1..] == Content(trailer);
    var m' := RootStep(m, Content1(segment));
    assert trailer + [] == trailer;
    HeaderSkipped(m', trailer, []);
    assert Content([]) == [];
  }

  lemma ParseMeans(f: File)
    requires FileOk(f) && |Print(f)| <= MAX_BYTES
    ensures Parsed(FRESH, Print(f)) == Finish(FoldT(MeanChild, FRESH, f.children))
  {
    hide ChildStep, MeanChild, ChildOk, Elements, RootStep, SegmentNode, Fold, FoldT, Legal;
    SegmentMeaning(FRESH, f);
    var ns := f.header + [SegmentNode(f)] + f.trailer;
    assert forall i :: 0 <= i < |ns| ==> Legal(ns[i]);
    ElementsPrinted(ns);
    RootMeaning(FRESH, f.header, SegmentNode(f), f.trailer);
    PrintedSome(ns);
  }

  lemma PrintedSome(ns: seq<Node>)
    requires ns != [] && forall i :: 0 <= i < |ns| ==> Legal(ns[i])
    ensures PrintNodes(ns) != []
  {
    assert PrintNodes(ns) == PrintNode(ns[0]) + PrintNodes(ns[1..]);
    assert |PrintNode(ns[0])| >= 2;
  }

  /** The video blocks of a whole file, in order: each under the track and the scale known by then. */
  function StampsFrom(m: Movie, children: seq<Child>): seq<Stamp>
    decreases |children|
  {
    if children == [] then []
    else
      (if children[0].Cluster? then StampsOf(m.track, m.scale, 0, children[0].items) else [])
      + StampsFrom(MeanChild(m, children[0]), children[1..])
  }

  /** The children of a file add their video blocks as samples, in order, up to the cap. */
  lemma {:induction false} SamplesInOrder(m: Movie, children: seq<Child>)
    requires |m.samples| <= MAX_SAMPLES
    ensures FoldT(MeanChild, m, children).samples == Cap(m.samples + Samples(StampsFrom(m, children)))
    decreases |children|
  {
    hide MeanChild, Samples, StampsOf, Cap;
    if children == [] {
      NoSamples(m);
    } else {
      var stamps := if children[0].Cluster? then StampsOf(m.track, m.scale, 0, children[0].items) else [];
      var later := StampsFrom(MeanChild(m, children[0]), children[1..]);
      ChildSamples(m, children[0]);
      SamplesConcat(stamps, later);
      var one, more := Samples(stamps), Samples(later);
      CapTwice(m.samples + one, more);
      assert m.samples + (one + more) == (m.samples + one) + more;
      SamplesInOrder(MeanChild(m, children[0]), children[1..]);
    }
  }

  lemma ChildSamples(m: Movie, c: Child)
    requires |m.samples| <= MAX_SAMPLES
    ensures var stamps := if c.Cluster? then StampsOf(m.track, m.scale, 0, c.items) else [];
            MeanChild(m, c).samples == Cap(m.samples + Samples(stamps)) && |MeanChild(m, c).samples| <= MAX_SAMPLES
  {
    ChildKeepsCap(m, c);
    if !c.Cluster? {
      ChildKeepsSamples(m, c);
      NoSamples(m);
    }
  }

  // Timestamps

  predicate Fits64(v: int) { -TWO_63 <= v < TWO_63 }

  lemma WrapShift(a: int, k: int)
    ensures Wrap(a + k * TWO_64) == Wrap(a)
  {
    assert (a + k * TWO_64) % TWO_64 == a % TWO_64;
  }

  /** Wrapping the sum first makes no difference to the wrapped product. */
  lemma WrapProduct(a: int, b: int)
    ensures Wrap(Wrap(a) * b) == Wrap(a * b)
  {
    var k := if a % TWO_64 < TWO_63 then a / TWO_64 else a / TWO_64 + 1;
    assert Wrap(a) == a - k * TWO_64;
    assert Wrap(a) * b == a * b + (-k * b) * TWO_64 by {
      assert (a - k * TWO_64) * b == a * b - (k * TWO_64) * b;
    }
    WrapShift(a * b, -k * b);
  }

  /** The code's timestamp is the right one exactly when its product in nanoseconds fits 64 bits. */
  lemma PtsIff(s: Stamp)
    ensures Pts(s.time, s.block.relative, s.scale) == Trunc(Nanoseconds(s), 1000) <==> Fits64(Nanoseconds(s))
  {
    var v := Nanoseconds(s);
    WrapProduct(s.time + s.block.relative, s.scale);
    WrapIff(v);
  }

  lemma WrapIff(v: int)
    ensures Trunc(Wrap(v), 1000) == Trunc(v, 1000) <==> Fits64(v)
  {
    if !Fits64(v) { assert v >= TWO_63 ==> Trunc(v, 1000) > Trunc(TWO_63 - 1000, 1000); }
  }

  /** The samples of a file have exactly the right timestamps when, and only when, each kept block's product fits. */
  lemma TimestampsIff(children: seq<Child>)
    ensures var stamps := StampsFrom(FRESH, children);
            FoldT(MeanChild, FRESH, children).samples == Cap(ExactSamples(stamps)) <==>
            forall i :: 0 <= i < |stamps| && i < MAX_SAMPLES ==> Fits64(Nanoseconds(stamps[i]))
  {
    var stamps := StampsFrom(FRESH, children);
    SamplesInOrder(FRESH, children);
    hide FoldT, MeanChild, StampsFrom, Pts;
    var got, want := Cap(Samples(stamps)), Cap(ExactSamples(stamps));
    assert FRESH.samples + Samples(stamps) == Samples(stamps);
    forall i | 0 <= i < |got| ensures got[i] == want[i] <==> Fits64(Nanoseconds(stamps[i])) {
      PtsIff(stamps[i]);
    }
    if forall i :: 0 <= i < |stamps| && i < MAX_SAMPLES ==> Fits64(Nanoseconds(stamps[i])) {
      assert got == want;
    } else {
      var i :| 0 <= i < |stamps| && i < MAX_SAMPLES && !Fits64(Nanoseconds(stamps[i]));
      assert got[i] != want[i];
    }
  }

  // Which files have a video track

  /** What a field says about its track being the video track, if anything. */
  function Says(f: Field): Option<bool> {
    match f
    case TrackType(u) => Some(u.v == 1)
    case Codec(_, name) => if name == V_VP9 then Some(true) else None
    case _ => None
  }

  ghost predicate NoneDenies(fields: seq<Field>) {
    forall j :: 0 <= j < |fields| ==> Says(fields[j]) != Some(false)
  }

  ghost predicate SaysLast(fields: seq<Field>, k: nat)
    requires k < |fields|
  {
    Says(fields[k]) == Some(true) && NoneDenies(fields[k + 1..])
  }

  /** The last field that says anything says video. */
  ghost predicate IsVideo(fields: seq<Field>) {
    exists k :: 0 <= k < |fields| && SaysLast(fields, k)
  }

  lemma DeniesRest(fields: seq<Field>)
    requires fields != []
    ensures NoneDenies(fields) <==> Says(fields[0]) != Some(false) && NoneDenies(fields[1..])
  {
    if NoneDenies(fields) {
      forall j | 0 <= j < |fields[1..]| ensures Says(fields[1..][j]) != Some(false) {
        assert Says(fields[j + 1]) != Some(false);
      }
    }
    if Says(fields[0]) != Some(false) && NoneDenies(fields[1..]) {
      forall j | 0 <= j < |fields| ensures Says(fields[j]) != Some(false) {
        if j > 0 { assert Says(fields[1..][j - 1]) != Some(false); }
      }
    }
  }

  lemma VideoRest(fields: seq<Field>)
    requires fields != []
    ensures IsVideo(fields) <==> IsVideo(fields[1..]) || (Says(fields[0]) == Some(true) && NoneDenies(fields[1..]))
  {
    hide Says, NoneDenies;
    var rest := fields[1..];
    forall k: nat | k < |rest| ensures SaysLast(rest, k) <==> SaysLast(fields, k + 1) {
      assert rest[k + 1..] == fields[k + 1 + 1..];
    }
    if IsVideo(fields) {
      var k :| 0 <= k < |fields| && SaysLast(fields, k);
      if k > 0 { assert SaysLast(rest, k - 1); }
    }
    if IsVideo(rest) {
      var k :| 0 <= k < |rest| && SaysLast(rest, k);
      assert SaysLast(fields, k + 1);
    }
    if Says(fields[0]) == Some(true) && NoneDenies(rest) { assert SaysLast(fields, 0); }
  }

  lemma {:induction false} FieldsVideo(t: Entry, fields: seq<Field>)
    ensures FoldT(MeanField, t, fields).video <==> IsVideo(fields) || (t.video && NoneDenies(fields))
    ensures FoldT(MeanField, t, fields).m.haveVideo == t.m.haveVideo
    decreases |fields|
  {
    hide IsVideo, NoneDenies;
    if fields == [] {
      NoFields();
    } else {
      DeniesRest(fields);
      VideoRest(fields);
      FieldVideo(t, fields[0]);
      FieldsVideo(MeanField(t, fields[0]), fields[1..]);
    }
  }

  lemma NoFields()
    ensures !IsVideo([]) && NoneDenies([])
  {
  }

  predicate SameVideo(a: Movie, b: Movie) { a.haveVideo == b.haveVideo }

  lemma FieldVideo(t: Entry, f: Field)
    ensures var t' := MeanField(t, f);
            t'.m.haveVideo == t.m.haveVideo && t'.video == (if Says(f).Some? then Says(f).value else t.video)
  {
    if f.Video? { FoldTKeeps(MeanDim, SameVideo, t.m, f.dims); }
  }

  ghost predicate VideoEntry(e: Track) { e.TrackEntry? && IsVideo(e.fields) }

  ghost predicate VideoTracks(c: Child) {
    c.Tracks? && exists j :: 0 <= j < |c.entries| && VideoEntry(c.entries[j])
  }

  /** Some track entry of the file is a video track. */
  ghost predicate HasVideo(children: seq<Child>) {
    exists k :: 0 <= k < |children| && VideoTracks(children[k])
  }

  lemma TrackVideo(m: Movie, e: Track)
    ensures MeanTrack(m, e).haveVideo <==> m.haveVideo || VideoEntry(e)
  {
    if !e.Other? { FieldsVideo(Entry(m, 1, false), e.fields); }
  }

  lemma {:induction false} TracksVideo(m: Movie, entries: seq<Track>)
    ensures FoldT(MeanTrack, m, entries).haveVideo <==>
              m.haveVideo || exists j :: 0 <= j < |entries| && VideoEntry(entries[j])
    decreases |entries|
  {
    hide MeanTrack, VideoEntry;
    if entries != [] {
      TrackVideo(m, entries[0]);
      TracksVideo(MeanTrack(m, entries[0]), entries[1..]);
      if exists j :: 0 <= j < |entries| && VideoEntry(entries[j]) {
        var j :| 0 <= j < |entries| && VideoEntry(entries[j]);
        assert j > 0 ==> entries[1..][j - 1] == entries[j];
      }
      if exists j :: 0 <= j < |entries[1..]| && VideoEntry(entries[1..][j]) {
        var j :| 0 <= j < |entries[1..]| && VideoEntry(entries[1..][j]);
        assert entries[j + 1] == entries[1..][j];
      }
    }
  }

  lemma ChildVideo(m: Movie, c: Child)
    ensures MeanChild(m, c).haveVideo <==> m.haveVideo || VideoTracks(c)
  {
    match c
    case Info(_, settings) => FoldTKeeps(MeanSetting, SameVideo, m, settings);
    case Tracks(_, entries) => TracksVideo(m, entries);
    case Cluster(_, _) =>
    case Other(_) =>
  }

  lemma {:induction false} ChildrenVideo(m: Movie, children: seq<Child>)
    ensures FoldT(MeanChild, m, children).haveVideo <==> m.haveVideo || HasVideo(children)
    decreases |children|
  {
    hide MeanChild, VideoTracks;
    if children != [] {
      ChildVideo(m, children[0]);
      ChildrenVideo(MeanChild(m, children[0]), children[1..]);
      if HasVideo(children) {
        var k :| 0 <= k < |children| && VideoTracks(children[k]);
        assert k > 0 ==> children[1..][k - 1] == children[k];
      }
      if HasVideo(children[1..]) {
        var k :| 0 <= k < |children[1..]| && VideoTracks(children[1..][k]);
        assert children[k + 1] == children[1..][k];
      }
    }
  }

  /** The blocks that are kept. */
  function Kept(stamps: seq<Stamp>): seq<Stamp> {
    if |stamps| <= MAX_SAMPLES then stamps else stamps[..MAX_SAMPLES]
  }

  /**
   * Printing any legal tree in any legal widths and parsing the bytes gives exactly what the tree means: the
   * samples of its video track in order, the time of the last as duration, and a source exactly when there is
   * a video track and a sample.
   */
  lemma ParsePrint(f: File)
    requires FileOk(f) && |Print(f)| <= MAX_BYTES
    ensures Parsed(FRESH, Print(f)) == Finish(FoldT(MeanChild, FRESH, f.children))
    ensures var m, kept := Parsed(FRESH, Print(f)), Kept(StampsFrom(FRESH, f.children));
            && m.samples == Samples(kept)
            && m.duration == (if kept == [] then 0 else SampleOf(kept[|kept| - 1]).pts)
            && (m.hasSource <==> HasVideo(f.children) && kept != [])
  {
    hide Print, FoldT, MeanChild, StampsFrom, HasVideo, FileOk, SampleOf;
    ParseMeans(f);
    SamplesInOrder(FRESH, f.children);
    ChildrenVideo(FRESH, f.children);
    var stamps := StampsFrom(FRESH, f.children);
    assert FRESH.samples + Samples(stamps) == Samples(stamps);
    assert Cap(Samples(stamps)) == Samples(Kept(stamps));
  }

  /** A file of one video track and one key frame, at cluster time 2^62. */
  const VIDEO_TRACK: Child := Tracks(1, [TrackEntry(1, [Number(U(1, 1, 1)), TrackType(U(1, 1, 1))])])
  const FAR: Child := Cluster(1, [Time(U(1, 8, 0x4000_0000_0000_0000)), Simple(1, Block(1, 1, 0, 128, []))])
  const FAR_FILE: File := File([], 1, [VIDEO_TRACK, FAR], [])

  /** The frame of a legal file comes out at time 0 instead of after 2^62 milliseconds. */
  lemma TimestampWraps()
    ensures FileOk(FAR_FILE) && |Print(FAR_FILE)| <= MAX_BYTES
    ensures var m := Parsed(FRESH, Print(FAR_FILE)); m.hasSource && m.samples == [Sample([], 0, 1)] && m.duration == 0
    ensures ExactSamples(StampsFrom(FRESH, FAR_FILE.children)) == [Sample([], 1000 * 0x4000_0000_0000_0000, 1)]
  {
    hide Print, Parsed, FileOk, FoldT, MeanChild, StampsFrom;
    FarLegal();
    ParseMeans(FAR_FILE);
    FarMeaning();
    FarStamps();
  }

  lemma TrackIsVideo(m: Movie)
    ensures MeanChild(m, VIDEO_TRACK) == m.(track := 1, haveVideo := true)
  {
    var entries := VIDEO_TRACK.entries;
    var fields := entries[0].fields;
    assert fields[1..] == [fields[1]] && fields[1..][1..] == [];
    assert FoldT(MeanField, Entry(m, 1, false), fields) == Entry(m, 1, true);
    assert entries[1..] == [];
    assert FoldT(MeanTrack, m, entries) == MeanTrack(m, entries[0]);
  }

  lemma FarStamp(m: Movie)
    requires m.track == 1
    ensures StampsOf(m.track, m.scale, 0, FAR.items) == [Stamp(FAR.items[1].block, 0x4000_0000_0000_0000, m.scale)]
  {
    var items := FAR.items;
    assert items[1..] == [items[1]] && items[1..][1..] == [];
  }

  lemma FarStamps()
    ensures ExactSamples(StampsFrom(FRESH, FAR_FILE.children)) == [Sample([], 1000 * 0x4000_0000_0000_0000, 1)]
  {
    hide MeanChild, StampsOf;
    var children := FAR_FILE.children;
    TrackIsVideo(FRESH);
    var m := FRESH.(track := 1, haveVideo := true);
    FarStamp(m);
    assert children[1..] == [FAR] && [FAR][1..] == [];
    var stamp := Stamp(FAR.items[1].block, 0x4000_0000_0000_0000, 1_000_000);
    assert StampsFrom(m, [FAR]) == [stamp] + StampsFrom(MeanChild(m, FAR), []) == [stamp];
    assert StampsFrom(FRESH, children) == [] + StampsFrom(m, [FAR]) == [stamp];
    assert ExactSample(stamp) == Sample([], 1000 * 0x4000_0000_0000_0000, 1);
  }

  lemma FarMeaning()
    ensures var m := FoldT(MeanChild, FRESH, FAR_FILE.children); m.haveVideo && m.samples == [Sample([], 0, 1)]
  {
    hide StampsOf;
    var children := FAR_FILE.children;
    TrackIsVideo(FRESH);
    var m := FRESH.(track := 1, haveVideo := true);
    FarStamp(m);
    var stamp := Stamp(FAR.items[1].block, 0x4000_0000_0000_0000, 1_000_000);
    assert SampleOf(stamp) == Sample([], 0, 1);
    assert m.samples + Samples([stamp]) == [Sample([], 0, 1)];
    assert MeanChild(m, FAR).samples == [Sample([], 0, 1)];
    assert children[1..] == [FAR] && [FAR][1..] == [];
    assert FoldT(MeanChild, m, [FAR]) == MeanChild(m, FAR);
  }

  lemma FarLegal()
    ensures FileOk(FAR_FILE) && |Print(FAR_FILE)| <= MAX_BYTES
  {
    hide PrintNode, Pow256;
    Powers128(1);
    PrintTwo(ChildNode(VIDEO_TRACK), ChildNode(FAR));
    var children := FAR_FILE.children;
    assert Nodes(ChildNode, children) == [ChildNode(VIDEO_TRACK), ChildNode(FAR)];
    TrackLegal();
    ClusterLegal();
    PrintSize(ChildNode(VIDEO_TRACK));
    PrintSize(ChildNode(FAR));
    PrintOne(SegmentNode(FAR_FILE));
    PrintSize(SegmentNode(FAR_FILE));
    assert [] + [SegmentNode(FAR_FILE)] + [] == [SegmentNode(FAR_FILE)];
  }

  lemma TrackLegal()
    ensures ChildOk(VIDEO_TRACK) && |ChildNode(VIDEO_TRACK).payload| == 8
  {
    hide PrintNode;
    Powers128(1);
    assert Pow256(1) == 256 * Pow256(0);
    var entry := VIDEO_TRACK.entries[0];
    var fields := entry.fields;
    assert Nodes(FieldNode, fields) == [FieldNode(fields[0]), FieldNode(fields[1])];
    PrintTwo(FieldNode(fields[0]), FieldNode(fields[1]));
    PrintSize(FieldNode(fields[0]));
    PrintSize(FieldNode(fields[1]));
    assert Nodes(TrackNode, VIDEO_TRACK.entries) == [TrackNode(entry)];
    PrintOne(TrackNode(entry));
    PrintSize(TrackNode(entry));
  }

  lemma ClusterLegal()
    ensures ChildOk(FAR) && |ChildNode(FAR).payload| == 16
  {
    hide PrintNode;
    Powers128(1);
    assert Pow256(8) == 256 * Pow256(7);
    var items := FAR.items;
    assert Nodes(ItemNode, items) == [ItemNode(items[0]), ItemNode(items[1])];
    PrintTwo(ItemNode(items[0]), ItemNode(items[1]));
    PrintSize(ItemNode(items[0]));
    PrintSize(ItemNode(items[1]));
  }

  lemma PrintSize(n: Node)
    ensures |PrintNode(n)| == n.idWidth + n.sizeWidth + |n.payload|
  {
  }

  lemma PrintOne(n: Node)
    ensures PrintNodes([n]) == PrintNode(n)
  {
    hide PrintNode;
    assert [n][1..] == [];
    assert PrintNodes([n]) == PrintNode(n) + PrintNodes([]);
  }

  lemma PrintTwo(a: Node, b: Node)
    ensures PrintNodes([a, b]) == PrintNode(a) + PrintNode(b)
  {
    hide PrintNode;
    assert [a, b][1..] == [b];
    PrintOne(b);
  }

  // Arbitrary bytes

  function Total(samples: seq<Sample>): nat {
    if samples == [] then 0 else Total(samples[..|samples| - 1]) + |samples[|samples| - 1].data|
  }

  /** If every element adds at most its own size, so does a view. */
  lemma {:induction false} FoldBounded<S(!new)>(f: (S, Element) -> S, size: S -> nat, s: S, view: seq<Byte>)
    requires forall x: S, e: Element :: size(f(x, e)) <= size(x) + |e.payload|
    ensures size(Fold(f, s, Elements(view))) <= size(s) + |view|
    decreases |view|
  {
    hide ReadElement;
    var e := ReadElement(view);
    if e.Some? {
      var rest := view[e.value.1..];
      assert Elements(view) == [e.value.0] + Elements(rest);
      assert Elements(view)[1..] == Elements(rest);
      FoldBounded(f, size, f(s, e.value.0), rest);
    }
  }

  function MovieSize(m: Movie): nat { Total(m.samples) }

  function EntrySize(t: Entry): nat { Total(t.m.samples) }

  function ClockSize(c: Clock): nat { Total(c.m.samples) }

  lemma BlockBounded(m: Movie, time: int, payload: seq<Byte>)
    ensures MovieSize(BlockStep(m, time, payload)) <= MovieSize(m) + |payload|
  {
    hide Vint, Pts, Int16;
    var more := BlockStep(m, time, payload).samples;
    if more != m.samples { assert more[..|more| - 1] == m.samples; }
  }

  lemma ItemBounded(c: Clock, e: Element)
    ensures ClockSize(ItemStep(c, e)) <= ClockSize(c) + |e.payload|
  {
    hide BlockStep, Int64;
    BlockBounded(c.m, c.time, e.payload);
  }

  lemma TrackBounded(m: Movie, e: Element)
    ensures MovieSize(TrackStep(m, e)) <= MovieSize(m) + |e.payload|
  {
    hide Elements;
    forall t: Entry, x: Element ensures EntrySize(FieldStep(t, x)) <= EntrySize(t) + |x.payload| {
      FoldBounded(DimStep, MovieSize, t.m, x.payload);
    }
    FoldBounded(FieldStep, EntrySize, Entry(m, 1, false), e.payload);
  }

  lemma ChildBounded(m: Movie, e: Element)
    ensures MovieSize(ChildStep(m, e)) <= MovieSize(m) + |e.payload|
  {
    hide Elements, TrackStep, ItemStep;
    forall x: Movie, y: Element ensures MovieSize(TrackStep(x, y)) <= MovieSize(x) + |y.payload| { TrackBounded(x, y); }
    forall c: Clock, y: Element ensures ClockSize(ItemStep(c, y)) <= ClockSize(c) + |y.payload| { ItemBounded(c, y); }
    FoldBounded(InfoStep, MovieSize, m, e.payload);
    FoldBounded(TrackStep, MovieSize, m, e.payload);
    FoldBounded(ItemStep, ClockSize, Clock(m, 0), e.payload);
  }

  /** Whatever the bytes, the samples taken from them are together no longer than the bytes. */
  lemma SamplesBounded(m: Movie, bytes: seq<Byte>)
    ensures Total(Parsed(m, bytes).samples) <= Total(m.samples) + |bytes|
  {
    hide Elements, ChildStep, Fold;
    forall x: Movie, e: Element ensures MovieSize(RootStep(x, e)) <= MovieSize(x) + |e.payload| {
      forall y: Movie, c: Element
        ensures MovieSize(ChildStep(y, c)) <= MovieSize(y) + |c.payload|
      {
        ChildBounded(y, c);
      }
      FoldBounded(ChildStep, MovieSize, x, e.payload);
    }
    FoldBounded(RootStep, MovieSize, m, bytes);
  }
}
