/** The WebM reader: which samples, flags and timestamps a file yields for its video track. */
module Webm {
  import opened WordSize
  import opened Bytes
  import opened Options
  import opened Ebml

  const SEGMENT := 0x18538067
  const INFO := 0x1549A966
  const TIMECODE_SCALE := 0x2AD7B1
  const TRACKS := 0x1654AE6B
  const TRACK_ENTRY := 0xAE
  const TRACK_NUMBER := 0xD7
  const TRACK_TYPE := 0x83
  const CODEC_ID := 0x86
  const VIDEO := 0xE0
  const PIXEL_WIDTH := 0xB0
  const PIXEL_HEIGHT := 0xBA
  const CLUSTER := 0x1F43B675
  const TIMECODE := 0xE7
  const SIMPLE_BLOCK := 0xA3

  const MAX_BYTES := 0x400_0000
  const MAX_SAMPLES := 1_000_000
  const V_VP9: seq<Byte> := [0x56, 0x5F, 0x56, 0x50, 0x39]

  datatype Sample = Sample(data: seq<Byte>, pts: int, flags: nat)

  datatype Movie = Movie(width: nat, height: nat, scale: int, track: nat, haveVideo: bool, samples: seq<Sample>,
                         duration: int, hasSource: bool)

  const FRESH := Movie(0, 0, 1_000_000, 1, false, [], 0, false)

  /** Division as C does it, toward zero. */
  function Trunc(a: int, b: int): int
    requires b > 0
  {
    if a >= 0 then a / b else -(-a / b)
  }

  /** The quotient's product lies between zero and the dividend, less than a divisor away from it. */
  lemma TruncTowardZero(a: int, b: int)
    requires b > 0
    ensures a >= 0 ==> 0 <= b * Trunc(a, b) <= a < b * Trunc(a, b) + b
    ensures a <= 0 ==> b * Trunc(a, b) - b < a <= b * Trunc(a, b) <= 0
  {
    var q := Trunc(a, b);
    if a < 0 { assert b * q == -(b * (-a / b)); }
  }

  function Int64(v: nat): int { if v < TWO_63 then v else v - TWO_64 }

  function Int16(hi: Byte, lo: Byte): int {
    var v := 256 * hi + lo;
    if v < 0x8000 then v else v - 0x1_0000
  }

  /** A result of signed 64-bit arithmetic; where C++ leaves an overflow undefined it wraps here. */
  function Wrap(v: int): int { Int64(v % TWO_64) }

  /** The timestamp of a block in microseconds, as the code computes it. */
  function Pts(time: int, relative: int, scale: int): int {
    Trunc(Wrap(Wrap(time + relative) * scale), 1000)
  }

  // What each element does, as a fold over the elements of a view

  function Fold<S>(f: (S, Element) -> S, s: S, es: seq<Element>): S {
    if es == [] then s else Fold(f, f(s, es[0]), es[1..])
  }

  function DimStep(m: Movie, e: Element): Movie {
    if |e.payload| > 4 then m
    else
      var v := FromBe(e.payload);
      if v == 0 || v > 32768 then m
      else if e.id == PIXEL_WIDTH then m.(width := v)
      else if e.id == PIXEL_HEIGHT then m.(height := v)
      else m
  }

  /** A track entry in progress. */
  datatype Entry = Entry(m: Movie, number: nat, video: bool)

  function FieldStep(t: Entry, e: Element): Entry {
    var n := |e.payload|;
    if e.id == TRACK_NUMBER && n <= 8 then t.(number := FromBe(e.payload))
    else if e.id == TRACK_TYPE && n <= 8 then t.(video := FromBe(e.payload) == 1)
    else if e.id == CODEC_ID && 3 <= n <= 64 then (if e.payload == V_VP9 then t.(video := true) else t)
    else if e.id == VIDEO then t.(m := Fold(DimStep, t.m, Elements(e.payload)))
    else t
  }

  function TrackStep(m: Movie, e: Element): Movie {
    if e.id != TRACK_ENTRY then m
    else
      var t := Fold(FieldStep, Entry(m, 1, false), Elements(e.payload));
      if t.video then t.m.(track := t.number, haveVideo := true) else t.m
  }

  function InfoStep(m: Movie, e: Element): Movie {
    if e.id == TIMECODE_SCALE && 0 < |e.payload| <= 8 then
      var scale := FromBe(e.payload);
      if 0 < scale <= 1_000_000_000 then m.(scale := scale) else m
    else m
  }

  /** A cluster in progress. */
  datatype Clock = Clock(m: Movie, time: int)

  function BlockStep(m: Movie, time: int, payload: seq<Byte>): Movie {
    var track := Vint(payload, false);
    if track.None? || track.value.0 != m.track || |payload| - track.value.1 < 3 then m
    else
      var w := track.value.1;
      var flags := payload[w + 2];
      if flags / 2 % 4 != 0 || |m.samples| >= MAX_SAMPLES then m
      else
        var sample := Sample(payload[w + 3..], Pts(time, Int16(payload[w], payload[w + 1]), m.scale),
                             if flags >= 128 then 1 else 0);
        m.(samples := m.samples + [sample])
  }

  function ItemStep(c: Clock, e: Element): Clock {
    if e.id == TIMECODE && |e.payload| <= 8 then c.(time := Int64(FromBe(e.payload)))
    else if e.id == SIMPLE_BLOCK && |e.payload| >= 4 then c.(m := BlockStep(c.m, c.time, e.payload))
    else c
  }

  function ChildStep(m: Movie, e: Element): Movie {
    if e.id == INFO then Fold(InfoStep, m, Elements(e.payload))
    else if e.id == TRACKS then Fold(TrackStep, m, Elements(e.payload))
    else if e.id == CLUSTER then Fold(ItemStep, Clock(m, 0), Elements(e.payload)).m
    else m
  }

  function RootStep(m: Movie, e: Element): Movie {
    if e.id == SEGMENT then Fold(ChildStep, m, Elements(e.payload)) else m
  }

  function Finish(m: Movie): Movie {
    m.(duration := if m.samples == [] then 0 else m.samples[|m.samples| - 1].pts,
       hasSource := m.haveVideo && m.samples != [])
  }

  /** What ParseWebm leaves in the state. */
  function Parsed(m: Movie, bytes: seq<Byte>): Movie {
    if bytes == [] || |bytes| > MAX_BYTES then m else Finish(Fold(RootStep, m, Elements(bytes)))
  }

  // The parser: one cursor loop per level

  /** One turn of a cursor loop is one step of the fold; a failed read ends both. */
  lemma FoldNext<S>(f: (S, Element) -> S, s: S, view: seq<Byte>, position: nat, e: Element, n: nat)
    requires position <= |view| && ReadElement(view[position..]) == Some((e, n))
    ensures position + n <= |view|
    ensures Fold(f, s, Elements(view[position..])) == Fold(f, f(s, e), Elements(view[position + n..]))
  {
    hide ReadElement;
    assert view[position..][n..] == view[position + n..];
    assert ([e] + Elements(view[position + n..]))[1..] == Elements(view[position + n..]);
  }

  lemma FoldEnd<S>(f: (S, Element) -> S, s: S, view: seq<Byte>, position: nat)
    requires position <= |view| && ReadElement(view[position..]).None?
    ensures Fold(f, s, Elements(view[position..])) == s
  {
  }

  lemma FoldDone<S>(f: (S, Element) -> S, s: S, view: seq<Byte>)
    ensures Fold(f, s, Elements(view[|view|..])) == s
  {
    assert view[|view|..] == [];
  }

  method ReadUnsigned(data: seq<Byte>) returns (value: nat)
    requires |data| <= 8
    ensures value == FromBe(data)
  {
    value := 0;
    var i := 0;
    while i < |data|
      invariant 0 <= i <= |data| && value == FromBe(data[..i])
    {
      assert data[..i + 1][..i] == data[..i];
      value := 256 * value + data[i];
      i := i + 1;
    }
    assert data[..|data|] == data;
  }

  method ParseVideo(view: seq<Byte>, m0: Movie) returns (m: Movie)
    ensures m == Fold(DimStep, m0, Elements(view))
  {
    hide ReadElement, Fold, Elements;
    m := m0;
    var position := 0;
    assert view[0..] == view;
    while position < |view|
      invariant 0 <= position <= |view|
      invariant Fold(DimStep, m0, Elements(view)) == Fold(DimStep, m, Elements(view[position..]))
      decreases |view| - position
    {
      var ok, id, payload, length := ReadAt(view, position);
      if !ok {
        FoldEnd(DimStep, m, view, position);
        return;
      }
      var data := view[payload..payload + length];
      FoldNext(DimStep, m, view, position, Element(id, data), payload + length - position);
      if length <= 4 {
        var v := ReadUnsigned(data);
        if id == PIXEL_WIDTH {
          if v > 0 && v <= 32768 { m := m.(width := v); }
        } else if id == PIXEL_HEIGHT {
          if v > 0 && v <= 32768 { m := m.(height := v); }
        }
      }
      position := payload + length;
    }
    FoldDone(DimStep, m, view);
  }

  /** ParseWebmTrack. */
  method ParseTrack(view: seq<Byte>, m0: Movie) returns (t: Entry)
    ensures t == Fold(FieldStep, Entry(m0, 1, false), Elements(view))
  {
    hide ReadElement, Fold, Elements;
    t := Entry(m0, 1, false);
    ghost var t0 := t;
    var position := 0;
    assert view[0..] == view;
    while position < |view|
      invariant 0 <= position <= |view|
      invariant Fold(FieldStep, t0, Elements(view)) == Fold(FieldStep, t, Elements(view[position..]))
      decreases |view| - position
    {
      var ok, id, payload, length := ReadAt(view, position);
      if !ok {
        FoldEnd(FieldStep, t, view, position);
        return;
      }
      var data := view[payload..payload + length];
      FoldNext(FieldStep, t, view, position, Element(id, data), payload + length - position);
      if id == TRACK_NUMBER && length <= 8 {
        var v := ReadUnsigned(data);
        t := t.(number := v);
      } else if id == TRACK_TYPE && length <= 8 {
        var v := ReadUnsigned(data);
        t := t.(video := v == 1);
      } else if id == CODEC_ID && 3 <= length <= 64 {
        if data == V_VP9 { t := t.(video := true); }
      } else if id == VIDEO {
        var m := ParseVideo(data, t.m);
        t := t.(m := m);
      }
      position := payload + length;
    }
    FoldDone(FieldStep, t, view);
  }

  method ParseTracks(view: seq<Byte>, m0: Movie) returns (m: Movie)
    ensures m == Fold(TrackStep, m0, Elements(view))
  {
    hide ReadElement, Fold, Elements;
    m := m0;
    var position := 0;
    assert view[0..] == view;
    while position < |view|
      invariant 0 <= position <= |view|
      invariant Fold(TrackStep, m0, Elements(view)) == Fold(TrackStep, m, Elements(view[position..]))
      decreases |view| - position
    {
      var ok, id, payload, length := ReadAt(view, position);
      if !ok {
        FoldEnd(TrackStep, m, view, position);
        return;
      }
      var data := view[payload..payload + length];
      FoldNext(TrackStep, m, view, position, Element(id, data), payload + length - position);
      if id == TRACK_ENTRY {
        var t := ParseTrack(data, m);
        m := if t.video then t.m.(track := t.number, haveVideo := true) else t.m;
      }
      position := payload + length;
    }
    FoldDone(TrackStep, m, view);
  }

  method ParseInfo(view: seq<Byte>, m0: Movie) returns (m: Movie)
    ensures m == Fold(InfoStep, m0, Elements(view))
  {
    hide ReadElement, Fold, Elements;
    m := m0;
    var position := 0;
    assert view[0..] == view;
    while position < |view|
      invariant 0 <= position <= |view|
      invariant Fold(InfoStep, m0, Elements(view)) == Fold(InfoStep, m, Elements(view[position..]))
      decreases |view| - position
    {
      var ok, id, payload, length := ReadAt(view, position);
      if !ok {
        FoldEnd(InfoStep, m, view, position);
        return;
      }
      var data := view[payload..payload + length];
      FoldNext(InfoStep, m, view, position, Element(id, data), payload + length - position);
      if id == TIMECODE_SCALE && length > 0 && length <= 8 {
        var scale := ReadUnsigned(data);
        if scale > 0 && scale <= 1_000_000_000 { m := m.(scale := scale); }
      }
      position := payload + length;
    }
    FoldDone(InfoStep, m, view);
  }

  /** A SimpleBlock: track number, relative time, flags, then the frame itself. */
  method ParseBlock(view: seq<Byte>, time: int, m0: Movie) returns (m: Movie)
    ensures m == BlockStep(m0, time, view)
  {
    hide Vint;
    m := m0;
    assert view[0..] == view;
    var ok, track, width := ReadVint(view, 0, false);
    if ok && track == m.track && |view| - width >= 3 {
      var relative := Int16(view[width], view[width + 1]);
      var flags := view[width + 2];
      if flags / 2 % 4 == 0 && |m.samples| < MAX_SAMPLES {
        var sample := Sample(view[width + 3..], Pts(time, relative, m.scale), if flags >= 128 then 1 else 0);
        m := m.(samples := m.samples + [sample]);
      }
    }
  }

  method ParseCluster(view: seq<Byte>, m0: Movie) returns (m: Movie)
    ensures m == Fold(ItemStep, Clock(m0, 0), Elements(view)).m
  {
    hide ReadElement, Fold, Elements, BlockStep;
    var c := Clock(m0, 0);
    var position := 0;
    assert view[0..] == view;
    while position < |view|
      invariant 0 <= position <= |view|
      invariant Fold(ItemStep, Clock(m0, 0), Elements(view)) == Fold(ItemStep, c, Elements(view[position..]))
      decreases |view| - position
    {
      var ok, id, payload, length := ReadAt(view, position);
      if !ok {
        FoldEnd(ItemStep, c, view, position);
        return c.m;
      }
      var data := view[payload..payload + length];
      FoldNext(ItemStep, c, view, position, Element(id, data), payload + length - position);
      if id == TIMECODE && length <= 8 {
        var v := ReadUnsigned(data);
        c := c.(time := Int64(v));
      } else if id == SIMPLE_BLOCK && length >= 4 {
        var next := ParseBlock(data, c.time, c.m);
        c := c.(m := next);
      }
      position := payload + length;
    }
    FoldDone(ItemStep, c, view);
    m := c.m;
  }

  method ParseSegment(view: seq<Byte>, m0: Movie) returns (m: Movie)
    ensures m == Fold(ChildStep, m0, Elements(view))
  {
    hide ReadElement, Fold, Elements;
    m := m0;
    var position := 0;
    assert view[0..] == view;
    while position < |view|
      invariant 0 <= position <= |view|
      invariant Fold(ChildStep, m0, Elements(view)) == Fold(ChildStep, m, Elements(view[position..]))
      decreases |view| - position
    {
      var ok, id, payload, length := ReadAt(view, position);
      if !ok {
        FoldEnd(ChildStep, m, view, position);
        return;
      }
      var data := view[payload..payload + length];
      FoldNext(ChildStep, m, view, position, Element(id, data), payload + length - position);
      if id == INFO {
        m := ParseInfo(data, m);
      } else if id == TRACKS {
        m := ParseTracks(data, m);
      } else if id == CLUSTER {
        m := ParseCluster(data, m);
      }
      position := payload + length;
    }
    FoldDone(ChildStep, m, view);
  }

  /** ParseWebm: terminates on every input and never looks outside it. */
  method ParseWebm(bytes: seq<Byte>, m0: Movie) returns (m: Movie)
    ensures m == Parsed(m0, bytes)
    ensures bytes == [] || |bytes| > MAX_BYTES ==> m == m0
    ensures 0 < |bytes| <= MAX_BYTES ==>
              && m.duration == (if m.samples == [] then 0 else m.samples[|m.samples| - 1].pts)
              && (m.hasSource <==> m.haveVideo && m.samples != [])
  {
    hide ReadElement, Fold, Elements, ChildStep;
    m := m0;
    if bytes == [] || |bytes| > MAX_BYTES { return; }
    var position := 0;
    assert bytes[0..] == bytes;
    while position < |bytes|
      invariant 0 <= position <= |bytes|
      invariant Fold(RootStep, m0, Elements(bytes)) == Fold(RootStep, m, Elements(bytes[position..]))
      decreases |bytes| - position
    {
      var ok, id, payload, length := ReadAt(bytes, position);
      if !ok {
        FoldEnd(RootStep, m, bytes, position);
        m := Finish(m);
        return;
      }
      var data := bytes[payload..payload + length];
      FoldNext(RootStep, m, bytes, position, Element(id, data), payload + length - position);
      if id == SEGMENT { m := ParseSegment(data, m); }
      position := payload + length;
    }
    FoldDone(RootStep, m, bytes);
    m := Finish(m);
  }
}
