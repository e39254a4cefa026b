/** Binder messages on a byte stream: the layout, and the loops that write and read it piecemeal. */
module BinderWire {
  import opened WordSize
  import opened Bytes
  import opened Options

  const MAGIC := 0x44414252
  const VERSION := 1
  const MAX_BYTES := 0x400_0000
  const MAX_OBJECTS := 1024
  const HEADER_WORDS := 12
  const HEADER_SIZE := 48

  datatype WireBinder = WireBinder(target: nat, flags: nat)

  /** What the receiver must know to adopt a descriptor. */
  datatype WireFd = WireFd(kind: nat, protection: int, size: nat)

  datatype Message = Message(kind: nat, sequence: nat, target: nat, code: nat, flags: nat, status: int, reserved: nat,
                             binders: seq<WireBinder>, fds: seq<WireFd>, data: seq<Byte>)

  predicate Word(v: int) { 0 <= v < TWO_32 }

  predicate SignedWord(v: int) { -TWO_31 <= v < TWO_31 }

  predicate BinderFits(b: WireBinder) { Word(b.target) && Word(b.flags) }

  predicate FdFits(f: WireFd) { Word(f.kind) && SignedWord(f.protection) && f.size < TWO_64 }

  /** A message the receiver accepts. */
  predicate InLimits(m: Message) {
    && Word(m.kind) && Word(m.sequence) && Word(m.target) && Word(m.code) && Word(m.flags)
    && SignedWord(m.status) && Word(m.reserved)
    && |m.binders| <= MAX_OBJECTS && |m.fds| <= MAX_OBJECTS && |m.data| <= MAX_BYTES
    && (forall i :: 0 <= i < |m.binders| ==> BinderFits(m.binders[i]))
    && (forall i :: 0 <= i < |m.fds| ==> FdFits(m.fds[i]))
  }

  function Unsigned(v: int): (w: nat)
    requires SignedWord(v)
    ensures Word(w)
  {
    if v >= 0 then v else v + TWO_32
  }

  function Signed(w: nat): int {
    if w < TWO_31 then w else w - TWO_32
  }

  // Records are rows of little-endian 32-bit words.

  function Words(ws: seq<nat>): (bs: seq<Byte>)
    ensures |bs| == 4 * |ws|
  {
    if ws == [] then [] else LeBytes(ws[0], 4) + Words(ws[1..])
  }

  function Unwords(bs: seq<Byte>): (ws: seq<nat>)
    ensures |ws| == |bs| / 4
  {
    if |bs| < 4 then [] else [FromLe(bs[..4])] + Unwords(bs[4..])
  }

  lemma {:induction false} WordsRoundTrip(ws: seq<nat>)
    requires forall i :: 0 <= i < |ws| ==> Word(ws[i])
    ensures Unwords(Words(ws)) == ws
  {
    if ws != [] {
      var first, rest := LeBytes(ws[0], 4), Words(ws[1..]);
      assert Pow256(4) == TWO_32;
      LeRoundTrip(ws[0], 4);
      assert (first + rest)[..4] == first && (first + rest)[4..] == rest;
      WordsRoundTrip(ws[1..]);
    }
  }

  function HeaderWords(m: Message): (ws: seq<nat>)
    requires InLimits(m)
    ensures |ws| == HEADER_WORDS && forall i :: 0 <= i < |ws| ==> Word(ws[i])
  {
    [MAGIC, VERSION, m.kind, m.sequence, m.target, m.code, m.flags, Unsigned(m.status),
     |m.data|, |m.binders|, |m.fds|, m.reserved]
  }

  function BinderWords(bs: seq<WireBinder>): (ws: seq<nat>)
    ensures |ws| == 2 * |bs|
  {
    if bs == [] then [] else [bs[0].target, bs[0].flags] + BinderWords(bs[1..])
  }

  function ToBinders(ws: seq<nat>): (bs: seq<WireBinder>)
    ensures |bs| == |ws| / 2
  {
    if |ws| < 2 then [] else [WireBinder(ws[0], ws[1])] + ToBinders(ws[2..])
  }

  function FdWords(fs: seq<WireFd>): (ws: seq<nat>)
    requires forall i :: 0 <= i < |fs| ==> FdFits(fs[i])
    ensures |ws| == 4 * |fs|
  {
    if fs == [] then []
    else
      assert FdFits(fs[0]);
      [fs[0].kind, Unsigned(fs[0].protection), fs[0].size % TWO_32, fs[0].size / TWO_32] + FdWords(fs[1..])
  }

  function ToFds(ws: seq<nat>): (fs: seq<WireFd>)
    ensures |fs| == |ws| / 4
  {
    if |ws| < 4 then [] else [WireFd(ws[0], Signed(ws[1]), ws[2] + ws[3] * TWO_32)] + ToFds(ws[4..])
  }

  lemma {:induction false} BindersRoundTrip(bs: seq<WireBinder>)
    requires forall i :: 0 <= i < |bs| ==> BinderFits(bs[i])
    ensures ToBinders(BinderWords(bs)) == bs
    ensures forall i :: 0 <= i < |BinderWords(bs)| ==> Word(BinderWords(bs)[i])
  {
    if bs != [] {
      BindersRoundTrip(bs[1..]);
      assert BinderWords(bs)[2..] == BinderWords(bs[1..]);
    }
  }

  lemma {:induction false} FdsRoundTrip(fs: seq<WireFd>)
    requires forall i :: 0 <= i < |fs| ==> FdFits(fs[i])
    ensures forall i :: 0 <= i < |FdWords(fs)| ==> Word(FdWords(fs)[i])
    ensures ToFds(FdWords(fs)) == fs
  {
    if fs != [] {
      FdsRoundTrip(fs[1..]);
      assert FdWords(fs)[4..] == FdWords(fs[1..]);
    }
  }

  /** The bytes SendWireMessage puts on the stream. */
  function Encode(m: Message): (bs: seq<Byte>)
    requires InLimits(m)
    ensures |bs| == HEADER_SIZE + 8 * |m.binders| + 16 * |m.fds| + |m.data|
  {
    Words(HeaderWords(m)) + Payload(m)
  }

  function Payload(m: Message): (bs: seq<Byte>)
    requires InLimits(m)
    ensures |bs| == 8 * |m.binders| + 16 * |m.fds| + |m.data|
  {
    Words(BinderWords(m.binders)) + Words(FdWords(m.fds)) + m.data
  }

  /** What the receiver demands of a header. */
  predicate HeaderOk(ws: seq<nat>) {
    && |ws| == HEADER_WORDS && ws[0] == MAGIC && ws[1] == VERSION
    && ws[8] <= MAX_BYTES && ws[9] <= MAX_OBJECTS && ws[10] <= MAX_OBJECTS
  }

  function Assemble(ws: seq<nat>, binders: seq<WireBinder>, fds: seq<WireFd>, data: seq<Byte>): Message
    requires |ws| == HEADER_WORDS
  {
    Message(ws[2], ws[3], ws[4], ws[5], ws[6], Signed(ws[7]), ws[11], binders, fds, data)
  }

  /** What the payload after a header holds, and its size in bytes. */
  function Body(ws: seq<nat>, body: seq<Byte>): Option<(Message, nat)>
    requires HeaderOk(ws)
  {
    var b, f := 8 * ws[9], 16 * ws[10];
    var end := b + f + ws[8];
    if |body| < end then None
    else Some((Assemble(ws, ToBinders(Unwords(body[..b])), ToFds(Unwords(body[b..b + f])), body[b + f..end]), end))
  }

  /** The message at the start of a byte string, and how many bytes it takes. */
  function Decode(bs: seq<Byte>): Option<(Message, nat)> {
    if |bs| < HEADER_SIZE then None
    else
      var ws := Unwords(bs[..HEADER_SIZE]);
      if !HeaderOk(ws) then None
      else
        var m := Body(ws, bs[HEADER_SIZE..]);
        if m.None? then None else Some((m.value.0, HEADER_SIZE + m.value.1))
  }

  lemma Pieces(b: seq<Byte>, f: seq<Byte>, d: seq<Byte>, rest: seq<Byte>)
    ensures var body := b + f + d + rest;
            && body[..|b|] == b && body[|b|..|b| + |f|] == f && body[|b| + |f|..|b| + |f| + |d|] == d
  {
  }

  lemma HeaderFacts(m: Message)
    requires InLimits(m)
    ensures var ws := HeaderWords(m);
            && HeaderOk(ws) && ws[8] == |m.data| && ws[9] == |m.binders| && ws[10] == |m.fds|
            && Assemble(ws, m.binders, m.fds, m.data) == m
  {
  }

  lemma PartsRoundTrip(m: Message)
    requires InLimits(m)
    ensures ToBinders(Unwords(Words(BinderWords(m.binders)))) == m.binders
    ensures ToFds(Unwords(Words(FdWords(m.fds)))) == m.fds
  {
    hide Words, Unwords, ToBinders, ToFds, BinderWords, FdWords;
    BindersRoundTrip(m.binders);
    FdsRoundTrip(m.fds);
    WordsRoundTrip(BinderWords(m.binders));
    WordsRoundTrip(FdWords(m.fds));
  }

  lemma BodyEncode(m: Message, rest: seq<Byte>)
    requires InLimits(m) && HeaderOk(HeaderWords(m))
    ensures Body(HeaderWords(m), Payload(m) + rest) == Some((m, |Payload(m)|))
  {
    PartsRoundTrip(m);
    HeaderFacts(m);
    hide Words, Unwords, ToBinders, ToFds, BinderWords, FdWords, HeaderWords, HeaderOk, InLimits, Assemble;
    Pieces(Words(BinderWords(m.binders)), Words(FdWords(m.fds)), m.data, rest);
  }

  /** A message is self-delimiting: whatever follows it on the stream, it decodes to itself. */
  lemma DecodeEncode(m: Message, rest: seq<Byte>)
    requires InLimits(m)
    ensures Decode(Encode(m) + rest) == Some((m, |Encode(m)|))
  {
    hide Words, Unwords, Body, Payload, HeaderWords, HeaderOk, InLimits;
    HeaderFacts(m);
    WordsRoundTrip(HeaderWords(m));
    BodyEncode(m, rest);
    var bs := Encode(m) + rest;
    assert bs[..HEADER_SIZE] == Words(HeaderWords(m));
    assert bs[HEADER_SIZE..] == Payload(m) + rest;
  }

  // Whatever decodes was encoded

  lemma {:induction false} WordsInverse(bs: seq<Byte>)
    requires |bs| % 4 == 0
    ensures Words(Unwords(bs)) == bs && forall i :: 0 <= i < |Unwords(bs)| ==> Word(Unwords(bs)[i])
  {
    if bs != [] {
      LeInverse(bs[..4]);
      assert Pow256(4) == TWO_32;
      WordsInverse(bs[4..]);
      assert Unwords(bs)[1..] == Unwords(bs[4..]);
      assert bs[..4] + bs[4..] == bs;
    }
  }

  lemma {:induction false} BindersInverse(ws: seq<nat>)
    requires |ws| % 2 == 0 && forall i :: 0 <= i < |ws| ==> Word(ws[i])
    ensures BinderWords(ToBinders(ws)) == ws
    ensures forall i :: 0 <= i < |ToBinders(ws)| ==> BinderFits(ToBinders(ws)[i])
  {
    if ws != [] {
      BindersInverse(ws[2..]);
      assert ToBinders(ws)[1..] == ToBinders(ws[2..]);
      assert [ws[0], ws[1]] + ws[2..] == ws;
    }
  }

  lemma {:induction false} FdsInverse(ws: seq<nat>)
    requires |ws| % 4 == 0 && forall i :: 0 <= i < |ws| ==> Word(ws[i])
    ensures forall i :: 0 <= i < |ToFds(ws)| ==> FdFits(ToFds(ws)[i])
    ensures FdWords(ToFds(ws)) == ws
  {
    if ws != [] {
      FdsInverse(ws[4..]);
      assert ToFds(ws)[1..] == ToFds(ws[4..]);
      assert [ws[0], ws[1], ws[2], ws[3]] + ws[4..] == ws;
    }
  }

  lemma HeaderInverse(ws: seq<nat>, binders: seq<WireBinder>, fds: seq<WireFd>, data: seq<Byte>)
    requires HeaderOk(ws) && (forall i :: 0 <= i < |ws| ==> Word(ws[i]))
    requires |binders| == ws[9] && |fds| == ws[10] && |data| == ws[8]
    requires forall i :: 0 <= i < |binders| ==> BinderFits(binders[i])
    requires forall i :: 0 <= i < |fds| ==> FdFits(fds[i])
    ensures InLimits(Assemble(ws, binders, fds, data)) && HeaderWords(Assemble(ws, binders, fds, data)) == ws
  {
  }

  lemma BodyInverse(ws: seq<nat>, body: seq<Byte>)
    requires HeaderOk(ws) && (forall i :: 0 <= i < |ws| ==> Word(ws[i])) && Body(ws, body).Some?
    ensures var (m, n) := Body(ws, body).value;
            n <= |body| && InLimits(m) && HeaderWords(m) == ws && Payload(m) == body[..n]
  {
    hide Words, Unwords, ToBinders, ToFds, BinderWords, FdWords, HeaderWords, InLimits, Assemble;
    var b, f := 8 * ws[9], 16 * ws[10];
    var end := b + f + ws[8];
    var first, second, third := body[..b], body[b..b + f], body[b + f..end];
    WordsInverse(first);
    WordsInverse(second);
    BindersInverse(Unwords(first));
    FdsInverse(Unwords(second));
    HeaderInverse(ws, ToBinders(Unwords(first)), ToFds(Unwords(second)), third);
    assert first + second + third == body[..end];
    AssembledParts(ws, ToBinders(Unwords(first)), ToFds(Unwords(second)), third);
  }

  lemma AssembledParts(ws: seq<nat>, binders: seq<WireBinder>, fds: seq<WireFd>, data: seq<Byte>)
    requires |ws| == HEADER_WORDS
    ensures var m := Assemble(ws, binders, fds, data); m.binders == binders && m.fds == fds && m.data == data
  {
  }

  /** The bytes a message was decoded from are its encoding, and it is within the limits. */
  lemma EncodeDecode(bs: seq<Byte>)
    requires Decode(bs).Some?
    ensures var (m, n) := Decode(bs).value; n <= |bs| && InLimits(m) && Encode(m) == bs[..n]
  {
    hide Words, Unwords, Body, Payload, HeaderWords, InLimits, HeaderOk;
    var header, body := bs[..HEADER_SIZE], bs[HEADER_SIZE..];
    WordsInverse(header);
    BodyInverse(Unwords(header), body);
    var (m, n) := Body(Unwords(header), body).value;
    assert header + body[..n] == bs[..HEADER_SIZE + n];
  }

  // The stream

  /** What one system call does: moves some bytes, is interrupted, or fails. */
  datatype Io = Moves(n: nat) | Interrupted | Fails

  function Least(a: nat, b: nat): nat { if a < b then a else b }

  /** Whether a loop that retries interruptions and continues short transfers gets size bytes through. */
  function Completes(script: seq<Io>, size: nat): bool {
    if size == 0 then true
    else if script == [] then false
    else match script[0]
      case Moves(n) => n > 0 && Completes(script[1..], size - Least(n, size))
      case Interrupted => Completes(script[1..], size)
      case Fails => false
  }

  /** What is left of the script once size bytes are through. */
  function After(script: seq<Io>, size: nat): seq<Io> {
    if size == 0 || script == [] then script
    else match script[0]
      case Moves(n) => if n > 0 then After(script[1..], size - Least(n, size)) else script[1..]
      case Interrupted => After(script[1..], size)
      case Fails => script[1..]
  }

  /** The header comes from one call that waits for all of it: retried when interrupted, refused when short. */
  function HeaderArrives(script: seq<Io>): bool {
    script != [] && match script[0]
                    case Moves(n) => n >= HEADER_SIZE
                    case Interrupted => HeaderArrives(script[1..])
                    case Fails => false
  }

  function AfterHeader(script: seq<Io>): seq<Io> {
    if script == [] then [] else if script[0].Interrupted? then AfterHeader(script[1..]) else script[1..]
  }

  /** Whether three reads in a row get through. */
  function PayloadArrives(script: seq<Io>, b: nat, f: nat, d: nat): bool {
    var r := After(script, b);
    Completes(script, b) && Completes(r, f) && Completes(After(r, f), d)
  }

  /** Whether the reads of one message get through. */
  function Arrives(script: seq<Io>, m: Message): bool {
    HeaderArrives(script) && PayloadArrives(AfterHeader(script), 8 * |m.binders|, 16 * |m.fds|, |m.data|)
  }

  /** The descriptors that came with the byte at a position. */
  function RightsAt(rights: map<nat, seq<nat>>, position: nat): seq<nat> {
    if position in rights then rights[position] else []
  }

  /** A connected stream: everything written so far, and how much of it was read. */
  class Stream {
    var data: seq<Byte>
    var position: nat
    var rights: map<nat, seq<nat>>   // descriptors sent along, by the position of the first byte

    ghost predicate Valid()
      reads this
    {
      position <= |data|
    }

    constructor ()
      ensures Valid() && data == [] && position == 0 && rights == map[]
    {
      data, position, rights := [], 0, map[];
    }

    method WriteAll(bytes: seq<Byte>, script: seq<Io>) returns (ok: bool, rest: seq<Io>)
      requires Valid()
      modifies this`data
      ensures Valid() && ok == Completes(script, |bytes|)
      ensures ok ==> data == old(data) + bytes && rest == After(script, |bytes|)
      ensures old(data) <= data <= old(data) + bytes
    {
      var done := 0;
      rest := script;
      while done < |bytes|
        invariant 0 <= done <= |bytes| && data == old(data) + bytes[..done]
        invariant Completes(script, |bytes|) == Completes(rest, |bytes| - done)
        invariant After(script, |bytes|) == After(rest, |bytes| - done)
        decreases |rest|
      {
        if rest == [] { return false, rest; }
        var io := rest[0];
        rest := rest[1..];
        match io
        case Moves(n) =>
          if n == 0 { return false, rest; }
          var k := Least(n, |bytes| - done);
          assert bytes[..done] + bytes[done..done + k] == bytes[..done + k];
          data := data + bytes[done..done + k];
          done := done + k;
        case Interrupted =>
        case Fails => return false, rest;
      }
      assert bytes[..|bytes|] == bytes;
      ok := true;
    }

    /** The bytes must have been written; a read at the end of the stream fails. */
    method ReadAll(size: nat, script: seq<Io>) returns (ok: bool, bytes: seq<Byte>, rest: seq<Io>)
      requires Valid()
      modifies this`position
      ensures Valid() && (ok <==> Completes(script, size) && old(position) + size <= |data|)
      ensures ok ==> position == old(position) + size && bytes == data[old(position)..position]
      ensures ok ==> rest == After(script, size)
    {
      var start := position;
      bytes, rest := [], script;
      while |bytes| < size
        invariant |bytes| <= size && position == start + |bytes| <= |data| && bytes == data[start..position]
        invariant Completes(script, size) == Completes(rest, size - |bytes|)
        invariant After(script, size) == After(rest, size - |bytes|)
        decreases |rest|
      {
        if rest == [] { return false, bytes, rest; }
        var io := rest[0];
        rest := rest[1..];
        match io
        case Moves(n) =>
          var k := Least(n, size - |bytes|);
          if n > 0 && position + k > |data| { return false, bytes, rest; }
          if n == 0 { return false, bytes, rest; }
          assert data[start..position] + data[position..position + k] == data[start..position + k];
          bytes := bytes + data[position..position + k];
          position := position + k;
        case Interrupted =>
        case Fails => return false, bytes, rest;
      }
      ok := true;
    }

    /** SendWireMessage: the descriptors travel with the first byte, the rest may follow piecemeal. */
    method Send(m: Message, descriptors: seq<nat>, script: seq<Io>) returns (ok: bool)
      requires Valid() && InLimits(m) && |descriptors| == |m.fds|
      modifies this`data, this`rights
      ensures Valid() && ok == Completes(script, |Encode(m)|)
      ensures ok ==> data == old(data) + Encode(m)
      ensures ok ==> rights == if descriptors == [] then old(rights) else old(rights)[|old(data)| := descriptors]
    {
      hide Encode;
      var bytes := Encode(m);
      var rest := script;
      while rest != [] && rest[0].Interrupted?
        invariant Completes(script, |bytes|) == Completes(rest, |bytes|)
      {
        rest := rest[1..];
      }
      if rest == [] || rest[0].Fails? || rest[0].n == 0 { return false; }
      var prefix := Least(rest[0].n, |bytes|);
      if descriptors != [] { rights := rights[|data| := descriptors]; }
      data := data + bytes[..prefix];
      ok, rest := WriteAll(bytes[prefix..], rest[1..]);
      assert bytes[..prefix] + bytes[prefix..] == bytes;
    }

    /** The receiving half of the header: one call that waits for all 48 bytes. */
    method ReadHeader(script: seq<Io>) returns (ok: bool, words: seq<nat>, rest: seq<Io>)
      requires Valid()
      modifies this`position
      ensures Valid() && (ok <==> HeaderArrives(script) && old(position) + HEADER_SIZE <= |data|)
      ensures ok ==> position == old(position) + HEADER_SIZE && words == Unwords(data[old(position)..position])
      ensures ok ==> rest == AfterHeader(script)
      ensures !ok ==> old(position) <= position
    {
      rest, words := script, [];
      while rest != [] && rest[0].Interrupted?
        invariant HeaderArrives(script) == HeaderArrives(rest) && AfterHeader(script) == AfterHeader(rest)
      {
        rest := rest[1..];
      }
      if rest == [] || rest[0].Fails? || rest[0].n < HEADER_SIZE || position + HEADER_SIZE > |data| {
        return false, words, rest;
      }
      words := Unwords(data[position..position + HEADER_SIZE]);
      position := position + HEADER_SIZE;
      ok, rest := true, rest[1..];
    }

    /** The three reads after an accepted header. */
    method ReadPayload(words: seq<nat>, script: seq<Io>) returns (ok: bool, m: Message)
      requires Valid() && HeaderOk(words)
      modifies this`position
      ensures Valid()
      ensures ok <==> Body(words, data[old(position)..]).Some?
                      && PayloadArrives(script, 8 * words[9], 16 * words[10], words[8])
      ensures ok ==> Body(words, data[old(position)..]) == Some((m, position - old(position)))
    {
      hide Completes, After, Unwords, ToBinders, ToFds, Assemble;
      m := Message(0, 0, 0, 0, 0, 0, 0, [], [], []);
      ghost var body := data[position..];
      var b, f := 8 * words[9], 16 * words[10];
      var bytes, rest;
      ok, bytes, rest := ReadAll(b, script);
      if !ok { return; }
      assert bytes == body[..b];
      var binders := ToBinders(Unwords(bytes));
      ok, bytes, rest := ReadAll(f, rest);
      if !ok { return; }
      assert bytes == body[b..b + f];
      var fds := ToFds(Unwords(bytes));
      ok, bytes, rest := ReadAll(words[8], rest);
      if !ok { return; }
      assert bytes == body[b + f..b + f + words[8]];
      m := Assemble(words, binders, fds, bytes);
    }

    /** ReceiveWireMessage: what the bytes at the read position decode to, or failure. */
    method Receive(script: seq<Io>) returns (ok: bool, m: Message, descriptors: seq<nat>)
      requires Valid()
      modifies this`position
      ensures Valid()
      ensures ok ==> Decode(data[old(position)..]) == Some((m, position - old(position)))
      ensures ok ==> descriptors == RightsAt(rights, old(position)) && |descriptors| == |m.fds|
      ensures ok <==> ReceiveSucceeds(data[old(position)..], |RightsAt(rights, old(position))|, script)
    {
      hide HeaderArrives, AfterHeader, Unwords, HeaderOk, Body, PayloadArrives;
      m, descriptors := Message(0, 0, 0, 0, 0, 0, 0, [], [], []), [];
      var start := position;
      ghost var bs := data[start..];
      var words, rest;
      ok, words, rest := ReadHeader(script);
      if !ok { return; }
      assert bs[..HEADER_SIZE] == data[start..position] && bs[HEADER_SIZE..] == data[position..];
      if !HeaderOk(words) { ok := false; return; }
      BodySizes(words, bs[HEADER_SIZE..]);
      if start in rights { descriptors := rights[start]; }
      if |descriptors| != words[10] { ok := false; return; }
      ok, m := ReadPayload(words, rest);
    }
  }

  lemma BodySizes(ws: seq<nat>, body: seq<Byte>)
    requires HeaderOk(ws)
    ensures |ws| == HEADER_WORDS
    ensures Body(ws, body).Some? ==>
              var m := Body(ws, body).value.0; |m.binders| == ws[9] && |m.fds| == ws[10] && |m.data| == ws[8]
  {
  }

  /** A receive succeeds when a whole message is there, its descriptors came along, and the reads get through. */
  ghost predicate ReceiveSucceeds(bs: seq<Byte>, descriptors: nat, script: seq<Io>) {
    Decode(bs).Some? && descriptors == |Decode(bs).value.0.fds| && Arrives(script, Decode(bs).value.0)
  }

  /** Messages back to back. */
  function EncodeAll(ms: seq<Message>): seq<Byte>
    requires forall i :: 0 <= i < |ms| ==> InLimits(ms[i])
  {
    if ms == [] then [] else EncodeAll(ms[..|ms| - 1]) + Encode(ms[|ms| - 1])
  }

  /** Each message starts where the ones before it end. */
  lemma {:induction false} EncodeAllAt(ms: seq<Message>, i: nat) returns (rest: seq<Byte>)
    requires (forall k :: 0 <= k < |ms| ==> InLimits(ms[k])) && i < |ms|
    ensures EncodeAll(ms) == EncodeAll(ms[..i]) + (Encode(ms[i]) + rest)
    ensures EncodeAll(ms[..i + 1]) == EncodeAll(ms[..i]) + Encode(ms[i])
    decreases |ms|
  {
    hide Encode, InLimits;
    var n := |ms| - 1;
    assert ms[..i + 1][..i] == ms[..i];
    if i == n {
      rest := [];
      assert ms[..n + 1] == ms;
      assert Encode(ms[i]) + [] == Encode(ms[i]);
    } else {
      var r := EncodeAllAt(ms[..n], i);
      assert ms[..n][..i] == ms[..i] && ms[..n][..i + 1] == ms[..i + 1];
      rest := r + Encode(ms[n]);
      var head, m, last := EncodeAll(ms[..i]), Encode(ms[i]), Encode(ms[n]);
      assert (head + (m + r)) + last == head + (m + (r + last));
    }
  }

  predicate AllInLimits(ms: seq<Message>) { forall i :: 0 <= i < |ms| ==> InLimits(ms[i]) }

  /** The stream holds these messages and their descriptors, from the start. */
  ghost predicate Carries(data: seq<Byte>, rights: map<nat, seq<nat>>, ms: seq<Message>, descriptors: seq<seq<nat>>)
    requires AllInLimits(ms) && |descriptors| == |ms|
  {
    && data == EncodeAll(ms) && (forall p :: p in rights ==> p < |data|)
    && (forall k :: 0 <= k < |ms| ==> Attached(rights, ms, k, descriptors[k]))
  }

  lemma CarriesMore(data: seq<Byte>, rights: map<nat, seq<nat>>, ms: seq<Message>, descriptors: seq<seq<nat>>,
                    m: Message, ds: seq<nat>)
    requires AllInLimits(ms) && InLimits(m) && |descriptors| == |ms| && Carries(data, rights, ms, descriptors)
    ensures AllInLimits(ms + [m])
    ensures Carries(data + Encode(m), if ds == [] then rights else rights[|data| := ds], ms + [m], descriptors + [ds])
  {
    hide Encode, InLimits;
    var more, n := ms + [m], |ms|;
    var rights' := if ds == [] then rights else rights[|data| := ds];
    assert forall k :: 0 <= k <= n ==> more[..k] == ms[..k];
    assert ms[..n] == ms;
    EncodeSize(m);
    forall k | 0 <= k < |more| ensures Attached(rights', more, k, (descriptors + [ds])[k]) {
      if k < n {
        Earlier(ms, k, n);
        assert Attached(rights, ms, k, descriptors[k]);
      }
    }
  }

  method SendAll(stream: Stream, ms: seq<Message>, descriptors: seq<seq<nat>>, scripts: seq<seq<Io>>) returns (ok: bool)
    requires |descriptors| == |scripts| == |ms| && AllInLimits(ms)
    requires forall i :: 0 <= i < |ms| ==> |descriptors[i]| == |ms[i].fds|
    requires stream.Valid() && stream.data == [] && stream.rights == map[]
    modifies stream`data, stream`rights
    ensures ok ==> Carries(stream.data, stream.rights, ms, descriptors)
    ensures ok <==> forall i :: 0 <= i < |ms| ==> Completes(scripts[i], |Encode(ms[i])|)
  {
    hide Encode, Completes, InLimits, Attached;
    var i := 0;
    while i < |ms|
      invariant 0 <= i <= |ms| && stream.Valid() && stream.position == old(stream.position)
      invariant Carries(stream.data, stream.rights, ms[..i], descriptors[..i])
      invariant forall k :: 0 <= k < i ==> Completes(scripts[k], |Encode(ms[k])|)
    {
      ghost var data, rights := stream.data, stream.rights;
      ok := stream.Send(ms[i], descriptors[i], scripts[i]);
      if !ok { return; }
      CarriesMore(data, rights, ms[..i], descriptors[..i], ms[i], descriptors[i]);
      assert ms[..i + 1] == ms[..i] + [ms[i]] && descriptors[..i + 1] == descriptors[..i] + [descriptors[i]];
      i := i + 1;
    }
    assert ms[..|ms|] == ms && descriptors[..|ms|] == descriptors;
    ok := true;
  }

  lemma EncodeSize(m: Message)
    requires InLimits(m)
    ensures |Encode(m)| >= HEADER_SIZE
  {
  }

  lemma StartsAtZero(ms: seq<Message>)
    requires AllInLimits(ms)
    ensures EncodeAll(ms[..0]) == []
  {
  }

  /** At the end of the first i messages stands the next one, with its descriptors. */
  lemma NextMessage(data: seq<Byte>, rights: map<nat, seq<nat>>, ms: seq<Message>, descriptors: seq<seq<nat>>, i: nat,
                    script: seq<Io>)
    requires AllInLimits(ms) && |descriptors| == |ms| && i < |ms| && Carries(data, rights, ms, descriptors)
    requires |descriptors[i]| == |ms[i].fds|
    ensures var at := |EncodeAll(ms[..i])|;
            && at <= |data| && Decode(data[at..]).Some? && Decode(data[at..]).value == (ms[i], |Encode(ms[i])|)
            && |EncodeAll(ms[..i + 1])| == at + |Encode(ms[i])|
            && RightsAt(rights, at) == descriptors[i]
            && (ReceiveSucceeds(data[at..], |RightsAt(rights, at)|, script) <==> Arrives(script, ms[i]))
  {
    hide Encode, Arrives, InLimits, Decode, EncodeAll;
    var at := |EncodeAll(ms[..i])|;
    var rest := EncodeAllAt(ms, i);
    assert data[at..] == Encode(ms[i]) + rest;
    DecodeEncode(ms[i], rest);
    assert Attached(rights, ms, i, descriptors[i]);
  }

  method ReceiveAll(stream: Stream, ghost ms: seq<Message>, ghost descriptors: seq<seq<nat>>, scripts: seq<seq<Io>>)
    returns (ok: bool, out: seq<Message>, rights: seq<seq<nat>>)
    requires |descriptors| == |scripts| == |ms| && AllInLimits(ms)
    requires forall i :: 0 <= i < |ms| ==> |descriptors[i]| == |ms[i].fds|
    requires stream.Valid() && stream.position == 0 && Carries(stream.data, stream.rights, ms, descriptors)
    modifies stream`position
    ensures ok ==> out == ms && rights == descriptors
    ensures ok <==> forall i :: 0 <= i < |ms| ==> Arrives(scripts[i], ms[i])
  {
    hide Encode, Arrives, InLimits, Decode, Carries, EncodeAll, ReceiveSucceeds;
    StartsAtZero(ms);
    out, rights := [], [];
    var i := 0;
    while i < |scripts|
      invariant 0 <= i <= |ms| && stream.Valid() && stream.position == |EncodeAll(ms[..i])|
      invariant out == ms[..i] && rights == descriptors[..i]
      invariant forall k :: 0 <= k < i ==> Arrives(scripts[k], ms[k])
    {
      NextMessage(stream.data, stream.rights, ms, descriptors, i, scripts[i]);
      var m, ds;
      ok, m, ds := stream.Receive(scripts[i]);
      if !ok { return; }
      out, rights := out + [m], rights + [ds];
      i := i + 1;
    }
    ok := true;
  }

  /**
   * A list of messages sent back to back in any pieces, and read back in any pieces, is the same list,
   * descriptors included; it goes through exactly when every write and read loop does.
   */
  method Exchange(ms: seq<Message>, descriptors: seq<seq<nat>>, writes: seq<seq<Io>>, reads_: seq<seq<Io>>)
    returns (ok: bool, out: seq<Message>, rights: seq<seq<nat>>)
    requires |descriptors| == |writes| == |reads_| == |ms| && AllInLimits(ms)
    requires forall i :: 0 <= i < |ms| ==> |descriptors[i]| == |ms[i].fds|
    ensures ok ==> out == ms && rights == descriptors
    ensures ok <==> forall i :: 0 <= i < |ms| ==> Completes(writes[i], |Encode(ms[i])|) && Arrives(reads_[i], ms[i])
  {
    hide Encode, Arrives, InLimits, Completes, Carries;
    var stream := new Stream();
    out, rights := [], [];
    ok := SendAll(stream, ms, descriptors, writes);
    if ok { ok, out, rights := ReceiveAll(stream, ms, descriptors, reads_); }
  }

  // A header that arrives in two pieces

  /** The first transfer that is not interrupted stops short of a header. */
  ghost predicate SplitsHeader(script: seq<Io>) {
    exists k :: 0 <= k < |script| && ShortAt(script, k)
  }

  ghost predicate ShortAt(script: seq<Io>, k: nat)
    requires k < |script|
  {
    script[k].Moves? && script[k].n < HEADER_SIZE && forall i :: 0 <= i < k ==> script[i].Interrupted?
  }

  lemma SplitsLater(script: seq<Io>)
    requires script != [] && script[0].Interrupted?
    ensures SplitsHeader(script) <==> SplitsHeader(script[1..])
  {
    if SplitsHeader(script) {
      var k :| 0 <= k < |script| && ShortAt(script, k);
      assert ShortAt(script[1..], k - 1);
    }
    if SplitsHeader(script[1..]) {
      var k :| 0 <= k < |script[1..]| && ShortAt(script[1..], k);
      assert ShortAt(script, k + 1);
    }
  }

  /** Where a read loop would get the header, this one gets it exactly when the header is not split. */
  lemma {:induction false} HeaderIff(script: seq<Io>)
    ensures HeaderArrives(script) <==> Completes(script, HEADER_SIZE) && !SplitsHeader(script)
  {
    if script != [] {
      match script[0]
      case Moves(n) =>
        if n < HEADER_SIZE {
          assert ShortAt(script, 0);
        } else {
          assert Completes(script[1..], 0);
          assert forall k :: 0 < k < |script| ==> !ShortAt(script, k) by { assert !script[0].Interrupted?; }
        }
      case Interrupted =>
        HeaderIff(script[1..]);
        SplitsLater(script);
      case Fails =>
    }
  }

  function SplitAt(size: nat): seq<Io>
    requires size >= 20
  {
    [Moves(20), Moves(size - 20)]
  }

  lemma SplitCompletes(size: nat)
    requires size > 20
    ensures Completes(SplitAt(size), size)
  {
    assert SplitAt(size)[1..] == [Moves(size - 20)];
    assert SplitAt(size)[1..][1..] == [];
  }

  /**
   * Any message, written whole and read as its first 20 bytes and then the rest, is refused, though a loop
   * that continues short reads would get all of it.
   */
  method SplitHeaderRefused(m: Message, descriptors: seq<nat>) returns (sent: bool, script: seq<Io>, received: bool)
    requires InLimits(m) && |descriptors| == |m.fds|
    ensures sent && Completes(script, |Encode(m)|) && !received
  {
    hide Encode, InLimits, Decode;
    EncodeSize(m);
    var stream := new Stream();
    var size := |Encode(m)|;
    sent := stream.Send(m, descriptors, [Moves(size)]);
    script := SplitAt(size);
    SplitCompletes(size);
    var m', ds;
    received, m', ds := stream.Receive(script);
  }

  /** The descriptors of message k hang on its first byte. */
  ghost predicate Attached(rights: map<nat, seq<nat>>, ms: seq<Message>, k: nat, descriptors: seq<nat>)
    requires (forall i :: 0 <= i < |ms| ==> InLimits(ms[i])) && k < |ms|
  {
    var at := |EncodeAll(ms[..k])|;
    if descriptors == [] then at !in rights else at in rights && rights[at] == descriptors
  }

  lemma {:induction false} Earlier(ms: seq<Message>, k: nat, i: nat)
    requires (forall j :: 0 <= j < |ms| ==> InLimits(ms[j])) && k < i <= |ms|
    ensures |EncodeAll(ms[..k])| < |EncodeAll(ms[..i])|
    decreases i
  {
    hide Encode, InLimits;
    assert ms[..i][..i - 1] == ms[..i - 1];
    EncodeSize(ms[i - 1]);
    if k < i - 1 { Earlier(ms, k, i - 1); }
  }
}
