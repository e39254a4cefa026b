/**
 * Both ends of a Binder connection and the messages between them, as a machine whose steps are what
 * the export and import code is proved to do.  Each handle in flight carries, for the record only,
 * the object it was made for.
 */
module BinderChannel {
  import opened WordSize
  import opened Options
  import opened BinderHandles

  datatype Sent = Sent(wire: WireBinder, origin: Object)

  /**
   * Index 0 and 1 are the two ends.  heaps are the objects of each process, streams[i] the messages on
   * their way to end i, proxies[i] the proxies made at end i with the peer object each stands for, and
   * home every handle that came back, with what it was imported as.
   */
  datatype Channel = Channel(
    sides: seq<Side>, heaps: seq<map<nat, Identity>>, streams: seq<seq<seq<Sent>>>,
    proxies: seq<map<Object, Object>>, home: seq<(Object, Object)>)
  {
    ghost predicate Shape() {
      |sides| == |heaps| == |streams| == |proxies| == 2
    }
  }

  ghost predicate InHeap(heap: map<nat, Identity>, x: Object) {
    x.ref in heap && heap[x.ref] == x.identity
  }

  function Add(heap: map<nat, Identity>, x: Object): map<nat, Identity> {
    heap[x.ref := x.identity]
  }

  /** A proxy of this very connection. */
  predicate OfSide(s: Side, identity: Identity) {
    identity.Remote? && identity.fd == s.fd && identity.generation == s.generation
  }

  /** The target a proxy was made for, read back from its signed field. */
  function TargetOf(identity: Identity): int
    requires identity.Remote?
  {
    if identity.target >= 0 then identity.target else identity.target + TWO_32
  }

  /** While the maker is live, the target names the object in its table. */
  ghost predicate Resolves(s: Side, target: int, x: Object) {
    s.live ==> target in s.table && s.table[target] == x
  }

  ghost predicate SideInv(s: Side, heap: map<nat, Identity>) {
    Unwrapped(s) && forall t :: t in s.table ==> InHeap(heap, s.table[t])
  }

  /** A proxy of this end whose target names that object at the peer. */
  ghost predicate StandsFor(s: Side, identity: Identity, x: Object, peer: Side) {
    OfSide(s, identity) && identity.target < TWO_31 && Resolves(peer, TargetOf(identity), x)
  }

  ghost predicate ProxyInv(s: Side, heap: map<nat, Identity>, proxies: map<Object, Object>, peer: Side) {
    && (forall p :: p in proxies ==> InHeap(heap, p) && StandsFor(s, p.identity, proxies[p], peer))
    && (forall ref :: ref in heap && OfSide(s, heap[ref]) ==> Object(ref, heap[ref]) in proxies)
  }

  ghost predicate SentInv(receiver: Side, sender: Side, m: Sent) {
    && m.wire.target < TWO_32
    && Resolves(if m.wire.returnsHome then receiver else sender, m.wire.target, m.origin)
  }

  ghost predicate StreamInv(receiver: Side, sender: Side, stream: seq<seq<Sent>>) {
    forall i, j :: 0 <= i < |stream| && 0 <= j < |stream[i]| ==> SentInv(receiver, sender, stream[i][j])
  }

  ghost predicate EndInv(c: Channel, i: nat)
    requires c.Shape() && i < 2
  {
    && SideInv(c.sides[i], c.heaps[i])
    && ProxyInv(c.sides[i], c.heaps[i], c.proxies[i], c.sides[1 - i])
    && StreamInv(c.sides[i], c.sides[1 - i], c.streams[i])
  }

  /** A handle that came back was imported as the object it was exported for. */
  ghost predicate HomeInv(home: seq<(Object, Object)>) {
    forall k :: 0 <= k < |home| ==> home[k].0 == home[k].1
  }

  ghost predicate Inv(c: Channel) {
    c.Shape() && EndInv(c, 0) && EndInv(c, 1) && HomeInv(c.home)
  }

  datatype Move =
    | Create(i: nat, x: Object)                                   // an object other than a proxy of this connection
    | Others(i: nat, others: set<(int, nat)>)                     // other connections come and go
    | Serve(i: nat, x: Object)
    | Root(i: nat, ref: nat)                                      // a proxy for the peer's served root
    | Send(i: nat, e: Export)                                     // a parcel exported and sent
    | Drop(i: nat, e: Export)                                     // an export that failed half way, or was not sent
    | Receive(i: nat, refs: seq<nat>)
    | Retire(i: nat)

  /** Some turns of ExportParcel over objects of this end, with fewer than 2^32 targets issued. */
  ghost predicate Exporting(c: Channel, i: nat, e: Export)
    requires c.Shape() && i < 2
  {
    c.sides[i].live && e.From(c.sides[i]) && e.Fresh() && forall k :: 0 <= k < |e.xs| ==> InHeap(c.heaps[i], e.xs[k])
  }

  /** When a move can happen; what exporting does to a side is what ExportParcel is proved to do. */
  ghost predicate Allowed(c: Channel, move: Move)
    requires c.Shape()
  {
    && move.i < 2
    && match move
       case Create(i, x) => x.ref !in c.heaps[i] && !OfSide(c.sides[i], x.identity)
       case Others(i, others) => true
       case Serve(i, x) => c.sides[i].live && InHeap(c.heaps[i], x)
       case Root(i, ref) => ref !in c.heaps[i] && c.sides[i].live && c.sides[1 - i].live && 1 in c.sides[1 - i].table
       case Send(i, e) => Exporting(c, i, e) && e.Done()
       case Drop(i, e) => Exporting(c, i, e)
       case Receive(i, refs) =>
         && c.sides[i].live && c.streams[i] != [] && |refs| == |c.streams[i][0]|
         && (forall j, k :: 0 <= j < k < |refs| ==> refs[j] != refs[k])
         && (forall k :: 0 <= k < |refs| ==> refs[k] !in c.heaps[i])
       case Retire(i) => true
  }

  /** What an exported handle was made for: a proxy going home stands for the peer's own object. */
  function OriginOf(proxies: map<Object, Object>, x: Object, w: WireBinder): Object {
    if w.returnsHome && x in proxies then proxies[x] else x
  }

  function Message(proxies: map<Object, Object>, xs: seq<Object>, ws: seq<WireBinder>): (m: seq<Sent>)
    requires |xs| == |ws|
    ensures |m| == |xs|
  {
    seq(|xs|, k requires 0 <= k < |xs| => Sent(ws[k], OriginOf(proxies, xs[k], ws[k])))
  }

  /** Importing the handles of one message in order. */
  function Absorb(s: Side, heap: map<nat, Identity>, proxies: map<Object, Object>, home: seq<(Object, Object)>,
                  message: seq<Sent>, refs: seq<nat>): (map<nat, Identity>, map<Object, Object>, seq<(Object, Object)>)
    requires |refs| == |message|
    decreases |message|
  {
    if message == [] then (heap, proxies, home)
    else
      var x := Import(s, message[0].wire, refs[0]);
      if x.None? then (heap, proxies, home)
      else if message[0].wire.returnsHome then
        Absorb(s, heap, proxies, home + [(x.value, message[0].origin)], message[1..], refs[1..])
      else
        Absorb(s, heap[refs[0] := x.value.identity], proxies[x.value := message[0].origin], home, message[1..],
               refs[1..])
  }

  function Apply(c: Channel, move: Move): Channel
    requires c.Shape() && move.i < 2
    requires move.Send? ==> move.e.Done()
    requires move.Drop? ==> |move.e.states| == |move.e.ws| + 1
    requires move.Receive? ==> c.streams[move.i] != [] && |move.refs| == |c.streams[move.i][0]|
    requires move.Root? ==> 1 in c.sides[1 - move.i].table
  {
    match move
    case Create(i, x) => c.(heaps := c.heaps[i := Add(c.heaps[i], x)])
    case Others(i, others) => c.(sides := c.sides[i := c.sides[i].(others := others)])
    case Serve(i, x) =>
      var s := c.sides[i];
      c.(sides := c.sides[i := s.(table := if 1 in s.table then s.table else s.table[1 := x])])
    case Root(i, ref) =>
      var p := ProxyFor(c.sides[i], 1, ref);
      c.(heaps := c.heaps[i := Add(c.heaps[i], p)],
         proxies := c.proxies[i := c.proxies[i][p := c.sides[1 - i].table[1]]])
    case Send(i, e) =>
      c.(sides := c.sides[i := e.After()],
         streams := c.streams[1 - i := c.streams[1 - i] + [Message(c.proxies[i], e.xs, e.Handles())]])
    case Drop(i, e) => c.(sides := c.sides[i := e.After()])
    case Receive(i, refs) =>
      var (heap, proxies, home) := Absorb(c.sides[i], c.heaps[i], c.proxies[i], c.home, c.streams[i][0], refs);
      c.(heaps := c.heaps[i := heap], proxies := c.proxies[i := proxies], home := home,
         streams := c.streams[i := c.streams[i][1..]])
    case Retire(i) => c.(sides := c.sides[i := c.sides[i].(live := false, table := map[])])
  }

  // Nothing is lost while tables grow

  /** A later state of an end: retired, or the same with a larger table. */
  ghost predicate Later(s: Side, s': Side) {
    && s'.fd == s.fd && s'.generation == s.generation
    && (s'.live ==> s.live && Grows(s.table, s'.table))
  }

  lemma ProxyLater(s: Side, s': Side, heap: map<nat, Identity>, proxies: map<Object, Object>, peer: Side, peer': Side)
    requires ProxyInv(s, heap, proxies, peer) && Later(s, s') && Later(peer, peer')
    ensures ProxyInv(s', heap, proxies, peer')
  {
  }

  lemma StreamLater(r: Side, r': Side, s: Side, s': Side, stream: seq<seq<Sent>>)
    requires StreamInv(r, s, stream) && Later(r, r') && Later(s, s')
    ensures StreamInv(r', s', stream)
  {
  }

  /** A step that only moves one end along keeps everything said about the other. */
  lemma SidesLater(c: Channel, i: nat, after: Side)
    requires Inv(c) && i < 2 && Later(c.sides[i], after) && SideInv(after, c.heaps[i])
    ensures Inv(c.(sides := c.sides[i := after]))
  {
    hide SideInv, ProxyInv, StreamInv, Later;
    var s, peer := c.sides[i], c.sides[1 - i];
    LaterSame(s);
    LaterSame(peer);
    ProxyLater(s, after, c.heaps[i], c.proxies[i], peer, peer);
    ProxyLater(peer, peer, c.heaps[1 - i], c.proxies[1 - i], s, after);
    StreamLater(s, after, peer, peer, c.streams[i]);
    StreamLater(peer, peer, s, after, c.streams[1 - i]);
    assert EndInv(c, i) && EndInv(c, 1 - i);
    var c' := c.(sides := c.sides[i := after]);
    assert c'.sides[i] == after && c'.sides[1 - i] == peer;
    assert EndInv(c', i) && EndInv(c', 1 - i);
  }

  lemma LaterSame(s: Side)
    ensures Later(s, s)
  {
  }

  lemma HeapMore(s: Side, heap: map<nat, Identity>, ref: nat, identity: Identity)
    requires SideInv(s, heap) && ref !in heap
    ensures SideInv(s, heap[ref := identity])
  {
  }

  lemma CreateKeeps(c: Channel, i: nat, x: Object)
    requires Inv(c) && Allowed(c, Create(i, x))
    ensures Inv(Apply(c, Create(i, x)))
  {
    hide StreamInv, Unwrapped;
    var c' := Apply(c, Create(i, x));
    assert EndInv(c, i) && EndInv(c, 1 - i);
    HeapMore(c.sides[i], c.heaps[i], x.ref, x.identity);
    assert EndInv(c', i) && EndInv(c', 1 - i);
  }

  // Proxies

  /** A fresh proxy joins the ones that resolve. */
  lemma ProxyMore(s: Side, heap: map<nat, Identity>, proxies: map<Object, Object>, peer: Side, target: nat, ref: nat,
                  origin: Object)
    requires ProxyInv(s, heap, proxies, peer) && SideInv(s, heap) && ref !in heap && target < TWO_32
    requires Resolves(peer, target, origin)
    ensures var p := ProxyFor(s, target, ref);
            ProxyInv(s, heap[ref := p.identity], proxies[p := origin], peer) && SideInv(s, heap[ref := p.identity])
  {
    var p := ProxyFor(s, target, ref);
    assert TargetOf(p.identity) == target;
    HeapMore(s, heap, ref, p.identity);
  }

  lemma {:induction false} AbsorbKeeps(s: Side, heap: map<nat, Identity>, proxies: map<Object, Object>, peer: Side,
                                       home: seq<(Object, Object)>, message: seq<Sent>, refs: seq<nat>)
    requires s.live && SideInv(s, heap) && ProxyInv(s, heap, proxies, peer) && HomeInv(home) && |refs| == |message|
    requires forall k :: 0 <= k < |message| ==> SentInv(s, peer, message[k])
    requires forall j, k :: 0 <= j < k < |refs| ==> refs[j] != refs[k]
    requires forall k :: 0 <= k < |refs| ==> refs[k] !in heap
    ensures var (heap', proxies', home') := Absorb(s, heap, proxies, home, message, refs);
            SideInv(s, heap') && ProxyInv(s, heap', proxies', peer) && HomeInv(home')
    ensures forall k :: 0 <= k < |message| ==> Import(s, message[k].wire, refs[k]).Some?
    decreases |message|
  {
    hide SideInv, ProxyInv, ProxyFor;
    if message != [] {
      assert SentInv(s, peer, message[0]);
      var x := Import(s, message[0].wire, refs[0]);
      assert forall k :: 0 <= k < |message[1..]| ==> message[1..][k] == message[k + 1] && refs[1..][k] == refs[k + 1];
      if message[0].wire.returnsHome {
        AbsorbKeeps(s, heap, proxies, peer, home + [(x.value, message[0].origin)], message[1..], refs[1..]);
      } else {
        ProxyMore(s, heap, proxies, peer, message[0].wire.target, refs[0], message[0].origin);
        AbsorbKeeps(s, heap[refs[0] := x.value.identity], proxies[x.value := message[0].origin], peer, home,
                    message[1..], refs[1..]);
      }
      forall k | 0 <= k < |message| ensures Import(s, message[k].wire, refs[k]).Some? {
        if k > 0 { assert message[k] == message[1..][k - 1]; }
      }
    }
  }

  lemma StreamTail(r: Side, s: Side, stream: seq<seq<Sent>>)
    requires StreamInv(r, s, stream) && stream != []
    ensures StreamInv(r, s, stream[1..])
  {
  }

  lemma ReceiveKeeps(c: Channel, i: nat, refs: seq<nat>)
    requires Inv(c) && Allowed(c, Receive(i, refs))
    ensures Inv(Apply(c, Receive(i, refs)))
    ensures forall k :: 0 <= k < |refs| ==> Import(c.sides[i], c.streams[i][0][k].wire, refs[k]).Some?
  {
    var c' := Apply(c, Receive(i, refs));
    assert EndInv(c, i) && EndInv(c, 1 - i);
    AbsorbKeeps(c.sides[i], c.heaps[i], c.proxies[i], c.sides[1 - i], c.home, c.streams[i][0], refs);
    StreamTail(c.sides[i], c.sides[1 - i], c.streams[i]);
    hide SideInv, ProxyInv, StreamInv, Absorb;
    assert EndInv(c', i) && EndInv(c', 1 - i);
  }

  lemma RootKeeps(c: Channel, i: nat, ref: nat)
    requires Inv(c) && Allowed(c, Root(i, ref))
    ensures Inv(Apply(c, Root(i, ref)))
  {
    hide SideInv, ProxyInv, StreamInv;
    var c' := Apply(c, Root(i, ref));
    assert EndInv(c, i) && EndInv(c, 1 - i);
    ProxyMore(c.sides[i], c.heaps[i], c.proxies[i], c.sides[1 - i], 1, ref, c.sides[1 - i].table[1]);
    assert EndInv(c', i) && EndInv(c', 1 - i);
  }

  // Sending

  /** Each handle of an exported parcel resolves to what it was made for, at the end that can tell. */
  lemma MessageResolves(c: Channel, i: nat, xs: seq<Object>, after: Side, ws: seq<WireBinder>, k: nat)
    requires Inv(c) && i < 2 && |ws| == |xs| && k < |xs| && Represents(after, xs[k], ws[k]) && InHeap(c.heaps[i], xs[k])
    requires Later(c.sides[i], after) && SideInv(after, c.heaps[i])
    ensures SentInv(c.sides[1 - i], after, Message(c.proxies[i], xs, ws)[k])
  {
    assert EndInv(c, i);
    if ws[k].returnsHome {
      assert OfSide(c.sides[i], xs[k].identity);
      assert Object(xs[k].ref, c.heaps[i][xs[k].ref]) == xs[k];
      assert TargetOf(xs[k].identity) == ws[k].target;
      TargetBound(c, i, xs[k]);
    } else {
      assert InHeap(c.heaps[i], after.table[ws[k].target]);
    }
  }

  /** Java ints are 32 bits wide. */
  lemma TargetBound(c: Channel, i: nat, x: Object)
    requires Inv(c) && i < 2 && x in c.proxies[i]
    ensures x.identity.Remote? && x.identity.target < TWO_32
  {
    assert EndInv(c, i);
  }

  /** However far an export got, its new table entries are objects of the exporting process. */
  lemma ExportedInHeap(c: Channel, i: nat, e: Export)
    requires Inv(c) && i < 2 && Exporting(c, i, e)
    ensures SideInv(e.After(), c.heaps[i]) && Later(c.sides[i], e.After())
  {
    hide ExportsOne, Injective;
    assert EndInv(c, i);
    ExportExtends(e, c.sides[i], |e.ws|);
    forall t | t in e.After().table ensures InHeap(c.heaps[i], e.After().table[t]) {
      if t !in c.sides[i].table {
        var k :| 0 <= k < |e.ws| && e.xs[..|e.ws|][k] == e.After().table[t];
      }
    }
  }

  lemma StreamAppend(r: Side, s: Side, stream: seq<seq<Sent>>, message: seq<Sent>)
    requires StreamInv(r, s, stream) && forall k :: 0 <= k < |message| ==> SentInv(r, s, message[k])
    ensures StreamInv(r, s, stream + [message])
  {
  }

  lemma DropKeeps(c: Channel, i: nat, e: Export)
    requires Inv(c) && Allowed(c, Drop(i, e))
    ensures Inv(Apply(c, Drop(i, e)))
  {
    hide Inv, SideInv, Later;
    ExportedInHeap(c, i, e);
    SidesLater(c, i, e.After());
  }

  lemma SendKeeps(c: Channel, i: nat, e: Export)
    requires Inv(c) && Allowed(c, Send(i, e))
    ensures Inv(Apply(c, Send(i, e)))
  {
    hide SideInv, ProxyInv, StreamInv, Later, SentInv, OriginOf, Represents, ExportsOne, Extends, e.From, e.Fresh;
    ExportedInHeap(c, i, e);
    ExportDone(e, c.sides[i]);
    SidesLater(c, i, e.After());
    var m := Message(c.proxies[i], e.xs, e.Handles());
    forall k | 0 <= k < |m| ensures SentInv(c.sides[1 - i], e.After(), m[k]) {
      MessageResolves(c, i, e.xs, e.After(), e.Handles(), k);
    }
    var d := c.(sides := c.sides[i := e.After()]);
    assert EndInv(d, i) && EndInv(d, 1 - i);
    StreamAppend(c.sides[1 - i], e.After(), c.streams[1 - i], m);
    var c' := Apply(c, Send(i, e));
    assert EndInv(c', i) && EndInv(c', 1 - i);
  }

  lemma SideMoveKeeps(c: Channel, move: Move)
    requires Inv(c) && Allowed(c, move) && (move.Others? || move.Serve? || move.Retire?)
    ensures Inv(Apply(c, move))
  {
    assert EndInv(c, move.i);
    SidesLater(c, move.i, Apply(c, move).sides[move.i]);
  }

  lemma ApplyKeeps(c: Channel, move: Move)
    requires Inv(c) && Allowed(c, move)
    ensures Inv(Apply(c, move))
  {
    hide Inv, Apply, EndInv;
    match move
    case Create(i, x) => CreateKeeps(c, i, x);
    case Others(_, _) => SideMoveKeeps(c, move);
    case Serve(_, _) => SideMoveKeeps(c, move);
    case Root(i, ref) => RootKeeps(c, i, ref);
    case Send(i, e) => SendKeeps(c, i, e);
    case Drop(i, e) => DropKeeps(c, i, e);
    case Receive(i, refs) => ReceiveKeeps(c, i, refs);
    case Retire(_) => SideMoveKeeps(c, move);
  }

  // Whole runs

  function Opened(fd: int, generation: nat): Side {
    Side(fd, generation, true, {}, map[], 2)
  }

  function Initial(a: Side, b: Side): Channel {
    Channel([a, b], [map[], map[]], [[], []], [map[], map[]], [])
  }

  ghost function Run(c: Channel, moves: seq<Move>): (r: Option<Channel>)
    requires c.Shape()
    ensures r.Some? ==> r.value.Shape()
  {
    if moves == [] then Some(c)
    else
      var before := Run(c, moves[..|moves| - 1]);
      var last := moves[|moves| - 1];
      if before.None? || !Allowed(before.value, last) then None else Some(Apply(before.value, last))
  }

  /** Whatever the two processes do, handles keep resolving and returned handles are the same object. */
  lemma {:induction false} RunKeepsInv(fd0: int, generation0: nat, fd1: int, generation1: nat, moves: seq<Move>)
    requires Run(Initial(Opened(fd0, generation0), Opened(fd1, generation1)), moves).Some?
    ensures Inv(Run(Initial(Opened(fd0, generation0), Opened(fd1, generation1)), moves).value)
  {
    hide Apply, Allowed;
    var c := Initial(Opened(fd0, generation0), Opened(fd1, generation1));
    if moves != [] {
      RunKeepsInv(fd0, generation0, fd1, generation1, moves[..|moves| - 1]);
      ApplyKeeps(Run(c, moves[..|moves| - 1]).value, moves[|moves| - 1]);
    }
  }

  /**
   * When a proxy held at an end is exported over its own connection it goes home under the target it
   * was made for, exactly when that target fits a positive Java int; from 2^31 on it is refused.
   */
  lemma HomeIff(c: Channel, i: nat, target: nat, ref: nat)
    requires c.Shape() && i < 2 && c.sides[i].live && c.sides[i].fd >= 0 && c.sides[i].generation != 0
    requires 0 < target < TWO_32
    ensures var kind := RemoteTarget(c.sides[i], ProxyFor(c.sides[i], target, ref));
            (kind == ReturnHome(target) <==> target < TWO_31) && (kind == Stale <==> target >= TWO_31)
  {
  }

  /** The first target that cannot be sent back. */
  lemma HomeFails(s: Side, ref: nat)
    requires s.live && s.fd >= 0 && s.generation != 0
    ensures RemoteTarget(s, ProxyFor(s, TWO_31, ref)) == Stale
  {
  }

  /** A proxy that goes home resolves to the object it stands for, so its import cannot fail. */
  lemma GoesHome(c: Channel, i: nat, p: Object)
    requires Inv(c) && i < 2 && p in c.proxies[i] && c.sides[i].live && c.sides[1 - i].live
    requires RemoteTarget(c.sides[i], p).ReturnHome?
    ensures Import(c.sides[1 - i], WireBinder(RemoteTarget(c.sides[i], p).target, true), 0) == Some(c.proxies[i][p])
  {
    assert EndInv(c, i);
  }

  // Targets stay unique, and tables grow

  /** The object served has a target already, and target 1 is free. */
  ghost predicate ServesLate(c: Channel, move: Move, j: nat)
    requires c.Shape() && j < 2
  {
    move.Serve? && move.i == j && 1 !in c.sides[j].table && Registered(c.sides[j].table, move.x)
  }

  lemma LateClashes(table: map<nat, Object>, x: Object)
    requires 1 !in table && Registered(table, x)
    ensures !Injective(table[1 := x])
  {
    var t :| t in table && table[t].ref == x.ref;
    var more := table[1 := x];
    assert more[t].ref == more[1].ref && t != 1;
  }

  /** Two targets of one object stay two targets. */
  lemma ClashLasts(table: map<nat, Object>, table': map<nat, Object>)
    requires Grows(table, table') && !Injective(table)
    ensures !Injective(table')
  {
    var t, u :| t in table && u in table && table[t].ref == table[u].ref && t != u;
    assert table'[t].ref == table'[u].ref;
  }

  lemma NoneInjective()
    ensures Injective(map[])
  {
  }

  lemma StepGrows(c: Channel, move: Move, j: nat)
    requires c.Shape() && Allowed(c, move) && j < 2 && move != Retire(j)
    ensures Grows(c.sides[j].table, Apply(c, move).sides[j].table)
  {
    hide Absorb, Represents, Injective, ExportsOne, Unwrapped;
    if (move.Send? || move.Drop?) && move.i == j { ExportExtends(move.e, c.sides[j], |move.e.ws|); }
  }

  /** One step leaves a table unique exactly when it was, and the step serves nothing late, or it retires the end. */
  lemma StepUnique(c: Channel, move: Move, j: nat)
    requires c.Shape() && Allowed(c, move) && j < 2
    ensures Injective(Apply(c, move).sides[j].table) <==>
              move == Retire(j) || (Injective(c.sides[j].table) && !ServesLate(c, move, j))
  {
    hide Absorb, Represents, Injective, Registered, ExportsOne, Unwrapped, Grows;
    var table := c.sides[j].table;
    if move == Retire(j) {
      NoneInjective();
    } else {
      StepGrows(c, move, j);
      if !Injective(table) { ClashLasts(table, Apply(c, move).sides[j].table); }
      if ServesLate(c, move, j) { LateClashes(table, move.x); }
      if move.i == j && move.Serve? && Injective(table) { ServeInjective(table, move.x); }
      if move.i == j && (move.Send? || move.Drop?) { ExportExtends(move.e, c.sides[j], |move.e.ws|); }
    }
  }

  /** A late serve that no retirement of the end has followed. */
  ghost predicate LateAt(c: Channel, moves: seq<Move>, j: nat, k: nat)
    requires c.Shape() && j < 2 && k < |moves|
  {
    var before := Run(c, moves[..k]);
    before.Some? && ServesLate(before.value, moves[k], j) && Retire(j) !in moves[k + 1..]
  }

  ghost predicate ServedLate(c: Channel, moves: seq<Move>, j: nat)
    requires c.Shape() && j < 2
  {
    exists k: nat :: k < |moves| && LateAt(c, moves, j, k)
  }

  /** How one more step changes whether a late serve stands. */
  lemma LateStep(c: Channel, moves: seq<Move>, j: nat)
    requires c.Shape() && j < 2 && moves != [] && Run(c, moves).Some?
    ensures var front, last := moves[..|moves| - 1], moves[|moves| - 1];
            var before := Run(c, front);
            before.Some? &&
            (ServedLate(c, moves, j) <==>
             ServesLate(before.value, last, j) || (ServedLate(c, front, j) && last != Retire(j)))
  {
    hide Run, ServesLate;
    var n := |moves| - 1;
    var front, last := moves[..n], moves[n];
    RunStep(c, moves);
    assert LateAt(c, moves, j, n) <==> ServesLate(Run(c, front).value, last, j);
    forall k: nat | k < n ensures LateAt(c, moves, j, k) <==> LateAt(c, front, j, k) && last != Retire(j) {
      assert moves[..k] == front[..k];
      assert moves[k + 1..] == front[k + 1..] + [last];
    }
    if ServedLate(c, moves, j) {
      var k: nat :| k < |moves| && LateAt(c, moves, j, k);
      assert k < n ==> LateAt(c, front, j, k);
    }
    if ServedLate(c, front, j) && last != Retire(j) {
      var k: nat :| k < n && LateAt(c, front, j, k);
      assert LateAt(c, moves, j, k);
    }
  }

  lemma RunStep(c: Channel, moves: seq<Move>)
    requires c.Shape() && moves != [] && Run(c, moves).Some?
    ensures var before := Run(c, moves[..|moves| - 1]);
            && before.Some? && Allowed(before.value, moves[|moves| - 1])
            && Run(c, moves) == Some(Apply(before.value, moves[|moves| - 1]))
  {
  }

  /** After any run the targets of an end are unique exactly when no object was served late since it was opened. */
  lemma {:induction false} UniqueIff(fd0: int, generation0: nat, fd1: int, generation1: nat, moves: seq<Move>, j: nat)
    requires j < 2 && Run(Initial(Opened(fd0, generation0), Opened(fd1, generation1)), moves).Some?
    ensures var c := Initial(Opened(fd0, generation0), Opened(fd1, generation1));
            Injective(Run(c, moves).value.sides[j].table) <==> !ServedLate(c, moves, j)
    decreases |moves|
  {
    hide Run, Allowed, Apply, Registered, Injective;
    var c := Initial(Opened(fd0, generation0), Opened(fd1, generation1));
    if moves == [] {
      RunNone(c);
      NoneInjective();
    } else {
      var front, last := moves[..|moves| - 1], moves[|moves| - 1];
      RunStep(c, moves);
      UniqueIff(fd0, generation0, fd1, generation1, front, j);
      StepUnique(Run(c, front).value, last, j);
      LateStep(c, moves, j);
    }
  }

  lemma RunNone(c: Channel)
    requires c.Shape()
    ensures Run(c, []) == Some(c)
  {
  }

  lemma {:induction false} RunPrefix(c: Channel, moves: seq<Move>, n: nat)
    requires c.Shape() && n <= |moves| && Run(c, moves).Some?
    ensures Run(c, moves[..n]).Some?
    decreases |moves|
  {
    if n == |moves| {
      assert moves[..n] == moves;
    } else {
      var front := moves[..|moves| - 1];
      RunPrefix(c, front, n);
      assert front[..n] == moves[..n];
    }
  }

  /** Moves that serve nothing late. */
  ghost predicate ServesSafely(c: Channel, moves: seq<Move>)
    requires c.Shape()
  {
    forall k: nat, j: nat | k < |moves| && j < 2 && Run(c, moves[..k]).Some? ::
      !ServesLate(Run(c, moves[..k]).value, moves[k], j)
  }

  /** A run that never serves an object after exporting it ends with unique targets at both ends. */
  lemma SafeRunsStayUnique(fd0: int, generation0: nat, fd1: int, generation1: nat, moves: seq<Move>)
    requires Run(Initial(Opened(fd0, generation0), Opened(fd1, generation1)), moves).Some?
    requires ServesSafely(Initial(Opened(fd0, generation0), Opened(fd1, generation1)), moves)
    ensures var c := Run(Initial(Opened(fd0, generation0), Opened(fd1, generation1)), moves).value;
            Injective(c.sides[0].table) && Injective(c.sides[1].table)
  {
    hide Run, ServesLate, Injective;
    UniqueIff(fd0, generation0, fd1, generation1, moves, 0);
    UniqueIff(fd0, generation0, fd1, generation1, moves, 1);
  }

  /** From any point of a run on, a table only grows until its end is retired. */
  lemma {:induction false} TablesGrow(c: Channel, moves: seq<Move>, n: nat, j: nat)
    requires c.Shape() && n <= |moves| && j < 2 && Run(c, moves).Some? && Retire(j) !in moves[n..]
    ensures Run(c, moves[..n]).Some?
    ensures Grows(Run(c, moves[..n]).value.sides[j].table, Run(c, moves).value.sides[j].table)
    decreases |moves|
  {
    hide Run, Allowed, Apply, Grows;
    RunPrefix(c, moves, n);
    if n == |moves| {
      assert moves[..n] == moves;
      GrowsSame(Run(c, moves).value.sides[j].table);
    } else {
      var front, last := moves[..|moves| - 1], moves[|moves| - 1];
      RunStep(c, moves);
      assert moves[n..] == front[n..] + [last] && front[..n] == moves[..n];
      TablesGrow(c, front, n, j);
      StepGrows(Run(c, front).value, last, j);
      GrowsTrans(Run(c, moves[..n]).value.sides[j].table, Run(c, front).value.sides[j].table,
                 Run(c, moves).value.sides[j].table);
    }
  }

  lemma GrowsSame(table: map<nat, Object>)
    ensures Grows(table, table)
  {
  }

  lemma GrowsTrans(a: map<nat, Object>, b: map<nat, Object>, c: map<nat, Object>)
    requires Grows(a, b) && Grows(b, c)
    ensures Grows(a, c)
  {
  }

  /** Exporting a single fresh object of an end just opened. */
  function FirstExport(fd: int, generation: nat, x: Object): Export {
    var s := Opened(fd, generation);
    Export([x], [true], [s, s.(table := map[2 := x], next := 3)], [Some(WireBinder(2, false))])
  }

  lemma FirstExported(fd: int, generation: nat, x: Object)
    requires x.identity.LocalBinder?
    ensures var e := FirstExport(fd, generation, x); e.From(Opened(fd, generation)) && e.Fresh() && e.Done()
  {
    var s := Opened(fd, generation);
    var e := FirstExport(fd, generation, x);
    Enrolled(s, x, true, e.states[1], 2);
    assert ExportsOne(e.states[0], x, true, e.states[1], e.ws[0]);
  }

  /** An object created, exported and then served has two targets. */
  lemma ServedTwice(fd0: int, generation0: nat, fd1: int, generation1: nat, x: Object)
    requires x.identity.LocalBinder?
    ensures var c := Initial(Opened(fd0, generation0), Opened(fd1, generation1));
            var moves := [Create(0, x), Send(0, FirstExport(fd0, generation0, x)), Serve(0, x)];
            && Run(c, moves).Some? && Run(c, moves).value.sides[0].table == map[1 := x, 2 := x]
            && !Injective(Run(c, moves).value.sides[0].table)
  {
    var c := Initial(Opened(fd0, generation0), Opened(fd1, generation1));
    var e := FirstExport(fd0, generation0, x);
    var moves := [Create(0, x), Send(0, e), Serve(0, x)];
    FirstExported(fd0, generation0, x);
    var c1 := Apply(c, moves[0]);
    RunOne(c, [], c, moves[0]);
    assert [] + [moves[0]] == moves[..1];
    var c2 := Apply(c1, moves[1]);
    RunOne(c, moves[..1], c1, moves[1]);
    assert moves[..1] + [moves[1]] == moves[..2];
    RunOne(c, moves[..2], c2, moves[2]);
    assert moves[..2] + [moves[2]] == moves;
    assert c2.sides[0].table[2].ref == x.ref;
    LateClashes(c2.sides[0].table, x);
  }

  lemma RunOne(c: Channel, moves: seq<Move>, before: Channel, move: Move)
    requires c.Shape() && Run(c, moves) == Some(before) && Allowed(before, move)
    ensures Run(c, moves + [move]) == Some(Apply(before, move))
  {
    assert (moves + [move])[..|moves|] == moves;
  }
}
