/** Objects that travel: from any state of the channel, what is sent is received, and what comes back is the same. */
module BinderTrips {
  import opened WordSize
  import opened Options
  import opened BinderHandles
  import opened BinderChannel

  /** Exporting one object under a target of this end. */
  ghost function UnderTarget(s: Side, x: Object): Export
    requires s.next < TWO_32
  {
    if Registered(s.table, x) then
      var t :| t in s.table && s.table[t].ref == x.ref;
      Export([x], [true], [s, s], [if t == 0 then None else Some(WireBinder(t, false))])
    else
      Export([x], [true], [s, s.(table := s.table[s.next := x], next := s.next + 1)], [Some(WireBinder(s.next, false))])
  }

  /** Exporting a proxy of the connection itself. */
  function GoingHome(s: Side, p: Object): Export
    requires OwnProxy(s, p)
  {
    Export([p], [true], [s, s], [Some(WireBinder(p.identity.target, true))])
  }

  lemma UnderTargetWorks(s: Side, x: Object)
    requires s.live && Unwrapped(s) && s.next + 1 < TWO_32 && (x.identity.LocalBinder? || ForeignProxy(s, x))
    ensures var e := UnderTarget(s, x);
            && e.From(s) && e.Fresh() && e.Done() && e.xs == [x]
            && !e.Handles()[0].returnsHome && 0 < e.Handles()[0].target < TWO_32
            && e.Handles()[0].target in e.After().table && e.After().table[e.Handles()[0].target].ref == x.ref
            && SameEnd(s, e.After())
  {
    var e := UnderTarget(s, x);
    KindIs(s, x);
    var w := e.ws[0];
    if Registered(s.table, x) {
      assert w.Some? && w.value.target in s.table;
      Enrolled(s, x, true, s, w.value.target);
    } else {
      assert s.next !in s.table;
      Enrolled(s, x, true, e.states[1], s.next);
    }
    assert ExportsOne(e.states[0], x, true, e.states[1], w);
  }

  lemma GoingHomeWorks(s: Side, p: Object)
    requires s.live && Unwrapped(s) && OwnProxy(s, p)
    ensures var e := GoingHome(s, p);
            e.From(s) && e.Fresh() && e.Done() && e.xs == [p] && e.Handles() == [WireBinder(p.identity.target, true)]
  {
    var e := GoingHome(s, p);
    KindIs(s, p);
    assert ExportsOne(e.states[0], p, true, e.states[1], e.ws[0]);
  }

  /** One message travels from end i to the other, which has nothing else to read. */
  function Exchange(i: nat, e: Export, ref: nat): seq<Move>
    requires i < 2
  {
    [Send(i, e), Receive(1 - i, [ref])]
  }

  lemma RunBoth(c: Channel, m1: Move, m2: Move)
    requires c.Shape() && Allowed(c, m1) && Apply(c, m1).Shape() && Allowed(Apply(c, m1), m2)
    ensures Run(c, [m1, m2]) == Some(Apply(Apply(c, m1), m2))
  {
    RunNone(c);
    RunOne(c, [], c, m1);
    assert [] + [m1] == [m1];
    RunOne(c, [m1], Apply(c, m1), m2);
    assert [m1] + [m2] == [m1, m2];
  }

  ghost predicate Ready(c: Channel, i: nat) {
    && i < 2 && Inv(c) && c.sides[i].live && c.sides[1 - i].live && c.streams[1 - i] == []
  }

  /** Sending one object puts one message on its way. */
  lemma SendsOne(c: Channel, i: nat, e: Export, x: Object, w: WireBinder)
    requires Ready(c, i) && Allowed(c, Send(i, e)) && e.xs == [x] && e.Handles() == [w]
    ensures var c1 := Apply(c, Send(i, e));
            && Inv(c1) && c1 == c.(sides := c.sides[i := e.After()], streams := c1.streams)
            && c1.streams[1 - i] == [[Sent(w, OriginOf(c.proxies[i], x, w))]] && c1.streams[i] == c.streams[i]
  {
    hide EndInv, ExportsOne;
    SendKeeps(c, i, e);
    assert Message(c.proxies[i], [x], [w]) == [Sent(w, OriginOf(c.proxies[i], x, w))];
  }

  /** Receiving one message of one handle. */
  lemma ReceivesOne(c: Channel, j: nat, m: Sent, ref: nat)
    requires j < 2 && Inv(c) && c.sides[j].live && c.streams[j] == [[m]] && ref !in c.heaps[j]
    requires m.wire.returnsHome ==> m.wire.target in c.sides[j].table
    ensures Allowed(c, Receive(j, [ref]))
    ensures var c1 := Apply(c, Receive(j, [ref]));
            && Inv(c1) && c1.sides == c.sides && c1.streams[j] == [] && c1.streams[1 - j] == c.streams[1 - j]
            && c1.heaps[1 - j] == c.heaps[1 - j]
            && if m.wire.returnsHome then c1.home == c.home + [(c.sides[j].table[m.wire.target], m.origin)]
               else
                 var p := ProxyFor(c.sides[j], m.wire.target, ref);
                 c1.home == c.home && c1.heaps[j] == c.heaps[j][ref := p.identity]
                 && c1.proxies[j] == c.proxies[j][p := m.origin]
  {
    hide EndInv, Absorb;
    ReceiveKeeps(c, j, [ref]);
    AbsorbOne(c.sides[j], c.heaps[j], c.proxies[j], c.home, m, ref);
  }

  /**
   * From any state with both ends live and nothing on its way there: a local object, or a proxy of another
   * connection, can be sent, and the peer's new proxy then stands for that very object.
   */
  lemma SentIsReceived(c: Channel, i: nat, x: Object, ref: nat)
    requires Ready(c, i) && InHeap(c.heaps[i], x) && ref !in c.heaps[1 - i] && c.sides[i].next + 1 < TWO_32
    requires x.identity.LocalBinder? || ForeignProxy(c.sides[i], x)
    ensures var e := UnderTarget(c.sides[i], x);
            var r := Run(c, Exchange(i, e, ref));
            && e.Done() && r.Some? && Ready(r.value, i) && r.value.home == c.home
            && r.value.sides == c.sides[i := e.After()] && SameEnd(c.sides[i], e.After())
            && r.value.streams[i] == c.streams[i] && r.value.heaps[i] == c.heaps[i]
            && var p := ProxyFor(c.sides[1 - i], e.Handles()[0].target, ref);
               r.value.proxies[1 - i] == c.proxies[1 - i][p := x] && InHeap(r.value.heaps[1 - i], p)
  {
    hide Inv, ExportsOne, Unwrapped, Export.From, Export.Fresh;
    SideUnwrapped(c, i);
    UnderTargetWorks(c.sides[i], x);
    var e := UnderTarget(c.sides[i], x);
    hide UnderTarget;
    var m1, m2 := Send(i, e), Receive(1 - i, [ref]);
    var c1 := Apply(c, m1);
    var w := e.Handles()[0];
    SendsOne(c, i, e, x, w);
    ReceivesOne(c1, 1 - i, Sent(w, x), ref);
    RunBoth(c, m1, m2);
  }

  lemma SideUnwrapped(c: Channel, i: nat)
    requires Ready(c, i)
    ensures Unwrapped(c.sides[i]) && c.Shape()
  {
    assert EndInv(c, i);
  }

  lemma AbsorbOne(s: Side, heap: map<nat, Identity>, proxies: map<Object, Object>, home: seq<(Object, Object)>, m: Sent,
                  ref: nat)
    requires s.live && (m.wire.returnsHome ==> m.wire.target in s.table)
    ensures Absorb(s, heap, proxies, home, [m], [ref])
         == if m.wire.returnsHome then (heap, proxies, home + [(s.table[m.wire.target], m.origin)])
            else var p := ProxyFor(s, m.wire.target, ref); (heap[ref := p.identity], proxies[p := m.origin], home)
  {
    assert [m][1..] == [] && [ref][1..] == [];
  }

  /** And a proxy of the connection can be sent back, and comes home as the object it stands for. */
  lemma ReturnedIsReceived(c: Channel, i: nat, p: Object, ref: nat)
    requires Ready(c, i) && p in c.proxies[i] && OwnProxy(c.sides[i], p) && ref !in c.heaps[1 - i]
    ensures var e := GoingHome(c.sides[i], p);
            var r := Run(c, Exchange(i, e, ref));
            && e.Done() && r.Some? && Ready(r.value, i)
            && r.value.home == c.home + [(c.proxies[i][p], c.proxies[i][p])]
  {
    hide Inv, ExportsOne, Unwrapped, Export.From, Export.Fresh;
    SideUnwrapped(c, i);
    HomeTarget(c, i, p);
    GoingHomeWorks(c.sides[i], p);
    var e := GoingHome(c.sides[i], p);
    var m1, m2 := Send(i, e), Receive(1 - i, [ref]);
    var c1 := Apply(c, m1);
    var w, x := WireBinder(p.identity.target, true), c.proxies[i][p];
    SendsOne(c, i, e, p, w);
    ReceivesOne(c1, 1 - i, Sent(w, x), ref);
    RunBoth(c, m1, m2);
  }

  lemma HomeTarget(c: Channel, i: nat, p: Object)
    requires Ready(c, i) && p in c.proxies[i] && OwnProxy(c.sides[i], p)
    ensures InHeap(c.heaps[i], p) && p.identity.target in c.sides[1 - i].table
    ensures c.sides[1 - i].table[p.identity.target] == c.proxies[i][p]
  {
    assert EndInv(c, i);
  }

  /**
   * There and back: an object sent to the peer and returned by it, with a target that fits a positive Java
   * int, comes home as itself.
   */
  lemma ThereAndBack(c: Channel, i: nat, x: Object, ref: nat, ref': nat) returns (moves: seq<Move>)
    requires Ready(c, i) && c.streams[i] == [] && InHeap(c.heaps[i], x) && ref !in c.heaps[1 - i] && ref' !in c.heaps[i]
    requires x.identity.LocalBinder? || ForeignProxy(c.sides[i], x)
    requires c.sides[i].next + 1 < TWO_31 && c.sides[1 - i].fd >= 0 && c.sides[1 - i].generation != 0
    ensures |moves| == 4 && Run(c, moves).Some? && Run(c, moves).value.home == c.home + [(x, x)]
  {
    hide Run, Inv, ExportsOne;
    SideUnwrapped(c, i);
    var e := UnderTarget(c.sides[i], x);
    SentIsReceived(c, i, x, ref);
    var c1 := Run(c, Exchange(i, e, ref)).value;
    TargetSmall(c, i, x);
    var p := ProxyFor(c.sides[1 - i], e.Handles()[0].target, ref);
    ReturnedIsReceived(c1, 1 - i, p, ref');
    var back := Exchange(1 - i, GoingHome(c1.sides[1 - i], p), ref');
    RunThen(c, Exchange(i, e, ref), c1, back);
    moves := Exchange(i, e, ref) + back;
  }

  lemma TargetSmall(c: Channel, i: nat, x: Object)
    requires Ready(c, i) && c.sides[i].next + 1 < TWO_31 && (x.identity.LocalBinder? || ForeignProxy(c.sides[i], x))
    ensures UnderTarget(c.sides[i], x).Done() && 0 < UnderTarget(c.sides[i], x).Handles()[0].target < TWO_31
  {
    assert EndInv(c, i);
    UnderTargetWorks(c.sides[i], x);
  }

  lemma {:induction false} RunThen(c: Channel, a: seq<Move>, c1: Channel, b: seq<Move>)
    requires c.Shape() && Run(c, a) == Some(c1) && c1.Shape() && Run(c1, b).Some?
    ensures Run(c, a + b) == Run(c1, b)
    decreases |b|
  {
    hide Allowed, Apply;
    if b == [] {
      assert a + b == a;
    } else {
      var front := b[..|b| - 1];
      RunThen(c, a, c1, front);
      assert (a + b)[..|a + b| - 1] == a + front;
    }
  }

  /** A proxy of another live connection is created, sent and received; the receiver's proxy stands for it. */
  lemma Forwarded(fd0: int, generation0: nat, fd1: int, generation1: nat, x: Object, ref: nat)
    returns (moves: seq<Move>, c: Channel)
    requires Readable(x.identity) && (x.identity.fd, x.identity.generation) != (fd0, generation0)
    ensures |moves| == 4 && moves[..2] == [Others(0, {(x.identity.fd, x.identity.generation)}), Create(0, x)]
    ensures moves[2].Send? && moves[2].i == 0 && moves[2].e.xs == [x] && moves[3] == Receive(1, [ref])
    ensures Run(Initial(Opened(fd0, generation0), Opened(fd1, generation1)), moves) == Some(c) && c.Shape()
    ensures c.sides[0].table == map[2 := x] && c.proxies[1] == map[Object(ref, Remote(fd1, 2, generation1)) := x]
  {
    hide Inv, ExportsOne;
    var c0 := Initial(Opened(fd0, generation0), Opened(fd1, generation1));
    var m1, m2 := Others(0, {(x.identity.fd, x.identity.generation)}), Create(0, x);
    var c2 := Apply(Apply(c0, m1), m2);
    RunBoth(c0, m1, m2);
    RunKeepsInv(fd0, generation0, fd1, generation1, [m1, m2]);
    var e := UnderTarget(c2.sides[0], x);
    SentIsReceived(c2, 0, x, ref);
    RunThen(c0, [m1, m2], c2, Exchange(0, e, ref));
    moves := [m1, m2] + Exchange(0, e, ref);
    c := Run(c0, moves).value;
  }

  /** An end can be retired at any time; it then exports and imports nothing, and its peer keeps what it has. */
  lemma RetiredIsSilent(c: Channel, i: nat)
    requires i < 2 && Inv(c)
    ensures var r := Run(c, [Retire(i)]);
            && r.Some? && Inv(r.value) && !r.value.sides[i].live && r.value.sides[i].table == map[]
            && r.value.sides[1 - i] == c.sides[1 - i] && r.value.heaps == c.heaps && r.value.proxies == c.proxies
            && r.value.streams == c.streams
            && (forall e :: !Allowed(r.value, Send(i, e)) && !Allowed(r.value, Drop(i, e)))
            && (forall refs :: !Allowed(r.value, Receive(i, refs)))
  {
    RunNone(c);
    RunOne(c, [], c, Retire(i));
    assert [] + [Retire(i)] == [Retire(i)];
    ApplyKeeps(c, Retire(i));
  }
}
