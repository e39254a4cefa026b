/**
 * Binder object handles on one wire connection: how a side names its objects to the peer, and how a
 * handle that comes back is turned into the object it was made for.
 */
module BinderHandles {
  import opened WordSize
  import opened Options

  /** What the fields of a binder object say it is; target is a signed Java int. */
  datatype Identity = LocalBinder | Remote(fd: int, target: int, generation: nat)

  /** A Java object: its reference identity, and its identity fields. */
  datatype Object = Object(ref: nat, identity: Identity)

  datatype WireBinder = WireBinder(target: nat, returnsHome: bool)

  /** One end of a connection; others are the process's other live connections. */
  datatype Side = Side(fd: int, generation: nat, live: bool, others: set<(int, nat)>,
                       table: map<nat, Object>, next: nat)

  datatype Kind = IsLocal | ReturnHome(target: nat) | Forward | Stale

  function Jint(target: nat): int {
    if target < TWO_31 then target else target - TWO_32
  }

  /** RemoteTarget with ReadRemoteBinderIdentity. */
  function RemoteTarget(s: Side, x: Object): Kind {
    if !s.live then Stale
    else match x.identity
      case LocalBinder => IsLocal
      case Remote(fd, target, generation) =>
        if fd < 0 || target <= 0 || generation == 0 then Stale
        else if fd == s.fd && generation == s.generation then ReturnHome(target)
        else if (fd, generation) in s.others then Forward
        else Stale
  }

  /** A proxy with an identity that can be read. */
  predicate Readable(identity: Identity) {
    identity.Remote? && identity.fd >= 0 && identity.target > 0 && identity.generation != 0
  }

  /** A proxy made on this very connection. */
  predicate OwnProxy(s: Side, x: Object) {
    Readable(x.identity) && x.identity.fd == s.fd && x.identity.generation == s.generation
  }

  /** A proxy made on another live connection of the process. */
  predicate ForeignProxy(s: Side, x: Object) {
    Readable(x.identity) && !OwnProxy(s, x) && (x.identity.fd, x.identity.generation) in s.others
  }

  /** A proxy of no live connection. */
  predicate DeadProxy(s: Side, x: Object) {
    x.identity.Remote? && !OwnProxy(s, x) && !ForeignProxy(s, x)
  }

  /** The four answers of RemoteTarget on a live connection. */
  lemma KindIs(s: Side, x: Object)
    requires s.live
    ensures RemoteTarget(s, x) == IsLocal <==> x.identity.LocalBinder?
    ensures RemoteTarget(s, x) == Forward <==> ForeignProxy(s, x)
    ensures RemoteTarget(s, x) == Stale <==> DeadProxy(s, x)
    ensures OwnProxy(s, x) ==> RemoteTarget(s, x) == ReturnHome(x.identity.target)
    ensures RemoteTarget(s, x).ReturnHome? ==> OwnProxy(s, x)
  {
  }

  /** The proxy NewRemoteBinder makes for a target of the peer. */
  function ProxyFor(s: Side, target: nat, ref: nat): Object {
    Object(ref, Remote(s.fd, Jint(target), s.generation))
  }

  /** Fewer than 2^32 targets issued: every one is below the next. */
  ghost predicate Unwrapped(s: Side) {
    2 <= s.next < TWO_32 && forall t :: t in s.table ==> 1 <= t < s.next
  }

  /** No object has two targets. */
  ghost predicate Injective(table: map<nat, Object>) {
    forall t, u :: t in table && u in table && table[t].ref == table[u].ref ==> t == u
  }

  ghost predicate Registered(table: map<nat, Object>, x: Object) {
    exists t :: t in table && table[t].ref == x.ref
  }

  /** Entries are added, never changed or removed. */
  ghost predicate Grows(table: map<nat, Object>, table': map<nat, Object>) {
    forall t :: t in table ==> t in table' && table'[t] == table[t]
  }

  /** A wire handle names this object, in the peer's table or in this one. */
  ghost predicate Represents(s: Side, x: Object, w: WireBinder) {
    && s.live
    && if w.returnsHome then OwnProxy(s, x) && x.identity.target == w.target
       else (x.identity.LocalBinder? || ForeignProxy(s, x)) && w.target in s.table && s.table[w.target].ref == x.ref
  }

  ghost predicate SameEnd(s: Side, s': Side) {
    s'.fd == s.fd && s'.generation == s.generation && s'.live == s.live && s'.others == s.others
  }

  /** What may happen to a side while objects are exported. */
  ghost predicate Extends(s: Side, s': Side, xs: seq<Object>) {
    && SameEnd(s, s') && Grows(s.table, s'.table)
    && (forall t :: t in s'.table && t !in s.table ==> s'.table[t] in xs)
    && (Injective(s.table) ==> Injective(s'.table))
  }

  /** A list of objects was exported: the side was extended, and every handle names its object. */
  ghost predicate Exports(s: Side, xs: seq<Object>, s': Side, ws: seq<WireBinder>) {
    Extends(s, s', xs) && |ws| == |xs| && forall i :: 0 <= i < |xs| ==> Represents(s', xs[i], ws[i])
  }

  // What the code does, step by step

  /**
   * RegisterLocalBinder on a live connection: a known object keeps its target, a new one uses up the
   * next target, which is entered when the JVM pins the object and the target is not taken.
   */
  ghost predicate Registers(s: Side, x: Object, pinned: bool, s': Side, target: nat) {
    if Registered(s.table, x) then s' == s && target in s.table && s.table[target].ref == x.ref
    else
      && target == (if pinned then s.next else 0)
      && s' == s.(table := if pinned && s.next !in s.table then s.table[s.next := x] else s.table,
                  next := (s.next + 1) % TWO_32)
  }

  ghost predicate Enrols(s: Side, x: Object, pinned: bool, s': Side, w: Option<WireBinder>) {
    exists t: nat :: Registers(s, x, pinned, s', t) && w == if t == 0 then None else Some(WireBinder(t, false))
  }

  /** One turn of the loop of ExportParcel; None where it gives up. */
  ghost predicate ExportsOne(s: Side, x: Object, pinned: bool, s': Side, w: Option<WireBinder>) {
    match RemoteTarget(s, x)
    case Stale => s' == s && w.None?
    case ReturnHome(t) => s' == s && w == Some(WireBinder(t, true))
    case _ => Enrols(s, x, pinned, s', w)
  }

  /** An export as it went: the side before each turn and after the last one, and the handles made. */
  datatype Export = Export(xs: seq<Object>, pinned: seq<bool>, states: seq<Side>, ws: seq<Option<WireBinder>>) {
    ghost predicate From(s: Side) {
      && |pinned| == |xs| && |ws| <= |xs| && |states| == |ws| + 1 && states[0] == s
      && (forall k :: 0 <= k < |ws| ==> ExportsOne(states[k], xs[k], pinned[k], states[k + 1], ws[k]))
      && (forall k :: 0 <= k && k + 1 < |ws| ==> ws[k].Some?)
    }

    predicate Done() {
      |states| == |ws| + 1 && |ws| == |xs| && forall k :: 0 <= k < |ws| ==> ws[k].Some?
    }

    /** Fewer than 2^32 targets issued all along. */
    ghost predicate Fresh() { forall k :: 0 <= k < |states| ==> Unwrapped(states[k]) }

    function After(): Side
      requires |states| == |ws| + 1
    {
      states[|ws|]
    }

    function Handles(): (hs: seq<WireBinder>)
      requires Done()
      ensures |hs| == |xs|
    {
      seq(|ws|, k requires 0 <= k < |ws| => ws[k].value)
    }
  }

  /** One turn extends the side, and a handle made in it names its object. */
  lemma TurnExtends(s: Side, x: Object, pinned: bool, s': Side, w: Option<WireBinder>)
    requires ExportsOne(s, x, pinned, s', w) && Unwrapped(s)
    ensures SameEnd(s, s') && Grows(s.table, s'.table) && (Injective(s.table) ==> Injective(s'.table))
    ensures forall t :: t in s'.table && t !in s.table ==> s'.table[t] == x
    ensures w.Some? ==> Represents(s', x, w.value)
    ensures s'.next == s.next || s'.next == (s.next + 1) % TWO_32
    ensures s.next + 1 < TWO_32 ==> Unwrapped(s')
    ensures s.live ==>
              (w.None? <==> DeadProxy(s, x) || (!OwnProxy(s, x) && !Registered(s.table, x) && !pinned))
  {
    if s.live { KindIs(s, x); }
    if !RemoteTarget(s, x).Stale? && !RemoteTarget(s, x).ReturnHome? {
      var t: nat :| Registers(s, x, pinned, s', t) && w == if t == 0 then None else Some(WireBinder(t, false));
    }
  }

  /** A new target names the object it was made for exactly when the counter has not come round to a taken one. */
  lemma NamesIff(s: Side, x: Object, s': Side, target: nat)
    requires Registers(s, x, true, s', target) && !Registered(s.table, x)
    ensures target in s'.table && s'.table[target].ref == x.ref <==> s.next !in s.table
  {
    if s.next in s.table { assert s.table[s.next].ref != x.ref; }
  }

  /** The side after k registrations whose object the JVM would not pin: each used a target up. */
  function Refused(s: Side, k: nat): Side
    requires s.next < TWO_32
  {
    s.(next := (s.next + k) % TWO_32)
  }

  /** Once the counter has come round, a new object is sent under the handle of the first one exported. */
  lemma WrapMisnames(s: Side, first: Object, x: Object)
    requires s.next == 3 && s.table == map[2 := first] && x.ref != first.ref
    ensures Refused(s, 0) == s && forall k: nat :: Registers(Refused(s, k), x, false, Refused(s, k + 1), 0)
    ensures var s' := Refused(s, TWO_32 - 1); Registers(s', x, true, s'.(next := 3), 2) && s'.table[2] == first
  {
    assert !Registered(s.table, x);
  }

  /** A turn keeps the end as it is, and does not get past a dead proxy. */
  lemma TurnSame(s: Side, x: Object, pinned: bool, s': Side, w: Option<WireBinder>)
    requires ExportsOne(s, x, pinned, s', w)
    ensures SameEnd(s, s') && (w.Some? ==> !DeadProxy(s, x))
  {
    if s.live { KindIs(s, x); }
  }

  /** A proxy of another live connection goes out under a target of this end, and that target's entry is the proxy. */
  lemma ForeignExport(s: Side, x: Object, s': Side, ws: seq<WireBinder>)
    requires Exports(s, [x], s', ws) && ForeignProxy(s, x)
    ensures |ws| == 1 && !ws[0].returnsHome && ws[0].target in s'.table && s'.table[ws[0].target].ref == x.ref
    ensures !Registered(s.table, x) ==> s'.table[ws[0].target] == x
  {
    assert Represents(s', [x][0], ws[0]);
    var t := ws[0].target;
    if !Registered(s.table, x) { assert t !in s.table; }
  }

  lemma {:induction false} EndStays(e: Export, s: Side, k: nat)
    requires e.From(s) && k <= |e.ws|
    ensures SameEnd(s, e.states[k])
  {
    hide ExportsOne;
    if k > 0 {
      EndStays(e, s, k - 1);
      TurnSame(e.states[k - 1], e.xs[k - 1], e.pinned[k - 1], e.states[k - 1 + 1], e.ws[k - 1]);
    }
  }

  lemma DeadStops(e: Export, s: Side)
    requires e.From(s)
    ensures forall k :: 0 <= k < |e.ws| && e.ws[k].Some? ==> !DeadProxy(s, e.xs[k])
  {
    hide ExportsOne;
    forall k | 0 <= k < |e.ws| && e.ws[k].Some? ensures !DeadProxy(s, e.xs[k]) {
      EndStays(e, s, k);
      TurnSame(e.states[k], e.xs[k], e.pinned[k], e.states[k + 1], e.ws[k]);
    }
  }

  lemma ExtendsMore(s: Side, s1: Side, s2: Side, xs: seq<Object>, x: Object)
    requires Extends(s, s1, xs) && SameEnd(s1, s2) && Grows(s1.table, s2.table)
    requires (Injective(s1.table) ==> Injective(s2.table))
    requires forall t :: t in s2.table && t !in s1.table ==> s2.table[t] == x
    ensures Extends(s, s2, xs + [x])
  {
    var more := xs + [x];
    forall t | t in s2.table && t !in s.table ensures s2.table[t] in more {
      if t !in s1.table { assert more[|xs|] == x; }
    }
  }

  /** However far an export got, it extended the side. */
  lemma {:induction false} ExportExtends(e: Export, s: Side, k: nat)
    requires e.From(s) && e.Fresh() && k <= |e.ws|
    ensures Extends(s, e.states[k], e.xs[..k])
  {
    hide Extends, ExportsOne, Unwrapped, Injective, Grows, Represents;
    if k == 0 {
      ExtendsSame(s, []);
    } else {
      ExportExtends(e, s, k - 1);
      TurnExtends(e.states[k - 1], e.xs[k - 1], e.pinned[k - 1], e.states[k - 1 + 1], e.ws[k - 1]);
      ExtendsMore(s, e.states[k - 1], e.states[k], e.xs[..k - 1], e.xs[k - 1]);
      assert e.xs[..k] == e.xs[..k - 1] + [e.xs[k - 1]];
    }
  }

  lemma ExtendsSame(s: Side, xs: seq<Object>)
    ensures Extends(s, s, xs)
  {
  }

  /** A handle made on the way still names its object at the end. */
  lemma {:induction false} HandleLasts(e: Export, s: Side, j: nat, k: nat)
    requires e.From(s) && e.Fresh() && j < k <= |e.ws| && e.ws[j].Some?
    ensures Represents(e.states[k], e.xs[j], e.ws[j].value)
    decreases k
  {
    hide ExportsOne, Unwrapped, Injective, Grows, Represents;
    TurnExtends(e.states[k - 1], e.xs[k - 1], e.pinned[k - 1], e.states[k - 1 + 1], e.ws[k - 1]);
    if j < k - 1 {
      HandleLasts(e, s, j, k - 1);
      RepresentsLater(e.states[k - 1], e.states[k], e.xs[j], e.ws[j].value);
    }
  }

  /** An export that went through did what Exports says. */
  lemma ExportDone(e: Export, s: Side)
    requires e.From(s) && e.Fresh() && e.Done()
    ensures Exports(s, e.xs, e.After(), e.Handles())
  {
    hide Extends, ExportsOne, Unwrapped, Represents;
    ExportExtends(e, s, |e.ws|);
    assert e.xs[..|e.ws|] == e.xs;
    forall j | 0 <= j < |e.xs| ensures Represents(e.After(), e.xs[j], e.Handles()[j]) {
      HandleLasts(e, s, j, |e.ws|);
    }
  }

  /** What importing one handle yields, if anything. */
  function Import(s: Side, w: WireBinder, ref: nat): Option<Object> {
    if !s.live then None
    else if w.returnsHome then (if w.target in s.table then Some(s.table[w.target]) else None)
    else Some(ProxyFor(s, w.target, ref))
  }

  /** A handle keeps its meaning while its maker's table grows. */
  lemma RepresentsLater(s: Side, s': Side, x: Object, w: WireBinder)
    requires Represents(s, x, w) && SameEnd(s, s') && Grows(s.table, s'.table)
    ensures Represents(s', x, w)
  {
  }

  /** Nothing in the way of an export: the connection lives, no object is stale, the JVM pins them all. */
  ghost predicate Exportable(s: Side, xs: seq<Object>, pinned: seq<bool>)
    requires |pinned| == |xs|
  {
    s.live && forall i :: 0 <= i < |xs| ==> !DeadProxy(s, xs[i]) && pinned[i]
  }

  /** With room for its targets no export wraps, and only a stale or unpinned object stops it. */
  lemma {:induction false} ExportFresh(e: Export, s: Side, k: nat)
    requires e.From(s) && Unwrapped(s) && s.next + |e.xs| < TWO_32 && k <= |e.ws|
    ensures Unwrapped(e.states[k]) && e.states[k].next <= s.next + k && SameEnd(s, e.states[k])
  {
    hide ExportsOne, Unwrapped, Injective, Grows, Represents;
    if k > 0 {
      ExportFresh(e, s, k - 1);
      TurnExtends(e.states[k - 1], e.xs[k - 1], e.pinned[k - 1], e.states[k - 1 + 1], e.ws[k - 1]);
    }
  }

  lemma Continues(e: Export, s: Side)
    requires e.From(s) && Unwrapped(s) && s.next + |e.xs| < TWO_32 && Exportable(s, e.xs, e.pinned)
    ensures forall k :: 0 <= k < |e.ws| ==> e.ws[k].Some?
  {
    forall k | 0 <= k < |e.ws| ensures e.ws[k].Some? {
      ExportFresh(e, s, k);
      TurnExtends(e.states[k], e.xs[k], e.pinned[k], e.states[k + 1], e.ws[k]);
    }
  }

  /** Serving keeps targets unique exactly when target 1 is taken or the object has no target yet. */
  lemma ServeInjective(table: map<nat, Object>, x: Object)
    requires Injective(table)
    ensures Injective(if 1 in table then table else table[1 := x]) <==> 1 in table || !Registered(table, x)
  {
    if 1 !in table {
      var more := table[1 := x];
      if Registered(table, x) {
        var t :| t in table && table[t].ref == x.ref;
        assert more[t].ref == more[1].ref && t != 1;
      } else {
        forall t, u | t in more && u in more && more[t].ref == more[u].ref ensures t == u {
          assert t != 1 ==> table[t].ref != x.ref;
          assert u != 1 ==> table[u].ref != x.ref;
        }
      }
    }
  }

  class Connection {
    const fd: int
    const generation: nat
    var live: bool
    var others: set<(int, nat)>
    var table: map<nat, Object>
    var next: nat

    function View(): Side
      reads this
    {
      Side(fd, generation, live, others, table, next)
    }

    constructor (fd: int, generation: nat, others: set<(int, nat)>)
      ensures View() == Side(fd, generation, true, others, map[], 2)
    {
      this.fd, this.generation := fd, generation;
      live, this.others, table, next := true, others, map[], 2;
    }

    /** pinned says whether the JVM granted the global reference. */
    method RegisterLocalBinder(x: Object, pinned: bool) returns (target: nat)
      modifies this`table, this`next
      ensures live ==> Registers(old(View()), x, pinned, View(), target)
      ensures !live ==> target == 0 && View() == old(View())
      ensures Grows(old(table), table)
      ensures target != 0 && Unwrapped(old(View())) ==> target in table && table[target].ref == x.ref
      ensures Unwrapped(old(View())) && Injective(old(table)) ==> Injective(table)
      ensures Unwrapped(old(View())) && old(next) + 1 < TWO_32 ==> Unwrapped(View())
    {
      if !live { return 0; }
      var left := table.Keys;
      while left != {}
        invariant left <= table.Keys
        invariant forall t :: t in table && t !in left ==> table[t].ref != x.ref
        decreases left
      {
        var t :| t in left;
        if table[t].ref == x.ref { return t; }
        left := left - {t};
      }
      assert !Registered(table, x);
      target := next;
      next := (next + 1) % TWO_32;
      if !pinned { return 0; }
      if target !in table {
        table := table[target := x];
      }
    }

    /** ExportParcel: one handle for every object, in order, or failure; e is the export as it went. */
    method ExportParcel(xs: seq<Object>, pinned: seq<bool>) returns (ok: bool, ws: seq<WireBinder>, ghost e: Export)
      requires |pinned| == |xs|
      modifies this`table, this`next
      ensures e.xs == xs && e.pinned == pinned && (!live ==> !ok && View() == old(View()))
      ensures live ==> e.From(old(View())) && e.After() == View() && (ok <==> e.Done()) && (ok ==> ws == e.Handles())
      ensures live && !ok ==> e.ws != [] && e.ws[|e.ws| - 1].None?
      ensures ok && Unwrapped(old(View())) && old(next) + |xs| < TWO_32 ==>
                Exports(old(View()), xs, View(), ws) && Unwrapped(View())
      ensures Unwrapped(old(View())) && old(next) + |xs| < TWO_32 ==> Extends(old(View()), View(), xs)
      ensures Exportable(old(View()), xs, pinned) && Unwrapped(old(View())) && old(next) + |xs| < TWO_32 ==> ok
      ensures ok ==> forall i :: 0 <= i < |xs| ==> !DeadProxy(old(View()), xs[i])
    {
      ws, e := [], Export(xs, pinned, [View()], []);
      ghost var s := View();
      if !live {
        ExtendsSame(s, xs);
        return false, ws, e;
      }
      var i := 0;
      while i < |xs|
        invariant 0 <= i <= |xs| && live && e.xs == xs && e.pinned == pinned
        invariant |e.ws| == |ws| == i && e.From(s) && e.After() == View()
        invariant forall k :: 0 <= k < i ==> e.ws[k] == Some(ws[k])
      {
        hide ExportsOne, Unwrapped, Grows, Injective, Exports, Extends;
        var kind := RemoteTarget(View(), xs[i]);
        ghost var s1 := View();
        if kind.Stale? {
          e := Turned(e, s, s1, None);
          Concludes(e, s);
          return false, ws, e;
        }
        var w;
        if kind.ReturnHome? {
          w := Some(WireBinder(kind.target, true));
        } else {
          var target := RegisterLocalBinder(xs[i], pinned[i]);
          w := if target == 0 then None else Some(WireBinder(target, false));
          Enrolled(s1, xs[i], pinned[i], View(), target);
        }
        TurnOf(s1, xs[i], pinned[i], View(), w);
        e := Turned(e, s, View(), w);
        if w.None? {
          Concludes(e, s);
          return false, ws, e;
        }
        ws := ws + [w.value];
        i := i + 1;
      }
      Concludes(e, s);
      ok := true;
    }

    /** ImportParcel: refs are the references the JVM gives to proxies it makes. */
    method ImportParcel(ws: seq<WireBinder>, refs: seq<nat>) returns (ok: bool, xs: seq<Object>)
      requires |refs| == |ws|
      ensures ok <==> live && forall i :: 0 <= i < |ws| ==> Import(View(), ws[i], refs[i]).Some?
      ensures ok ==> |xs| == |ws| && forall i :: 0 <= i < |ws| ==> Import(View(), ws[i], refs[i]) == Some(xs[i])
    {
      xs := [];
      if !live { return false, xs; }
      var i := 0;
      while i < |ws|
        invariant 0 <= i <= |ws| == |refs| && |xs| == i
        invariant forall j :: 0 <= j < i ==> Import(View(), ws[j], refs[j]) == Some(xs[j])
      {
        if ws[i].returnsHome {
          if ws[i].target !in table { return false, xs; }
          xs := xs + [table[ws[i].target]];
        } else {
          xs := xs + [ProxyFor(View(), ws[i].target, refs[i])];
        }
        i := i + 1;
      }
      ok := true;
    }

    /**
     * Serving publishes the root object as target 1 unless that is taken.  Nothing registered is lost, and
     * targets stay unique exactly when 1 was taken or the object had no target yet.
     */
    method Serve(x: Object)
      modifies this`table
      ensures Grows(old(table), table) && table.Keys <= old(table).Keys + {1}
      ensures live ==> 1 in table && (1 !in old(table) ==> table[1] == x)
      ensures !live ==> table == old(table)
      ensures live && Injective(old(table)) ==> (Injective(table) <==> 1 in old(table) || !Registered(old(table), x))
    {
      if Injective(table) { ServeInjective(table, x); }
      if live && 1 !in table { table := table[1 := x]; }
    }
  }

  lemma Enrolled(s: Side, x: Object, pinned: bool, s': Side, target: nat)
    requires Registers(s, x, pinned, s', target)
    ensures Enrols(s, x, pinned, s', if target == 0 then None else Some(WireBinder(target, false)))
  {
  }

  lemma TurnOf(s: Side, x: Object, pinned: bool, s': Side, w: Option<WireBinder>)
    requires var kind := RemoteTarget(s, x);
             if kind.ReturnHome? then s' == s && w == Some(WireBinder(kind.target, true))
             else !kind.Stale? && Enrols(s, x, pinned, s', w)
    ensures ExportsOne(s, x, pinned, s', w)
  {
  }

  /** Recording one more turn of an export. */
  ghost function Turned(e: Export, s: Side, s': Side, w: Option<WireBinder>): (r: Export)
    requires e.From(s) && |e.ws| < |e.xs| && (forall k :: 0 <= k < |e.ws| ==> e.ws[k].Some?)
    requires ExportsOne(e.After(), e.xs[|e.ws|], e.pinned[|e.ws|], s', w)
    ensures r.From(s) && r.After() == s' && r.xs == e.xs && r.pinned == e.pinned && r.ws == e.ws + [w]
  {
    var r := e.(states := e.states + [s'], ws := e.ws + [w]);
    assert forall k :: 0 <= k < |e.states| ==> r.states[k] == e.states[k];
    r
  }

  /** What a finished export promises when there was room for its targets. */
  lemma Concludes(e: Export, s: Side)
    requires e.From(s)
    ensures Unwrapped(s) && s.next + |e.xs| < TWO_32 ==> Extends(s, e.After(), e.xs) && Unwrapped(e.After())
    ensures Unwrapped(s) && s.next + |e.xs| < TWO_32 && e.Done() ==> Exports(s, e.xs, e.After(), e.Handles())
    ensures Unwrapped(s) && s.next + |e.xs| < TWO_32 && Exportable(s, e.xs, e.pinned) ==>
              forall k :: 0 <= k < |e.ws| ==> e.ws[k].Some?
    ensures forall k :: 0 <= k < |e.ws| && e.ws[k].Some? ==> !DeadProxy(s, e.xs[k])
  {
    DeadStops(e, s);
    if Unwrapped(s) && s.next + |e.xs| < TWO_32 {
      hide ExportsOne, Unwrapped, Extends, Exports, Exportable;
      forall k | 0 <= k < |e.states| ensures Unwrapped(e.states[k]) { ExportFresh(e, s, k); }
      ExportExtends(e, s, |e.ws|);
      ExtendsWider(s, e.After(), e.xs, |e.ws|);
      if e.Done() { ExportDone(e, s); }
      if Exportable(s, e.xs, e.pinned) { Continues(e, s); }
    }
  }

  lemma ExtendsWider(s: Side, s': Side, xs: seq<Object>, k: nat)
    requires k <= |xs| && Extends(s, s', xs[..k])
    ensures Extends(s, s', xs)
  {
    forall t | t in s'.table && t !in s.table ensures s'.table[t] in xs {
      assert s'.table[t] in xs[..k];
    }
  }
}
