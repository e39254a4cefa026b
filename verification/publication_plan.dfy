/**
 * The depth-first walk that orders the images of a graph for publication.  Dependency cycles are
 * allowed: an image met again while it is still being visited is simply skipped.
 */
module PublicationPlan {
  /** needed[i] are the dependency names of the image called sonames[i]. */
  datatype Graph = Graph(sonames: seq<string>, needed: seq<seq<string>>, providers: set<string>) {
    ghost predicate Valid() {
      && |needed| == |sonames|
      && forall i, j :: 0 <= i < j < |sonames| ==> sonames[i] != sonames[j]
    }
  }

  ghost predicate Indexed(g: Graph, indices: map<string, nat>) {
    && (forall i :: 0 <= i < |g.sonames| ==> g.sonames[i] in indices && indices[g.sonames[i]] == i)
    && (forall name :: name in indices ==> indices[name] < |g.sonames| && g.sonames[indices[name]] == name)
  }

  ghost predicate Edge(g: Graph, u: nat, v: nat)
    requires g.Valid()
  {
    u < |g.sonames| && v < |g.sonames| && g.sonames[v] in g.needed[u] && g.sonames[v] !in g.providers
  }

  /** Every dependency of u is provided from outside or is itself an image of the graph. */
  ghost predicate Supplied(g: Graph, u: nat)
    requires g.Valid()
  {
    u < |g.sonames| ==> forall name :: name in g.needed[u] ==> name in g.providers || name in g.sonames
  }

  ghost predicate Path(g: Graph, p: seq<nat>)
    requires g.Valid()
  {
    && (forall i :: 0 <= i < |p| ==> p[i] < |g.sonames|)
    && (forall i :: 0 < i < |p| ==> Edge(g, p[i - 1], p[i]))
  }

  ghost predicate Reach(g: Graph, u: nat, v: nat)
    requires g.Valid()
  {
    exists p :: Path(g, p) && |p| > 0 && p[0] == u && p[|p| - 1] == v
  }

  ghost predicate Before(order: seq<nat>, v: nat, u: nat) {
    exists i, j :: 0 <= i < j < |order| && order[i] == v && order[j] == u
  }

  /** What the walk from the root must find for publication to be possible at all. */
  ghost predicate Complete(g: Graph, root: nat)
    requires g.Valid()
  {
    forall u :: 0 <= u < |g.sonames| ==> Supplied(g, u) && Reach(g, root, u)
  }

  ghost predicate Distinct(order: seq<nat>) {
    forall i, j :: 0 <= i < j < |order| ==> order[i] != order[j]
  }

  /** Every image once, and a dependency first unless the two depend on each other. */
  ghost predicate IsPlan(g: Graph, order: seq<nat>)
    requires g.Valid()
  {
    && |order| == |g.sonames| && Distinct(order)
    && (forall u :: u in order <==> 0 <= u < |g.sonames|)
    && (forall u: nat, v: nat :: Edge(g, u, v) && !Reach(g, v, u) ==> Before(order, v, u))
  }

  datatype Mark = Unseen | Visiting | Done

  /** What holds at every point of the walk. */
  ghost predicate Walked(g: Graph, mark: seq<Mark>, order: seq<nat>)
    requires g.Valid()
  {
    && |mark| == |g.sonames| && Distinct(order)
    && (forall v :: v in order <==> 0 <= v < |mark| && mark[v] == Done)
    && (forall u :: 0 <= u < |mark| && mark[u] == Done ==> Finished(g, mark, order, u))
  }

  ghost predicate Finished(g: Graph, mark: seq<Mark>, order: seq<nat>, u: nat)
    requires g.Valid() && |mark| == |g.sonames|
  {
    && Supplied(g, u)
    && (forall v: nat :: Edge(g, u, v) ==> mark[v] != Unseen)
    && (forall v: nat :: Edge(g, u, v) && !Reach(g, v, u) ==> Before(order, v, u))
  }

  /**
   * A later point of a walk from the root: what was started stays, nothing new is left half visited,
   * and only images that the root reaches were met.
   */
  ghost predicate Later(g: Graph, root: nat, mark: seq<Mark>, order: seq<nat>, mark': seq<Mark>, order': seq<nat>)
    requires g.Valid()
  {
    && |mark'| == |mark| && order <= order'
    && (forall v :: 0 <= v < |mark| && mark[v] != Unseen ==> mark'[v] == mark[v])
    && (forall v :: 0 <= v < |mark| && mark[v] == Unseen ==> mark'[v] != Visiting)
    && (forall v :: 0 <= v < |mark| && mark'[v] != mark[v] ==> Reach(g, root, v))
  }

  /** The images still being visited are the ones that led here. */
  ghost predicate Leads(g: Graph, mark: seq<Mark>, u: nat)
    requires g.Valid()
  {
    forall v :: 0 <= v < |mark| && mark[v] == Visiting ==> Reach(g, v, u)
  }

  /** The part of a dependency list already followed. */
  ghost predicate Followed(g: Graph, mark: seq<Mark>, names: seq<string>)
    requires |mark| == |g.sonames|
  {
    && (forall name :: name in names ==> name in g.providers || name in g.sonames)
    && (forall v :: 0 <= v < |mark| && g.sonames[v] in names && g.sonames[v] !in g.providers ==> mark[v] != Unseen)
  }

  ghost function Remaining(mark: seq<Mark>): set<nat> {
    set v: nat | v < |mark| && mark[v] == Unseen
  }

  lemma ReachSelf(g: Graph, u: nat)
    requires g.Valid() && u < |g.sonames|
    ensures Reach(g, u, u)
  {
    assert Path(g, [u]);
  }

  lemma ReachEdge(g: Graph, u: nat, v: nat, w: nat)
    requires g.Valid() && Reach(g, u, v) && Edge(g, v, w)
    ensures Reach(g, u, w)
  {
    var p :| Path(g, p) && |p| > 0 && p[0] == u && p[|p| - 1] == v;
    var q := p + [w];
    forall i | 0 < i < |q| ensures Edge(g, q[i - 1], q[i]) {
      if i < |p| { assert Edge(g, p[i - 1], p[i]); }
    }
    assert Path(g, q);
  }

  lemma LaterSame(g: Graph, root: nat, m: seq<Mark>, o: seq<nat>)
    requires g.Valid()
    ensures Later(g, root, m, o, m, o)
  {
  }

  lemma LaterTrans(g: Graph, root: nat, m0: seq<Mark>, o0: seq<nat>, m1: seq<Mark>, o1: seq<nat>, m2: seq<Mark>,
                   o2: seq<nat>)
    requires g.Valid() && Later(g, root, m0, o0, m1, o1) && Later(g, root, m1, o1, m2, o2)
    ensures Later(g, root, m0, o0, m2, o2) && Remaining(m2) <= Remaining(m1)
  {
  }

  /** Starting an image, walking on and finishing it is again a later point. */
  lemma LaterRound(g: Graph, root: nat, m0: seq<Mark>, m1: seq<Mark>, o0: seq<nat>, o1: seq<nat>, u: nat)
    requires g.Valid() && u < |m0| && m0[u] == Unseen && Reach(g, root, u)
    requires Later(g, root, m0[u := Visiting], o0, m1, o1)
    ensures |m1| == |m0| && m1[u] == Visiting
    ensures Later(g, root, m0, o0, m1[u := Done], o1 + [u])
  {
  }

  /** The walk starts an image. */
  lemma Started(g: Graph, mark: seq<Mark>, order: seq<nat>, u: nat)
    requires g.Valid() && Walked(g, mark, order) && u < |mark| && mark[u] == Unseen && Leads(g, mark, u)
    ensures Walked(g, mark[u := Visiting], order) && Leads(g, mark[u := Visiting], u)
    ensures Remaining(mark[u := Visiting]) < Remaining(mark)
  {
    var more := mark[u := Visiting];
    forall w | 0 <= w < |more| && more[w] == Done ensures Finished(g, more, order, w) {
      assert Finished(g, mark, order, w);
    }
    ReachSelf(g, u);
    assert u in Remaining(mark) && u !in Remaining(more);
  }

  /** From u the walk moves to a dependency. */
  lemma Descends(g: Graph, mark: seq<Mark>, u: nat, v: nat)
    requires g.Valid() && Leads(g, mark, u) && Edge(g, u, v)
    ensures Leads(g, mark, v)
  {
    forall w | 0 <= w < |mark| && mark[w] == Visiting ensures Reach(g, w, v) {
      ReachEdge(g, w, u, v);
    }
  }

  /** The walk leaves an image whose dependencies have all been followed. */
  lemma Leaves(g: Graph, mark: seq<Mark>, order: seq<nat>, u: nat)
    requires g.Valid() && Walked(g, mark, order) && u < |mark| && mark[u] == Visiting && Leads(g, mark, u)
    requires Followed(g, mark, g.needed[u])
    ensures Walked(g, mark[u := Done], order + [u])
  {
    var more, longer := mark[u := Done], order + [u];
    assert Supplied(g, u);
    forall v: nat | Edge(g, u, v) && !Reach(g, v, u) ensures Before(longer, v, u) {
      assert mark[v] == Done;
      var i :| 0 <= i < |order| && order[i] == v;
      assert longer[i] == v && longer[|order|] == u;
    }
    assert Finished(g, more, longer, u);
    forall w | 0 <= w < |more| && more[w] == Done && w != u ensures Finished(g, more, longer, w) {
      assert Finished(g, mark, order, w);
      forall v: nat | Edge(g, w, v) && !Reach(g, v, w) ensures Before(longer, v, w) {
        var i, j :| 0 <= i < j < |order| && order[i] == v && order[j] == w;
        assert longer[i] == v && longer[j] == w;
      }
    }
    assert forall v :: v in longer <==> v in order || v == u;
  }

  lemma FollowedMore(g: Graph, root: nat, mark: seq<Mark>, order: seq<nat>, mark': seq<Mark>, order': seq<nat>,
                     names: seq<string>, name: string)
    requires g.Valid() && |mark| == |g.sonames| == |mark'| && Followed(g, mark, names)
    requires Later(g, root, mark, order, mark', order')
    requires name in g.providers || name in g.sonames
    requires forall v :: 0 <= v < |mark| && g.sonames[v] == name && name !in g.providers ==> mark'[v] != Unseen
    ensures Followed(g, mark', names + [name])
  {
  }

  class Walk {
    const g: Graph
    const indices: map<string, nat>
    var mark: seq<Mark>
    var order: seq<nat>

    ghost predicate Valid()
      reads this
    {
      g.Valid() && Indexed(g, indices) && |mark| == |g.sonames| && Walked(g, mark, order)
    }

    constructor (g: Graph, indices: map<string, nat>)
      requires g.Valid() && Indexed(g, indices)
      ensures Valid() && this.g == g && this.indices == indices
      ensures order == [] && forall v :: 0 <= v < |mark| ==> mark[v] == Unseen
    {
      this.g, this.indices := g, indices;
      this.mark, this.order := seq(|g.sonames|, _ => Unseen), [];
    }

    /**
     * Visits one image.  On success it has been seen, everything new is finished and placed, and the
     * walk is back where it was; on failure some image reachable from the root lacks a dependency.
     */
    method Visit(index: nat, ghost root: nat) returns (ok: bool)
      requires Valid() && index < |mark| && Leads(g, mark, index) && Reach(g, root, index)
      modifies this
      ensures ok ==> Valid() && Later(g, root, old(mark), old(order), mark, order) && mark[index] != Unseen
      ensures !ok ==> exists u :: Lacks(g, root, u)
      decreases Remaining(mark)
    {
      hide Walked, Edge, Reach, Followed, Remaining, Indexed, Leads, Later, Lacks;
      LaterSame(g, root, mark, order);
      if mark[index] == Done { return true; }
      if mark[index] == Visiting { return true; }
      Started(g, mark, order, index);
      mark := mark[index := Visiting];
      ghost var mark0, order0 := mark, order;
      LaterSame(g, root, mark, order);
      var names := g.needed[index];
      FollowedNone(g, mark, names[..0]);
      var k := 0;
      while k < |names|
        invariant 0 <= k <= |names| && |mark| == |g.sonames|
        invariant Walked(g, mark, order) && Later(g, root, mark0, order0, mark, order) && Leads(g, mark, index)
        invariant Followed(g, mark, names[..k]) && Remaining(mark) <= Remaining(mark0)
      {
        var name := names[k];
        assert names[..k + 1] == names[..k] + [name];
        ghost var mark1, order1 := mark, order;
        LaterSame(g, root, mark, order);
        if name !in g.providers {
          if name !in indices {
            Missing(g, indices, root, index, name);
            return false;
          }
          var next := indices[name];
          Named(g, indices, index, name);
          Descends(g, mark, index, next);
          ReachEdge(g, root, index, next);
          var found := Visit(next, root);
          if !found { return false; }
          SameVisiting(g, root, mark1, order1, mark, order, index);
          LaterTrans(g, root, mark0, order0, mark1, order1, mark, order);
        }
        FollowedMore(g, root, mark1, order1, mark, order, names[..k], name);
        k := k + 1;
      }
      assert names[..|names|] == names;
      LaterRound(g, root, old(mark), mark, order0, order, index);
      Leaves(g, mark, order, index);
      mark := mark[index := Done];
      order := order + [index];
      ok := true;
    }
  }

  lemma FollowedNone(g: Graph, mark: seq<Mark>, names: seq<string>)
    requires |mark| == |g.sonames| && names == []
    ensures Followed(g, mark, names)
  {
  }

  lemma Named(g: Graph, indices: map<string, nat>, u: nat, name: string)
    requires g.Valid() && Indexed(g, indices) && u < |g.sonames| && name in indices
    requires name in g.needed[u] && name !in g.providers
    ensures Edge(g, u, indices[name]) && indices[name] < |g.sonames| && g.sonames[indices[name]] == name
  {
  }

  ghost predicate Lacks(g: Graph, root: nat, u: nat)
    requires g.Valid()
  {
    u < |g.sonames| && Reach(g, root, u) && !Supplied(g, u)
  }

  lemma Missing(g: Graph, indices: map<string, nat>, root: nat, u: nat, name: string)
    requires g.Valid() && Indexed(g, indices) && Reach(g, root, u) && u < |g.sonames|
    requires name in g.needed[u] && name !in g.providers && name !in indices
    ensures Lacks(g, root, u)
  {
    assert forall i :: 0 <= i < |g.sonames| ==> g.sonames[i] in indices;
  }

  lemma SameVisiting(g: Graph, root: nat, m0: seq<Mark>, o0: seq<nat>, m1: seq<Mark>, o1: seq<nat>, u: nat)
    requires g.Valid() && Later(g, root, m0, o0, m1, o1) && Leads(g, m0, u)
    ensures Leads(g, m1, u)
  {
  }

  /** What a finished walk from the root has found is exactly what the root reaches. */
  lemma {:induction false} ReachedIsDone(g: Graph, mark: seq<Mark>, order: seq<nat>, p: seq<nat>)
    requires g.Valid() && Walked(g, mark, order) && Path(g, p) && |p| > 0
    requires mark[p[0]] == Done && forall v :: 0 <= v < |mark| ==> mark[v] != Visiting
    ensures mark[p[|p| - 1]] == Done
    decreases |p|
  {
    if |p| > 1 {
      assert Edge(g, p[1 - 1], p[1]);
      assert Finished(g, mark, order, p[0]);
      assert Path(g, p[1..]) by {
        forall i | 0 < i < |p[1..]| ensures Edge(g, p[1..][i - 1], p[1..][i]) {
          assert Edge(g, p[i + 1 - 1], p[i + 1]);
        }
      }
      ReachedIsDone(g, mark, order, p[1..]);
    }
  }

  lemma Without(order: seq<nat>, k: nat) returns (rest: seq<nat>)
    requires Distinct(order) && k < |order|
    ensures Distinct(rest) && |rest| == |order| - 1
    ensures forall u :: u in rest <==> u in order && u != order[k]
    ensures forall i :: 0 <= i < |rest| ==> rest[i] in order && rest[i] != order[k]
  {
    rest := order[..k] + order[k + 1..];
    assert forall i :: 0 <= i < |rest| ==> rest[i] == if i < k then order[i] else order[i + 1];
    forall u | u in order && u != order[k] ensures u in rest {
      var i :| 0 <= i < |order| && order[i] == u;
      assert rest[if i < k then i else i - 1] == u;
    }
  }

  /** Distinct indices below n, n of them, are all of them. */
  lemma {:induction false} Pigeonhole(order: seq<nat>, n: nat)
    requires Distinct(order) && forall i :: 0 <= i < |order| ==> order[i] < n
    ensures |order| <= n
    ensures |order| == n <==> forall u :: 0 <= u < n ==> u in order
    decreases n
  {
    if order == [] {
      assert n > 0 ==> 0 !in order;
    } else {
      assert order[0] < n;
      var m := n - 1;
      if m in order {
        var k :| 0 <= k < |order| && order[k] == m;
        var rest := Without(order, k);
        Pigeonhole(rest, m);
        assert forall u :: 0 <= u < m ==> (u in order <==> u in rest);
      } else {
        Pigeonhole(order, m);
      }
    }
  }

  /** A walk that ended well placed every image exactly when the graph was complete. */
  lemma PlanIffComplete(g: Graph, mark: seq<Mark>, order: seq<nat>, root: nat)
    requires g.Valid() && Walked(g, mark, order) && root < |mark| && mark[root] == Done
    requires forall v :: 0 <= v < |mark| ==> mark[v] != Visiting && (mark[v] == Done ==> Reach(g, root, v))
    ensures |order| == |g.sonames| <==> Complete(g, root)
    ensures Complete(g, root) ==> IsPlan(g, order)
  {
    assert forall i :: 0 <= i < |order| ==> order[i] in order;
    Pigeonhole(order, |mark|);
    if |order| == |g.sonames| {
      forall u | 0 <= u < |g.sonames| ensures Supplied(g, u) && Reach(g, root, u) {
        assert u in order;
        assert Finished(g, mark, order, u);
      }
    }
    if Complete(g, root) {
      forall u | 0 <= u < |g.sonames| ensures u in order {
        assert Reach(g, root, u);
        var p :| Path(g, p) && |p| > 0 && p[0] == root && p[|p| - 1] == u;
        ReachedIsDone(g, mark, order, p);
      }
      forall u: nat, v: nat | Edge(g, u, v) && !Reach(g, v, u) ensures Before(order, v, u) {
        assert u in order;
        assert Finished(g, mark, order, u);
      }
    }
  }

  /** The graph phase of Create: an order for publication, exactly when the graph is complete. */
  method PlanPublication(g: Graph, indices: map<string, nat>, root: nat) returns (ok: bool, order: seq<nat>)
    requires g.Valid() && Indexed(g, indices) && root < |g.sonames|
    ensures ok <==> Complete(g, root)
    ensures ok ==> IsPlan(g, order)
  {
    var walk := new Walk(g, indices);
    ReachSelf(g, root);
    ghost var mark0, order0 := walk.mark, walk.order;
    ok := walk.Visit(root, root);
    order := [];
    if !ok {
      Lacking(g, root);
      return;
    }
    FromScratch(g, mark0, order0, walk.mark, walk.order, root);
    PlanIffComplete(g, walk.mark, walk.order, root);
    ok, order := |walk.order| == |g.sonames|, walk.order;
  }

  lemma Lacking(g: Graph, root: nat)
    requires g.Valid() && exists u :: Lacks(g, root, u)
    ensures !Complete(g, root)
  {
  }

  lemma FromScratch(g: Graph, m0: seq<Mark>, o0: seq<nat>, m1: seq<Mark>, o1: seq<nat>, root: nat)
    requires g.Valid() && Later(g, root, m0, o0, m1, o1) && root < |m0|
    requires m1[root] != Unseen && forall v :: 0 <= v < |m0| ==> m0[v] == Unseen
    ensures m1[root] == Done
    ensures forall v :: 0 <= v < |m1| ==> m1[v] != Visiting && (m1[v] == Done ==> Reach(g, root, v))
  {
  }
}
