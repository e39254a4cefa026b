/**
 * CreateTrampolines: validating a batch of requests, laying their thunks out, sharing the
 * thunks of equal requests, and emitting them.
 */
module TrampolineSet {
  import opened Options
  import opened Bytes
  import opened Alignment
  import opened JniAbi
  import opened ShortyPlan
  import opened Thunk
  import opened ThunkCorrect
  import opened ThunkEmit
  import opened ThunkTheorem

  const MAX_REQUESTS: nat := 4096
  const MAX_BYTES: nat := 16 * 1024 * 1024

  /** A 32-bit mask as the set of its bits: OR is union, zero the empty set. */
  type Mask = set<nat>

  /** target 0 is a null pointer. */
  datatype Request = Request(target: nat, shorty: Option<string>, mask: Mask)

  /** Nonzero and a power of two: a stable identity. */
  predicate OneBit(mask: Mask) { |mask| == 1 }

  predicate ShortyOk(shorty: Option<string>, shape: CallShape) {
    if shape.Lifecycle? then shorty == Some("ILL") || shorty == Some("VLL")
    else shorty.Some? && Accepts(shorty.value, shape)
  }

  predicate RequestOk(r: Request, shape: CallShape) {
    r.target != 0 && OneBit(r.mask) && ShortyOk(r.shorty, shape)
  }

  lemma OkIsAccepted(shorty: Option<string>, shape: CallShape)
    requires ShortyOk(shorty, shape)
    ensures shorty.Some? && Accepts(shorty.value, shape)
    ensures AllArguments(Arguments(shorty.value, shape))
  {
    AcceptedArguments(shorty.value, shape);
  }

  /** The plan of an acceptable request. */
  function PlanFor(r: Request, shape: CallShape): Plan
    requires ShortyOk(r.shorty, shape)
  {
    OkIsAccepted(r.shorty, shape);
    PlanOf(Arguments(r.shorty.value, shape))
  }

  lemma PlanForIsGood(r: Request, shape: CallShape)
    requires ShortyOk(r.shorty, shape)
    ensures GoodPlan(PlanFor(r, shape)) && |PlanFor(r, shape).moves| <= 249 && PlanFor(r, shape).frame <= 2240
  {
    OkIsAccepted(r.shorty, shape);
    FrameBounds(r.shorty.value, shape);
  }

  method PlanRequest(r: Request, shape: CallShape) returns (result: PlanResult)
    ensures result.Planned? <==> ShortyOk(r.shorty, shape)
    ensures result.Planned? ==> result.plan == PlanFor(r, shape)
  {
    if shape.Lifecycle? {
      result := PlanLifecycle(r.shorty);
      if result.Planned? { LifecyclePlan(r); }
    } else {
      result := PlanShorty(r.shorty, shape);
    }
  }

  lemma LifecyclePlan(r: Request)
    requires ShortyOk(r.shorty, Lifecycle)
    ensures PlanFor(r, Lifecycle) == Plan([], 16 + SCRATCH)
  {
    assert Arguments(r.shorty.value, Lifecycle) == "LL";
    Prefix(Regular);
    Finish("LL", 2, 0, 0, 0, []);
  }

  /** Plans of all requests, or None at the first bad one. */
  method PlanAll(requests: seq<Request>, shape: CallShape) returns (plans: Option<seq<Plan>>)
    ensures plans.Some? <==> forall i :: 0 <= i < |requests| ==> RequestOk(requests[i], shape)
    ensures plans.Some? ==> |plans.value| == |requests|
    ensures plans.Some? ==> forall i :: 0 <= i < |requests| ==>
              RequestOk(requests[i], shape) && plans.value[i] == PlanFor(requests[i], shape)
  {
    hide PlanFor, ShortyOk;
    var done: seq<Plan> := [];
    for index := 0 to |requests|
      invariant |done| == index
      invariant forall i :: 0 <= i < index ==> RequestOk(requests[i], shape) && done[i] == PlanFor(requests[i], shape)
    {
      var r := requests[index];
      var planned := PlanRequest(r, shape);
      if r.target == 0 || !OneBit(r.mask) || planned.Rejected? { return None; }
      PlanForIsGood(r, shape);
      if planned.plan.frame > 4080 {
        // the encoder limit is out of reach
        assert false;
        return None;
      }
      done := done + [planned.plan];
    }
    plans := Some(done);
  }

  /* ------------------------------------------------------------------------ layout */

  datatype Generated = Generated(offset: nat, size: nat, mask: Mask, source: nat)

  /** One thunk serves all requests of the same target and shorty. */
  predicate SameKey(a: Request, b: Request) { a.target == b.target && a.shorty == b.shorty }

  /** The bits of all requests served by thunk g. */
  function MaskOf(requests: seq<Request>, serves: seq<nat>, g: nat): Mask
    requires |serves| <= |requests|
  {
    set i, b | 0 <= i < |serves| && serves[i] == g && b in requests[i].mask :: b
  }

  /** Thunks lie one after the other on 16-byte boundaries, below end. */
  ghost predicate Packed(generated: seq<Generated>, end: nat) {
    && (forall g :: 0 <= g < |generated| ==> generated[g].offset % 16 == 0)
    && (forall g :: 0 <= g < |generated| ==> generated[g].offset + generated[g].size <= end)
    && (forall g, h :: 0 <= g < h < |generated| ==> generated[g].offset + generated[g].size <= generated[h].offset)
  }

  /** Two requests share a thunk exactly when their targets and shorties agree. */
  ghost predicate KeysAgree(requests: seq<Request>, serves: seq<nat>) {
    && |serves| <= |requests|
    && forall i, j :: 0 <= i < |serves| && 0 <= j < |serves| ==>
         (serves[i] == serves[j] <==> SameKey(requests[i], requests[j]))
  }

  lemma KeysAgreeMore(requests: seq<Request>, serves: seq<nat>, g: nat)
    requires |serves| < |requests| && KeysAgree(requests, serves)
    requires forall i :: 0 <= i < |serves| ==> (serves[i] == g <==> SameKey(requests[i], requests[|serves|]))
    ensures KeysAgree(requests, serves + [g])
  {
  }

  /** serves maps each request to its thunk, and thunks to their first request. */
  ghost predicate Shared(requests: seq<Request>, generated: seq<Generated>, serves: seq<nat>) {
    && |serves| <= |requests|
    && (forall i :: 0 <= i < |serves| ==> serves[i] < |generated|)
    && KeysAgree(requests, serves)
    && (forall g :: 0 <= g < |generated| ==> generated[g].source < |serves| && serves[generated[g].source] == g)
  }

  ghost predicate Masked(requests: seq<Request>, generated: seq<Generated>, serves: seq<nat>) {
    |serves| <= |requests| && forall g :: 0 <= g < |generated| ==> generated[g].mask == MaskOf(requests, serves, g)
  }

  ghost predicate Sized(generated: seq<Generated>, plans: seq<Plan>, proxy: bool) {
    forall g :: 0 <= g < |generated| ==>
      generated[g].source < |plans| && generated[g].size == ThunkSize(|plans[generated[g].source].moves|, proxy)
  }

  lemma MaskMore(requests: seq<Request>, serves: seq<nat>, g: nat, h: nat)
    requires |serves| < |requests|
    ensures MaskOf(requests, serves + [g], h)
         == MaskOf(requests, serves, h) + (if g == h then requests[|serves|].mask else {})
  {
    var n := |serves|;
    var more := serves + [g];
    forall b | b in MaskOf(requests, serves, h) ensures b in MaskOf(requests, more, h) {
      var i :| 0 <= i < n && serves[i] == h && b in requests[i].mask;
      assert more[i] == h;
    }
    if g == h {
      assert more[n] == h;
      assert forall b :: b in requests[n].mask ==> b in MaskOf(requests, more, h);
    }
    forall b | b in MaskOf(requests, more, h) && (g != h || b !in requests[n].mask)
      ensures b in MaskOf(requests, serves, h)
    {
      var i :| 0 <= i < n + 1 && more[i] == h && b in requests[i].mask;
      assert i < n && serves[i] == h;
    }
  }

  /** The cache knows exactly the keys seen so far. */
  ghost predicate Cached(requests: seq<Request>, serves: seq<nat>, cache: map<(nat, Option<string>), nat>) {
    && |serves| <= |requests|
    && (forall i :: 0 <= i < |serves| ==> KeyOf(requests[i]) in cache && cache[KeyOf(requests[i])] == serves[i])
    && (forall key :: key in cache ==> exists i :: 0 <= i < |serves| && KeyOf(requests[i]) == key)
  }

  /** Everything the layout loop maintains. */
  ghost predicate LaidOut(requests: seq<Request>, plans: seq<Plan>, proxy: bool, generated: seq<Generated>,
                          serves: seq<nat>,
                          cache: map<(nat, Option<string>), nat>, end: nat)
  {
    && |plans| == |requests| && (forall i :: 0 <= i < |plans| ==> |plans[i].moves| <= 249)
    && Shared(requests, generated, serves) && Masked(requests, generated, serves)
    && Packed(generated, end) && Sized(generated, plans, proxy) && Cached(requests, serves, cache)
    && |generated| <= |serves| && end <= 2240 * |generated| && (serves != [] ==> generated != [] && end > 0)
  }

  method Layout(requests: seq<Request>, plans: seq<Plan>, proxy: bool)
    returns (generated: seq<Generated>, serves: seq<nat>, end: nat)
    requires |plans| == |requests| && forall i :: 0 <= i < |plans| ==> |plans[i].moves| <= 249
    ensures |serves| == |requests| && Shared(requests, generated, serves) && Masked(requests, generated, serves)
    ensures Packed(generated, end) && Sized(generated, plans, proxy) && |generated| <= |requests|
    ensures end <= 2240 * |generated|
    ensures requests != [] ==> generated != [] && end > 0
  {
    generated, serves, end := [], [], 0;
    var cache: map<(nat, Option<string>), nat> := map[];
    NothingLaidOut(requests, plans, proxy);
    hide LaidOut;
    for index := 0 to |requests|
      invariant |serves| == index && LaidOut(requests, plans, proxy, generated, serves, cache, end)
    {
      var key := KeyOf(requests[index]);
      if key in cache {
        var g := cache[key];
        HitStep(requests, plans, proxy, generated, serves, cache, end);
        generated := generated[g := generated[g].(mask := generated[g].mask + requests[index].mask)];
        serves := serves + [g];
      } else {
        var size := ThunkSize(|plans[index].moves|, proxy);
        MissStep(requests, plans, proxy, generated, serves, cache, end);
        end := RoundUp(end, 16);
        cache := cache[key := |generated|];
        serves := serves + [|generated|];
        generated := generated + [Generated(end, size, requests[index].mask, index)];
        end := end + size;
      }
    }
    Unpack(requests, plans, proxy, generated, serves, cache, end);
  }

  lemma NothingLaidOut(requests: seq<Request>, plans: seq<Plan>, proxy: bool)
    requires |plans| == |requests| && forall i :: 0 <= i < |plans| ==> |plans[i].moves| <= 249
    ensures LaidOut(requests, plans, proxy, [], [], map[], 0)
  {
  }

  lemma Unpack(requests: seq<Request>, plans: seq<Plan>, proxy: bool, generated: seq<Generated>, serves: seq<nat>,
               cache: map<(nat, Option<string>), nat>, end: nat)
    requires LaidOut(requests, plans, proxy, generated, serves, cache, end)
    ensures Shared(requests, generated, serves) && Masked(requests, generated, serves)
    ensures Packed(generated, end) && Sized(generated, plans, proxy) && |generated| <= |serves|
    ensures end <= 2240 * |generated|
    ensures serves != [] ==> generated != [] && end > 0
  {
    hide Shared, Masked, Packed, Sized, Cached;
  }

  function KeyOf(r: Request): (nat, Option<string>) { (r.target, r.shorty) }

  /** A key seen before belongs to a thunk that serves an earlier request with it. */
  lemma HitShared(requests: seq<Request>, generated: seq<Generated>, serves: seq<nat>,
                  cache: map<(nat, Option<string>), nat>, m: Mask)
    requires |serves| < |requests| && Shared(requests, generated, serves) && Cached(requests, serves, cache)
    requires KeyOf(requests[|serves|]) in cache
    ensures var g := cache[KeyOf(requests[|serves|])];
      && g < |generated|
      && Shared(requests, generated[g := generated[g].(mask := m)], serves + [g])
      && Cached(requests, serves + [g], cache)
  {
    hide Cached;
    var g := cache[KeyOf(requests[|serves|])];
    HitServes(requests, serves, cache);
    KeysAgreeMore(requests, serves, g);
    HitCached(requests, serves, cache);
  }

  lemma HitServes(requests: seq<Request>, serves: seq<nat>, cache: map<(nat, Option<string>), nat>)
    requires |serves| < |requests| && KeysAgree(requests, serves) && Cached(requests, serves, cache)
    requires KeyOf(requests[|serves|]) in cache
    ensures var g := cache[KeyOf(requests[|serves|])];
      && g in serves
      && forall i :: 0 <= i < |serves| ==> (serves[i] == g <==> SameKey(requests[i], requests[|serves|]))
  {
    var n := |serves|;
    var g := cache[KeyOf(requests[n])];
    var k :| 0 <= k < n && KeyOf(requests[k]) == KeyOf(requests[n]);
    assert serves[k] == g;
    forall i | 0 <= i < n ensures serves[i] == g <==> SameKey(requests[i], requests[n]) {
      assert serves[i] == serves[k] <==> SameKey(requests[i], requests[k]);
    }
  }

  lemma HitCached(requests: seq<Request>, serves: seq<nat>, cache: map<(nat, Option<string>), nat>)
    requires |serves| < |requests| && Cached(requests, serves, cache) && KeyOf(requests[|serves|]) in cache
    ensures Cached(requests, serves + [cache[KeyOf(requests[|serves|])]], cache)
  {
    forall key | key in cache ensures exists i :: 0 <= i < |serves| + 1 && KeyOf(requests[i]) == key {
      var i :| 0 <= i < |serves| && KeyOf(requests[i]) == key;
    }
  }

  lemma HitMasked(requests: seq<Request>, generated: seq<Generated>, serves: seq<nat>, g: nat)
    requires |serves| < |requests| && Masked(requests, generated, serves) && g < |generated|
    ensures var wider := generated[g].(mask := generated[g].mask + requests[|serves|].mask);
            Masked(requests, generated[g := wider], serves + [g])
  {
    forall h | 0 <= h < |generated|
      ensures MaskOf(requests, serves + [g], h)
           == MaskOf(requests, serves, h) + (if g == h then requests[|serves|].mask else {})
    {
      MaskMore(requests, serves, g, h);
    }
  }

  lemma HitStep(requests: seq<Request>, plans: seq<Plan>, proxy: bool, generated: seq<Generated>, serves: seq<nat>,
                cache: map<(nat, Option<string>), nat>, end: nat)
    requires |serves| < |requests| && LaidOut(requests, plans, proxy, generated, serves, cache, end)
    requires KeyOf(requests[|serves|]) in cache
    ensures var r := requests[|serves|]; var g := cache[KeyOf(r)];
      && g < |generated|
      && LaidOut(requests, plans, proxy, generated[g := generated[g].(mask := generated[g].mask + r.mask)],
                 serves + [g], cache, end)
  {
    hide Shared, Masked, Cached;
    var r := requests[|serves|];
    var g := cache[KeyOf(r)];
    HitShared(requests, generated, serves, cache, if g < |generated| then generated[g].mask + r.mask else {});
    HitMasked(requests, generated, serves, g);
  }

  lemma MissShared(requests: seq<Request>, generated: seq<Generated>, serves: seq<nat>,
                   cache: map<(nat, Option<string>), nat>, t: Generated)
    requires |serves| < |requests| && Shared(requests, generated, serves) && Cached(requests, serves, cache)
    requires KeyOf(requests[|serves|]) !in cache && t.source == |serves|
    ensures Shared(requests, generated + [t], serves + [|generated|])
    ensures Cached(requests, serves + [|generated|], cache[KeyOf(requests[|serves|]) := |generated|])
  {
    var n, g := |serves|, |generated|;
    forall i | 0 <= i < n ensures !SameKey(requests[i], requests[n]) && serves[i] != g {
      assert KeyOf(requests[i]) in cache;
    }
    KeysAgreeMore(requests, serves, g);
    MissCached(requests, serves, cache, g);
  }

  lemma MissCached(requests: seq<Request>, serves: seq<nat>, cache: map<(nat, Option<string>), nat>, g: nat)
    requires |serves| < |requests| && Cached(requests, serves, cache) && KeyOf(requests[|serves|]) !in cache
    ensures Cached(requests, serves + [g], cache[KeyOf(requests[|serves|]) := g])
  {
    var n := |serves|;
    var known := cache[KeyOf(requests[n]) := g];
    forall key | key in known ensures exists i :: 0 <= i < n + 1 && KeyOf(requests[i]) == key {
      if key == KeyOf(requests[n]) {
        assert KeyOf(requests[n]) == key;
      } else {
        var i :| 0 <= i < n && KeyOf(requests[i]) == key;
      }
    }
  }

  lemma MissMasked(requests: seq<Request>, generated: seq<Generated>, serves: seq<nat>, t: Generated)
    requires |serves| < |requests| && Masked(requests, generated, serves) && t.mask == requests[|serves|].mask
    requires forall i :: 0 <= i < |serves| ==> serves[i] < |generated|
    ensures Masked(requests, generated + [t], serves + [|generated|])
  {
    var g := |generated|;
    forall h | 0 <= h <= g ensures (generated + [t])[h].mask == MaskOf(requests, serves + [g], h) {
      MaskMore(requests, serves, g, h);
      if h == g { assert MaskOf(requests, serves, g) == {}; }
    }
  }

  lemma MissPacked(generated: seq<Generated>, end: nat, t: Generated)
    requires Packed(generated, end) && t.offset == RoundUp(end, 16)
    ensures Packed(generated + [t], t.offset + t.size)
  {
    RoundUpAligned(end, 16);
  }

  lemma MissStep(requests: seq<Request>, plans: seq<Plan>, proxy: bool, generated: seq<Generated>, serves: seq<nat>,
                 cache: map<(nat, Option<string>), nat>, end: nat)
    requires |serves| < |requests| && LaidOut(requests, plans, proxy, generated, serves, cache, end)
    requires KeyOf(requests[|serves|]) !in cache
    ensures var n := |serves|; var r := requests[n]; var start := RoundUp(end, 16);
      var size := ThunkSize(|plans[n].moves|, proxy);
      LaidOut(requests, plans, proxy, generated + [Generated(start, size, r.mask, n)], serves + [|generated|],
              cache[KeyOf(r) := |generated|], start + size)
  {
    var n := |serves|;
    var r, start, size := requests[n], RoundUp(end, 16), ThunkSize(|plans[n].moves|, proxy);
    var t := Generated(start, size, r.mask, n);
    MissMasked(requests, generated, serves, t);
    hide Shared, Masked, Cached, Packed;
    MissShared(requests, generated, serves, cache, t);
    MissPacked(generated, end, t);
    AlignedBound(end, |generated|);
  }

  lemma AlignedBound(end: nat, g: nat)
    requires end <= 2240 * g
    ensures RoundUp(end, 16) <= 2240 * g
  {
    assert 2240 * g == 16 * (140 * g);
  }

  /* ---------------------------------------------------------------------- emission */

  /** Addresses the thunks call: both hooks, and the proxy handed to the target. */
  datatype Hooks = Hooks(push: nat, pop: nat, proxy: nat)

  function LiteralsOf(hooks: Hooks, r: Request): Literals {
    Literals(hooks.push, hooks.pop, hooks.proxy, r.target)
  }

  /** Thunk g is compiled in the buffer for the request it was generated from. */
  ghost predicate ThunkFor(buffer: seq<Byte>, requests: seq<Request>, shape: CallShape, hooks: Hooks, t: Generated)
    requires t.source < |requests| && ShortyOk(requests[t.source].shorty, shape)
  {
    Compiled(buffer, t.offset, PlanFor(requests[t.source], shape), Substitutes(shape),
             LiteralsOf(hooks, requests[t.source]))
  }

  ghost predicate AllCompiled(buffer: seq<Byte>, requests: seq<Request>, shape: CallShape, hooks: Hooks,
                              generated: seq<Generated>, k: nat)
    requires k <= |generated|
  {
    forall g :: 0 <= g < k ==>
      && generated[g].source < |requests| && ShortyOk(requests[generated[g].source].shorty, shape)
      && ThunkFor(buffer, requests, shape, hooks, generated[g])
  }

  method EmitAll(buffer: array<Byte>, requests: seq<Request>, plans: seq<Plan>, shape: CallShape, hooks: Hooks,
                 generated: seq<Generated>)
    returns (ok: bool)
    requires |plans| == |requests|
    requires forall i :: 0 <= i < |requests| ==>
               RequestOk(requests[i], shape) && plans[i] == PlanFor(requests[i], shape)
    requires Packed(generated, buffer.Length) && Sized(generated, plans, Substitutes(shape))
    modifies buffer
    ensures ok && AllCompiled(buffer[..], requests, shape, hooks, generated, |generated|)
  {
    hide Compiled, PlanFor, ShortyOk, OneBit;
    for g := 0 to |generated|
      invariant AllCompiled(buffer[..], requests, shape, hooks, generated, g)
    {
      var t := generated[g];
      PlanForIsGood(requests[t.source], shape);
      ghost var before := buffer[..];
      ok := EmitThunk(buffer, t.offset, plans[t.source], Substitutes(shape), LiteralsOf(hooks, requests[t.source]));
      if !ok { return; }
      EmitStep(before, buffer[..], requests, plans, shape, hooks, generated, g);
    }
    ok := true;
  }

  /** Emitting thunk g keeps the thunks before it. */
  lemma EmitStep(before: seq<Byte>, after: seq<Byte>, requests: seq<Request>, plans: seq<Plan>, shape: CallShape,
                 hooks: Hooks,
                 generated: seq<Generated>, g: nat)
    requires g < |generated| && |plans| == |requests|
    requires forall i :: 0 <= i < |requests| ==>
               RequestOk(requests[i], shape) && plans[i] == PlanFor(requests[i], shape)
    requires Packed(generated, |before|) && Sized(generated, plans, Substitutes(shape))
    requires AllCompiled(before, requests, shape, hooks, generated, g)
    requires generated[g].source < |requests| && RequestOk(requests[generated[g].source], shape)
    requires ThunkFor(after, requests, shape, hooks, generated[g])
    requires SameElsewhere(before, after, generated[g].offset, generated[g].offset + generated[g].size)
    ensures AllCompiled(after, requests, shape, hooks, generated, g + 1)
  {
    hide Compiled, PlanFor, ShortyOk, OneBit, ThunkSize;
    forall h | 0 <= h < g ensures ThunkFor(after, requests, shape, hooks, generated[h]) {
      var t := generated[h];
      CompiledKept(before, after, generated[g].offset, generated[g].offset + generated[g].size, t.offset,
                   PlanFor(requests[t.source], shape), Substitutes(shape), LiteralsOf(hooks, requests[t.source]));
    }
  }

  /* --------------------------------------------------------------------- the whole set */

  /** A published set: where it is mapped, its code, its entries, and each request's entry. */
  datatype Trampolines = Trampolines(start: nat, mapped: nat, end: nat, code: seq<Byte>,
                                     entries: seq<Entry>, requests: seq<Request>, requested: seq<nat>)

  datatype Entry = Entry(address: nat, mask: Mask)

  datatype CreateError = BadSet | BadRequest | TooLarge | NoMapping | LayoutMismatch | NoProtection | NoMemory

  datatype CreateResult = Created(set_: Trampolines) | Refused(error: CreateError)

  /** What the host gives: page size, the address mmap chose, whether mprotect and new succeed. */
  datatype Host = Host(pageSize: int, mapping: Option<nat>, protects: bool, allocates: bool)

  /** Bits of every request whose entry is the given address. */
  function RequestedMask(t: Trampolines, address: nat): Mask
    requires |t.requested| == |t.requests|
  {
    set i, b | 0 <= i < |t.requested| && t.requested[i] == address && b in t.requests[i].mask :: b
  }

  /** Every request's entry is its own compiled thunk, and entries carry exactly their requests' bits. */
  ghost predicate GoodSet(t: Trampolines, shape: CallShape, hooks: Hooks) {
    && |t.requested| == |t.requests| > 0 && t.start < t.end <= t.start + t.mapped && |t.code| == t.mapped
    && (forall i :: 0 <= i < |t.requests| ==>
          && RequestOk(t.requests[i], shape)
          && t.start <= t.requested[i] < t.end && (t.requested[i] - t.start) % 16 == 0
          && Compiled(t.code, t.requested[i] - t.start, PlanFor(t.requests[i], shape), Substitutes(shape),
                      LiteralsOf(hooks, t.requests[i])))
    && (forall i, j :: 0 <= i < |t.requests| && 0 <= j < |t.requests| ==>
          (t.requested[i] == t.requested[j] <==> SameKey(t.requests[i], t.requests[j])))
    && GoodEntries(t)
  }

  /** The published entries: one for each requested address, in increasing order, with its bits. */
  ghost predicate GoodEntries(t: Trampolines) {
    && |t.requested| == |t.requests|
    && (forall g :: 0 <= g < |t.entries| ==>
          && t.start <= t.entries[g].address < t.end
          && t.entries[g].address in t.requested
          && t.entries[g].mask == RequestedMask(t, t.entries[g].address))
    && (forall g, h :: 0 <= g < h < |t.entries| ==> t.entries[g].address < t.entries[h].address)
    && (forall i :: 0 <= i < |t.requested| ==> HasEntry(t.entries, t.requested[i]))
  }

  ghost predicate HasEntry(entries: seq<Entry>, address: nat) {
    exists g :: 0 <= g < |entries| && entries[g].address == address
  }

  /** The set built from a layout whose thunks are emitted. */
  function SetOf(start: nat, mapped: nat, end: nat, code: seq<Byte>, requests: seq<Request>,
                 generated: seq<Generated>, serves: seq<nat>): Trampolines
    requires |serves| == |requests| && forall i :: 0 <= i < |serves| ==> serves[i] < |generated|
  {
    Trampolines(start, mapped, start + end, code,
                seq(|generated|, g requires 0 <= g < |generated| =>
                    Entry(start + generated[g].offset, generated[g].mask)),
                requests,
                seq(|serves|, i requires 0 <= i < |serves| => start + generated[serves[i]].offset))
  }

  /** Different thunks lie at different offsets. */
  lemma OffsetsIncrease(generated: seq<Generated>, plans: seq<Plan>, proxy: bool, end: nat)
    requires Packed(generated, end) && Sized(generated, plans, proxy)
    ensures forall g, h :: 0 <= g < h < |generated| ==> generated[g].offset < generated[h].offset
    ensures forall g :: 0 <= g < |generated| ==> generated[g].offset < end
  {
  }

  lemma EntriesGood(start: nat, mapped: nat, end: nat, code: seq<Byte>, requests: seq<Request>, plans: seq<Plan>,
                    proxy: bool,
                    generated: seq<Generated>, serves: seq<nat>)
    requires |serves| == |requests| && Shared(requests, generated, serves) && Masked(requests, generated, serves)
    requires Packed(generated, end) && Sized(generated, plans, proxy)
    ensures GoodEntries(SetOf(start, mapped, end, code, requests, generated, serves))
  {
    hide KeysAgree;
    var t := SetOf(start, mapped, end, code, requests, generated, serves);
    OffsetsIncrease(generated, plans, proxy, end);
    forall g | 0 <= g < |t.entries|
      ensures t.start <= t.entries[g].address < t.end
      ensures t.entries[g].address in t.requested
      ensures t.entries[g].mask == RequestedMask(t, t.entries[g].address)
    {
      assert generated[g].offset < end;
      assert t.requested[generated[g].source] == t.entries[g].address;
      SameBits(t, requests, generated, serves, g);
    }
    forall i | 0 <= i < |t.requested| ensures HasEntry(t.entries, t.requested[i]) {
      assert t.entries[serves[i]].address == t.requested[i];
    }
    forall g, h | 0 <= g < h < |t.entries| ensures t.entries[g].address < t.entries[h].address {
      assert generated[g].offset < generated[h].offset;
    }
  }

  lemma SameBits(t: Trampolines, requests: seq<Request>, generated: seq<Generated>, serves: seq<nat>, g: nat)
    requires |serves| == |requests| && g < |generated| && t.requests == requests && |t.requested| == |serves|
    requires forall i :: 0 <= i < |serves| ==>
               serves[i] < |generated| && t.requested[i] == t.start + generated[serves[i]].offset
    requires forall h, k :: 0 <= h < k < |generated| ==> generated[h].offset < generated[k].offset
    ensures MaskOf(requests, serves, g) == RequestedMask(t, t.start + generated[g].offset)
  {
    forall i | 0 <= i < |serves| ensures serves[i] == g <==> t.requested[i] == t.start + generated[g].offset {
      if serves[i] < g { assert generated[serves[i]].offset < generated[g].offset; }
      if serves[i] > g { assert generated[g].offset < generated[serves[i]].offset; }
    }
  }

  lemma SetIsGood(start: nat, mapped: nat, end: nat, code: seq<Byte>, requests: seq<Request>, plans: seq<Plan>,
                  shape: CallShape,
                  hooks: Hooks, generated: seq<Generated>, serves: seq<nat>)
    requires |plans| == |requests| == |serves| > 0 && 0 < end <= mapped == |code|
    requires forall i :: 0 <= i < |requests| ==>
               RequestOk(requests[i], shape) && plans[i] == PlanFor(requests[i], shape)
    requires Shared(requests, generated, serves) && Masked(requests, generated, serves)
    requires Packed(generated, end) && Sized(generated, plans, Substitutes(shape))
    requires AllCompiled(code, requests, shape, hooks, generated, |generated|)
    ensures GoodSet(SetOf(start, mapped, end, code, requests, generated, serves), shape, hooks)
  {
    hide Compiled, GoodEntries, ShortyOk, OneBit, ThunkSize, Masked, Shared, KeysAgree, AllCompiled, SameKey, Sized,
         PlanFor, LiteralsOf, RequestedMask;
    SharedIndices(requests, generated, serves);
    var t := SetOf(start, mapped, end, code, requests, generated, serves);
    EntriesGood(start, mapped, end, code, requests, plans, Substitutes(shape), generated, serves);
    OffsetsIncrease(generated, plans, Substitutes(shape), end);
    forall i | 0 <= i < |requests|
      ensures Compiled(t.code, t.requested[i] - t.start, PlanFor(requests[i], shape), Substitutes(shape),
                       LiteralsOf(hooks, requests[i]))
    {
      Served(code, requests, shape, hooks, generated, serves, i);
    }
    forall i, j | 0 <= i < |requests| && 0 <= j < |requests|
      ensures t.requested[i] == t.requested[j] <==> SameKey(requests[i], requests[j])
    {
      AddressesAgree(requests, generated, serves, i, j);
    }
  }

  /** A request's thunk was compiled for its own plan and target. */
  lemma Served(code: seq<Byte>, requests: seq<Request>, shape: CallShape, hooks: Hooks, generated: seq<Generated>,
               serves: seq<nat>, i: nat)
    requires i < |serves| == |requests| && Shared(requests, generated, serves) && RequestOk(requests[i], shape)
    requires AllCompiled(code, requests, shape, hooks, generated, |generated|)
    ensures Compiled(code, generated[serves[i]].offset, PlanFor(requests[i], shape), Substitutes(shape),
                     LiteralsOf(hooks, requests[i]))
  {
    hide Compiled;
    var t := generated[serves[i]];
    assert ThunkFor(code, requests, shape, hooks, t);
    assert SameKey(requests[i], requests[t.source]);
  }

  lemma AddressesAgree(requests: seq<Request>, generated: seq<Generated>, serves: seq<nat>, i: nat, j: nat)
    requires i < |serves| && j < |serves| && Shared(requests, generated, serves)
    requires forall g, h :: 0 <= g < h < |generated| ==> generated[g].offset < generated[h].offset
    ensures generated[serves[i]].offset == generated[serves[j]].offset <==> SameKey(requests[i], requests[j])
  {
    if serves[i] < serves[j] { assert generated[serves[i]].offset < generated[serves[j]].offset; }
    if serves[i] > serves[j] { assert generated[serves[j]].offset < generated[serves[i]].offset; }
  }

  /** The caller's side of success. */
  predicate SetRequested(requests: Option<seq<Request>>, shape: CallShape, proxy: nat) {
    && (Substitutes(shape) ==> proxy != 0)
    && requests.Some? && 0 < |requests.value| <= MAX_REQUESTS
    && forall i :: 0 <= i < |requests.value| ==> RequestOk(requests.value[i], shape)
  }

  predicate HostWilling(host: Host) {
    0 < host.pageSize <= MAX_BYTES && host.mapping.Some? && host.protects && host.allocates
  }

  method CreateTrampolines(requests: Option<seq<Request>>, shape: CallShape, hooks: Hooks, host: Host)
    returns (r: CreateResult)
    ensures r.Created? ==> SetRequested(requests, shape, hooks.proxy) && HostWilling(host)
    ensures r.Created? ==> r.set_.requests == requests.value && r.set_.start == host.mapping.value
    ensures r.Created? ==> GoodSet(r.set_, shape, hooks)
    ensures r.Created? && !shape.Critical? ==> hooks.proxy != 0
    ensures r != Refused(LayoutMismatch)
    ensures host.pageSize <= 0 || PowerOfTwo(host.pageSize) ==>
              (r.Created? <==> SetRequested(requests, shape, hooks.proxy) && HostWilling(host))
    ensures PowerOfTwo(host.pageSize) && host.pageSize <= MAX_BYTES ==> r != Refused(TooLarge)
  {
    hide RequestOk, PlanFor, GoodSet, Shared, Masked, Packed, Sized, AllCompiled, RoundUp;
    if (Substitutes(shape) && hooks.proxy == 0) || requests.None?
       || |requests.value| == 0 || |requests.value| > MAX_REQUESTS {
      return Refused(BadSet);
    }
    var asked := requests.value;
    var planned := PlanAll(asked, shape);
    if planned.None? { return Refused(BadRequest); }
    var plans := planned.value;
    PlansBounded(asked, plans, shape);
    var generated, serves, end := Layout(asked, plans, Substitutes(shape));
    if host.pageSize <= 0 || end == 0 || end > MAX_BYTES { return Refused(TooLarge); }
    var mapped := RoundUp(end, host.pageSize);
    PagesFit(end, host.pageSize);
    if mapped < end || mapped > MAX_BYTES { return Refused(TooLarge); }
    if host.mapping.None? { return Refused(NoMapping); }
    var buffer := new Byte[mapped](_ => 0);
    PackedWider(generated, end, mapped);
    var ok := EmitAll(buffer, asked, plans, shape, hooks, generated);
    if !ok { return Refused(LayoutMismatch); }
    if !host.protects { return Refused(NoProtection); }
    if !host.allocates { return Refused(NoMemory); }
    SharedIndices(asked, generated, serves);
    SetIsGood(host.mapping.value, mapped, end, buffer[..], asked, plans, shape, hooks, generated, serves);
    r := Created(SetOf(host.mapping.value, mapped, end, buffer[..], asked, generated, serves));
  }

  /** Whole pages for the code fit exactly when one page does. */
  lemma PagesFit(end: nat, page: nat)
    requires 0 < end <= MAX_BYTES && page > 0
    ensures page > MAX_BYTES ==> RoundUp(end, page) > MAX_BYTES
    ensures PowerOfTwo(page) && page <= MAX_BYTES ==> RoundUp(end, page) <= MAX_BYTES
  {
    if page > MAX_BYTES {
      RoundUpAligned(end, page);
    } else if PowerOfTwo(page) {
      LimitIsPower();
      var k := PowersDivide(page, MAX_BYTES);
      RoundUpWithin(end, page, k);
    }
  }

  lemma LimitIsPower()
    ensures PowerOfTwo(MAX_BYTES)
  {
    assert PowerOfTwo(0x100) && PowerOfTwo(0x1_0000) && PowerOfTwo(0x100_0000);
  }

  lemma PlansBounded(requests: seq<Request>, plans: seq<Plan>, shape: CallShape)
    requires |plans| == |requests|
    requires forall i :: 0 <= i < |requests| ==>
               RequestOk(requests[i], shape) && plans[i] == PlanFor(requests[i], shape)
    ensures forall i :: 0 <= i < |plans| ==> |plans[i].moves| <= 249
  {
    hide PlanFor;
    forall i | 0 <= i < |plans| ensures |plans[i].moves| <= 249 {
      PlanForIsGood(requests[i], shape);
    }
  }

  lemma PackedWider(generated: seq<Generated>, end: nat, more: nat)
    requires Packed(generated, end) && end <= more
    ensures Packed(generated, more)
  {
  }

  lemma SharedIndices(requests: seq<Request>, generated: seq<Generated>, serves: seq<nat>)
    requires Shared(requests, generated, serves)
    ensures forall i :: 0 <= i < |serves| ==> serves[i] < |generated|
  {
  }
}
