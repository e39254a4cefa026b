/** What every interleaving of the SurfaceTexture protocol keeps. */
module SurfaceTextureRuns {
  import opened Options
  import opened SurfaceTexture

  /** Every slot, fence and reference ever issued is in exactly one place or was given back. */
  ghost predicate Conserved(s: State) {
    Balanced(s.pending, s.current, s.threads, s.issued, s.spent)
  }

  ghost predicate Balanced(pending: seq<Frame>, current: Option<Frame>, threads: seq<Local>,
                           issued: multiset<Token>, spent: multiset<Token>) {
    issued == Queued(pending, current) + ThreadsTokens(threads) + spent
  }

  ghost function Queued(pending: seq<Frame>, current: Option<Frame>): multiset<Token> {
    FramesTokens(pending) + OptionTokens(current)
  }

  /** The consumer mutex: a thread is inside a consumer operation exactly when it holds it. */
  ghost predicate Exclusive(s: State) { Excludes(s.threads, s.consumer) }

  ghost predicate Excludes(threads: seq<Local>, consumer: Option<nat>) {
    forall t :: 0 <= t < |threads| ==> (threads[t].Consumes() <==> consumer == Some(t))
  }

  /** Nothing is queued or shown once the texture is abandoned. */
  ghost predicate Drained(s: State) {
    s.abandoned ==> s.pending == [] && s.current.None?
  }

  /** Some earlier dequeue already delivered the frame acquired n-th. */
  ghost predicate Shown(delivered: seq<Delivery>, n: nat) {
    exists k :: 0 <= k < |delivered| && delivered[k].nth == n
  }

  /** Each delivery says new content exactly when it is the first of its frame. */
  ghost predicate FirstIsNew(delivered: seq<Delivery>, n: nat) {
    && (forall k :: 0 <= k < |delivered| ==> delivered[k].nth <= n)
    && (forall k :: 0 <= k < |delivered| ==> (delivered[k].isNew <==> !Shown(delivered[..k], delivered[k].nth)))
  }

  /** What the thread inside dequeueBuffer knows about the current frame. */
  ghost predicate Agrees(l: Local, current: Option<Frame>, shown: bool) {
    match l
    case Acquired(_, _, output, isNew) =>
      output == current && (output.Some? ==> (shown <==> !isNew && output.value.fence.None?))
    case Closing(output, fence) =>
      current == Some(output.(fence := None)) && output.fence == Some(fence) && !shown
    case Ready(output, isNew) => current == Some(output.(fence := None)) && (shown <==> !isNew)
    case _ => current.Some? ==> (shown <==> current.value.fence.None?)
  }

  function Holder(s: State): Local {
    if s.consumer.Some? && s.consumer.value < |s.threads| then s.threads[s.consumer.value] else Idle
  }

  ghost predicate Phase(s: State) {
    && FirstIsNew(s.delivered, |s.acquired|)
    && Agrees(Holder(s), s.current, Shown(s.delivered, |s.acquired|))
  }

  ghost predicate Subsequence(a: seq<nat>, b: seq<nat>) {
    if a == [] || b == [] then a == []
    else
      || Subsequence(a, b[..|b| - 1])
      || (a[|a| - 1] == b[|b| - 1] && Subsequence(a[..|a| - 1], b[..|b| - 1]))
  }

  function Ids(fs: seq<Frame>): (ids: seq<nat>)
    ensures |ids| == |fs|
  {
    seq(|fs|, i requires 0 <= i < |fs| => fs[i].id)
  }

  /** The queue is the end of the publication order; acquisitions come from before it, in order. */
  ghost predicate Ordered(pending: seq<Frame>, published: seq<nat>, acquired: seq<nat>) {
    && |pending| <= |published|
    && published[|published| - |pending|..] == Ids(pending)
    && Subsequence(acquired, published[..|published| - |pending|])
  }

  ghost predicate InOrder(s: State) { Ordered(s.pending, s.published, s.acquired) }

  /** The current frame is the one acquired last. */
  ghost predicate Names(current: Option<Frame>, acquired: seq<nat>) {
    current.Some? ==> acquired != [] && current.value.id == acquired[|acquired| - 1]
  }

  /** Each delivery handed out the frame acquired as it says, never an older one than the delivery before. */
  ghost predicate Recorded(delivered: seq<Delivery>, acquired: seq<nat>) {
    && (forall k :: 0 <= k < |delivered| ==> HandsOut(delivered[k], acquired))
    && (forall j, k :: 0 <= j < k < |delivered| ==> delivered[j].nth <= delivered[k].nth)
  }

  ghost predicate HandsOut(d: Delivery, acquired: seq<nat>) {
    1 <= d.nth <= |acquired| && acquired[d.nth - 1] == d.id
  }

  ghost predicate Faithful(s: State) { Names(s.current, s.acquired) && Recorded(s.delivered, s.acquired) }

  predicate InDequeue(l: Local) { l.Acquired? || l.Closing? || l.Ready? }

  ghost predicate NoneDequeues(threads: seq<Local>) {
    forall t :: 0 <= t < |threads| ==> !InDequeue(threads[t])
  }

  /** There is no buffer to be had: given up by the consumer, or abandoned. */
  predicate Unavailable(s: State) { s.abandoned || !s.owned }

  /** Then no frame is current, and no thread is past the first section of dequeueBuffer. */
  ghost predicate Gated(s: State) {
    Unavailable(s) ==> s.current.None? && NoneDequeues(s.threads)
  }

  ghost predicate Inv(s: State) {
    Conserved(s) && Exclusive(s) && Drained(s) && Phase(s) && InOrder(s) && Faithful(s) && Gated(s)
  }

  // Tokens

  lemma {:induction false} ThreadsUpdate(ts: seq<Local>, t: nat, l: Local)
    requires t < |ts|
    ensures ThreadsTokens(ts[t := l]) + LocalTokens(ts[t]) == ThreadsTokens(ts) + LocalTokens(l)
  {
    hide LocalTokens;
    if t == 0 {
      assert ts[t := l][1..] == ts[1..];
    } else {
      assert ts[t := l][1..] == ts[1..][t - 1 := l];
      ThreadsUpdate(ts[1..], t - 1, l);
      var h, a, b := LocalTokens(ts[0]), ThreadsTokens(ts[1..]), ThreadsTokens(ts[1..][t - 1 := l]);
      assert h + b + LocalTokens(ts[t]) == h + (b + LocalTokens(ts[t]));
      assert h + a + LocalTokens(l) == h + (a + LocalTokens(l));
    }
  }

  lemma {:induction false} FramesConcat(a: seq<Frame>, b: seq<Frame>)
    ensures FramesTokens(a + b) == FramesTokens(a) + FramesTokens(b)
  {
    hide FrameTokens;
    if a == [] {
      assert a + b == b;
    } else {
      assert (a + b)[1..] == a[1..] + b;
      FramesConcat(a[1..], b);
    }
  }

  lemma FramesOne(f: Frame)
    ensures FramesTokens([f]) == FrameTokens(f)
  {
    hide FrameTokens;
    assert [f][1..] == [];
  }

  lemma OptionFramesTokens(f: Option<Frame>)
    ensures FramesTokens(OptionFrames(f)) == OptionTokens(f)
  {
    if f.Some? { FramesOne(f.value); }
  }

  /** ReleaseQueued gives back exactly what the frame held, and the release fence made for it. */
  lemma ReleaseGivesBack(f: Frame, created: Option<nat>)
    ensures ReleaseQueued(f, created) == FrameTokens(f) + FenceToken(created)
  {
  }

  /** A thread that trades what it holds against the queue and the spent tokens keeps the balance. */
  lemma Balance(s: State, s': State, t: nat, l: Local)
    requires Conserved(s) && t < |s.threads| && s'.threads == s.threads[t := l]
    requires s'.issued + Queued(s.pending, s.current) + LocalTokens(s.threads[t]) + s.spent
         == s.issued + Queued(s'.pending, s'.current) + LocalTokens(l) + s'.spent
    ensures Conserved(s')
  {
    hide LocalTokens, Queued, ThreadsTokens;
    ThreadsUpdate(s.threads, t, l);
    Cancel(s.issued, Queued(s.pending, s.current), ThreadsTokens(s.threads), s.spent, LocalTokens(s.threads[t]),
           s'.issued, Queued(s'.pending, s'.current), ThreadsTokens(s'.threads), s'.spent, LocalTokens(l));
  }

  lemma Cancel(i: multiset<Token>, q: multiset<Token>, a: multiset<Token>, p: multiset<Token>, x: multiset<Token>,
               i': multiset<Token>, q': multiset<Token>, b: multiset<Token>, p': multiset<Token>, y: multiset<Token>)
    requires i == q + a + p && b + x == a + y && i' + q + x + p == i + q' + y + p'
    ensures i' == q' + b + p'
  {
    forall e: Token ensures i'[e] == (q' + b + p')[e] {
      assert (i' + q + x + p)[e] == (i + q' + y + p')[e] && (b + x)[e] == (a + y)[e] && i[e] == (q + a + p)[e];
    }
  }

  // The producer

  lemma OfferConserves(s: State, t: nat, frame: Frame)
    requires Conserved(s) && t < |s.threads| && s.threads[t].Idle?
    ensures Conserved(Put(s.(issued := s.issued + FrameTokens(frame)), t, Offering(frame)))
  {
    hide FrameTokens, FramesTokens;
    var s' := Put(s.(issued := s.issued + FrameTokens(frame)), t, Offering(frame));
    Balance(s, s', t, Offering(frame));
  }

  lemma EnqueueConserves(s: State, t: nat, mode: Mode, fails: bool)
    requires Conserved(s) && t < |s.threads| && s.threads[t].Offering?
    ensures Conserved(EnqueueStep(s, t, s.threads[t].frame, mode, fails))
  {
    hide FrameTokens, FramesTokens, Conserved;
    var f := s.threads[t].frame;
    var s' := EnqueueStep(s, t, f, mode, fails);
    FramesOne(f);
    FramesConcat(s.pending, [f]);
    FramesNone();
    assert [] + [f] == [f];
    Balance(s, s', t, s'.threads[t]);
  }

  lemma FramesNone()
    ensures FramesTokens([]) == multiset{}
  {
  }

  /** A push that cannot allocate returns only the incoming frame and leaves the queue as it was. */
  lemma AllocationFailure(s: State, t: nat, mode: Mode)
    requires t < |s.threads| && s.threads[t].Offering?
    ensures var s' := EnqueueStep(s, t, s.threads[t].frame, mode, true);
            s'.pending == s.pending && s'.published == s.published && s'.threads[t] == Draining([s.threads[t].frame])
  {
  }

  /** Returning the next frame of a list a thread holds. */
  lemma ReleaseConserves(s: State, t: nat, f: Frame, created: Option<nat>, l: Local)
    requires Conserved(s) && t < |s.threads| && LocalTokens(s.threads[t]) == FrameTokens(f) + LocalTokens(l)
    ensures Conserved(Put(Spend(s.(issued := s.issued + FenceToken(created)), ReleaseQueued(f, created)), t, l))
  {
    hide FrameTokens, FramesTokens, Conserved, LocalTokens, ReleaseQueued, FenceToken;
    var s' := Put(Spend(s.(issued := s.issued + FenceToken(created)), ReleaseQueued(f, created)), t, l);
    ReleaseGivesBack(f, created);
    Balance(s, s', t, l);
  }

  lemma PlainReleaseConserves(s: State, t: nat, f: Frame, l: Local)
    requires Conserved(s) && t < |s.threads| && LocalTokens(s.threads[t]) == FrameTokens(f) + LocalTokens(l)
    ensures Conserved(Put(Spend(s, ReleaseQueued(f, None)), t, l))
  {
    hide FrameTokens, Conserved, LocalTokens, ReleaseQueued;
    ReleaseConserves(s, t, f, None, l);
    assert s.issued + FenceToken(None) == s.issued;
  }

  // The consumer

  lemma EmptyConserves(s: State, t: nat, op: ConsumerOp)
    requires Conserved(s) && t < |s.threads| && s.threads[t].Entering?
    ensures Conserved(EmptyStep(s, t, op))
  {
    hide FrameTokens, FramesTokens, OptionTokens, Conserved, OptionFrames;
    var s' := EmptyStep(s, t, op);
    FramesConcat(s.pending, OptionFrames(s.current));
    OptionFramesTokens(s.current);
    FramesNone();
    assert OptionTokens(None) == multiset{} by { NoTokens(); }
    Balance(s, s', t, s'.threads[t]);
  }

  lemma NoTokens()
    ensures OptionTokens(None) == multiset{}
  {
  }

  lemma FramesFirst(fs: seq<Frame>)
    requires fs != []
    ensures FramesTokens(fs) == FrameTokens(fs[0]) + FramesTokens(fs[1..])
  {
  }

  lemma FramesLast(fs: seq<Frame>)
    requires fs != []
    ensures FramesTokens(fs) == FramesTokens(fs[..|fs| - 1]) + FrameTokens(fs[|fs| - 1])
  {
    hide FrameTokens, FramesTokens;
    var n := |fs| - 1;
    assert fs == fs[..n] + [fs[n]];
    FramesConcat(fs[..n], [fs[n]]);
    FramesOne(fs[n]);
  }

  /** Taking the next frame: what was queued or current is now current, stale, replaced or still queued. */
  lemma Trade(i: multiset<Token>, p: multiset<Token>, q: multiset<Token>, c: multiset<Token>,
              out: multiset<Token>, n: multiset<Token>, stale: multiset<Token>, rest: multiset<Token>)
    requires q == stale + n + rest
    ensures (i + out) + (q + c) + multiset{} + p == i + (rest + n) + (stale + c + out) + p
  {
  }

  lemma TakenConserves(s: State, t: nat, mode: Mode)
    requires Conserved(s) && t < |s.threads| && s.threads[t].Entering? && !s.abandoned && s.owned && s.pending != []
    ensures Conserved(DequeueStep(s, t, mode))
  {
    hide FrameTokens, FramesTokens, Conserved, OutputTokens;
    var s' := DequeueStep(s, t, mode);
    FramesNone();
    var stale := if mode == Mailbox then s.pending[..|s.pending| - 1] else [];
    FramesFirst(s.pending);
    FramesLast(s.pending);
    Trade(s.issued, s.spent, FramesTokens(s.pending), OptionTokens(s.current), OutputTokens(s'.current),
          OptionTokens(s'.current), FramesTokens(stale), FramesTokens(s'.pending));
    Balance(s, s', t, s'.threads[t]);
  }

  lemma DequeueConserves(s: State, t: nat, mode: Mode)
    requires Conserved(s) && t < |s.threads| && s.threads[t].Entering?
    ensures Conserved(DequeueStep(s, t, mode))
  {
    hide FrameTokens, FramesTokens, Conserved, OutputTokens, Queued;
    if !s.abandoned && s.owned && s.pending != [] {
      TakenConserves(s, t, mode);
    } else {
      FramesNone();
      var s' := DequeueStep(s, t, mode);
      Balance(s, s', t, s'.threads[t]);
    }
  }

  /** Clearing the fence of the current frame moves its descriptor to the thread that will close it. */
  lemma WaitConserves(s: State, t: nat)
    requires Conserved(s) && t < |s.threads| && Waits(s.threads[t]) && s.threads[t].output == s.current
    ensures Conserved(Put(s.(current := Unfenced(s.current)), t, Closing(s.current.value, s.current.value.fence.value)))
  {
    hide FramesTokens, Conserved;
    FramesNone();
    var s' := Put(s.(current := Unfenced(s.current)), t, Closing(s.current.value, s.current.value.fence.value));
    Balance(s, s', t, s'.threads[t]);
  }

  /** Giving back loose tokens the thread holds. */
  lemma SpendConserves(s: State, t: nat, tokens: multiset<Token>, l: Local)
    requires Conserved(s) && t < |s.threads| && LocalTokens(s.threads[t]) == tokens + LocalTokens(l)
    ensures Conserved(Put(Spend(s, tokens), t, l))
  {
    hide Conserved, LocalTokens, FramesTokens;
    Balance(s, Put(Spend(s, tokens), t, l), t, l);
  }

  lemma GivenConserves(s: State, t: nat, output: Frame, isNew: bool)
    requires Conserved(s) && t < |s.threads| && LocalTokens(s.threads[t]) == multiset{Ref(output.buffer)}
    ensures Conserved(Given(s, t, output, isNew))
  {
    hide Balanced;
    SpendConserves(s, t, multiset{Ref(output.buffer)}, Idle);
  }

  lemma MoveConserves(s: State, t: nat, l: Local)
    requires Conserved(s) && t < |s.threads| && LocalTokens(s.threads[t]) == LocalTokens(l)
    ensures Conserved(Put(s, t, l))
  {
    hide Conserved, LocalTokens, FramesTokens;
    Balance(s, Put(s, t, l), t, l);
  }

  /** A thread returns the frames of a list one by one. */
  lemma NextFrameConserves(s: State, t: nat, frames: seq<Frame>, l: Local)
    requires Conserved(s) && t < |s.threads| && frames != [] && LocalTokens(s.threads[t]) == FramesTokens(frames)
    requires LocalTokens(l) == FramesTokens(frames[1..])
    ensures Conserved(Put(Spend(s, ReleaseQueued(frames[0], None)), t, l))
  {
    hide Conserved, FrameTokens, FramesTokens, LocalTokens, ReleaseQueued;
    FramesFirst(frames);
    PlainReleaseConserves(s, t, frames[0], l);
  }

  lemma StaleConserves(s: State, t: nat)
    requires Conserved(s) && t < |s.threads| && s.threads[t].Acquired? && s.threads[t].stale != []
    ensures var l := s.threads[t];
            Conserved(Put(Spend(s, ReleaseQueued(l.stale[0], None)), t, l.(stale := l.stale[1..])))
  {
    hide Conserved, FrameTokens, FramesTokens, ReleaseQueued, OptionTokens, OutputTokens;
    var l := s.threads[t];
    FramesFirst(l.stale);
    assert LocalTokens(l) == FrameTokens(l.stale[0]) + LocalTokens(l.(stale := l.stale[1..]));
    PlainReleaseConserves(s, t, l.stale[0], l.(stale := l.stale[1..]));
  }

  lemma ReplaceConserves(s: State, t: nat, created: Option<nat>)
    requires Conserved(s) && t < |s.threads| && s.threads[t].Acquired? && s.threads[t].stale == []
    requires s.threads[t].replaced.Some?
    ensures var l := s.threads[t];
            Conserved(Put(Spend(s.(issued := s.issued + FenceToken(created)), ReleaseQueued(l.replaced.value, created)),
                          t, l.(replaced := None)))
  {
    hide Conserved, FrameTokens, ReleaseQueued, OutputTokens, FenceToken;
    var l := s.threads[t];
    assert LocalTokens(l) == FrameTokens(l.replaced.value) + LocalTokens(l.(replaced := None));
    ReleaseConserves(s, t, l.replaced.value, created, l.(replaced := None));
  }

  lemma NullConserves(s: State, fence: Option<nat>)
    requires Conserved(s)
    ensures Conserved(Spend(s.(issued := s.issued + FenceToken(fence)), FenceToken(fence)))
  {
    hide FenceToken, FramesTokens, ThreadsTokens;
  }

  lemma ProducerConserves(s: State, t: nat, move: Move)
    requires Conserved(s) && Next(s, t, move).Some?
    requires move.Offer? || move.OfferNull? || move.Enqueue? || move.Drain? || move.Take?
    ensures Conserved(Next(s, t, move).value)
  {
    hide Balanced, FrameTokens, FramesTokens, ReleaseQueued, EnqueueStep, DequeueStep, EmptyStep;
    FramesNone();
    var l := s.threads[t];
    match move
    case Offer(frame) => OfferConserves(s, t, frame);
    case OfferNull(fence) => NullConserves(s, fence);
    case Enqueue(mode, fails) => EnqueueConserves(s, t, mode, fails);
    case Drain =>
      if l.frames == [] {
        MoveConserves(s, t, Idle);
      } else {
        NextFrameConserves(s, t, l.frames, Draining(l.frames[1..]));
      }
    case Take =>
  }

  lemma ConsumerConserves(s: State, t: nat, move: Move)
    requires Conserved(s) && Next(s, t, move).Some? && (move.Lock? || move.Enter? || move.Retire?)
    ensures Conserved(Next(s, t, move).value)
  {
    hide Balanced, FrameTokens, FramesTokens, ReleaseQueued, EnqueueStep, DequeueStep, EmptyStep;
    FramesNone();
    var l := s.threads[t];
    match move
    case Lock(op) => MoveConserves(s, t, Entering(op));
    case Enter(mode) =>
      if l.op == Dequeue { DequeueConserves(s, t, mode); } else { EmptyConserves(s, t, l.op); }
    case Retire =>
      if l.frames == [] {
        MoveConserves(s, t, Idle);
      } else {
        NextFrameConserves(s, t, l.frames, Retiring(l.frames[1..]));
      }
  }

  lemma CleanupConserves(s: State, t: nat, move: Move)
    requires Conserved(s) && Next(s, t, move).Some? && (move.Discard? || move.Replace? || move.GiveUp?)
    ensures Conserved(Next(s, t, move).value)
  {
    hide Balanced, FrameTokens, FramesTokens, ReleaseQueued, EnqueueStep, DequeueStep, EmptyStep;
    FramesNone();
    match move
    case Discard => StaleConserves(s, t);
    case Replace(created) => ReplaceConserves(s, t, created);
    case GiveUp => MoveConserves(s, t, Idle);
  }

  /** After the cleanup a dequeue holds only its extra reference. */
  lemma OutputOnly(l: Local)
    requires l.Acquired? && l.stale == [] && l.replaced.None? && l.output.Some?
    ensures LocalTokens(l) == multiset{Ref(l.output.value.buffer)}
  {
  }

  lemma FailConserves(s: State, t: nat)
    requires Conserved(s) && t < |s.threads| && Waits(s.threads[t])
    ensures Conserved(Next(s, t, WaitFails).value)
  {
    hide Balanced, LocalTokens;
    var l := s.threads[t];
    OutputOnly(l);
    IdleHoldsNothing();
    SpendConserves(s, t, multiset{Ref(l.output.value.buffer)}, Idle);
  }

  lemma IdleHoldsNothing()
    ensures LocalTokens(Idle) == multiset{}
  {
  }

  lemma CloseConserves(s: State, t: nat)
    requires Conserved(s) && t < |s.threads| && s.threads[t].Closing?
    ensures Conserved(Next(s, t, Close).value)
  {
    hide Balanced, FramesTokens;
    var l := s.threads[t];
    SpendConserves(s, t, multiset{Fence(l.fence)}, Ready(l.shown, true));
  }

  lemma DeliverConserves(s: State, t: nat)
    requires Conserved(s) && Next(s, t, Deliver).Some?
    ensures Conserved(Next(s, t, Deliver).value)
  {
    hide Balanced, FramesTokens, Given;
    var l := s.threads[t];
    if l.Ready? {
      GivenConserves(s, t, l.shown, l.isNew);
    } else {
      OutputOnly(l);
      GivenConserves(s, t, l.output.value, l.isNew);
    }
  }

  lemma OutputConserves(s: State, t: nat, move: Move)
    requires Conserved(s) && Next(s, t, move).Some? && s.threads[t].Consumes()
    requires Agrees(s.threads[t], s.current, Shown(s.delivered, |s.acquired|))
    requires move.WaitFails? || move.WaitSucceeds? || move.Close? || move.Deliver?
    ensures Conserved(Next(s, t, move).value)
  {
    hide Balanced, Shown, Given, Unlocked, Spend;
    match move
    case WaitFails => FailConserves(s, t);
    case WaitSucceeds => WaitConserves(s, t);
    case Close => CloseConserves(s, t);
    case Deliver => DeliverConserves(s, t);
  }

  lemma NextConserves(s: State, t: nat, move: Move)
    requires Conserved(s) && Exclusive(s) && Phase(s) && Next(s, t, move).Some?
    ensures Conserved(Next(s, t, move).value)
  {
    hide Conserved, Shown, FirstIsNew, EnqueueStep, DequeueStep, EmptyStep, Put, Unlocked, Spend, Given;
    match move
    case Offer(_) => ProducerConserves(s, t, move);
    case OfferNull(_) => ProducerConserves(s, t, move);
    case Enqueue(_, _) => ProducerConserves(s, t, move);
    case Drain => ProducerConserves(s, t, move);
    case Take => ProducerConserves(s, t, move);
    case Lock(_) => ConsumerConserves(s, t, move);
    case Enter(_) => ConsumerConserves(s, t, move);
    case Retire => ConsumerConserves(s, t, move);
    case Discard => CleanupConserves(s, t, move);
    case Replace(_) => CleanupConserves(s, t, move);
    case GiveUp => CleanupConserves(s, t, move);
    case _ => OutputConserves(s, t, move);
  }

  // Mutual exclusion, abandonment

  /** A thread enters or leaves the consumer part together with the mutex. */
  lemma ExcludesPut(threads: seq<Local>, consumer: Option<nat>, t: nat, l: Local)
    requires Excludes(threads, consumer) && t < |threads|
    ensures (l.Consumes() <==> threads[t].Consumes()) ==> Excludes(threads[t := l], consumer)
    ensures consumer.None? && l.Consumes() ==> Excludes(threads[t := l], Some(t))
    ensures threads[t].Consumes() && !l.Consumes() ==> Excludes(threads[t := l], None)
  {
  }

  lemma SectionExclusive(s: State, t: nat, move: Move)
    requires Exclusive(s) && Next(s, t, move).Some? && (move.Enqueue? || move.Enter?)
    ensures Exclusive(Next(s, t, move).value)
  {
    hide Excludes, OutputTokens;
    ExcludesPut(s.threads, s.consumer, t, Idle);
    ExcludesPut(s.threads, s.consumer, t, Next(s, t, move).value.threads[t]);
  }

  lemma NextExclusive(s: State, t: nat, move: Move)
    requires Exclusive(s) && Next(s, t, move).Some?
    ensures Exclusive(Next(s, t, move).value)
  {
    hide Excludes, FrameTokens, FenceToken, ReleaseQueued, EnqueueStep, DequeueStep, EmptyStep;
    if move.Enqueue? || move.Enter? {
      SectionExclusive(s, t, move);
    } else {
      ExcludesPut(s.threads, s.consumer, t, Idle);
      ExcludesPut(s.threads, s.consumer, t, Next(s, t, move).value.threads[t]);
    }
  }

  lemma NextDrained(s: State, t: nat, move: Move)
    requires Drained(s) && Next(s, t, move).Some?
    ensures Drained(Next(s, t, move).value)
  {
    hide FrameTokens, ReleaseQueued, FenceToken, OutputTokens;
  }

  // New content

  lemma ShownMore(delivered: seq<Delivery>, d: Delivery, n: nat)
    ensures Shown(delivered + [d], n) <==> Shown(delivered, n) || d.nth == n
  {
    var more := delivered + [d];
    if Shown(delivered, n) {
      var k :| 0 <= k < |delivered| && delivered[k].nth == n;
      assert more[k].nth == n;
    }
    assert more[|delivered|] == d;
  }

  /** Deliveries refer to acquisitions up to the latest, so the next acquisition is not shown yet. */
  lemma NotShownYet(delivered: seq<Delivery>, n: nat)
    requires FirstIsNew(delivered, n)
    ensures FirstIsNew(delivered, n + 1) && !Shown(delivered, n + 1)
  {
  }

  lemma FirstIsNewMore(delivered: seq<Delivery>, n: nat, d: Delivery)
    requires FirstIsNew(delivered, n) && d.nth == n && (d.isNew <==> !Shown(delivered, n))
    ensures FirstIsNew(delivered + [d], n)
  {
    var more := delivered + [d];
    forall k | 0 <= k < |more| ensures more[k].isNew <==> !Shown(more[..k], more[k].nth) {
      if k < |delivered| {
        assert more[..k] == delivered[..k] && more[k] == delivered[k];
      } else {
        assert more[..k] == delivered;
      }
    }
  }

  /** Moves that touch neither the current frame nor the deliveries, of a thread outside the consumer. */
  lemma PhaseFrame(s: State, s': State)
    requires Phase(s) && s'.current == s.current && s'.delivered == s.delivered && s'.acquired == s.acquired
    requires Holder(s') == Holder(s) || (!InDequeue(Holder(s)) && !InDequeue(Holder(s')))
    ensures Phase(s')
  {
  }

  lemma ProducerPhase(s: State, t: nat, move: Move)
    requires Exclusive(s) && Phase(s) && Next(s, t, move).Some?
    requires move.Offer? || move.OfferNull? || move.Enqueue? || move.Drain? || move.Take?
    ensures Phase(Next(s, t, move).value)
  {
    hide FrameTokens, ReleaseQueued, FenceToken, OutputTokens, Phase;
    NextExclusive(s, t, move);
    PhaseFrame(s, Next(s, t, move).value);
  }

  lemma ConsumerPhase(s: State, t: nat, move: Move)
    requires Exclusive(s) && Phase(s) && Next(s, t, move).Some? && (move.Lock? || move.Retire?)
    ensures Phase(Next(s, t, move).value)
  {
    hide FrameTokens, ReleaseQueued, FenceToken, OutputTokens, Phase;
    PhaseFrame(s, Next(s, t, move).value);
  }

  lemma EmptyPhase(s: State, t: nat, op: ConsumerOp)
    requires Exclusive(s) && Phase(s) && t < |s.threads| && s.threads[t] == Entering(op) && op != Dequeue
    ensures Phase(EmptyStep(s, t, op))
  {
    hide FirstIsNew, Shown;
  }

  lemma DequeuePhase(s: State, t: nat, mode: Mode)
    requires Exclusive(s) && Phase(s) && t < |s.threads| && s.threads[t] == Entering(Dequeue)
    ensures Phase(DequeueStep(s, t, mode))
  {
    hide OutputTokens, FirstIsNew, Shown;
    NotShownYet(s.delivered, |s.acquired|);
    var s' := DequeueStep(s, t, mode);
    assert Holder(s) == Entering(Dequeue);
    if !s.abandoned && s.owned {
      assert Holder(s') == s'.threads[t];
    }
  }

  lemma EnterPhase(s: State, t: nat, mode: Mode)
    requires Exclusive(s) && Phase(s) && Next(s, t, Enter(mode)).Some?
    ensures Phase(Next(s, t, Enter(mode)).value)
  {
    hide Exclusive, Phase, EmptyStep, DequeueStep;
    if s.threads[t].op == Dequeue { DequeuePhase(s, t, mode); } else { EmptyPhase(s, t, s.threads[t].op); }
  }

  lemma CleanupPhase(s: State, t: nat, move: Move)
    requires Exclusive(s) && Phase(s) && Next(s, t, move).Some? && (move.Discard? || move.Replace? || move.GiveUp?)
    ensures Phase(Next(s, t, move).value)
  {
    hide FrameTokens, ReleaseQueued, FenceToken, FirstIsNew, Shown;
  }

  lemma FencePhase(s: State, t: nat, move: Move)
    requires Exclusive(s) && Phase(s) && Next(s, t, move).Some?
    requires move.WaitFails? || move.WaitSucceeds? || move.Close?
    ensures Phase(Next(s, t, move).value)
  {
    hide FirstIsNew, Shown;
  }

  lemma DeliverPhase(s: State, t: nat)
    requires Exclusive(s) && Phase(s) && Next(s, t, Deliver).Some?
    ensures Phase(Next(s, t, Deliver).value)
  {
    hide FrameTokens, ReleaseQueued, FenceToken, OutputTokens, FirstIsNew, Shown;
    var l, n := s.threads[t], |s.acquired|;
    var d := Delivery(n, if l.Ready? then l.shown.id else l.output.value.id, l.isNew);
    ShownMore(s.delivered, d, n);
    FirstIsNewMore(s.delivered, n, d);
  }

  lemma NextPhase(s: State, t: nat, move: Move)
    requires Exclusive(s) && Phase(s) && Next(s, t, move).Some?
    ensures Phase(Next(s, t, move).value)
  {
    hide Exclusive, Phase, EnqueueStep, DequeueStep, EmptyStep, Put, Unlocked, Spend, Given;
    match move
    case Offer(_) => ProducerPhase(s, t, move);
    case OfferNull(_) => ProducerPhase(s, t, move);
    case Enqueue(_, _) => ProducerPhase(s, t, move);
    case Drain => ProducerPhase(s, t, move);
    case Take => ProducerPhase(s, t, move);
    case Lock(_) => ConsumerPhase(s, t, move);
    case Enter(mode) => EnterPhase(s, t, mode);
    case Retire => ConsumerPhase(s, t, move);
    case Deliver => DeliverPhase(s, t);
    case Discard => CleanupPhase(s, t, move);
    case Replace(_) => CleanupPhase(s, t, move);
    case GiveUp => CleanupPhase(s, t, move);
    case _ => FencePhase(s, t, move);
  }

  // Order

  lemma {:induction false} SubsequenceMore(a: seq<nat>, b: seq<nat>, c: seq<nat>)
    requires Subsequence(a, b)
    ensures Subsequence(a, b + c)
    decreases |c|
  {
    if c == [] {
      assert b + c == b;
    } else {
      var n := |c| - 1;
      SubsequenceMore(a, b, c[..n]);
      assert (b + c)[..|b + c| - 1] == b + c[..n];
    }
  }

  lemma SubsequencePush(a: seq<nat>, b: seq<nat>, x: nat)
    requires Subsequence(a, b)
    ensures Subsequence(a + [x], b + [x])
  {
    assert (a + [x])[..|a|] == a && (b + [x])[..|b|] == b;
  }

  /** A published frame joins the queue's end. */
  lemma OrderedPush(pending: seq<Frame>, published: seq<nat>, acquired: seq<nat>, f: Frame)
    requires Ordered(pending, published, acquired)
    ensures Ordered(pending + [f], published + [f.id], acquired)
  {
    hide Subsequence;
    var n := |published| - |pending|;
    assert (published + [f.id])[..n] == published[..n];
  }

  /** Frames taken out of the queue unseen were still published. */
  lemma OrderedEmpty(pending: seq<Frame>, published: seq<nat>, acquired: seq<nat>)
    requires Ordered(pending, published, acquired)
    ensures Ordered([], published, acquired)
  {
    hide Subsequence;
    var n := |published| - |pending|;
    SubsequenceMore(acquired, published[..n], published[n..]);
    assert published[..n] + published[n..] == published == published[..|published|];
  }

  /** Taking the oldest frame. */
  lemma OrderedFirst(pending: seq<Frame>, published: seq<nat>, acquired: seq<nat>)
    requires Ordered(pending, published, acquired) && pending != []
    ensures Ordered(pending[1..], published, acquired + [pending[0].id])
  {
    hide Subsequence;
    var n := |published| - |pending|;
    assert published[n] == Ids(pending)[0];
    SubsequencePush(acquired, published[..n], published[n]);
    assert published[..n] + [published[n]] == published[..n + 1];
    assert published[n + 1..] == Ids(pending)[1..] == Ids(pending[1..]);
  }

  /** Taking the newest frame and dropping the rest. */
  lemma OrderedLast(pending: seq<Frame>, published: seq<nat>, acquired: seq<nat>)
    requires Ordered(pending, published, acquired) && pending != []
    ensures Ordered([], published, acquired + [pending[|pending| - 1].id])
  {
    hide Subsequence;
    var n, last := |published| - |pending|, |published| - 1;
    SubsequenceMore(acquired, published[..n], published[n..last]);
    assert published[..n] + published[n..last] == published[..last];
    SubsequencePush(acquired, published[..last], published[last]);
    assert published[..last] + [published[last]] == published == published[..|published|];
    assert published[last] == Ids(pending)[|pending| - 1];
  }

  lemma EnqueueInOrder(s: State, t: nat, frame: Frame, mode: Mode, fails: bool)
    requires InOrder(s) && t < |s.threads|
    ensures InOrder(EnqueueStep(s, t, frame, mode, fails))
  {
    hide Ordered;
    OrderedPush(s.pending, s.published, s.acquired, frame);
    OrderedEmpty(s.pending, s.published, s.acquired);
    OrderedPush([], s.published, s.acquired, frame);
  }

  lemma EmptyInOrder(s: State, t: nat, op: ConsumerOp)
    requires InOrder(s) && t < |s.threads|
    ensures InOrder(EmptyStep(s, t, op))
  {
    hide Ordered;
    OrderedEmpty(s.pending, s.published, s.acquired);
  }

  lemma DequeueInOrder(s: State, t: nat, mode: Mode)
    requires InOrder(s) && t < |s.threads|
    ensures InOrder(DequeueStep(s, t, mode))
  {
    hide Ordered, OutputTokens;
    if s.pending != [] {
      OrderedFirst(s.pending, s.published, s.acquired);
      OrderedLast(s.pending, s.published, s.acquired);
    }
  }

  lemma NextInOrder(s: State, t: nat, move: Move)
    requires InOrder(s) && Next(s, t, move).Some?
    ensures InOrder(Next(s, t, move).value)
  {
    hide Ordered, FrameTokens, ReleaseQueued, FenceToken, OutputTokens, EnqueueStep, DequeueStep, EmptyStep;
    match move
    case Enqueue(mode, fails) => EnqueueInOrder(s, t, s.threads[t].frame, mode, fails);
    case Enter(mode) =>
      if s.threads[t].op == Dequeue { DequeueInOrder(s, t, mode); } else { EmptyInOrder(s, t, s.threads[t].op); }
    case _ =>
  }

  // What deliveries hand out

  lemma RecordedMore(delivered: seq<Delivery>, acquired: seq<nat>, d: Delivery)
    requires Recorded(delivered, acquired) && HandsOut(d, acquired) && d.nth == |acquired|
    ensures Recorded(delivered + [d], acquired)
  {
    var more := delivered + [d];
    assert forall k :: 0 <= k < |delivered| ==> more[k] == delivered[k] && HandsOut(delivered[k], acquired);
  }

  lemma RecordedLater(delivered: seq<Delivery>, acquired: seq<nat>, id: nat)
    requires Recorded(delivered, acquired)
    ensures Recorded(delivered, acquired + [id])
  {
    forall k | 0 <= k < |delivered| ensures HandsOut(delivered[k], acquired + [id]) {
      assert HandsOut(delivered[k], acquired);
    }
  }

  lemma NamesLast(f: Frame, acquired: seq<nat>)
    ensures Names(Some(f), acquired + [f.id])
  {
  }

  lemma DequeueFaithful(s: State, t: nat, mode: Mode)
    requires Faithful(s) && t < |s.threads|
    ensures Faithful(DequeueStep(s, t, mode))
  {
    hide Recorded, Names, OutputTokens;
    if s.pending != [] {
      var next := if mode == Mailbox then s.pending[|s.pending| - 1] else s.pending[0];
      RecordedLater(s.delivered, s.acquired, next.id);
      NamesLast(next, s.acquired);
    }
  }

  lemma DeliverFaithful(s: State, t: nat)
    requires Exclusive(s) && Phase(s) && Faithful(s) && Next(s, t, Deliver).Some?
    ensures Faithful(Next(s, t, Deliver).value)
  {
    hide FirstIsNew, Shown, Recorded;
    var l := s.threads[t];
    assert Holder(s) == l;
    RecordedMore(s.delivered, s.acquired,
                 Delivery(|s.acquired|, if l.Ready? then l.shown.id else l.output.value.id, l.isNew));
  }

  lemma NextFaithful(s: State, t: nat, move: Move)
    requires Exclusive(s) && Phase(s) && Faithful(s) && Next(s, t, move).Some?
    ensures Faithful(Next(s, t, move).value)
  {
    hide Exclusive, Phase, Recorded, FrameTokens, ReleaseQueued, FenceToken, OutputTokens, DequeueStep;
    match move
    case Enter(mode) => if s.threads[t].op == Dequeue { DequeueFaithful(s, t, mode); }
    case Deliver => DeliverFaithful(s, t);
    case _ =>
  }

  // No buffers without ownership

  lemma QuietPut(threads: seq<Local>, t: nat, l: Local)
    requires NoneDequeues(threads) && t < |threads| && !InDequeue(l)
    ensures NoneDequeues(threads[t := l])
  {
  }

  /** While one thread holds the consumer mutex before its section, none is inside a dequeue. */
  lemma EnteringQuiet(s: State, t: nat)
    requires Exclusive(s) && t < |s.threads| && s.threads[t].Entering?
    ensures NoneDequeues(s.threads)
  {
    assert s.consumer == Some(t);
  }

  lemma EnterGated(s: State, t: nat, mode: Mode)
    requires Exclusive(s) && Gated(s) && Next(s, t, Enter(mode)).Some?
    ensures Gated(Next(s, t, Enter(mode)).value)
  {
    hide Exclusive, NoneDequeues, OutputTokens;
    EnteringQuiet(s, t);
    QuietPut(s.threads, t, Idle);
    QuietPut(s.threads, t, Retiring(s.pending + OptionFrames(s.current)));
  }

  lemma NextGated(s: State, t: nat, move: Move)
    requires Exclusive(s) && Gated(s) && Next(s, t, move).Some?
    ensures Gated(Next(s, t, move).value)
  {
    hide Exclusive, FrameTokens, ReleaseQueued, FenceToken, OutputTokens, DequeueStep, EmptyStep;
    if move.Enter? { EnterGated(s, t, move.mode); }
  }

  // Whole runs

  lemma {:induction false} InitialConserved(n: nat)
    ensures ThreadsTokens(seq(n, _ => Idle)) == multiset{}
  {
    if n > 0 {
      assert seq(n, _ => Idle)[1..] == seq(n - 1, _ => Idle);
      InitialConserved(n - 1);
    }
  }

  /** Every interleaving of any number of threads keeps the invariant. */
  lemma {:induction false} RunKeepsInv(n: nat, schedule: Schedule)
    requires Run(Initial(n), schedule).Some?
    ensures Inv(Run(Initial(n), schedule).value)
  {
    hide Next, Conserved, Exclusive, Phase, InOrder, Drained, Faithful, Gated;
    if schedule == [] {
      InitialInv(n);
    } else {
      var last := schedule[|schedule| - 1];
      RunKeepsInv(n, schedule[..|schedule| - 1]);
      var s := Run(Initial(n), schedule[..|schedule| - 1]).value;
      NextConserves(s, last.0, last.1);
      NextExclusive(s, last.0, last.1);
      NextDrained(s, last.0, last.1);
      NextPhase(s, last.0, last.1);
      NextInOrder(s, last.0, last.1);
      NextFaithful(s, last.0, last.1);
      NextGated(s, last.0, last.1);
    }
  }

  lemma InitialInv(n: nat)
    ensures Inv(Initial(n))
  {
    InitialConserved(n);
  }

  // What this means for a caller

  /** A token issued once is in exactly one place: queued, current, in some thread's hand, or given back once. */
  lemma ExactlyOnce(n: nat, schedule: Schedule, token: Token)
    requires Run(Initial(n), schedule).Some? && Run(Initial(n), schedule).value.issued[token] == 1
    ensures var s := Run(Initial(n), schedule).value;
            FramesTokens(s.pending)[token] + OptionTokens(s.current)[token]
            + ThreadsTokens(s.threads)[token] + s.spent[token] == 1
  {
    hide Next;
    RunKeepsInv(n, schedule);
  }

  /**
   * Once the consumer gave up the texture, or it was abandoned, and every thread has finished, everything
   * issued was given back but for frames queued since; after abandonment there are none of those.
   */
  lemma AllGivenBack(n: nat, schedule: Schedule)
    requires Run(Initial(n), schedule).Some?
    requires var s := Run(Initial(n), schedule).value;
             Unavailable(s) && forall t :: 0 <= t < |s.threads| ==> s.threads[t].Idle?
    ensures var s := Run(Initial(n), schedule).value;
            s.issued == FramesTokens(s.pending) + s.spent && (s.abandoned ==> s.issued == s.spent)
  {
    hide Next, ThreadsTokens, FrameTokens;
    RunKeepsInv(n, schedule);
    AllIdle(Run(Initial(n), schedule).value.threads);
  }

  lemma {:induction false} AllIdle(ts: seq<Local>)
    requires forall t :: 0 <= t < |ts| ==> ts[t].Idle?
    ensures ThreadsTokens(ts) == multiset{}
  {
    if ts != [] { AllIdle(ts[1..]); }
  }

  /** Frames become current in publication order, with gaps. */
  lemma AcquiredInOrder(n: nat, schedule: Schedule)
    requires Run(Initial(n), schedule).Some?
    ensures var s := Run(Initial(n), schedule).value; Subsequence(s.acquired, s.published)
  {
    hide Next, Subsequence;
    RunKeepsInv(n, schedule);
    var s := Run(Initial(n), schedule).value;
    var k := |s.published| - |s.pending|;
    SubsequenceMore(s.acquired, s.published[..k], s.published[k..]);
    assert s.published[..k] + s.published[k..] == s.published;
  }

  /**
   * A delivery hands out the frame that was acquired nth, reports new content exactly when no delivery before
   * it handed out that acquisition, and is never of an older one.
   */
  lemma FirstDeliveryIsNew(n: nat, schedule: Schedule, k: nat)
    requires Run(Initial(n), schedule).Some? && k < |Run(Initial(n), schedule).value.delivered|
    ensures var s := Run(Initial(n), schedule).value;
            var d := s.delivered;
            && 1 <= d[k].nth <= |s.acquired| && d[k].id == s.acquired[d[k].nth - 1]
            && (d[k].isNew <==> forall j :: 0 <= j < k ==> d[j].nth != d[k].nth)
            && (forall j :: 0 <= j < k ==> d[j].nth <= d[k].nth)
  {
    hide Next, Conserved, InOrder, Agrees;
    RunKeepsInv(n, schedule);
    var s := Run(Initial(n), schedule).value;
    var d := s.delivered;
    assert HandsOut(d[k], s.acquired);
    assert forall j :: 0 <= j < k ==> d[..k][j] == d[j];
    if Shown(d[..k], d[k].nth) {
      var j :| 0 <= j < |d[..k]| && d[..k][j].nth == d[k].nth;
      assert d[j].nth == d[k].nth;
    } else {
      assert forall j :: 0 <= j < k ==> d[..k][j].nth != d[k].nth;
    }
  }

  lemma {:induction false} RunPrefix(s: State, schedule: Schedule, k: nat)
    requires k <= |schedule| && Run(s, schedule).Some?
    ensures Run(s, schedule[..k]).Some?
    decreases |schedule|
  {
    if k == |schedule| {
      assert schedule[..k] == schedule;
    } else {
      var front := schedule[..|schedule| - 1];
      RunPrefix(s, front, k);
      assert front[..k] == schedule[..k];
    }
  }

  predicate Takes(schedule: Schedule) { exists i :: 0 <= i < |schedule| && schedule[i].1.Take? }

  /** Nothing is acquired or delivered by a step that finds no buffer to be had, and only taking ownership ends that. */
  lemma StaysUnavailable(s: State, t: nat, move: Move)
    requires Inv(s) && Unavailable(s) && Next(s, t, move).Some?
    ensures var s' := Next(s, t, move).value;
            && s'.acquired == s.acquired && s'.delivered == s.delivered
            && (s.abandoned ==> s'.abandoned && s'.published == s.published)
            && (s.abandoned || !move.Take? ==> Unavailable(s'))
  {
    hide Conserved, Exclusive, Phase, InOrder, Faithful, FrameTokens, ReleaseQueued, FenceToken, OutputTokens;
  }

  /**
   * From a point of a run where the texture is abandoned, or not owned and not taken again, nothing more is
   * acquired or delivered; once abandoned it stays so, and nothing more is published either.
   */
  lemma {:induction false} NothingWhileUnavailable(n: nat, schedule: Schedule, k: nat)
    requires Run(Initial(n), schedule).Some? && k <= |schedule|
    ensures Run(Initial(n), schedule[..k]).Some?
    ensures var s, s' := Run(Initial(n), schedule[..k]).value, Run(Initial(n), schedule).value;
            Unavailable(s) && (s.abandoned || !Takes(schedule[k..])) ==>
              && s'.acquired == s.acquired && s'.delivered == s.delivered && Unavailable(s')
              && (s.abandoned ==> s'.abandoned && s'.published == s.published)
    decreases |schedule|
  {
    hide Next, Inv, Unavailable;
    RunPrefix(Initial(n), schedule, k);
    if k == |schedule| {
      assert schedule[..k] == schedule;
    } else {
      var front, last := schedule[..|schedule| - 1], schedule[|schedule| - 1];
      NothingWhileUnavailable(n, front, k);
      assert front[..k] == schedule[..k] && schedule[k..] == front[k..] + [last];
      TakesEither(front[k..], last);
      var b := Run(Initial(n), front).value;
      RunKeepsInv(n, front);
      if Unavailable(b) { StaysUnavailable(b, last.0, last.1); }
    }
  }

  lemma TakesEither(front: Schedule, last: (nat, Move))
    ensures Takes(front + [last]) <==> Takes(front) || last.1.Take?
  {
    var all := front + [last];
    assert all[|front|] == last;
    if Takes(front) {
      var i :| 0 <= i < |front| && front[i].1.Take?;
      assert all[i].1.Take?;
    }
  }

  /** FIFO mode throughout, and nobody gives the texture up. */
  predicate FifoOnly(schedule: Schedule) {
    forall i :: 0 <= i < |schedule| ==> FifoMove(schedule[i].1)
  }

  predicate FifoMove(move: Move) {
    match move
    case Enqueue(mode, _) => mode == Fifo
    case Enter(mode) => mode == Fifo
    case Lock(op) => op == Dequeue
    case _ => true
  }

  ghost predicate OnlyDequeues(threads: seq<Local>) {
    forall t :: 0 <= t < |threads| && threads[t].Entering? ==> threads[t].op == Dequeue
  }

  lemma IdsPush(pending: seq<Frame>, f: Frame)
    ensures Ids(pending + [f]) == Ids(pending) + [f.id]
  {
  }

  lemma IdsFirst(pending: seq<Frame>)
    requires pending != []
    ensures [pending[0].id] + Ids(pending[1..]) == Ids(pending)
  {
  }

  lemma OnlyPut(threads: seq<Local>, t: nat, l: Local)
    requires OnlyDequeues(threads) && t < |threads| && (l.Entering? ==> l.op == Dequeue)
    ensures OnlyDequeues(threads[t := l])
  {
  }

  lemma SectionOnly(s: State, t: nat, move: Move)
    requires OnlyDequeues(s.threads) && Next(s, t, move).Some? && (move.Enqueue? || move.Enter?)
    ensures OnlyDequeues(Next(s, t, move).value.threads)
  {
    hide OnlyDequeues, OutputTokens;
    OnlyPut(s.threads, t, Next(s, t, move).value.threads[t]);
  }

  lemma OnlyStep(s: State, t: nat, move: Move)
    requires OnlyDequeues(s.threads) && FifoMove(move) && Next(s, t, move).Some?
    ensures OnlyDequeues(Next(s, t, move).value.threads)
  {
    hide OnlyDequeues, FrameTokens, ReleaseQueued, FenceToken, EnqueueStep, DequeueStep, EmptyStep;
    if move.Enqueue? || move.Enter? {
      SectionOnly(s, t, move);
    } else {
      OnlyPut(s.threads, t, Next(s, t, move).value.threads[t]);
    }
  }

  lemma FifoEnqueue(s: State, t: nat, fails: bool)
    requires s.acquired + Ids(s.pending) == s.published && t < |s.threads| && s.threads[t].Offering?
    ensures var s' := EnqueueStep(s, t, s.threads[t].frame, Fifo, fails); s'.acquired + Ids(s'.pending) == s'.published
  {
    hide Ids;
    var f := s.threads[t].frame;
    IdsPush(s.pending, f);
    assert s.acquired + (Ids(s.pending) + [f.id]) == s.published + [f.id];
  }

  lemma FifoDequeue(s: State, t: nat)
    requires s.acquired + Ids(s.pending) == s.published && t < |s.threads|
    ensures var s' := DequeueStep(s, t, Fifo); s'.acquired + Ids(s'.pending) == s'.published
  {
    hide Ids, OutputTokens;
    if s.pending != [] {
      IdsFirst(s.pending);
      var first, rest := [s.pending[0].id], Ids(s.pending[1..]);
      assert (s.acquired + first) + rest == s.acquired + (first + rest);
    }
  }

  lemma FifoStep(s: State, t: nat, move: Move)
    requires s.acquired + Ids(s.pending) == s.published && OnlyDequeues(s.threads)
    requires FifoMove(move) && Next(s, t, move).Some?
    ensures var s' := Next(s, t, move).value; s'.acquired + Ids(s'.pending) == s'.published
  {
    hide Ids, FrameTokens, ReleaseQueued, FenceToken, OutputTokens, EnqueueStep, DequeueStep, EmptyStep;
    if move.Enqueue? { FifoEnqueue(s, t, move.allocationFails); }
    if move.Enter? { FifoDequeue(s, t); }
  }

  /** In FIFO mode no frame is lost: those acquired and then those waiting are all that were published, in order. */
  lemma {:induction false} FifoLosesNothing(n: nat, schedule: Schedule)
    requires Run(Initial(n), schedule).Some? && FifoOnly(schedule)
    ensures var s := Run(Initial(n), schedule).value;
            s.acquired + Ids(s.pending) == s.published && OnlyDequeues(s.threads)
  {
    hide Next, Ids, OnlyDequeues;
    if schedule == [] {
      NoIds();
      NoneEntering(n);
    } else {
      var front, last := schedule[..|schedule| - 1], schedule[|schedule| - 1];
      assert forall i :: 0 <= i < |front| ==> front[i] == schedule[i];
      FifoLosesNothing(n, front);
      FifoStep(Run(Initial(n), front).value, last.0, last.1);
      OnlyStep(Run(Initial(n), front).value, last.0, last.1);
    }
  }

  lemma NoIds()
    ensures Ids([]) == []
  {
  }

  lemma NoneEntering(n: nat)
    ensures OnlyDequeues(Initial(n).threads)
  {
  }

  predicate MailboxOnly(schedule: Schedule) {
    forall i :: 0 <= i < |schedule| ==> schedule[i].1.Enqueue? ==> schedule[i].1.mode == Mailbox
  }

  /** While the window stays in MAILBOX mode at most one frame waits. */
  lemma {:induction false} MailboxKeepsOne(n: nat, schedule: Schedule)
    requires Run(Initial(n), schedule).Some? && MailboxOnly(schedule)
    ensures |Run(Initial(n), schedule).value.pending| <= 1
  {
    hide FrameTokens, ReleaseQueued, FenceToken, OutputTokens;
    if schedule != [] {
      var before := schedule[..|schedule| - 1];
      assert MailboxOnly(before);
      MailboxKeepsOne(n, before);
      var last := schedule[|schedule| - 1];
      OneMore(Run(Initial(n), before).value, last.0, last.1);
    }
  }

  lemma OneMore(s: State, t: nat, move: Move)
    requires |s.pending| <= 1 && Next(s, t, move).Some? && (move.Enqueue? ==> move.mode == Mailbox)
    ensures |Next(s, t, move).value.pending| <= 1
  {
    hide FrameTokens, ReleaseQueued, FenceToken, OutputTokens;
  }

  /** A dequeue takes the newest frame in MAILBOX mode and the oldest waiting one otherwise. */
  lemma DequeuePicks(s: State, t: nat, mode: Mode)
    requires InOrder(s) && t < |s.threads| && !s.abandoned && s.owned && s.pending != []
    ensures |s.pending| <= |s.published|
    ensures var picked := if mode == Mailbox then |s.published| - 1 else |s.published| - |s.pending|;
            DequeueStep(s, t, mode).acquired == s.acquired + [s.published[picked]]
  {
    hide OutputTokens, Subsequence;
    var k := |s.published| - |s.pending|;
    assert s.published[k] == s.published[k..][0] == Ids(s.pending)[0];
    assert s.published[|s.published| - 1] == s.published[k..][|s.pending| - 1] == Ids(s.pending)[|s.pending| - 1];
  }
}
