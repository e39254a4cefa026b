/**
 * What a run of the SurfaceTexture protocol owes to its moves: which frames were published, who holds the
 * texture, what was issued and delivered, and that every thread can go on.
 */
module SurfaceTextureHistory {
  import opened Options
  import opened SurfaceTexture
  import opened SurfaceTextureRuns

  // Publication

  /** The frame thread t offered last. */
  function LastOffer(schedule: Schedule, t: nat): Option<Frame> {
    if schedule == [] then None
    else
      var last := schedule[|schedule| - 1];
      if last.0 == t && last.1.Offer? then Some(last.1.frame) else LastOffer(schedule[..|schedule| - 1], t)
  }

  /** The ids of the frames whose push happened before abandonment and could allocate, in order. */
  ghost function Pushed(n: nat, schedule: Schedule): seq<nat> {
    if schedule == [] then []
    else
      var front, last := schedule[..|schedule| - 1], schedule[|schedule| - 1];
      var before, offer := Run(Initial(n), front), LastOffer(front, last.0);
      var takes := before.Some? && !before.value.abandoned && offer.Some?;
      var pushes := last.1.Enqueue? && !last.1.allocationFails && takes;
      Pushed(n, front) + (if pushes then [offer.value.id] else [])
  }

  /** The ids of all frames whose push happened. */
  function Enqueued(schedule: Schedule): seq<nat> {
    if schedule == [] then []
    else
      var front, last := schedule[..|schedule| - 1], schedule[|schedule| - 1];
      var offer := LastOffer(front, last.0);
      Enqueued(front) + (if last.1.Enqueue? && offer.Some? then [offer.value.id] else [])
  }

  lemma SectionMoves(s: State, t: nat, move: Move)
    requires Next(s, t, move).Some? && (move.Enqueue? || move.Enter?)
    ensures t < |s.threads| == |Next(s, t, move).value.threads|
    ensures var s' := Next(s, t, move).value;
            s'.threads == s.threads[t := s'.threads[t]] && !s'.threads[t].Offering?
  {
    hide OutputTokens, OptionFrames;
  }

  /** Only the thread that moves changes, and only an Offer makes it offer a frame. */
  lemma OneMoves(s: State, t: nat, move: Move)
    requires Next(s, t, move).Some?
    ensures t < |s.threads| == |Next(s, t, move).value.threads|
    ensures var s' := Next(s, t, move).value;
            && s'.threads == s.threads[t := s'.threads[t]]
            && (if move.Offer? then s'.threads[t] == Offering(move.frame)
                else s'.threads[t].Offering? ==> s'.threads[t] == s.threads[t])
  {
    hide FrameTokens, ReleaseQueued, FenceToken, EnqueueStep, DequeueStep, EmptyStep;
    if move.Enqueue? || move.Enter? { SectionMoves(s, t, move); }
  }

  /** What a thread offers is the frame of its last Offer. */
  lemma {:induction false} OffersItsOwn(n: nat, schedule: Schedule, t: nat)
    requires Run(Initial(n), schedule).Some? && t < |Run(Initial(n), schedule).value.threads|
    ensures var l := Run(Initial(n), schedule).value.threads[t]; l.Offering? ==> LastOffer(schedule, t) == Some(l.frame)
  {
    hide Next;
    if schedule != [] {
      var front, last := schedule[..|schedule| - 1], schedule[|schedule| - 1];
      OneMoves(Run(Initial(n), front).value, last.0, last.1);
      OffersItsOwn(n, front, t);
    }
  }

  /** A push queues the frame, under MAILBOX in place of what waited; that is what the thread then returns. */
  lemma EnqueueQueues(s: State, t: nat, mode: Mode, fails: bool)
    requires t < |s.threads| && s.threads[t].Offering?
    ensures Next(s, t, Enqueue(mode, fails)).Some?
    ensures var s', f := Next(s, t, Enqueue(mode, fails)).value, s.threads[t].frame;
            if s.abandoned || fails then
              s'.pending == s.pending && s'.published == s.published && s'.threads[t] == Draining([f])
            else
              && s'.published == s.published + [f.id]
              && (mode == Fifo ==> s'.pending == s.pending + [f] && s'.threads[t] == Draining([]))
              && (mode == Mailbox ==> s'.pending == [f] && s'.threads[t] == Draining(s.pending))
  {
  }

  lemma StepPublishes(s: State, t: nat, move: Move)
    requires Next(s, t, move).Some? && !move.Enqueue?
    ensures Next(s, t, move).value.published == s.published
  {
    hide FrameTokens, ReleaseQueued, FenceToken, OutputTokens, OptionFrames, EnqueueStep;
  }

  /** In every run exactly the frames pushed were published. */
  lemma {:induction false} PublishedArePushed(n: nat, schedule: Schedule)
    requires Run(Initial(n), schedule).Some?
    ensures Run(Initial(n), schedule).value.published == Pushed(n, schedule)
  {
    hide Next;
    if schedule != [] {
      var front, last := schedule[..|schedule| - 1], schedule[|schedule| - 1];
      var s := Run(Initial(n), front).value;
      PublishedArePushed(n, front);
      if last.1.Enqueue? {
        EnqueueEnabled(s, last.0, last.1);
        OffersItsOwn(n, front, last.0);
        EnqueueQueues(s, last.0, last.1.mode, last.1.allocationFails);
      } else {
        StepPublishes(s, last.0, last.1);
      }
    }
  }

  lemma EnqueueEnabled(s: State, t: nat, move: Move)
    requires move.Enqueue? && Next(s, t, move).Some?
    ensures t < |s.threads| && s.threads[t].Offering?
  {
  }

  // Who holds the texture

  /** Move k is the section of this consumer operation. */
  ghost predicate SectionAt(n: nat, schedule: Schedule, k: nat, op: ConsumerOp)
    requires k < |schedule|
  {
    var before, t := Run(Initial(n), schedule[..k]), schedule[k].0;
    schedule[k].1.Enter? && before.Some? && t < |before.value.threads| && before.value.threads[t] == Entering(op)
  }

  ghost predicate Gives(n: nat, schedule: Schedule, k: nat)
    requires k < |schedule|
  {
    SectionAt(n, schedule, k, Abandon) || SectionAt(n, schedule, k, Destroy)
  }

  ghost predicate GivenUp(n: nat, schedule: Schedule) {
    exists k :: 0 <= k < |schedule| && Gives(n, schedule, k)
  }

  /** Taken at move k and not released since. */
  ghost predicate HeldSince(n: nat, schedule: Schedule, k: nat)
    requires k < |schedule|
  {
    schedule[k].1.Take? && forall j :: k < j < |schedule| ==> !SectionAt(n, schedule, j, ReleaseOwnership)
  }

  ghost predicate Held(n: nat, schedule: Schedule) {
    exists k :: 0 <= k < |schedule| && HeldSince(n, schedule, k)
  }

  predicate IsSection(s: State, t: nat, move: Move, op: ConsumerOp) {
    move.Enter? && t < |s.threads| && s.threads[t] == Entering(op)
  }

  lemma StepHolds(s: State, t: nat, move: Move)
    requires Next(s, t, move).Some?
    ensures var s' := Next(s, t, move).value;
            && (s'.abandoned <==> s.abandoned || IsSection(s, t, move, Abandon) || IsSection(s, t, move, Destroy))
            && (s'.owned <==> move.Take? || (s.owned && !IsSection(s, t, move, ReleaseOwnership)))
  {
    hide FrameTokens, ReleaseQueued, FenceToken, OutputTokens, OptionFrames;
  }

  lemma SectionEarlier(n: nat, schedule: Schedule, k: nat, op: ConsumerOp)
    requires k < |schedule| - 1
    ensures SectionAt(n, schedule, k, op) <==> SectionAt(n, schedule[..|schedule| - 1], k, op)
  {
    assert schedule[..|schedule| - 1][..k] == schedule[..k];
  }

  lemma SectionLast(n: nat, schedule: Schedule, op: ConsumerOp)
    requires schedule != [] && Run(Initial(n), schedule).Some?
    ensures Run(Initial(n), schedule[..|schedule| - 1]).Some?
    ensures var s, last := Run(Initial(n), schedule[..|schedule| - 1]).value, schedule[|schedule| - 1];
            SectionAt(n, schedule, |schedule| - 1, op) <==> IsSection(s, last.0, last.1, op)
  {
    hide Next;
  }

  /** After every run the texture is abandoned exactly when some abandon or last release went through its section. */
  lemma {:induction false} AbandonedIff(n: nat, schedule: Schedule)
    requires Run(Initial(n), schedule).Some?
    ensures Run(Initial(n), schedule).value.abandoned <==> GivenUp(n, schedule)
  {
    hide Next, SectionAt;
    if schedule != [] {
      var k := |schedule| - 1;
      var front, last := schedule[..k], schedule[k];
      AbandonedIff(n, front);
      SectionLast(n, schedule, Abandon);
      SectionLast(n, schedule, Destroy);
      StepHolds(Run(Initial(n), front).value, last.0, last.1);
      forall j: nat | j < k ensures Gives(n, schedule, j) <==> Gives(n, front, j) {
        SectionEarlier(n, schedule, j, Abandon);
        SectionEarlier(n, schedule, j, Destroy);
      }
      if Gives(n, schedule, k) { assert GivenUp(n, schedule); }
      if GivenUp(n, front) {
        var j :| 0 <= j < |front| && Gives(n, front, j);
        assert Gives(n, schedule, j);
      }
      if GivenUp(n, schedule) && !Gives(n, schedule, k) {
        var j :| 0 <= j < |schedule| && Gives(n, schedule, j);
        assert Gives(n, front, j);
      }
    }
  }

  /** And the consumer holds it exactly when it was taken and not released since. */
  lemma {:induction false} OwnedIff(n: nat, schedule: Schedule)
    requires Run(Initial(n), schedule).Some?
    ensures Run(Initial(n), schedule).value.owned <==> Held(n, schedule)
  {
    hide Next, SectionAt;
    if schedule != [] {
      var k := |schedule| - 1;
      var front, last := schedule[..k], schedule[k];
      OwnedIff(n, front);
      SectionLast(n, schedule, ReleaseOwnership);
      StepHolds(Run(Initial(n), front).value, last.0, last.1);
      HeldStep(n, schedule);
    }
  }

  lemma HeldStep(n: nat, schedule: Schedule)
    requires schedule != []
    ensures var k := |schedule| - 1;
            Held(n, schedule) <==>
            schedule[k].1.Take? || (Held(n, schedule[..k]) && !SectionAt(n, schedule, k, ReleaseOwnership))
  {
    hide SectionAt;
    var k := |schedule| - 1;
    var front := schedule[..k];
    forall j: nat | j < k
      ensures SectionAt(n, schedule, j, ReleaseOwnership) <==> SectionAt(n, front, j, ReleaseOwnership)
    {
      SectionEarlier(n, schedule, j, ReleaseOwnership);
    }
    if schedule[k].1.Take? { assert HeldSince(n, schedule, k); }
    if Held(n, front) && !SectionAt(n, schedule, k, ReleaseOwnership) {
      var j :| 0 <= j < |front| && HeldSince(n, front, j);
      assert HeldSince(n, schedule, j);
    }
    if Held(n, schedule) && !schedule[k].1.Take? {
      var j :| 0 <= j < |schedule| && HeldSince(n, schedule, j);
      assert HeldSince(n, front, j);
    }
  }

  /** Nobody abandons, and every push allocates. */
  ghost predicate Undisturbed(n: nat, schedule: Schedule) {
    && !GivenUp(n, schedule)
    && forall k :: 0 <= k < |schedule| && schedule[k].1.Enqueue? ==> !schedule[k].1.allocationFails
  }

  /** Then every frame pushed was published, in order. */
  lemma {:induction false} PublishedAreEnqueued(n: nat, schedule: Schedule)
    requires Run(Initial(n), schedule).Some? && Undisturbed(n, schedule)
    ensures Run(Initial(n), schedule).value.published == Enqueued(schedule)
  {
    PublishedArePushed(n, schedule);
    PushedAll(n, schedule);
  }

  lemma {:induction false} PushedAll(n: nat, schedule: Schedule)
    requires Run(Initial(n), schedule).Some? && Undisturbed(n, schedule)
    ensures Pushed(n, schedule) == Enqueued(schedule)
  {
    hide Next, SectionAt;
    if schedule != [] {
      var k := |schedule| - 1;
      var front := schedule[..k];
      UndisturbedFront(n, schedule);
      PushedAll(n, front);
      AbandonedIff(n, front);
    }
  }

  lemma UndisturbedFront(n: nat, schedule: Schedule)
    requires schedule != [] && Undisturbed(n, schedule)
    ensures Undisturbed(n, schedule[..|schedule| - 1])
  {
    hide SectionAt;
    var front := schedule[..|schedule| - 1];
    forall j: nat | j < |front| ensures !Gives(n, front, j) {
      SectionEarlier(n, schedule, j, Abandon);
      SectionEarlier(n, schedule, j, Destroy);
      assert !Gives(n, schedule, j);
    }
    assert forall k :: 0 <= k < |front| ==> front[k] == schedule[k];
  }

  /** In FIFO mode, undisturbed, every frame pushed is acquired or waiting, in the order of the pushes. */
  lemma FifoKeepsPushes(n: nat, schedule: Schedule)
    requires Run(Initial(n), schedule).Some? && Undisturbed(n, schedule) && FifoOnly(schedule)
    ensures var s := Run(Initial(n), schedule).value; s.acquired + Ids(s.pending) == Enqueued(schedule)
  {
    hide Next, Undisturbed;
    PublishedAreEnqueued(n, schedule);
    FifoLosesNothing(n, schedule);
  }

  // What is issued, and how often there is a delivery

  /** Slots and fences come in with offers, and fences for frames that are replaced. */
  function Brought(move: Move): multiset<Token> {
    match move
    case Offer(frame) => FrameTokens(frame)
    case OfferNull(fence) => FenceToken(fence)
    case Replace(created) => FenceToken(created)
    case _ => multiset{}
  }

  function AllBrought(schedule: Schedule): multiset<Token> {
    if schedule == [] then multiset{}
    else AllBrought(schedule[..|schedule| - 1]) + Brought(schedule[|schedule| - 1].1)
  }

  lemma StepIssues(s: State, t: nat, move: Move, token: Token)
    requires Next(s, t, move).Some?
    ensures var s' := Next(s, t, move).value;
            if token.Ref? then s'.issued[token] >= s.issued[token] + Brought(move)[token]
            else s'.issued[token] == s.issued[token] + Brought(move)[token]
  {
    hide FrameTokens, ReleaseQueued, FenceToken, OptionFrames;
  }

  /** What the moves brought in is what was issued; a dequeue only adds buffer references of its own. */
  lemma {:induction false} IssuedIsBrought(n: nat, schedule: Schedule, token: Token)
    requires Run(Initial(n), schedule).Some?
    ensures var s := Run(Initial(n), schedule).value;
            if token.Ref? then s.issued[token] >= AllBrought(schedule)[token]
            else s.issued[token] == AllBrought(schedule)[token]
  {
    hide Next, Brought;
    if schedule != [] {
      var front, last := schedule[..|schedule| - 1], schedule[|schedule| - 1];
      IssuedIsBrought(n, front, token);
      StepIssues(Run(Initial(n), front).value, last.0, last.1, token);
    }
  }

  function Delivers(schedule: Schedule): nat {
    if schedule == [] then 0
    else Delivers(schedule[..|schedule| - 1]) + if schedule[|schedule| - 1].1.Deliver? then 1 else 0
  }

  lemma StepDelivers(s: State, t: nat, move: Move)
    requires Next(s, t, move).Some?
    ensures |Next(s, t, move).value.delivered| == |s.delivered| + if move.Deliver? then 1 else 0
  {
    hide FrameTokens, ReleaseQueued, FenceToken, OutputTokens, OptionFrames;
  }

  /** Every Deliver is one delivery. */
  lemma {:induction false} DeliveriesCounted(n: nat, schedule: Schedule)
    requires Run(Initial(n), schedule).Some?
    ensures |Run(Initial(n), schedule).value.delivered| == Delivers(schedule)
  {
    hide Next;
    if schedule != [] {
      var front, last := schedule[..|schedule| - 1], schedule[|schedule| - 1];
      DeliveriesCounted(n, front);
      StepDelivers(Run(Initial(n), front).value, last.0, last.1);
    }
  }

  // Every thread can go on

  /** The move a thread can make next, whatever the others do. */
  function Onward(l: Local): Move {
    match l
    case Idle => Take
    case Offering(_) => Enqueue(Fifo, false)
    case Draining(_) => Drain
    case Entering(_) => Enter(Fifo)
    case Retiring(_) => Retire
    case Acquired(stale, replaced, output, _) =>
      if stale != [] then Discard
      else if replaced.Some? then Replace(None)
      else if output.None? then GiveUp
      else if output.value.fence.Some? then WaitSucceeds
      else Deliver
    case Closing(_, _) => Close
    case Ready(_, _) => Deliver
  }

  /** No thread is ever stuck; only the consumer mutex has to be waited for. */
  lemma NoThreadStuck(s: State, t: nat)
    requires t < |s.threads|
    ensures Next(s, t, Onward(s.threads[t])).Some?
    ensures s.threads[t].Idle? && s.consumer.None? ==> forall op :: Next(s, t, Lock(op)).Some?
    ensures s.threads[t].Idle? ==> forall frame :: Next(s, t, Offer(frame)).Some?
  {
    hide FrameTokens, ReleaseQueued, FenceToken, OutputTokens, EnqueueStep, DequeueStep, EmptyStep;
  }

  /** Nothing but what threads hold and what was given back has changed. */
  predicate SameQueue(s: State, s': State) {
    && s'.pending == s.pending && s'.current == s.current && s'.acquired == s.acquired && s'.delivered == s.delivered
    && s'.published == s.published && s'.consumer == s.consumer && s'.owned == s.owned && s'.abandoned == s.abandoned
    && |s'.threads| == |s.threads|
  }

  lemma Then(s0: State, schedule: Schedule, s: State, t: nat, move: Move) returns (more: Schedule)
    requires Run(s0, schedule) == Some(s)
    ensures Run(s0, more) == Next(s, t, move)
  {
    hide Next;
    more := schedule + [(t, move)];
    assert more[..|schedule|] == schedule;
  }

  /** A dequeue returns the stale frames one by one, and the frame it replaced. */
  lemma {:induction false} CleansUp(s0: State, schedule: Schedule, s: State, t: nat) returns (more: Schedule, s': State)
    requires Run(s0, schedule) == Some(s) && t < |s.threads| && s.threads[t].Acquired?
    ensures Run(s0, more) == Some(s') && SameQueue(s, s')
    ensures s'.threads[t] == s.threads[t].(stale := [], replaced := None)
    decreases |s.threads[t].stale|
  {
    hide Run, ReleaseQueued, FenceToken;
    var l := s.threads[t];
    if l.stale != [] {
      more := Then(s0, schedule, s, t, Discard);
      var s1 := Next(s, t, Discard).value;
      more, s' := CleansUp(s0, more, s1, t);
    } else if l.replaced.Some? {
      more := Then(s0, schedule, s, t, Replace(None));
      s' := Next(s, t, Replace(None)).value;
    } else {
      more, s' := schedule, s;
    }
  }

  /** With its cleanup done a dequeue waits for the fence, if any, and delivers. */
  lemma Delivered(s0: State, schedule: Schedule, s: State, t: nat, f: Frame, isNew: bool)
    returns (more: Schedule, s': State)
    requires Run(s0, schedule) == Some(s) && t < |s.threads|
    requires s.threads[t] == Acquired([], None, Some(f), isNew) && s.current == Some(f)
    ensures Run(s0, more) == Some(s') && |s'.threads| == |s.threads| && s'.threads[t].Idle? && s'.consumer.None?
    ensures s'.delivered == s.delivered + [Delivery(|s.acquired|, f.id, isNew || f.fence.Some?)]
    ensures s'.current == Some(f.(fence := None)) && s'.pending == s.pending
    ensures s'.acquired == s.acquired && s'.published == s.published
  {
    hide Run;
    more, s' := schedule, s;
    if f.fence.Some? {
      more := Then(s0, more, s', t, WaitSucceeds);
      s' := Next(s', t, WaitSucceeds).value;
      more := Then(s0, more, s', t, Close);
      s' := Next(s', t, Close).value;
    }
    more := Then(s0, more, s', t, Deliver);
    s' := Next(s', t, Deliver).value;
  }

  /**
   * While a consumer holds the texture and frames wait, a thread that gets the consumer mutex can dequeue: it
   * delivers the newest frame under MAILBOX and the oldest otherwise, as new content, and leaves it current.
   */
  lemma DequeueDelivers(s: State, t: nat, mode: Mode) returns (schedule: Schedule, s': State)
    requires t < |s.threads| && s.threads[t].Idle? && s.consumer.None? && s.owned && !s.abandoned && s.pending != []
    ensures var f := if mode == Mailbox then s.pending[|s.pending| - 1] else s.pending[0];
            && Run(s, schedule) == Some(s') && |s'.threads| == |s.threads| && s'.threads[t].Idle? && s'.consumer.None?
            && s'.acquired == s.acquired + [f.id] && s'.published == s.published
            && s'.delivered == s.delivered + [Delivery(|s.acquired| + 1, f.id, true)]
            && s'.current == Some(f.(fence := None)) && s'.pending == if mode == Mailbox then [] else s.pending[1..]
  {
    hide Run;
    RunNone(s);
    schedule := Then(s, [], s, t, Lock(Dequeue));
    var s1 := Next(s, t, Lock(Dequeue)).value;
    schedule := Then(s, schedule, s1, t, Enter(mode));
    var s2 := Next(s1, t, Enter(mode)).value;
    hide Next;
    schedule, s' := CleansUp(s, schedule, s2, t);
    schedule, s' := Delivered(s, schedule, s', t, s2.current.value, true);
  }

  /** With nothing waiting it delivers the current frame again, as new content only if no wait for it succeeded yet. */
  lemma DequeueRepeats(s: State, t: nat, mode: Mode) returns (schedule: Schedule, s': State)
    requires t < |s.threads| && s.threads[t].Idle? && s.consumer.None? && s.owned && !s.abandoned
    requires s.pending == [] && s.current.Some?
    ensures var f := s.current.value;
            && Run(s, schedule) == Some(s') && |s'.threads| == |s.threads| && s'.threads[t].Idle? && s'.consumer.None?
            && s'.acquired == s.acquired && s'.published == s.published && s'.pending == []
            && s'.delivered == s.delivered + [Delivery(|s.acquired|, f.id, f.fence.Some?)]
            && s'.current == Some(f.(fence := None))
  {
    hide Run;
    RunNone(s);
    schedule := Then(s, [], s, t, Lock(Dequeue));
    var s1 := Next(s, t, Lock(Dequeue)).value;
    schedule := Then(s, schedule, s1, t, Enter(mode));
    var s2 := Next(s1, t, Enter(mode)).value;
    hide Next;
    schedule, s' := Delivered(s, schedule, s2, t, s2.current.value, false);
  }

  lemma RunNone(s: State)
    ensures Run(s, []) == Some(s)
  {
  }

  /** From the first offer on: a frame offered and taken up reaches the consumer. */
  lemma FirstFrame(f: Frame) returns (schedule: Schedule, s: State)
    ensures Run(Initial(1), schedule) == Some(s) && s.published == s.acquired == [f.id]
    ensures s.delivered == [Delivery(1, f.id, true)] && s.current == Some(f.(fence := None)) && s.threads == [Idle]
  {
    hide Run;
    var s0 := Initial(1);
    RunNone(s0);
    schedule := Then(s0, [], s0, 0, Offer(f));
    s := Next(s0, 0, Offer(f)).value;
    schedule := Then(s0, schedule, s, 0, Enqueue(Fifo, false));
    s := Next(s, 0, Enqueue(Fifo, false)).value;
    schedule := Then(s0, schedule, s, 0, Drain);
    s := Next(s, 0, Drain).value;
    schedule := Then(s0, schedule, s, 0, Take);
    s := Next(s, 0, Take).value;
    assert s.threads == [Idle] && s.pending == [f];
    var rest, s' := DequeueDelivers(s, 0, Fifo);
    schedule := Joined(s0, schedule, s, rest, s');
    s := s';
  }

  lemma {:induction false} Joined(s0: State, a: Schedule, s: State, b: Schedule, s': State) returns (both: Schedule)
    requires Run(s0, a) == Some(s) && Run(s, b) == Some(s')
    ensures both == a + b && Run(s0, both) == Some(s')
    decreases |b|
  {
    hide Next;
    if b == [] {
      both := a;
    } else {
      var front, last := b[..|b| - 1], b[|b| - 1];
      var middle := Joined(s0, a, s, front, Run(s, front).value);
      both := Then(s0, middle, Run(s, front).value, last.0, last.1);
      both := a + b;
      assert both[..|both| - 1] == middle;
    }
  }
}
