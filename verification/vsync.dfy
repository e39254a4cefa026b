/**
 * The 60 Hz vsync source behind a display event receiver: requests arm a timer thread, the timer
 * writes pulses into a pipe, looper callbacks drain the pipe and dispatch, and disposal tears all of
 * it down.  Sections under the receiver's mutex are single steps; threads interleave in any order.
 */
module Vsync {
  import opened Options

  const INTERVAL := 16_666_667

  /** NextDisplayDeadline: the first frame boundary after now. */
  function NextDeadline(now: nat): (deadline: nat)
    ensures now < deadline <= now + INTERVAL && deadline % INTERVAL == 0
  {
    (now / INTERVAL + 1) * INTERVAL
  }

  /** Two frame boundaries with a moment between them are at least a frame apart. */
  lemma FrameApart(d: nat, now: nat)
    requires d % INTERVAL == 0 && d <= now
    ensures d + INTERVAL <= NextDeadline(now)
  {
    assert d == INTERVAL * (d / INTERVAL) && d / INTERVAL <= now / INTERVAL;
  }

  datatype Timer = Waiting | Sleeping(deadline: nat) | Writing(open: bool) | Stopped

  datatype Local =
    | Idle
    | Draining(got: bool)      // a looper callback reading the pipe
    | Ready                    // about to take the mutex in DispatchPending
    | Dispatching              // counted in callbacks, using the Java references
    | AwaitingCallbacks        // Dispose, after it marked the receiver disposed
    | Removing(holds: bool)    // Dispose, after it took the descriptors away; holds when it was the first to do so
    | Joining(holds: bool)     // Dispose, after it took the read end off the looper
    | Deleting                 // Dispose, after the timer thread ended and the pipe was closed

  datatype State = State(
    now: nat, pending: bool, armed: bool, deadline: nat, disposed: bool, stop: bool, registered: bool,
    callbacks: int, pipe: nat, timer: Timer, threads: seq<Local>, removed: bool, closed: bool, deleted: bool,
    armings: seq<nat>)

  /** A receiver as NativeInit publishes it: transport registered, timer thread started. */
  function Initial(now: nat, threads: nat): State {
    State(now, false, false, 0, false, false, true, 0, 0, Waiting, seq(threads, _ => Idle), false, false, false, [])
  }

  datatype Move =
    | Tick(now: nat)
    | Schedule
    | TimerWake | TimerRecheck | TimerFire | TimerWrite
    | Callback(t: nat)          // the looper calls back
    | Read(t: nat)
    | HostDispatch(t: nat)      // DispatchPendingVsyncs
    | Dispatch(t: nat)
    | Done(t: nat)
    | Dispose(t: nat) | DisposeTakes(t: nat) | DisposeRemoves(t: nat) | DisposeJoins(t: nat) | DisposeDeletes(t: nat)

  predicate HasThread(m: Move) {
    !m.Tick? && !m.Schedule? && !m.TimerWake? && !m.TimerRecheck? && !m.TimerFire? && !m.TimerWrite?
  }

  function Put(s: State, t: nat, l: Local): State
    requires t < |s.threads|
  {
    s.(threads := s.threads[t := l])
  }

  /** The timer's predicate for leaving its timed wait early. */
  predicate Disturbed(s: State, d: nat) { s.stop || !s.armed || s.deadline != d }

  predicate Disposes(m: Move) {
    m.Dispose? || m.DisposeTakes? || m.DisposeRemoves? || m.DisposeJoins? || m.DisposeDeletes?
  }

  /** The clock, requests, and the timer thread. */
  function TimerNext(s: State, m: Move, capacity: nat): Option<State>
    requires !HasThread(m)
  {
    match m
    case Tick(now) => if now < s.now then None else Some(s.(now := now))
    case Schedule =>
      if s.disposed then Some(s)
      else if s.registered && !s.armed then
        var d := NextDeadline(s.now);
        Some(s.(pending := true, armed := true, deadline := d, armings := s.armings + [d]))
      else Some(s.(pending := true))
    case TimerWake =>
      if !s.timer.Waiting? || !(s.stop || s.armed) then None
      else Some(s.(timer := if s.stop then Stopped else Sleeping(s.deadline)))
    case TimerRecheck =>
      if !s.timer.Sleeping? || !Disturbed(s, s.timer.deadline) then None else Some(s.(timer := Waiting))
    case TimerFire =>
      if !s.timer.Sleeping? || Disturbed(s, s.timer.deadline) || s.now < s.timer.deadline then None
      else Some(s.(armed := false, timer := Writing(s.registered)))
    case TimerWrite =>
      if !s.timer.Writing? then None
      else Some(s.(timer := Waiting, pipe := if s.timer.open && s.pipe < capacity then s.pipe + 1 else s.pipe))
  }

  /** Looper callbacks and dispatches. */
  function ThreadNext(s: State, m: Move): Option<State>
    requires HasThread(m) && !Disposes(m) && m.t < |s.threads|
  {
    match m
    case Callback(t) =>
      if s.threads[t] != Idle || s.removed then None else Some(Put(s, t, Draining(false)))
    case Read(t) =>
      if !s.threads[t].Draining? then None
      else if s.pipe > 0 && !s.closed then Some(Put(s.(pipe := s.pipe - 1), t, Draining(true)))
      else Some(Put(s, t, if s.threads[t].got then Ready else Idle))
    case HostDispatch(t) => if s.threads[t] != Idle then None else Some(Put(s, t, Ready))
    case Dispatch(t) =>
      if s.threads[t] != Ready then None
      else if s.disposed || !s.pending || s.deleted then Some(Put(s, t, Idle))
      else Some(Put(s.(pending := false, callbacks := s.callbacks + 1), t, Dispatching))
    case Done(t) =>
      if s.threads[t] != Dispatching then None else Some(Put(s.(callbacks := s.callbacks - 1), t, Idle))
  }

  /** Dispose, section by section. */
  function DisposeNext(s: State, m: Move): Option<State>
    requires Disposes(m) && m.t < |s.threads|
  {
    match m
    case Dispose(t) =>
      if s.threads[t] != Idle then None else Some(Put(s.(disposed := true, stop := true), t, AwaitingCallbacks))
    case DisposeTakes(t) =>
      if s.threads[t] != AwaitingCallbacks || s.callbacks != 0 then None
      else Some(Put(s.(registered := false), t, Removing(s.registered)))
    case DisposeRemoves(t) =>
      if !s.threads[t].Removing? then None
      else Some(Put(s.(removed := s.removed || s.threads[t].holds), t, Joining(s.threads[t].holds)))
    case DisposeJoins(t) =>
      if !s.threads[t].Joining? || s.timer != Stopped then None
      else Some(Put(s.(closed := s.closed || s.threads[t].holds), t, Deleting))
    case DisposeDeletes(t) =>
      if s.threads[t] != Deleting then None else Some(Put(s.(deleted := true), t, Idle))
  }

  /** One step, or None when it cannot happen; capacity is how many pulses the pipe holds. */
  function Next(s: State, m: Move, capacity: nat): Option<State> {
    if !HasThread(m) then TimerNext(s, m, capacity)
    else if m.t >= |s.threads| then None
    else if Disposes(m) then DisposeNext(s, m)
    else ThreadNext(s, m)
  }

  function Run(s: State, moves: seq<Move>, capacity: nat): Option<State> {
    if moves == [] then Some(s)
    else
      var before := Run(s, moves[..|moves| - 1], capacity);
      if before.None? then None else Next(before.value, moves[|moves| - 1], capacity)
  }

  // No request is lost

  /** A callback that has a pulse in hand and will still dispatch. */
  predicate Carries(l: Local) { l == Draining(true) || l == Ready }

  ghost predicate Carried(threads: seq<Local>) {
    exists t :: 0 <= t < |threads| && Carries(threads[t])
  }

  /** A pending request of a live receiver is on its way: timer armed, pulse being written, in the pipe, or in hand. */
  ghost predicate NotLost(s: State) {
    s.pending && !s.disposed ==> s.armed || s.timer.Writing? || s.pipe > 0 || Carried(s.threads)
  }

  /** The transport goes away, and the timer is told to stop, only after disposal began. */
  ghost predicate Teardown(s: State) {
    && (!s.disposed ==> s.registered && !s.stop)
    && (s.disposed ==> s.stop)
    && (s.timer == Writing(false) ==> s.disposed)
    && (s.timer == Stopped ==> s.stop)
    && (s.closed ==> s.timer == Stopped && s.removed)
    && (s.removed ==> s.disposed)
    && (s.deleted ==> s.disposed)
    && (forall t :: 0 <= t < |s.threads| ==> Late(s, s.threads[t]))
  }

  /** How far a disposing thread is. */
  ghost predicate Late(s: State, l: Local) {
    && (l.AwaitingCallbacks? ==> s.disposed)
    && (l.Removing? || l.Joining? || l.Deleting? ==> s.disposed && s.callbacks == 0)
    && (l.Joining? && l.holds ==> s.removed)
  }

  function Count(threads: seq<Local>): (n: nat) {
    if threads == [] then 0 else (if threads[0] == Dispatching then 1 else 0) + Count(threads[1..])
  }

  /** The callback count is the number of threads using the references; after deletion there is none. */
  ghost predicate Counted(s: State) {
    s.callbacks == Count(s.threads) && (s.deleted ==> s.callbacks == 0)
  }

  /** Deadlines armed so far are frame boundaries, each at least a frame after the one before. */
  ghost predicate Spaced(armings: seq<nat>) {
    && (forall k :: 0 <= k < |armings| ==> armings[k] % INTERVAL == 0)
    && (forall k :: 0 < k < |armings| ==> armings[k - 1] + INTERVAL <= armings[k])
  }

  ghost predicate Clocked(s: State) {
    && Spaced(s.armings)
    && (s.armed ==> s.armings != [] && s.deadline == s.armings[|s.armings| - 1])
    && (!s.armed && s.armings != [] ==> s.armings[|s.armings| - 1] <= s.now)
  }

  ghost predicate Inv(s: State) {
    NotLost(s) && Teardown(s) && Counted(s) && Clocked(s)
  }

  lemma {:induction false} CountUpdate(threads: seq<Local>, t: nat, l: Local)
    requires t < |threads|
    ensures Count(threads[t := l])
         == Count(threads) - (if threads[t] == Dispatching then 1 else 0) + (if l == Dispatching then 1 else 0)
  {
    if t == 0 {
      assert threads[t := l][1..] == threads[1..];
    } else {
      assert threads[t := l][1..] == threads[1..][t - 1 := l];
      CountUpdate(threads[1..], t - 1, l);
    }
  }

  lemma {:induction false} CountPositive(threads: seq<Local>, t: nat)
    requires t < |threads| && threads[t] == Dispatching
    ensures Count(threads) > 0
  {
    if t > 0 { CountPositive(threads[1..], t - 1); }
  }

  /** A thread that keeps or passes on its pulse leaves some thread carrying one. */
  lemma CarriedUpdate(threads: seq<Local>, t: nat, l: Local)
    requires t < |threads|
    ensures Carries(l) ==> Carried(threads[t := l])
    ensures Carried(threads) && !Carries(threads[t]) ==> Carried(threads[t := l])
  {
    if Carries(l) { assert threads[t := l][t] == l; }
    if Carried(threads) && !Carries(threads[t]) {
      var u :| 0 <= u < |threads| && Carries(threads[u]);
      assert threads[t := l][u] == threads[u];
    }
  }

  lemma TimerKeeps(s: State, m: Move, capacity: nat)
    requires Inv(s) && capacity > 0 && Next(s, m, capacity).Some? && !HasThread(m)
    ensures Inv(Next(s, m, capacity).value)
  {
    hide ThreadNext, DisposeNext;
    if m.Schedule? && s.armings != [] && !s.armed { FrameApart(s.armings[|s.armings| - 1], s.now); }
  }

  /** A thread that is not disposing moves on, carrying a pulse if it had one or took one. */
  lemma MoveKeeps(s: State, t: nat, pipe: nat, l: Local)
    requires Inv(s) && t < |s.threads| && (l.Idle? || l.Draining? || l.Ready?) && s.threads[t] != Dispatching
    requires Carries(s.threads[t]) || pipe < s.pipe ==> Carries(l)
    ensures Inv(Put(s.(pipe := pipe), t, l))
  {
    hide Spaced, Carried, Count;
    CountUpdate(s.threads, t, l);
    CarriedUpdate(s.threads, t, l);
    var s' := Put(s.(pipe := pipe), t, l);
    forall u | 0 <= u < |s'.threads| ensures Late(s', s'.threads[u]) {
      if u != t { assert Late(s, s.threads[u]); }
    }
  }

  /** A looper or host thread on its way to a dispatch. */
  lemma ReadKeeps(s: State, m: Move, capacity: nat)
    requires Inv(s) && Next(s, m, capacity).Some? && (m.Callback? || m.Read? || m.HostDispatch?)
    ensures Inv(Next(s, m, capacity).value)
  {
    hide Inv, TimerNext, DisposeNext;
    var s' := Next(s, m, capacity).value;
    MoveKeeps(s, m.t, s'.pipe, s'.threads[m.t]);
  }

  lemma DispatchKeeps(s: State, m: Move, capacity: nat)
    requires Inv(s) && Next(s, m, capacity).Some? && (m.Dispatch? || m.Done?)
    ensures Inv(Next(s, m, capacity).value)
  {
    hide Spaced, Carried, Count, TimerNext, DisposeNext;
    var s' := Next(s, m, capacity).value;
    CountUpdate(s.threads, m.t, s'.threads[m.t]);
    CarriedUpdate(s.threads, m.t, s'.threads[m.t]);
    assert s'.threads == s.threads[m.t := s'.threads[m.t]];
    assert Late(s, s.threads[m.t]);
  }

  lemma DisposeKeeps(s: State, m: Move, capacity: nat)
    requires Inv(s) && Next(s, m, capacity).Some? && HasThread(m) && Disposes(m)
    ensures Inv(Next(s, m, capacity).value)
  {
    hide Spaced, Carried, Count, TimerNext, ThreadNext;
    var s' := Next(s, m, capacity).value;
    CountUpdate(s.threads, m.t, s'.threads[m.t]);
    CarriedUpdate(s.threads, m.t, s'.threads[m.t]);
    assert s'.threads == s.threads[m.t := s'.threads[m.t]];
    assert Late(s, s.threads[m.t]);
  }

  /** Every interleaving keeps the invariant. */
  lemma {:induction false} RunKeepsInv(now: nat, threads: nat, moves: seq<Move>, capacity: nat)
    requires capacity > 0 && Run(Initial(now, threads), moves, capacity).Some?
    ensures Inv(Run(Initial(now, threads), moves, capacity).value)
  {
    hide Next;
    if moves == [] {
      CountNone(threads);
    } else {
      RunKeepsInv(now, threads, moves[..|moves| - 1], capacity);
      var s, m := Run(Initial(now, threads), moves[..|moves| - 1], capacity).value, moves[|moves| - 1];
      if !HasThread(m) {
        TimerKeeps(s, m, capacity);
      } else if Disposes(m) {
        DisposeKeeps(s, m, capacity);
      } else if m.Dispatch? || m.Done? {
        DispatchKeeps(s, m, capacity);
      } else {
        ReadKeeps(s, m, capacity);
      }
    }
  }

  lemma {:induction false} CountNone(n: nat)
    ensures Count(seq(n, _ => Idle)) == 0
  {
    if n > 0 {
      assert seq(n, _ => Idle)[1..] == seq(n - 1, _ => Idle);
      CountNone(n - 1);
    }
  }

  /** No thread is dispatching once the references are deleted, and the timer never writes a closed pipe. */
  lemma NoUseAfterDispose(now: nat, threads: nat, moves: seq<Move>, capacity: nat, t: nat)
    requires capacity > 0 && Run(Initial(now, threads), moves, capacity).Some?
    requires t < |Run(Initial(now, threads), moves, capacity).value.threads|
    ensures var s := Run(Initial(now, threads), moves, capacity).value;
            && (s.deleted ==> s.threads[t] != Dispatching)
            && (s.closed ==> !s.timer.Writing?)
  {
    hide Next;
    RunKeepsInv(now, threads, moves, capacity);
    var s := Run(Initial(now, threads), moves, capacity).value;
    if s.threads[t] == Dispatching { CountPositive(s.threads, t); }
  }

  /** A live receiver's pending request is always on its way to a dispatch. */
  lemma NoLostVsync(now: nat, threads: nat, moves: seq<Move>, capacity: nat)
    requires capacity > 0 && Run(Initial(now, threads), moves, capacity).Some?
    ensures var s := Run(Initial(now, threads), moves, capacity).value;
            s.pending && !s.disposed ==>
              || s.armed || s.timer == Writing(true) || s.pipe > 0
              || exists t :: 0 <= t < |s.threads| && Carries(s.threads[t])
  {
    hide Next;
    RunKeepsInv(now, threads, moves, capacity);
  }

  /** Deadlines armed one after the other are whole frames apart. */
  lemma {:induction false} DeadlinesSpaced(now: nat, threads: nat, moves: seq<Move>, capacity: nat, j: nat, k: nat)
    requires capacity > 0 && Run(Initial(now, threads), moves, capacity).Some?
    requires j <= k < |Run(Initial(now, threads), moves, capacity).value.armings|
    ensures var a := Run(Initial(now, threads), moves, capacity).value.armings; a[j] + (k - j) * INTERVAL <= a[k]
    decreases k - j
  {
    hide Next;
    if j < k {
      RunKeepsInv(now, threads, moves, capacity);
      var a := Run(Initial(now, threads), moves, capacity).value.armings;
      DeadlinesSpaced(now, threads, moves, capacity, j, k - 1);
      assert a[k - 1] + INTERVAL <= a[k];
    }
  }

  // Reading a closed pipe

  ghost predicate Drains(threads: seq<Local>) {
    exists t :: 0 <= t < |threads| && threads[t].Draining?
  }

  /** A callback still reads after the pipe was closed. */
  ghost predicate ReadsClosed(s: State) { s.closed && Drains(s.threads) }

  /** The step that closes the pipe, taken while a callback drains it. */
  ghost predicate ClosesEarly(s: State, m: Move) {
    && m.DisposeJoins? && m.t < |s.threads| && s.threads[m.t].Joining? && s.threads[m.t].holds && s.timer == Stopped
    && Drains(s.threads)
  }

  lemma DrainsUpdate(threads: seq<Local>, t: nat, l: Local)
    requires t < |threads|
    ensures !Drains(threads) && !l.Draining? ==> !Drains(threads[t := l])
    ensures Drains(threads) && !threads[t].Draining? ==> Drains(threads[t := l])
  {
    if Drains(threads) && !threads[t].Draining? {
      var u :| 0 <= u < |threads| && threads[u].Draining?;
      assert threads[t := l][u].Draining?;
    }
  }

  /** Once the looper has let go no callback begins, so only an early close brings a read of the closed pipe about. */
  lemma ClosedStep(s: State, m: Move, capacity: nat)
    requires Inv(s) && Next(s, m, capacity).Some?
    ensures ClosesEarly(s, m) ==> ReadsClosed(Next(s, m, capacity).value)
    ensures !ReadsClosed(s) && !ClosesEarly(s, m) ==> !ReadsClosed(Next(s, m, capacity).value)
  {
    hide Drains, NotLost, Counted, Clocked;
    if HasThread(m) {
      var s' := Next(s, m, capacity).value;
      DrainsUpdate(s.threads, m.t, s'.threads[m.t]);
    }
  }

  /** Some point of a run has a callback reading the closed pipe. */
  ghost predicate EverReadsClosed(s: State, moves: seq<Move>, capacity: nat) {
    exists k :: 0 <= k <= |moves| && ClosedAt(s, moves, capacity, k)
  }

  ghost predicate ClosedAt(s: State, moves: seq<Move>, capacity: nat, k: nat)
    requires k <= |moves|
  {
    var r := Run(s, moves[..k], capacity); r.Some? && ReadsClosed(r.value)
  }

  ghost predicate EverClosesEarly(s: State, moves: seq<Move>, capacity: nat) {
    exists k :: 0 <= k < |moves| && EarlyAt(s, moves, capacity, k)
  }

  ghost predicate EarlyAt(s: State, moves: seq<Move>, capacity: nat, k: nat)
    requires k < |moves|
  {
    var r := Run(s, moves[..k], capacity); r.Some? && ClosesEarly(r.value, moves[k])
  }

  lemma {:induction false} RunPrefix(s: State, moves: seq<Move>, capacity: nat, k: nat)
    requires k <= |moves| && Run(s, moves, capacity).Some?
    ensures Run(s, moves[..k], capacity).Some?
    decreases |moves|
  {
    if k == |moves| {
      assert moves[..k] == moves;
    } else {
      var front := moves[..|moves| - 1];
      RunPrefix(s, front, capacity, k);
      assert front[..k] == moves[..k];
    }
  }

  lemma RunStep(s: State, moves: seq<Move>, capacity: nat, k: nat)
    requires k < |moves| && Run(s, moves, capacity).Some?
    ensures Run(s, moves[..k], capacity).Some?
    ensures Run(s, moves[..k + 1], capacity) == Next(Run(s, moves[..k], capacity).value, moves[k], capacity)
    ensures Run(s, moves[..k + 1], capacity).Some?
  {
    hide Next;
    RunPrefix(s, moves, capacity, k);
    RunPrefix(s, moves, capacity, k + 1);
    assert moves[..k + 1][..k] == moves[..k];
  }

  /** Without an early close no prefix of the run reads the closed pipe. */
  lemma {:induction false} NeverClosed(now: nat, threads: nat, moves: seq<Move>, capacity: nat, k: nat)
    requires capacity > 0 && Run(Initial(now, threads), moves, capacity).Some? && k <= |moves|
    requires !EverClosesEarly(Initial(now, threads), moves, capacity)
    ensures !ClosedAt(Initial(now, threads), moves, capacity, k)
    decreases k
  {
    hide Next, ClosesEarly, ReadsClosed;
    var s := Initial(now, threads);
    if k == 0 {
      NotAtFirst(now, threads);
    } else {
      NeverClosed(now, threads, moves, capacity, k - 1);
      RunStep(s, moves, capacity, k - 1);
      RunKeepsInv(now, threads, moves[..k - 1], capacity);
      assert !EarlyAt(s, moves, capacity, k - 1);
      ClosedStep(Run(s, moves[..k - 1], capacity).value, moves[k - 1], capacity);
    }
  }

  lemma NotAtFirst(now: nat, threads: nat)
    ensures !ReadsClosed(Initial(now, threads))
  {
  }

  /** A run has a callback read the closed pipe exactly when it closes the pipe while a callback drains it. */
  lemma ClosedReadIff(now: nat, threads: nat, moves: seq<Move>, capacity: nat)
    requires capacity > 0 && Run(Initial(now, threads), moves, capacity).Some?
    ensures EverReadsClosed(Initial(now, threads), moves, capacity) <==>
              EverClosesEarly(Initial(now, threads), moves, capacity)
  {
    hide Next, ClosesEarly, ReadsClosed;
    var s := Initial(now, threads);
    if EverClosesEarly(s, moves, capacity) {
      var k :| 0 <= k < |moves| && EarlyAt(s, moves, capacity, k);
      RunStep(s, moves, capacity, k);
      RunKeepsInv(now, threads, moves[..k], capacity);
      ClosedStep(Run(s, moves[..k], capacity).value, moves[k], capacity);
      assert ClosedAt(s, moves, capacity, k + 1);
    } else {
      forall k | 0 <= k <= |moves| ensures !ClosedAt(s, moves, capacity, k) {
        NeverClosed(now, threads, moves, capacity, k);
      }
    }
  }

  lemma Extend(s: State, moves: seq<Move>, before: State, m: Move, capacity: nat)
    returns (more: seq<Move>, after: State)
    requires Run(s, moves, capacity) == Some(before) && Next(before, m, capacity).Some?
    ensures more == moves + [m] && Run(s, more, capacity) == Some(after) && after == Next(before, m, capacity).value
  {
    hide Next;
    more, after := moves + [m], Next(before, m, capacity).value;
    assert more[..|moves|] == moves;
  }

  /** One thread is in its callback when another has taken the descriptors away. */
  lemma TakenFromCallback(now: nat, capacity: nat) returns (moves: seq<Move>, after: State)
    ensures moves == [Callback(0), Dispose(1), DisposeTakes(1)] && Run(Initial(now, 2), moves, capacity) == Some(after)
    ensures after.threads == [Draining(false), Removing(true)] && after.timer == Waiting && after.stop
  {
    hide Run;
    var s := Initial(now, 2);
    RunNone(s, capacity);
    moves, after := Extend(s, [], s, Callback(0), capacity);
    moves, after := Extend(s, moves, after, Dispose(1), capacity);
    moves, after := Extend(s, moves, after, DisposeTakes(1), capacity);
  }

  /** A thread disposes while the looper's is in its callback; removal does not wait for it. */
  lemma CallbackOutlivesPipe(now: nat, capacity: nat)
    ensures var moves := [Callback(0), Dispose(1), DisposeTakes(1), DisposeRemoves(1), TimerWake, DisposeJoins(1)];
            var r := Run(Initial(now, 2), moves, capacity);
            r.Some? && ReadsClosed(r.value)
  {
    hide Run;
    var s := Initial(now, 2);
    var moves, after := TakenFromCallback(now, capacity);
    moves, after := Extend(s, moves, after, DisposeRemoves(1), capacity);
    moves, after := Extend(s, moves, after, TimerWake, capacity);
    moves, after := Extend(s, moves, after, DisposeJoins(1), capacity);
    assert moves == [Callback(0), Dispose(1), DisposeTakes(1), DisposeRemoves(1), TimerWake, DisposeJoins(1)];
    assert after.threads[0].Draining?;
  }

  lemma RunNone(s: State, capacity: nat)
    ensures Run(s, [], capacity) == Some(s)
  {
  }

  /** Callbacks and disposal on one thread. */
  predicate OnThread(moves: seq<Move>, u: nat) {
    forall i :: 0 <= i < |moves| ==> (moves[i].Callback? || moves[i].Dispose? ==> moves[i].t == u)
  }

  predicate Plain(l: Local) { l.Idle? || l.Ready? || l.Dispatching? }

  ghost predicate Alone(threads: seq<Local>, u: nat) {
    forall t :: 0 <= t < |threads| && t != u ==> Plain(threads[t])
  }

  lemma AlonePut(threads: seq<Local>, u: nat, t: nat, l: Local)
    requires Alone(threads, u) && t < |threads| && (t != u ==> Plain(l))
    ensures Alone(threads[t := l], u)
  {
  }

  lemma AlonePlain(threads: seq<Local>, u: nat, t: nat)
    requires Alone(threads, u) && t < |threads| && t != u
    ensures Plain(threads[t])
  {
  }

  lemma AloneDisposes(s: State, m: Move, capacity: nat, u: nat)
    requires Alone(s.threads, u) && Next(s, m, capacity).Some? && HasThread(m) && Disposes(m)
    requires m.Dispose? ==> m.t == u
    ensures Alone(Next(s, m, capacity).value.threads, u)
  {
    hide Alone, NextDeadline, TimerNext, ThreadNext;
    if m.t != u { AlonePlain(s.threads, u, m.t); }
    AlonePut(s.threads, u, m.t, Next(s, m, capacity).value.threads[m.t]);
  }

  lemma AloneReads(s: State, m: Move, capacity: nat, u: nat)
    requires Alone(s.threads, u) && Next(s, m, capacity).Some? && (m.Callback? || m.Read?)
    requires m.Callback? ==> m.t == u
    ensures Alone(Next(s, m, capacity).value.threads, u)
  {
    hide Alone, NextDeadline, TimerNext, DisposeNext;
    if m.t != u { AlonePlain(s.threads, u, m.t); }
    AlonePut(s.threads, u, m.t, Next(s, m, capacity).value.threads[m.t]);
  }

  lemma AloneDispatches(s: State, m: Move, capacity: nat, u: nat)
    requires Alone(s.threads, u) && Next(s, m, capacity).Some? && (m.HostDispatch? || m.Dispatch? || m.Done?)
    ensures Alone(Next(s, m, capacity).value.threads, u)
  {
    hide Alone, NextDeadline, TimerNext, DisposeNext;
    AlonePut(s.threads, u, m.t, Next(s, m, capacity).value.threads[m.t]);
  }

  lemma AloneStep(s: State, m: Move, capacity: nat, u: nat)
    requires Alone(s.threads, u) && Next(s, m, capacity).Some? && (m.Callback? || m.Dispose? ==> m.t == u)
    ensures Alone(Next(s, m, capacity).value.threads, u)
  {
    hide Alone, NextDeadline;
    if HasThread(m) {
      if Disposes(m) {
        AloneDisposes(s, m, capacity, u);
      } else if m.Callback? || m.Read? {
        AloneReads(s, m, capacity, u);
      } else {
        AloneDispatches(s, m, capacity, u);
      }
    }
  }

  lemma NotEarly(s: State, m: Move, u: nat)
    requires Alone(s.threads, u)
    ensures !ClosesEarly(s, m)
  {
  }

  lemma {:induction false} RunAlone(now: nat, threads: nat, moves: seq<Move>, capacity: nat, u: nat)
    requires Run(Initial(now, threads), moves, capacity).Some? && OnThread(moves, u)
    ensures Alone(Run(Initial(now, threads), moves, capacity).value.threads, u)
  {
    hide Next;
    if moves != [] {
      var front := moves[..|moves| - 1];
      assert forall i :: 0 <= i < |front| ==> front[i] == moves[i];
      RunAlone(now, threads, front, capacity, u);
      AloneStep(Run(Initial(now, threads), front, capacity).value, moves[|moves| - 1], capacity, u);
    }
  }

  /** Disposal on the looper's own thread never closes the pipe under a callback. */
  lemma SameThreadIsSafe(now: nat, threads: nat, moves: seq<Move>, capacity: nat, u: nat)
    requires capacity > 0 && Run(Initial(now, threads), moves, capacity).Some? && OnThread(moves, u)
    ensures !EverReadsClosed(Initial(now, threads), moves, capacity)
  {
    hide Next, ClosesEarly, Alone;
    var s := Initial(now, threads);
    forall k | 0 <= k < |moves| ensures !EarlyAt(s, moves, capacity, k) {
      RunStep(s, moves, capacity, k);
      assert forall i :: 0 <= i < k ==> moves[..k][i] == moves[i];
      RunAlone(now, threads, moves[..k], capacity, u);
      NotEarly(Run(s, moves[..k], capacity).value, moves[k], u);
    }
    ClosedReadIff(now, threads, moves, capacity);
  }

  // Every request is dispatched once

  predicate Dispatches(s: State, t: nat) { t < |s.threads| && s.threads[t].Dispatching? }

  /** The thread that moves begins a dispatch. */
  predicate Begins(s: State, m: Move, s': State) {
    HasThread(m) && !Dispatches(s, m.t) && Dispatches(s', m.t)
  }

  /** A request that finds none pending. */
  predicate Asks(s: State, m: Move) { m.Schedule? && !s.disposed && !s.pending }

  /** A request of a live receiver stays until a dispatch takes it, and every dispatch takes one. */
  lemma StepTakes(s: State, m: Move, capacity: nat)
    requires Next(s, m, capacity).Some?
    ensures var s' := Next(s, m, capacity).value;
            && (s.pending && !s'.pending <==> Begins(s, m, s'))
            && (!s.pending && s'.pending <==> Asks(s, m))
  {
    if !HasThread(m) {
      TimerTakes(s, m, capacity);
    } else if Disposes(m) {
      DisposeTakesNone(s, m, capacity);
    } else if m.Dispatch? || m.Done? {
      DispatchTakes(s, m, capacity);
    } else {
      ReadTakes(s, m, capacity);
    }
  }

  lemma TimerTakes(s: State, m: Move, capacity: nat)
    requires Next(s, m, capacity).Some? && !HasThread(m)
    ensures var s' := Next(s, m, capacity).value;
            !(s.pending && !s'.pending) && (!s.pending && s'.pending <==> Asks(s, m))
  {
    hide ThreadNext, DisposeNext;
    hide NextDeadline;
  }

  lemma DisposeTakesNone(s: State, m: Move, capacity: nat)
    requires Next(s, m, capacity).Some? && HasThread(m) && Disposes(m)
    ensures var s' := Next(s, m, capacity).value; s'.pending == s.pending && !Begins(s, m, s')
  {
    hide NextDeadline, TimerNext, ThreadNext;
    var s', t := Next(s, m, capacity).value, m.t;
    match m
    case Dispose(_) => assert s'.threads[t].AwaitingCallbacks?;
    case DisposeTakes(_) => assert s'.threads[t].Removing?;
    case DisposeRemoves(_) => assert s'.threads[t].Joining?;
    case DisposeJoins(_) => assert s'.threads[t].Deleting?;
    case DisposeDeletes(_) => assert s'.threads[t].Idle?;
  }

  lemma ReadTakes(s: State, m: Move, capacity: nat)
    requires Next(s, m, capacity).Some? && (m.Callback? || m.Read? || m.HostDispatch?)
    ensures var s' := Next(s, m, capacity).value; s'.pending == s.pending && !Begins(s, m, s')
  {
    hide TimerNext, DisposeNext, ThreadNext;
    ReaderIs(s, m);
  }

  lemma DispatchTakes(s: State, m: Move, capacity: nat)
    requires Next(s, m, capacity).Some? && (m.Dispatch? || m.Done?)
    ensures var s' := Next(s, m, capacity).value;
            (s.pending && !s'.pending <==> Begins(s, m, s')) && !(!s.pending && s'.pending)
  {
    hide TimerNext, DisposeNext;
    hide NextDeadline;
  }

  /** On a live receiver a Schedule leaves a request pending, and the timer armed. */
  lemma ScheduleLeavesRequest(now: nat, threads: nat, moves: seq<Move>, capacity: nat)
    requires capacity > 0 && Run(Initial(now, threads), moves, capacity).Some?
    ensures var s := Run(Initial(now, threads), moves, capacity).value;
            var r := Next(s, Schedule, capacity);
            r.Some? && (s.disposed ==> r.value == s) && (!s.disposed ==> r.value.pending && r.value.armed)
  {
    hide NextDeadline;
    RunKeepsInv(now, threads, moves, capacity);
  }

  ghost function Requests(s: State, moves: seq<Move>, capacity: nat): nat {
    if moves == [] then 0
    else
      var front := moves[..|moves| - 1];
      var before := Run(s, front, capacity);
      Requests(s, front, capacity) + if before.Some? && Asks(before.value, moves[|moves| - 1]) then 1 else 0
  }

  ghost function Dispatched(s: State, moves: seq<Move>, capacity: nat): nat {
    if moves == [] then 0
    else
      var front := moves[..|moves| - 1];
      var before, after := Run(s, front, capacity), Run(s, moves, capacity);
      var begins := before.Some? && after.Some? && Begins(before.value, moves[|moves| - 1], after.value);
      Dispatched(s, front, capacity) + if begins then 1 else 0
  }

  /** In every run the requests made are the dispatches begun, and one more while a request is pending. */
  lemma {:induction false} RequestsAreDispatched(now: nat, threads: nat, moves: seq<Move>, capacity: nat)
    requires Run(Initial(now, threads), moves, capacity).Some?
    ensures var s := Initial(now, threads);
            Requests(s, moves, capacity)
            == Dispatched(s, moves, capacity) + if Run(s, moves, capacity).value.pending then 1 else 0
  {
    hide Next, Begins, Asks;
    if moves != [] {
      var front := moves[..|moves| - 1];
      RequestsAreDispatched(now, threads, front, capacity);
      StepTakes(Run(Initial(now, threads), front, capacity).value, moves[|moves| - 1], capacity);
    }
  }

  // Every request can be served

  /** A callback reads the pipe empty and is then about to dispatch. */
  lemma {:induction false} ReadsAll(s0: State, moves: seq<Move>, s: State, t: nat, capacity: nat)
    returns (more: seq<Move>, s': State)
    requires Run(s0, moves, capacity) == Some(s) && t < |s.threads| && s.threads[t].Draining? && !s.closed
    requires s.threads[t].got || s.pipe > 0
    ensures Run(s0, more, capacity) == Some(s') && s' == s.(pipe := 0, threads := s.threads[t := Ready])
    decreases s.pipe
  {
    hide Run, TimerNext, DisposeNext;
    more, s' := Extend(s0, moves, s, Read(t), capacity);
    if s.pipe > 0 { more, s' := ReadsAll(s0, more, s', t, capacity); }
  }

  /** A pulse in the pipe brings a request to its dispatch. */
  lemma PulseServes(s0: State, moves: seq<Move>, s: State, t: nat, capacity: nat)
    returns (more: seq<Move>, s': State)
    requires Run(s0, moves, capacity) == Some(s) && t < |s.threads| && s.threads[t].Idle? && s.pipe > 0
    requires s.pending && !s.disposed && !s.removed && !s.closed && !s.deleted
    ensures Run(s0, more, capacity) == Some(s') && Dispatches(s', t) && !s'.pending
  {
    hide Run, TimerNext, DisposeNext;
    more, s' := Extend(s0, moves, s, Callback(t), capacity);
    more, s' := ReadsAll(s0, more, s', t, capacity);
    more, s' := Extend(s0, more, s', Dispatch(t), capacity);
  }

  /** An armed timer fires at its deadline and writes a pulse. */
  lemma TimerServes(s0: State, moves: seq<Move>, s: State, capacity: nat) returns (more: seq<Move>, s': State)
    requires Run(s0, moves, capacity) == Some(s) && capacity > 0 && s.armed && s.registered && !s.stop
    requires s.timer.Waiting? || s.timer == Sleeping(s.deadline)
    ensures Run(s0, more, capacity) == Some(s') && s'.pipe > 0
    ensures s' == s.(now := s'.now, pipe := s'.pipe, armed := false, timer := Waiting)
  {
    hide Run, NextDeadline, ThreadNext, DisposeNext;
    more, s' := moves, s;
    if s.timer.Waiting? { more, s' := Extend(s0, more, s', TimerWake, capacity); }
    if s'.now < s'.deadline { more, s' := Extend(s0, more, s', Tick(s'.deadline), capacity); }
    more, s' := SleeperServes(s0, more, s', capacity);
  }

  lemma SleeperServes(s0: State, moves: seq<Move>, s: State, capacity: nat) returns (more: seq<Move>, s': State)
    requires Run(s0, moves, capacity) == Some(s) && capacity > 0 && s.armed && s.registered && !s.stop
    requires s.timer == Sleeping(s.deadline) && s.deadline <= s.now
    ensures Run(s0, more, capacity) == Some(s') && s'.pipe > 0
    ensures s' == s.(pipe := s'.pipe, armed := false, timer := Waiting)
  {
    hide Run, NextDeadline, ThreadNext, DisposeNext;
    more, s' := Extend(s0, moves, s, TimerFire, capacity);
    more, s' := Extend(s0, more, s', TimerWrite, capacity);
  }

  /** A pulse reaches the pipe, if it is not there or in hand already. */
  lemma PulseComes(s0: State, moves: seq<Move>, s: State, capacity: nat) returns (more: seq<Move>, s': State)
    requires Run(s0, moves, capacity) == Some(s) && capacity > 0 && Inv(s) && s.pending && !s.disposed
    requires !Carried(s.threads)
    ensures Run(s0, more, capacity) == Some(s') && s'.pipe > 0 && s'.threads == s.threads && s'.pending
    ensures !s'.disposed && !s'.removed && !s'.closed && !s'.deleted
  {
    hide Run, Spaced, Carried, Count, NextDeadline, ThreadNext, DisposeNext;
    more, s' := moves, s;
    if s.pipe == 0 {
      if s.timer.Writing? {
        more, s' := Extend(s0, more, s', TimerWrite, capacity);
      } else {
        if s.timer.Sleeping? && s.timer.deadline != s.deadline {
          more, s' := Extend(s0, more, s', TimerRecheck, capacity);
        }
        more, s' := TimerServes(s0, more, s', capacity);
      }
    }
  }

  /**
   * From every point of every run of a live receiver a pending request can be served: with a thread free for
   * the looper's callback, timer, pipe and callback bring it to a dispatch.
   */
  lemma RequestCanBeServed(now: nat, threads: nat, moves: seq<Move>, capacity: nat, t: nat)
    returns (more: seq<Move>, s': State, u: nat)
    requires capacity > 0 && Run(Initial(now, threads), moves, capacity).Some?
    requires var s := Run(Initial(now, threads), moves, capacity).value;
             s.pending && !s.disposed && t < |s.threads| && s.threads[t].Idle?
    ensures Run(Initial(now, threads), more, capacity) == Some(s') && Dispatches(s', u) && !s'.pending
  {
    hide Run, Spaced, Count, Next;
    RunKeepsInv(now, threads, moves, capacity);
    var s0 := Initial(now, threads);
    var s := Run(s0, moves, capacity).value;
    if Carried(s.threads) {
      u :| 0 <= u < |s.threads| && Carries(s.threads[u]);
      more, s' := CarrierServes(s0, moves, s, u, capacity);
    } else {
      more, s' := PulseComes(s0, moves, s, capacity);
      more, s' := PulseServes(s0, more, s', t, capacity);
      u := t;
    }
  }

  /** A thread with a pulse in hand dispatches. */
  lemma CarrierServes(s0: State, moves: seq<Move>, s: State, u: nat, capacity: nat)
    returns (more: seq<Move>, s': State)
    requires Run(s0, moves, capacity) == Some(s) && u < |s.threads| && Carries(s.threads[u])
    requires s.pending && !s.disposed && !s.closed && !s.deleted
    ensures Run(s0, more, capacity) == Some(s') && Dispatches(s', u) && !s'.pending
  {
    hide Run, TimerNext, DisposeNext;
    more, s' := moves, s;
    if s.threads[u].Draining? { more, s' := ReadsAll(s0, more, s', u, capacity); }
    more, s' := Extend(s0, more, s', Dispatch(u), capacity);
  }

  /** The first request of a receiver, all the way: timer, pulse, callback, dispatch. */
  lemma FirstRequest(now: nat, capacity: nat) returns (s: State)
    requires capacity > 0
    ensures Run(Initial(now, 1), [Schedule, TimerWake, Tick(NextDeadline(now)), TimerFire, TimerWrite, Callback(0),
                                  Read(0), Read(0), Dispatch(0)], capacity) == Some(s)
    ensures s.threads == [Dispatching] && !s.pending && s.callbacks == 1
  {
    hide Run, NextDeadline;
    var s0 := Initial(now, 1);
    var moves;
    moves, s := FirstPulse(now, capacity);
    moves, s := Extend(s0, moves, s, Callback(0), capacity);
    moves, s := Extend(s0, moves, s, Read(0), capacity);
    moves, s := Extend(s0, moves, s, Read(0), capacity);
    moves, s := Extend(s0, moves, s, Dispatch(0), capacity);
    assert moves == [Schedule, TimerWake, Tick(NextDeadline(now)), TimerFire, TimerWrite, Callback(0), Read(0), Read(0),
                     Dispatch(0)];
  }

  lemma FirstPulse(now: nat, capacity: nat) returns (moves: seq<Move>, s: State)
    requires capacity > 0
    ensures moves == [Schedule, TimerWake, Tick(NextDeadline(now)), TimerFire, TimerWrite]
    ensures Run(Initial(now, 1), moves, capacity) == Some(s)
    ensures s == Initial(now, 1).(now := NextDeadline(now), pending := true, deadline := NextDeadline(now), pipe := 1,
                                  armings := [NextDeadline(now)])
  {
    hide Run, NextDeadline, ThreadNext, DisposeNext;
    var s0 := Initial(now, 1);
    RunNone(s0, capacity);
    moves, s := Extend(s0, [], s0, Schedule, capacity);
    moves, s := Extend(s0, moves, s, TimerWake, capacity);
    moves, s := Extend(s0, moves, s, Tick(NextDeadline(now)), capacity);
    moves, s := Extend(s0, moves, s, TimerFire, capacity);
    moves, s := Extend(s0, moves, s, TimerWrite, capacity);
  }

  // Pulses

  function Fires(moves: seq<Move>): nat {
    if moves == [] then 0 else Fires(moves[..|moves| - 1]) + if moves[|moves| - 1].TimerFire? then 1 else 0
  }

  function Writes(moves: seq<Move>): nat {
    if moves == [] then 0 else Writes(moves[..|moves| - 1]) + if moves[|moves| - 1].TimerWrite? then 1 else 0
  }

  /** A firing is followed by its write before the timer does anything else; a write stores at most one pulse. */
  lemma StepWrites(s: State, m: Move, capacity: nat)
    requires Next(s, m, capacity).Some?
    ensures var s' := Next(s, m, capacity).value;
            && (m.TimerFire? ==> !s.timer.Writing? && s'.timer == Writing(s.registered) && s'.pipe == s.pipe)
            && (m.TimerWrite? ==> s.timer.Writing? && !s'.timer.Writing?
                                  && s'.pipe == s.pipe + if s.timer.open && s.pipe < capacity then 1 else 0)
            && (!m.TimerFire? && !m.TimerWrite? ==> (s'.timer.Writing? <==> s.timer.Writing?) && s'.pipe <= s.pipe)
  {
    hide NextDeadline;
    if HasThread(m) { ThreadWritesNot(s, m, capacity); }
  }

  lemma ThreadWritesNot(s: State, m: Move, capacity: nat)
    requires Next(s, m, capacity).Some? && HasThread(m)
    ensures var s' := Next(s, m, capacity).value; s'.timer == s.timer && s'.pipe <= s.pipe
  {
    hide TimerNext;
    if !Disposes(m) { OthersHoldNot(s, m); }
    hide ThreadNext;
  }

  /** In every run each firing of the timer is written once, and the pipe never holds more than it can. */
  lemma {:induction false} FiringsAreWritten(now: nat, threads: nat, moves: seq<Move>, capacity: nat)
    requires Run(Initial(now, threads), moves, capacity).Some?
    ensures var s := Run(Initial(now, threads), moves, capacity).value;
            Fires(moves) == Writes(moves) + (if s.timer.Writing? then 1 else 0) && s.pipe <= capacity
  {
    hide Next;
    if moves != [] {
      FiringsAreWritten(now, threads, moves[..|moves| - 1], capacity);
      StepWrites(Run(Initial(now, threads), moves[..|moves| - 1], capacity).value, moves[|moves| - 1], capacity);
    }
  }

  // Disposal

  predicate Holds(l: Local) { (l.Removing? || l.Joining?) && l.holds }

  /** At most one disposing thread has the descriptors, and none while the transport is registered. */
  ghost predicate OneHolder(s: State) {
    && (forall t :: 0 <= t < |s.threads| && Holds(s.threads[t]) ==> !s.registered && !s.closed)
    && (forall t, u :: 0 <= t < u < |s.threads| && Holds(s.threads[t]) ==> !Holds(s.threads[u]))
    && (s.closed ==> !s.registered)
  }

  lemma HolderStep(s: State, m: Move, capacity: nat)
    requires OneHolder(s) && Next(s, m, capacity).Some?
    ensures OneHolder(Next(s, m, capacity).value)
  {
    hide NextDeadline;
    var s' := Next(s, m, capacity).value;
    if HasThread(m) {
      ThreadHolds(s, m, capacity);
      assert s'.threads == s.threads[m.t := s'.threads[m.t]];
    }
  }

  lemma ThreadHolds(s: State, m: Move, capacity: nat)
    requires Next(s, m, capacity).Some? && HasThread(m)
    ensures var s' := Next(s, m, capacity).value;
            && |s'.threads| == |s.threads| && s'.threads == s.threads[m.t := s'.threads[m.t]]
            && (Holds(s'.threads[m.t]) ==> Holds(s.threads[m.t]) || (m.DisposeTakes? && s.registered))
            && s'.registered == (s.registered && !m.DisposeTakes?)
            && (s'.closed <==> s.closed || (m.DisposeJoins? && Holds(s.threads[m.t])))
            && (m.DisposeJoins? ==> !Holds(s'.threads[m.t]))
            && (s'.deleted <==> s.deleted || m.DisposeDeletes?)
  {
    hide TimerNext;
    if Disposes(m) { DisposeHolds(s, m); } else { OthersHoldNot(s, m); }
  }

  lemma DisposeHolds(s: State, m: Move)
    requires Disposes(m) && m.t < |s.threads| && DisposeNext(s, m).Some?
    ensures var s', t := DisposeNext(s, m).value, m.t;
            && |s'.threads| == |s.threads| && s'.threads == s.threads[t := s'.threads[t]]
            && (Holds(s'.threads[t]) ==> Holds(s.threads[t]) || (m.DisposeTakes? && s.registered))
            && s'.registered == (s.registered && !m.DisposeTakes?)
            && (s'.closed <==> s.closed || (m.DisposeJoins? && Holds(s.threads[t])))
            && (m.DisposeJoins? ==> !Holds(s'.threads[t]))
            && (s'.deleted <==> s.deleted || m.DisposeDeletes?)
  {
    var s', t, l := DisposeNext(s, m).value, m.t, s.threads[m.t];
    match m
    case Dispose(_) => assert s' == Put(s.(disposed := true, stop := true), t, AwaitingCallbacks);
    case DisposeTakes(_) => assert s' == Put(s.(registered := false), t, Removing(s.registered));
    case DisposeRemoves(_) => assert s' == Put(s.(removed := s.removed || l.holds), t, Joining(l.holds));
    case DisposeJoins(_) => assert s' == Put(s.(closed := s.closed || l.holds), t, Deleting);
    case DisposeDeletes(_) => assert s' == Put(s.(deleted := true), t, Idle);
  }

  lemma ReaderIs(s: State, m: Move)
    requires (m.Callback? || m.Read? || m.HostDispatch?) && m.t < |s.threads| && ThreadNext(s, m).Some?
    ensures var s', t := ThreadNext(s, m).value, m.t;
            && |s'.threads| == |s.threads| && s' == Put(s.(pipe := s'.pipe), t, s'.threads[t]) && s'.pipe <= s.pipe
            && (s'.threads[t].Draining? || s'.threads[t].Ready? || s'.threads[t].Idle?)
  {
    var s', t, l := ThreadNext(s, m).value, m.t, s.threads[m.t];
    match m
    case Callback(_) => assert s' == Put(s, t, Draining(false));
    case Read(_) =>
      if s.pipe > 0 && !s.closed {
        assert s' == Put(s.(pipe := s.pipe - 1), t, Draining(true));
      } else {
        assert s' == Put(s, t, if l.got then Ready else Idle);
      }
    case HostDispatch(_) => assert s' == Put(s, t, Ready);
  }

  lemma DispatcherIs(s: State, m: Move)
    requires (m.Dispatch? || m.Done?) && m.t < |s.threads| && ThreadNext(s, m).Some?
    ensures var s', t := ThreadNext(s, m).value, m.t;
            && |s'.threads| == |s.threads|
            && s' == Put(s.(pending := s'.pending, callbacks := s'.callbacks), t, s'.threads[t])
            && (s'.threads[t].Idle? || s'.threads[t].Dispatching?)
  {
    var s', t := ThreadNext(s, m).value, m.t;
    if m.Done? {
      assert s' == Put(s.(callbacks := s.callbacks - 1), t, Idle);
    } else if s.disposed || !s.pending || s.deleted {
      assert s' == Put(s, t, Idle);
    } else {
      assert s' == Put(s.(pending := false, callbacks := s.callbacks + 1), t, Dispatching);
    }
  }

  lemma OthersHoldNot(s: State, m: Move)
    requires HasThread(m) && !Disposes(m) && m.t < |s.threads| && ThreadNext(s, m).Some?
    ensures var s', t := ThreadNext(s, m).value, m.t;
            && |s'.threads| == |s.threads| && s'.threads == s.threads[t := s'.threads[t]]
            && !Holds(s'.threads[t]) && s'.registered == s.registered && s'.closed == s.closed
            && s'.deleted == s.deleted && s'.timer == s.timer && s'.pipe <= s.pipe
  {
    hide ThreadNext;
    if m.Dispatch? || m.Done? { DispatcherIs(s, m); } else { ReaderIs(s, m); }
  }

  /** So the pipe is closed at most once. */
  lemma {:induction false} ClosedOnce(now: nat, threads: nat, moves: seq<Move>, capacity: nat)
    requires Run(Initial(now, threads), moves, capacity).Some?
    ensures OneHolder(Run(Initial(now, threads), moves, capacity).value)
  {
    hide Next;
    if moves != [] {
      ClosedOnce(now, threads, moves[..|moves| - 1], capacity);
      HolderStep(Run(Initial(now, threads), moves[..|moves| - 1], capacity).value, moves[|moves| - 1], capacity);
    }
  }

  lemma TimerSettles(s0: State, moves: seq<Move>, s: State, capacity: nat) returns (more: seq<Move>, s': State)
    requires Run(s0, moves, capacity) == Some(s) && s.stop && (s.timer.Sleeping? || s.timer.Writing?)
    ensures Run(s0, more, capacity) == Some(s') && s' == s.(timer := Waiting, pipe := s'.pipe)
  {
    hide Run, ThreadNext, DisposeNext, NextDeadline;
    more, s' := Extend(s0, moves, s, if s.timer.Sleeping? then TimerRecheck else TimerWrite, capacity);
  }

  /** The timer thread stops once it is told to. */
  lemma TimerStops(s0: State, moves: seq<Move>, s: State, capacity: nat) returns (more: seq<Move>, s': State)
    requires Run(s0, moves, capacity) == Some(s) && s.stop
    ensures Run(s0, more, capacity) == Some(s') && s' == s.(timer := Stopped, pipe := s'.pipe)
  {
    hide Run, ThreadNext, DisposeNext, NextDeadline;
    more, s' := moves, s;
    if s.timer != Stopped {
      if !s.timer.Waiting? { more, s' := TimerSettles(s0, more, s', capacity); }
      more, s' := Extend(s0, more, s', TimerWake, capacity);
    }
  }

  /** A disposal that finds no dispatch in progress can finish: timer stopped, pipe closed, references deleted. */
  lemma DisposalEnds(s0: State, moves: seq<Move>, s: State, t: nat, capacity: nat)
    returns (more: seq<Move>, s': State)
    requires Run(s0, moves, capacity) == Some(s) && t < |s.threads| && s.threads[t] == AwaitingCallbacks
    requires s.callbacks == 0 && s.stop
    ensures Run(s0, more, capacity) == Some(s') && s'.deleted && s'.timer == Stopped && |s'.threads| == |s.threads|
    ensures s'.threads[t] == Idle && !s'.registered && (s.registered ==> s'.removed && s'.closed)
  {
    hide Run, NextDeadline;
    more, s' := Extend(s0, moves, s, DisposeTakes(t), capacity);
    more, s' := Extend(s0, more, s', DisposeRemoves(t), capacity);
    more, s' := TimerStops(s0, more, s', capacity);
    more, s' := Extend(s0, more, s', DisposeJoins(t), capacity);
    more, s' := Extend(s0, more, s', DisposeDeletes(t), capacity);
  }
}
