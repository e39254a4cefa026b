/**
 * The SurfaceTexture buffer protocol as interleaved steps of any number of threads.  A section under
 * the queue mutex is one step; what a thread does between sections is further steps of its own.  The
 * consumer mutex is held across several steps by at most one thread.
 */
module SurfaceTexture {
  import opened Options

  /** A queued frame: which producer slot it occupies, its buffer and its acquire fence. */
  datatype Frame = Frame(id: nat, buffer: nat, fence: Option<nat>)

  datatype Mode = Fifo | Mailbox

  /** What must be given back exactly once: a producer slot, a fence descriptor, a buffer reference. */
  datatype Token = Slot(id: nat) | Fence(fd: nat) | Ref(buffer: nat)

  datatype ConsumerOp = Abandon | ReleaseOwnership | Destroy | Dequeue

  /** Where a thread is, and what it alone holds there. */
  datatype Local =
    | Idle
    | Offering(frame: Frame)                   // QueueBuffer, before its section
    | Draining(frames: seq<Frame>)             // QueueBuffer, returning what it displaced
    | Entering(op: ConsumerOp)                 // holds the consumer mutex, before the section
    | Retiring(frames: seq<Frame>)             // holds the consumer mutex, returning what was queued
    | Acquired(stale: seq<Frame>, replaced: Option<Frame>, output: Option<Frame>, isNew: bool)
    | Closing(shown: Frame, fence: nat)       // dequeueBuffer, after the fence was taken from current
    | Ready(shown: Frame, isNew: bool)        // dequeueBuffer, about to return its buffer
  {
    predicate Consumes() { !Idle? && !Offering? && !Draining? }
  }

  /** A successful dequeue: which acquisition it showed, the frame it handed out, and outNewContent. */
  datatype Delivery = Delivery(nth: nat, id: nat, isNew: bool)

  datatype State = State(
    pending: seq<Frame>, current: Option<Frame>, owned: bool, abandoned: bool,
    consumer: Option<nat>, threads: seq<Local>,
    issued: multiset<Token>, spent: multiset<Token>,
    published: seq<nat>, acquired: seq<nat>, delivered: seq<Delivery>)

  function Initial(threads: nat): State {
    State([], None, false, false, None, seq(threads, _ => Idle), multiset{}, multiset{}, [], [], [])
  }

  function FenceToken(fence: Option<nat>): multiset<Token> {
    if fence.Some? then multiset{Fence(fence.value)} else multiset{}
  }

  function FrameTokens(f: Frame): multiset<Token> {
    multiset{Slot(f.id), Ref(f.buffer)} + FenceToken(f.fence)
  }

  function OptionTokens(f: Option<Frame>): multiset<Token> {
    if f.Some? then FrameTokens(f.value) else multiset{}
  }

  function FramesTokens(fs: seq<Frame>): multiset<Token> {
    if fs == [] then multiset{} else FrameTokens(fs[0]) + FramesTokens(fs[1..])
  }

  function OutputTokens(f: Option<Frame>): multiset<Token> {
    if f.Some? then multiset{Ref(f.value.buffer)} else multiset{}
  }

  /** The output of a dequeue is one extra buffer reference; its fence is only a copy. */
  function LocalTokens(l: Local): multiset<Token> {
    match l
    case Idle => multiset{}
    case Offering(frame) => FrameTokens(frame)
    case Draining(frames) => FramesTokens(frames)
    case Entering(_) => multiset{}
    case Retiring(frames) => FramesTokens(frames)
    case Acquired(stale, replaced, output, _) => FramesTokens(stale) + OptionTokens(replaced) + OutputTokens(output)
    case Closing(output, fence) => multiset{Ref(output.buffer), Fence(fence)}
    case Ready(output, _) => multiset{Ref(output.buffer)}
  }

  function ThreadsTokens(ts: seq<Local>): multiset<Token> {
    if ts == [] then multiset{} else LocalTokens(ts[0]) + ThreadsTokens(ts[1..])
  }

  /**
   * ReleaseQueued for a frame with a buffer: the slot goes back with the release fence, or with the
   * frame's own fence when there is none; an acquire fence not handed back is closed; the buffer
   * reference is dropped.
   */
  function ReleaseQueued(f: Frame, releaseFence: Option<nat>): multiset<Token> {
    var handed := if releaseFence.None? then f.fence else releaseFence;
    var left := if releaseFence.None? then None else f.fence;
    multiset{Slot(f.id)} + FenceToken(handed) + FenceToken(left) + multiset{Ref(f.buffer)}
  }

  /** What a thread may do next, with the choices the environment makes for it. */
  datatype Move =
    | Offer(frame: Frame)                            // QueueBuffer entered with a buffer
    | OfferNull(fence: Option<nat>)                  // QueueBuffer entered without one
    | Enqueue(mode: Mode, allocationFails: bool)     // its section
    | Drain                                          // return one displaced frame
    | Take                                           // takeConsumerOwnership
    | Lock(op: ConsumerOp)                           // take the consumer mutex
    | Enter(mode: Mode)                              // the operation's section
    | Retire                                         // return one queued frame
    | Discard                                        // dequeueBuffer returns one stale frame
    | Replace(created: Option<nat>)                  // and the frame it replaced
    | GiveUp                                         // and ends without a buffer
    | WaitFails
    | WaitSucceeds
    | Close
    | Deliver

  function Put(s: State, t: nat, l: Local): State
    requires t < |s.threads|
  {
    s.(threads := s.threads[t := l])
  }

  function Unlocked(s: State, t: nat): State
    requires t < |s.threads|
  {
    Put(s, t, Idle).(consumer := None)
  }

  function Spend(s: State, tokens: multiset<Token>): State {
    s.(spent := s.spent + tokens)
  }

  /** The producer's section: MAILBOX swaps the whole queue out and puts it back when the push fails. */
  function EnqueueStep(s: State, t: nat, frame: Frame, mode: Mode, allocationFails: bool): State
    requires t < |s.threads|
  {
    if s.abandoned then Put(s, t, Draining([frame]))
    else
      var swap := mode == Mailbox && s.pending != [];
      var replaced := if swap then s.pending else [];
      var kept := if swap then [] else s.pending;
      if allocationFails then
        Put(s.(pending := if swap then replaced else kept), t, Draining([frame]))
      else
        Put(s.(pending := kept + [frame], published := s.published + [frame.id]), t, Draining(replaced))
  }

  function OptionFrames(f: Option<Frame>): seq<Frame> {
    if f.Some? then [f.value] else []
  }

  /** The section of abandon, releaseConsumerOwnership and the last ASurfaceTexture_release. */
  function EmptyStep(s: State, t: nat, op: ConsumerOp): State
    requires t < |s.threads|
  {
    if op == Abandon && s.abandoned then Unlocked(s, t)
    else
      var frames := s.pending + OptionFrames(s.current);
      var owned := if op == ReleaseOwnership then false else s.owned;
      var abandoned := if op == ReleaseOwnership then s.abandoned else true;
      Put(s.(pending := [], current := None, owned := owned, abandoned := abandoned), t, Retiring(frames))
  }

  /** The first section of dequeueBuffer. */
  function DequeueStep(s: State, t: nat, mode: Mode): State
    requires t < |s.threads|
  {
    if s.abandoned || !s.owned then Unlocked(s, t)
    else
      var n := |s.pending|;
      var s' := if n == 0 then s
                else
                  var next := if mode == Mailbox then s.pending[n - 1] else s.pending[0];
                  var rest := if mode == Mailbox then [] else s.pending[1..];
                  s.(pending := rest, current := Some(next), acquired := s.acquired + [next.id]);
      var stale := if n > 0 && mode == Mailbox then s.pending[..n - 1] else [];
      var replaced := if n > 0 then s.current else None;
      Put(s'.(issued := s'.issued + OutputTokens(s'.current)), t, Acquired(stale, replaced, s'.current, n > 0))
  }

  /** One step of thread t, or None when it cannot take that step. */
  function Next(s: State, t: nat, move: Move): Option<State> {
    if t >= |s.threads| then None
    else
      var l := s.threads[t];
      match move
      case Offer(frame) =>
        if !l.Idle? then None
        else Some(Put(s.(issued := s.issued + FrameTokens(frame)), t, Offering(frame)))
      case OfferNull(fence) =>
        if !l.Idle? then None
        else Some(Spend(s.(issued := s.issued + FenceToken(fence)), FenceToken(fence)))
      case Enqueue(mode, fails) =>
        if !l.Offering? then None else Some(EnqueueStep(s, t, l.frame, mode, fails))
      case Drain =>
        if !l.Draining? then None
        else if l.frames == [] then Some(Put(s, t, Idle))
        else Some(Put(Spend(s, ReleaseQueued(l.frames[0], None)), t, Draining(l.frames[1..])))
      case Take =>
        if !l.Idle? then None else Some(s.(owned := true))
      case Lock(op) =>
        if !l.Idle? || s.consumer.Some? then None else Some(Put(s, t, Entering(op)).(consumer := Some(t)))
      case Enter(mode) =>
        if !l.Entering? then None
        else if l.op == Dequeue then Some(DequeueStep(s, t, mode)) else Some(EmptyStep(s, t, l.op))
      case Retire =>
        if !l.Retiring? then None
        else if l.frames == [] then Some(Unlocked(s, t))
        else Some(Put(Spend(s, ReleaseQueued(l.frames[0], None)), t, Retiring(l.frames[1..])))
      case Discard =>
        if !l.Acquired? || l.stale == [] then None
        else Some(Put(Spend(s, ReleaseQueued(l.stale[0], None)), t, l.(stale := l.stale[1..])))
      case Replace(created) =>
        if !l.Acquired? || l.stale != [] || l.replaced.None? then None
        else Some(Put(Spend(s.(issued := s.issued + FenceToken(created)), ReleaseQueued(l.replaced.value, created)),
                      t, l.(replaced := None)))
      case GiveUp =>
        if !l.Acquired? || l.stale != [] || l.replaced.Some? || l.output.Some? then None else Some(Unlocked(s, t))
      case WaitFails =>
        if !Waits(l) then None else Some(Unlocked(Spend(s, multiset{Ref(l.output.value.buffer)}), t))
      case WaitSucceeds =>
        if !Waits(l) then None
        else Some(Put(s.(current := Unfenced(s.current)), t, Closing(l.output.value, l.output.value.fence.value)))
      case Close =>
        if !l.Closing? then None else Some(Put(Spend(s, multiset{Fence(l.fence)}), t, Ready(l.shown, true)))
      case Deliver =>
        if l.Ready? then Some(Given(s, t, l.shown, l.isNew))
        else if l.Acquired? && l.stale == [] && l.replaced.None? && l.output.Some? && l.output.value.fence.None? then
          Some(Given(s, t, l.output.value, l.isNew))
        else None
  }

  function Unfenced(f: Option<Frame>): Option<Frame> {
    if f.Some? then Some(f.value.(fence := None)) else None
  }

  /** dequeueBuffer has cleaned up and has a fence to wait for. */
  predicate Waits(l: Local) {
    l.Acquired? && l.stale == [] && l.replaced.None? && l.output.Some? && l.output.value.fence.Some?
  }

  /** The buffer reference passes to the caller. */
  function Given(s: State, t: nat, output: Frame, isNew: bool): State
    requires t < |s.threads|
  {
    Unlocked(Spend(s, multiset{Ref(output.buffer)}), t)
      .(delivered := s.delivered + [Delivery(|s.acquired|, output.id, isNew)])
  }

  /** A schedule: which thread moves, and how. */
  type Schedule = seq<(nat, Move)>

  function Run(s: State, schedule: Schedule): Option<State> {
    if schedule == [] then Some(s)
    else
      var before := Run(s, schedule[..|schedule| - 1]);
      var last := schedule[|schedule| - 1];
      if before.None? then None else Next(before.value, last.0, last.1)
  }
}
