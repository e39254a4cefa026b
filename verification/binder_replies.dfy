/**
 * Matching replies to transactions on one connection: any number of calling threads, at most one
 * dispatcher reading for them, and callers that read for themselves when there is none.  Sections
 * under the registry lock are single steps.
 */
module BinderReplies {
  import opened WordSize
  import opened Options

  /** arrival numbers the messages read from the socket. */
  datatype Reply = Reply(sequence: nat, status: int, arrival: nat)

  datatype Kind = ReadyMessage | TransactionMessage | ReplyMessage | OtherMessage

  /** request is the running number of the transaction; its sequence field is Sequence(request). */
  datatype Caller =
    | Outside
    | WaitingReady
    | ReadingReady
    | WaitingReply(request: nat)      // the dispatcher will store the reply
    | ReadingReply(request: nat)      // this thread reads the socket itself

  datatype Completion = Completion(request: nat, reply: Reply)

  datatype State = State(
    live: bool, ready: bool, dispatcher: bool, requests: nat, pending: map<nat, Reply>, callers: seq<Caller>,
    arrivals: nat, served: bool, peerReady: bool, sent: seq<nat>, consumed: seq<nat>, completed: seq<Completion>)

  function Initial(threads: nat): State {
    State(true, false, false, 0, map[], seq(threads, _ => Outside), 0, false, false, [], [], [])
  }

  /** next_sequence starts at 1 and wraps at 32 bits. */
  function Sequence(request: nat): nat { (request + 1) % TWO_32 }

  datatype Move =
    | Serve                                                   // this side sends its ready message
    | StartDispatcher
    | Dispatch(kind: Kind, sequence: nat, status: int)        // the dispatcher reads one message
    | Retire
    | Call(t: nat, onDispatcher: bool, sends: bool)           // TransactRemoteBinder entered
    | ReadReady(t: nat, kind: Kind, sends: bool)
    | WakeReady(t: nat, onDispatcher: bool, sends: bool)
    | WakeReply(t: nat)
    | ReadReply(t: nat, kind: Kind, sequence: nat, status: int)

  predicate HasThread(move: Move) {
    move.Call? || move.ReadReady? || move.WakeReady? || move.WakeReply? || move.ReadReply?
  }

  function Put(s: State, t: nat, c: Caller): State
    requires t < |s.callers|
  {
    s.(callers := s.callers[t := c])
  }

  /** Takes the next sequence number and sends; a failed export or send still uses the number up. */
  function Request(s: State, t: nat, onDispatcher: bool, sends: bool): State
    requires t < |s.callers|
  {
    var r := s.requests;
    var s' := s.(requests := r + 1);
    if !sends then Put(s', t, Outside)
    else Put(s'.(sent := s.sent + [r]), t, if s.dispatcher && !onDispatcher then WaitingReply(r) else ReadingReply(r))
  }

  function Next(s: State, move: Move): Option<State> {
    if HasThread(move) && move.t >= |s.callers| then None
    else match move
      case Serve =>
        if s.live then Some(s.(ready := true, served := true)) else None
      case StartDispatcher => if s.live then Some(s.(dispatcher := true)) else None
      case Dispatch(kind, sequence, status) =>
        if !s.live || !s.dispatcher then None
        else
          var s' := s.(arrivals := s.arrivals + 1);
          (match kind
           case ReadyMessage => Some(s'.(ready := true, peerReady := true))
           case ReplyMessage => Some(s'.(pending := s.pending[sequence := Reply(sequence, status, s.arrivals)]))
           case TransactionMessage => Some(s')
           case OtherMessage => Some(s'.(live := false, pending := map[])))
      case Retire => Some(s.(live := false, pending := map[]))
      case Call(t, onDispatcher, sends) =>
        if s.callers[t] != Outside then None
        else if !s.live then Some(s)
        else if s.ready then Some(Request(s, t, onDispatcher, sends))
        else Some(Put(s, t, if s.dispatcher && !onDispatcher then WaitingReady else ReadingReady))
      case ReadReady(t, kind, sends) =>
        if s.callers[t] != ReadingReady then None
        else
          var s' := s.(arrivals := s.arrivals + 1);
          if !s.live || kind != ReadyMessage then Some(Put(s', t, Outside))
          else Some(Request(s'.(ready := true, peerReady := true), t, true, sends))
      case WakeReady(t, onDispatcher, sends) =>
        if s.callers[t] != WaitingReady || (s.live && !s.ready) then None
        else if !s.live then Some(Put(s, t, Outside))
        else Some(Request(s, t, onDispatcher, sends))
      case WakeReply(t) =>
        if !s.callers[t].WaitingReply? then None
        else
          var r := s.callers[t].request;
          if !s.live then Some(Put(s, t, Outside))
          else if Sequence(r) !in s.pending then None
          else
            var reply := s.pending[Sequence(r)];
            var pending, consumed := s.pending - {Sequence(r)}, s.consumed + [reply.arrival];
            var s' := Put(s, t, Outside).(pending := pending, consumed := consumed);
            Some(if reply.status == 0 then s'.(completed := s.completed + [Completion(r, reply)]) else s')
      case ReadReply(t, kind, sequence, status) =>
        if !s.callers[t].ReadingReply? then None
        else
          var r, reply := s.callers[t].request, Reply(sequence, status, s.arrivals);
          var s' := s.(arrivals := s.arrivals + 1);
          if s.live && kind == TransactionMessage then Some(s')
          else if !s.live || kind != ReplyMessage || sequence != Sequence(r) || status != 0 then
            Some(Put(s', t, Outside))
          else
            Some(Put(s', t, Outside).(consumed := s.consumed + [s.arrivals],
                                      completed := s.completed + [Completion(r, reply)]))
  }

  function Run(s: State, moves: seq<Move>): Option<State> {
    if moves == [] then Some(s)
    else
      var before := Run(s, moves[..|moves| - 1]);
      if before.None? then None else Next(before.value, moves[|moves| - 1])
  }

  // Invariants

  /** A stored reply is filed under its own sequence number and was not consumed. */
  ghost predicate Stored(pending: map<nat, Reply>, arrivals: nat, consumed: seq<nat>) {
    && (forall q :: q in pending ==> pending[q].sequence == q)
    && (forall q :: q in pending ==> pending[q].arrival < arrivals && pending[q].arrival !in consumed)
    && (forall q, p :: q in pending && p in pending && pending[q].arrival == pending[p].arrival ==> q == p)
  }

  ghost predicate Once(consumed: seq<nat>, arrivals: nat) {
    && (forall i :: 0 <= i < |consumed| ==> consumed[i] < arrivals)
    && (forall i, j :: 0 <= i < j < |consumed| ==> consumed[i] != consumed[j])
  }

  predicate Outstanding(c: Caller) { c.WaitingReply? || c.ReadingReply? }

  /** Every transaction in progress has its own number, none of them finished. */
  ghost predicate Distinct(callers: seq<Caller>, requests: nat, completed: seq<Completion>) {
    && (forall t :: 0 <= t < |callers| && Outstanding(callers[t]) ==> callers[t].request < requests)
    && (forall t, u :: 0 <= t < u < |callers| && Outstanding(callers[t]) && Outstanding(callers[u]) ==>
          callers[t].request != callers[u].request)
    && (forall t, k :: 0 <= t < |callers| && Outstanding(callers[t]) && 0 <= k < |completed| ==>
          completed[k].request != callers[t].request)
  }

  /** Success means a status-0 reply with the transaction's own sequence number, and happens once. */
  ghost predicate Matched(completed: seq<Completion>, requests: nat) {
    && (forall k :: 0 <= k < |completed| ==>
          && completed[k].request < requests && completed[k].reply.status == 0
          && completed[k].reply.sequence == Sequence(completed[k].request))
    && (forall j, k :: 0 <= j < k < |completed| ==> completed[j].request != completed[k].request)
  }

  /** The ready flag is set by the peer's ready message or by sending one's own. */
  ghost predicate Gated(s: State) {
    && (s.ready <==> s.served || s.peerReady)
    && (s.sent != [] ==> s.served || s.peerReady)
  }

  ghost predicate Inv(s: State) {
    && Stored(s.pending, s.arrivals, s.consumed) && Once(s.consumed, s.arrivals)
    && Distinct(s.callers, s.requests, s.completed) && Matched(s.completed, s.requests) && Gated(s)
  }

  lemma StoreReply(pending: map<nat, Reply>, arrivals: nat, consumed: seq<nat>, sequence: nat, status: int)
    requires Stored(pending, arrivals, consumed) && Once(consumed, arrivals)
    ensures Stored(pending[sequence := Reply(sequence, status, arrivals)], arrivals + 1, consumed)
  {
  }

  lemma TakeReply(pending: map<nat, Reply>, arrivals: nat, consumed: seq<nat>, q: nat)
    requires Stored(pending, arrivals, consumed) && Once(consumed, arrivals) && q in pending
    ensures Stored(pending - {q}, arrivals, consumed + [pending[q].arrival])
    ensures Once(consumed + [pending[q].arrival], arrivals)
  {
  }

  lemma ReadDirectly(pending: map<nat, Reply>, arrivals: nat, consumed: seq<nat>)
    requires Stored(pending, arrivals, consumed) && Once(consumed, arrivals)
    ensures Stored(pending, arrivals + 1, consumed) && Once(consumed, arrivals + 1)
    ensures Stored(pending, arrivals + 1, consumed + [arrivals]) && Once(consumed + [arrivals], arrivals + 1)
  {
  }

  lemma Cleared(arrivals: nat, consumed: seq<nat>)
    ensures Stored(map[], arrivals, consumed)
  {
  }

  lemma Finished(callers: seq<Caller>, requests: nat, completed: seq<Completion>, t: nat, reply: Reply)
    requires Distinct(callers, requests, completed) && Matched(completed, requests)
    requires t < |callers| && Outstanding(callers[t]) && reply.status == 0
    requires reply.sequence == Sequence(callers[t].request)
    ensures Distinct(callers[t := Outside], requests, completed + [Completion(callers[t].request, reply)])
    ensures Matched(completed + [Completion(callers[t].request, reply)], requests)
  {
  }

  lemma NotOutstanding(callers: seq<Caller>, requests: nat, completed: seq<Completion>, t: nat, c: Caller)
    requires Distinct(callers, requests, completed) && t < |callers| && !Outstanding(c)
    ensures Distinct(callers[t := c], requests, completed)
  {
  }

  lemma OneMoreRequest(callers: seq<Caller>, requests: nat, completed: seq<Completion>, t: nat, c: Caller)
    requires Distinct(callers, requests, completed) && Matched(completed, requests) && t < |callers|
    requires Outstanding(c) ==> c.request == requests
    ensures Distinct(callers[t := c], requests + 1, completed) && Matched(completed, requests + 1)
  {
  }

  lemma DispatchKeeps(s: State, move: Move)
    requires Inv(s) && Next(s, move).Some? && (move.Serve? || move.StartDispatcher? || move.Dispatch? || move.Retire?)
    ensures Inv(Next(s, move).value)
  {
    hide Stored, Once, Distinct, Matched;
    Cleared(s.arrivals, s.consumed);
    Cleared(s.arrivals + 1, s.consumed);
    ReadDirectly(s.pending, s.arrivals, s.consumed);
    if move.Dispatch? { StoreReply(s.pending, s.arrivals, s.consumed, move.sequence, move.status); }
  }

  lemma PutOutside(s: State, t: nat)
    requires Inv(s) && t < |s.callers|
    ensures Inv(Put(s, t, Outside))
  {
    hide Stored, Once, Distinct, Matched;
    NotOutstanding(s.callers, s.requests, s.completed, t, Outside);
  }

  lemma ReadMore(s: State)
    requires Inv(s)
    ensures Inv(s.(arrivals := s.arrivals + 1))
  {
    hide Stored, Once, Distinct, Matched;
    ReadDirectly(s.pending, s.arrivals, s.consumed);
  }

  lemma RequestKeeps(s: State, t: nat, onDispatcher: bool, sends: bool)
    requires Inv(s) && t < |s.callers| && s.ready
    ensures Inv(Request(s, t, onDispatcher, sends))
  {
    hide Stored, Once, Distinct, Matched;
    OneMoreRequest(s.callers, s.requests, s.completed, t, Request(s, t, onDispatcher, sends).callers[t]);
  }

  lemma WakeKeeps(s: State, t: nat)
    requires Inv(s) && Next(s, WakeReply(t)).Some?
    ensures Inv(Next(s, WakeReply(t)).value)
  {
    hide Once, Distinct, Matched;
    PutOutside(s, t);
    if s.live {
      var q := Sequence(s.callers[t].request);
      var reply := s.pending[q];
      TakeReply(s.pending, s.arrivals, s.consumed, q);
      if reply.status == 0 { Finished(s.callers, s.requests, s.completed, t, reply); }
    }
  }

  lemma ReadKeeps(s: State, t: nat, kind: Kind, sequence: nat, status: int)
    requires Inv(s) && Next(s, ReadReply(t, kind, sequence, status)).Some?
    ensures Inv(Next(s, ReadReply(t, kind, sequence, status)).value)
  {
    hide Stored, Once, Distinct, Matched, Sequence;
    PutOutside(s, t);
    ReadDirectly(s.pending, s.arrivals, s.consumed);
    if sequence == Sequence(s.callers[t].request) && status == 0 {
      Finished(s.callers, s.requests, s.completed, t, Reply(sequence, status, s.arrivals));
    }
  }

  lemma NextKeeps(s: State, move: Move)
    requires Inv(s) && Next(s, move).Some?
    ensures Inv(Next(s, move).value)
  {
    hide Stored, Once, Distinct, Matched, Request;
    match move
    case Call(t, onDispatcher, sends) =>
      if s.live && s.ready { RequestKeeps(s, t, onDispatcher, sends); } else { WaitKeeps(s, t); }
    case ReadReady(t, kind, sends) =>
      ReadMore(s);
      PutOutside(s.(arrivals := s.arrivals + 1), t);
      if s.live && kind == ReadyMessage { ReadyKeeps(s, t, sends); }
    case WakeReady(t, onDispatcher, sends) =>
      if s.live { RequestKeeps(s, t, onDispatcher, sends); } else { PutOutside(s, t); }
    case WakeReply(t) => WakeKeeps(s, t);
    case ReadReply(t, kind, sequence, status) => ReadKeeps(s, t, kind, sequence, status);
    case _ => DispatchKeeps(s, move);
  }

  lemma WaitKeeps(s: State, t: nat)
    requires Inv(s) && t < |s.callers| && s.callers[t] == Outside
    ensures Inv(Put(s, t, WaitingReady)) && Inv(Put(s, t, ReadingReady))
  {
    hide Stored, Once, Distinct, Matched;
    NotOutstanding(s.callers, s.requests, s.completed, t, WaitingReady);
    NotOutstanding(s.callers, s.requests, s.completed, t, ReadingReady);
  }

  lemma ReadyKeeps(s: State, t: nat, sends: bool)
    requires Inv(s) && t < |s.callers| && s.callers[t] == ReadingReady
    ensures Inv(Request(s.(arrivals := s.arrivals + 1).(ready := true, peerReady := true), t, true, sends))
  {
    hide Stored, Once, Distinct, Matched;
    ReadMore(s);
    RequestKeeps(s.(arrivals := s.arrivals + 1).(ready := true, peerReady := true), t, true, sends);
  }

  /** Any number of callers, any interleaving, any replies in any order. */
  lemma {:induction false} RunKeepsInv(threads: nat, moves: seq<Move>)
    requires Run(Initial(threads), moves).Some?
    ensures Inv(Run(Initial(threads), moves).value)
  {
    hide Next;
    if moves != [] {
      RunKeepsInv(threads, moves[..|moves| - 1]);
      NextKeeps(Run(Initial(threads), moves[..|moves| - 1]).value, moves[|moves| - 1]);
    }
  }

  /** Sequence numbers coincide exactly a multiple of 2^32 requests apart. */
  lemma SequenceIff(a: nat, b: nat)
    ensures Sequence(a) == Sequence(b) <==> (a - b) % TWO_32 == 0
  {
  }

  /**
   * A transaction completes only with a reply that succeeded and carries its sequence number.  Another
   * one's reply carries the same number exactly when the two are a multiple of 2^32 requests apart.
   */
  lemma RepliesMatch(threads: nat, moves: seq<Move>, j: nat, k: nat)
    requires Run(Initial(threads), moves).Some?
    requires var s := Run(Initial(threads), moves).value; j < |s.completed| && k < |s.completed|
    ensures var s := Run(Initial(threads), moves).value;
            var a, b := s.completed[j], s.completed[k];
            && b.reply.status == 0 && b.reply.sequence == Sequence(b.request)
            && (j != k ==> a.request != b.request)
            && (a.reply.sequence == b.reply.sequence <==> (a.request - b.request) % TWO_32 == 0)
  {
    hide Next, Sequence;
    RunKeepsInv(threads, moves);
    var s := Run(Initial(threads), moves).value;
    SequenceIff(s.completed[j].request, s.completed[k].request);
  }

  /** A request on the wire means the peer's ready was received or this side had sent its own. */
  lemma ReadyBeforeRequests(threads: nat, moves: seq<Move>)
    requires Run(Initial(threads), moves).Some?
    ensures var s := Run(Initial(threads), moves).value; s.sent != [] ==> s.served || s.peerReady
  {
    hide Next;
    RunKeepsInv(threads, moves);
  }

  /** On a live connection a call sends at once exactly when one of the two ready messages went out or came in. */
  lemma SendsIff(threads: nat, moves: seq<Move>, t: nat, onDispatcher: bool)
    requires Run(Initial(threads), moves).Some?
    requires var s := Run(Initial(threads), moves).value; s.live && t < |s.callers| && s.callers[t] == Outside
    ensures var s := Run(Initial(threads), moves).value;
            var r := Next(s, Call(t, onDispatcher, true));
            r.Some? && (r.value.sent == s.sent + [s.requests] <==> s.served || s.peerReady)
  {
    RunKeepsInv(threads, moves);
    var s := Run(Initial(threads), moves).value;
    assert |s.sent + [s.requests]| == |s.sent| + 1;
  }

  /** A side that serves may send before it has heard from the peer. */
  lemma ServingSendsFirst()
    ensures var r := Run(Initial(1), [Serve, Call(0, false, true)]);
            r.Some? && r.value.sent == [0] && !r.value.peerReady
  {
    var moves := [Serve, Call(0, false, true)];
    assert moves[..1] == [Serve] && moves[..1][..0] == [];
    assert Run(Initial(1), []) == Some(Initial(1));
    var s := Next(Initial(1), Serve).value;
    assert Run(Initial(1), moves[..1]) == Some(s);
  }

  // Calls are answered

  lemma Extend(s0: State, moves: seq<Move>, s: State, move: Move) returns (more: seq<Move>)
    requires Run(s0, moves) == Some(s)
    ensures more == moves + [move] && Run(s0, more) == Next(s, move)
  {
    hide Next;
    more := moves + [move];
    assert more[..|moves|] == moves;
  }

  /** A caller that waits for its reply goes on as soon as it is stored: with success exactly for status 0. */
  lemma StoredReplyEnds(s: State, t: nat)
    requires s.live && t < |s.callers| && s.callers[t].WaitingReply? && Sequence(s.callers[t].request) in s.pending
    ensures var q, r := Sequence(s.callers[t].request), s.callers[t].request;
            var s' := Next(s, WakeReply(t));
            && s'.Some? && s'.value.callers == s.callers[t := Outside] && s'.value.pending == s.pending - {q}
            && s'.value.completed
               == s.completed + (if s.pending[q].status == 0 then [Completion(r, s.pending[q])] else [])
  {
    assert s.completed + [] == s.completed;
  }

  /** The dispatcher files a reply under its sequence number and disturbs nothing else. */
  lemma ReplyIsStored(s: State, q: nat, status: int)
    requires s.live && s.dispatcher
    ensures var s' := Next(s, Dispatch(ReplyMessage, q, status));
            && s'.Some? && s'.value.callers == s.callers && s'.value.live && s'.value.completed == s.completed
            && s'.value.pending == s.pending[q := Reply(q, status, s.arrivals)]
  {
  }

  /**
   * With the dispatcher running, a call on a ready connection sends its request; when the reply to it comes in,
   * the call ends, successfully if the status is 0.
   */
  lemma CallIsAnswered(s: State, t: nat, status: int)
    requires s.live && s.ready && s.dispatcher && t < |s.callers| && s.callers[t] == Outside
    ensures var r := s.requests;
            var moves := [Call(t, false, true), Dispatch(ReplyMessage, Sequence(r), status), WakeReply(t)];
            var s' := Run(s, moves);
            && s'.Some? && s'.value.callers == s.callers && s'.value.sent == s.sent + [r] && s'.value.requests == r + 1
            && s'.value.completed
               == s.completed
                  + (if status == 0 then [Completion(r, Reply(Sequence(r), 0, s.arrivals))] else [])
  {
    hide Run, Sequence;
    var r := s.requests;
    RunNone(s);
    var moves := Extend(s, [], s, Call(t, false, true));
    var s1 := Next(s, Call(t, false, true)).value;
    moves := Extend(s, moves, s1, Dispatch(ReplyMessage, Sequence(r), status));
    ReplyIsStored(s1, Sequence(r), status);
    var s2 := Next(s1, Dispatch(ReplyMessage, Sequence(r), status)).value;
    moves := Extend(s, moves, s2, WakeReply(t));
    StoredReplyEnds(s2, t);
    assert moves == [Call(t, false, true), Dispatch(ReplyMessage, Sequence(r), status), WakeReply(t)];
    assert s.callers[t := WaitingReply(r)][t := Outside] == s.callers;
  }

  /** Without one the caller reads the reply itself. */
  lemma CallReadsAnswer(s: State, t: nat, onDispatcher: bool, status: int)
    requires s.live && s.ready && (!s.dispatcher || onDispatcher) && t < |s.callers| && s.callers[t] == Outside
    ensures var r := s.requests;
            var moves := [Call(t, onDispatcher, true), ReadReply(t, ReplyMessage, Sequence(r), status)];
            var s' := Run(s, moves);
            && s'.Some? && s'.value.callers == s.callers && s'.value.sent == s.sent + [r] && s'.value.requests == r + 1
            && s'.value.completed
               == s.completed
                  + (if status == 0 then [Completion(r, Reply(Sequence(r), 0, s.arrivals))] else [])
  {
    hide Run, Sequence;
    var r := s.requests;
    RunNone(s);
    var moves := Extend(s, [], s, Call(t, onDispatcher, true));
    var s1 := Next(s, Call(t, onDispatcher, true)).value;
    moves := Extend(s, moves, s1, ReadReply(t, ReplyMessage, Sequence(r), status));
    assert moves == [Call(t, onDispatcher, true), ReadReply(t, ReplyMessage, Sequence(r), status)];
    assert s.callers[t := ReadingReply(r)][t := Outside] == s.callers && s.completed + [] == s.completed;
  }

  /** A call that came before the peer was ready sends once the ready message is in, read by whoever reads. */
  lemma ReadyLetsCallsGo(s: State, t: nat)
    requires s.live && !s.ready && t < |s.callers| && s.callers[t] == Outside
    ensures s.dispatcher ==>
              var moves := [Call(t, false, true), Dispatch(ReadyMessage, 0, 0), WakeReady(t, false, true)];
              Run(s, moves).Some? && Run(s, moves).value.sent == s.sent + [s.requests]
    ensures !s.dispatcher ==>
              var moves := [Call(t, false, true), ReadReady(t, ReadyMessage, true)];
              Run(s, moves).Some? && Run(s, moves).value.sent == s.sent + [s.requests]
  {
    hide Run;
    RunNone(s);
    var moves := Extend(s, [], s, Call(t, false, true));
    var s1 := Next(s, Call(t, false, true)).value;
    if s.dispatcher {
      moves := Extend(s, moves, s1, Dispatch(ReadyMessage, 0, 0));
      var s2 := Next(s1, Dispatch(ReadyMessage, 0, 0)).value;
      moves := Extend(s, moves, s2, WakeReady(t, false, true));
      assert moves == [Call(t, false, true), Dispatch(ReadyMessage, 0, 0), WakeReady(t, false, true)];
    } else {
      moves := Extend(s, moves, s1, ReadReady(t, ReadyMessage, true));
      assert moves == [Call(t, false, true), ReadReady(t, ReadyMessage, true)];
    }
  }

  lemma RunNone(s: State)
    ensures Run(s, []) == Some(s)
  {
  }

  /** Once the connection is retired every caller that waits goes back, without success, and no reply is kept. */
  lemma RetiredLetsGo(s: State, t: nat)
    requires t < |s.callers| && s.callers[t] != Outside
    ensures var r := Next(s, Retire);
            && r.Some? && !r.value.live && r.value.pending == map[] && r.value.callers == s.callers
            && var move := match s.callers[t]
                           case WaitingReady => WakeReady(t, false, false)
                           case ReadingReady => ReadReady(t, OtherMessage, false)
                           case WaitingReply(_) => WakeReply(t)
                           case ReadingReply(_) => ReadReply(t, OtherMessage, 0, 0)
                           case Outside => Retire;
               var after := Next(r.value, move);
               && after.Some? && after.value.callers == s.callers[t := Outside]
               && after.value.completed == s.completed && after.value.sent == s.sent
  {
  }

  /** Sequence numbers start at 1 and count up, with 0 after the largest. */
  lemma SequenceCounts(request: nat)
    ensures Sequence(0) == 1
    ensures Sequence(request + 1) == if Sequence(request) == TWO_32 - 1 then 0 else Sequence(request) + 1
  {
  }

  /** The dispatcher reads exactly while it runs on a live connection; a message it does not know ends that. */
  lemma DispatcherReads(s: State, kind: Kind, q: nat, status: int)
    ensures var r := Next(s, Dispatch(kind, q, status));
            && (r.Some? <==> s.live && s.dispatcher)
            && (r.Some? ==> r.value.callers == s.callers && r.value.completed == s.completed && r.value.sent == s.sent)
            && (r.Some? && kind == OtherMessage ==> !r.value.live && r.value.pending == map[])
            && (r.Some? && kind != OtherMessage ==> r.value.live && r.value.dispatcher)
            && (r.Some? && kind != ReplyMessage && kind != OtherMessage ==> r.value.pending == s.pending)
            && (r.Some? ==> (r.value.ready <==> s.ready || kind == ReadyMessage))
  {
  }

  /** The first call of a served connection with a running dispatcher, from opening to success. */
  lemma FirstCall()
    ensures var moves := [Serve, StartDispatcher, Call(0, false, true), Dispatch(ReplyMessage, 1, 0), WakeReply(0)];
            var r := Run(Initial(1), moves);
            && r.Some? && r.value.sent == [0] && r.value.completed == [Completion(0, Reply(1, 0, 0))]
            && r.value.callers == [Outside] && !r.value.peerReady && r.value.pending == map[]
  {
    hide Run;
    var s0 := Initial(1);
    RunNone(s0);
    var moves := Extend(s0, [], s0, Serve);
    var s := Next(s0, Serve).value;
    moves := Extend(s0, moves, s, StartDispatcher);
    s := Next(s, StartDispatcher).value;
    moves := Extend(s0, moves, s, Call(0, false, true));
    s := Next(s, Call(0, false, true)).value;
    moves := Extend(s0, moves, s, Dispatch(ReplyMessage, 1, 0));
    s := Next(s, Dispatch(ReplyMessage, 1, 0)).value;
    moves := Extend(s0, moves, s, WakeReply(0));
    assert moves == [Serve, StartDispatcher, Call(0, false, true), Dispatch(ReplyMessage, 1, 0), WakeReply(0)];
  }
}
