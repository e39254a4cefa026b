/**
 * Semantic preservation: a thunk compiled for a shorty turns a Darwin call of that signature
 * into the AAPCS64 call of the same arguments, and back.
 */
module ThunkTheorem {
  import opened WordSize
  import opened Options
  import opened Bytes
  import opened Arm64
  import opened JniAbi
  import opened ShortyPlan
  import opened Thunk
  import opened ThunkCorrect
  import opened ThunkEmit

  /** Every shape but CriticalNative puts a proxy in place of the first argument. */
  predicate Substitutes(shape: CallShape) { !shape.Critical? }

  /** The values the target receives. */
  function Delivered(values: seq<seq<Byte>>, proxy: bool, lits: Literals): seq<seq<Byte>>
    requires proxy ==> |values| > 0
  {
    if proxy then values[0 := LeBytes(lits.proxy, 8)] else values
  }

  /** Only the first argument lives in x0. */
  lemma {:induction false} FirstGeneral(args: string, i: nat)
    requires 0 < i <= |args| && !IsFp(args[0])
    ensures Earlier(args, false, i) >= 1
  {
    if i > 1 { FirstGeneral(args, i - 1); }
  }

  /** A stacked argument has reached its slot with its bytes intact. */
  lemma StackArgument(s: State, at: State, args: string, i: nat, value: seq<Byte>)
    requires s.Valid() && at.Valid() && AllArguments(args) && i < |args| && !InRegister(args, i)
    requires at.sp == s.sp - 16 - PlanOf(args).frame
    requires Moved(s.mem, s.sp, at.mem, at.sp, PlanOf(args).moves, |PlanOf(args).moves|)
    requires ArgumentIs(Darwin, s, args, i, value)
    ensures ArgumentIs(Aapcs64, at, args, i, value)
  {
    hide MovesOf, DarwinEnd, FrameSize;
    var moves := PlanOf(args).moves;
    MoveOfArgument(args, i, |args|);
    var k := StackBefore(args, i);
    MovedAt(s.mem, s.sp, at.mem, at.sp, moves, |moves|, k);
    HoldsRead(s.mem, s.sp + DarwinOffset(args, i), value);
  }

  /** A register argument is still there, unless the proxy replaced it. */
  lemma RegisterArgument(s: State, r: State, at: State, args: string, i: nat, value: seq<Byte>, proxy: bool,
                         lits: Literals)
    requires s.Valid() && r.Valid() && AtTarget(s, r, at, proxy, lits) && AllArguments(args)
    requires i < |args| && InRegister(args, i) && ArgumentIs(Darwin, s, args, i, value)
    requires proxy ==> args[0] == 'L'
    ensures ArgumentIs(Aapcs64, at, args, i, if proxy && i == 0 then LeBytes(lits.proxy, 8) else value)
  {
    hide LeBytes, DarwinEnd, StackBefore;
    if proxy && i > 0 && !IsFp(args[i]) { FirstGeneral(args, i); }
  }

  lemma CallPreserved(s: State, r: State, at: State, args: string, values: seq<seq<Byte>>, proxy: bool, lits: Literals)
    requires IsCall(Darwin, s, args, values) && r.Valid() && AtTarget(s, r, at, proxy, lits)
    requires at.sp == s.sp - 16 - PlanOf(args).frame && at.sp % 16 == 0
    requires Moved(s.mem, s.sp, at.mem, at.sp, PlanOf(args).moves, |PlanOf(args).moves|)
    requires proxy ==> |args| > 0 && args[0] == 'L'
    ensures IsCall(Aapcs64, at, args, Delivered(values, proxy, lits))
  {
    hide ArgumentIs, Moved, PlanOf;
    var given := Delivered(values, proxy, lits);
    forall i | 0 <= i < |args| ensures ArgumentIs(Aapcs64, at, args, i, given[i]) {
      if InRegister(args, i) {
        RegisterArgument(s, r, at, args, i, values[i], proxy, lits);
      } else {
        StackArgument(s, at, args, i, values[i]);
      }
    }
  }

  /** The stack has room for the thunk's frame and is aligned as both conventions demand. */
  ghost predicate HasRoom(s: State, plan: Plan) {
    s.Valid() && s.sp % 16 == 0 && 16 + plan.frame <= s.sp < TWO_64
  }

  /**
   * Semantic preservation.  Let buffer hold the thunk compiled for an accepted shorty, mapped
   * at base.  Entered by any Darwin call of that signature, with callees that keep AAPCS64's
   * rules, the thunk runs to its return; it calls push, target and pop once each; the target
   * receives the same arguments in AAPCS64 places, with the proxy as first argument unless
   * the call is critical; and the caller gets the target's x0 and q0 and its own state back.
   */
  lemma SemanticPreservation(buffer: seq<Byte>, base: nat, start: nat, shorty: string, shape: CallShape, lits: Literals,
                             s: State, values: seq<seq<Byte>>, answers: seq<State>)
    returns (end: Config)
    requires Accepts(shorty, shape) && (shape.Lifecycle? ==> shorty in {"ILL", "VLL"})
    requires AllArguments(Arguments(shorty, shape))
    requires Compiled(buffer, start, PlanOf(Arguments(shorty, shape)), Substitutes(shape), lits)
    requires base + |buffer| < TWO_64
    requires lits.push < TWO_64 && lits.pop < TWO_64 && lits.proxy < TWO_64 && lits.target < TWO_64
    requires IsCall(Darwin, s, Arguments(shorty, shape), values) && HasRoom(s, PlanOf(Arguments(shorty, shape)))
    requires |answers| == 3
    requires WellAnswered(Mapped(buffer, base, answers), Config(start, s, [], false), s.sp,
                          8 * |PlanOf(Arguments(shorty, shape)).moves|)
    ensures var args := Arguments(shorty, shape); var plan := PlanOf(args); var proxy := Substitutes(shape);
      var m := Mapped(buffer, base, answers);
      && m.Run(Config(start, s, [], false), Length(|plan.moves|, proxy) - 1) == Some(end)
      && |m.answers| == 3 && m.answers == answers
      && Returned(m, s, plan, proxy, lits, end) && Restored(m, s, plan, end)
      && (proxy ==> |values| > 0)
      && IsCall(Aapcs64, end.calls[1].at, args, Delivered(values, proxy, lits))
    ensures |end.calls| == 3 && |end.calls[1].at.x| == |s.x| == 31
    ensures shape.Regular? || shape.Lifecycle? ==> end.calls[1].at.x[0] == lits.proxy
    ensures shape.Critical? ==> end.calls[1].at.x[0] == s.x[0]
  {
    hide Compiled, Mapped, TailAccepted, IsCall, PlanOf, WellAnswered, Machine.Run, Moved;
    hide ThunkAt, Framed, Restored, LeBytes, GoodMoves;
    var args := Arguments(shorty, shape);
    var plan, proxy := PlanOf(args), Substitutes(shape);
    FrameBounds(shorty, shape);
    CompiledMapped(buffer, base, answers, start, plan, proxy, lits);
    MappedBase(buffer, base, answers);
    var m := Mapped(buffer, base, answers);
    StepCount(plan, proxy);
    end := ThunkRuns(m, start, plan, proxy, lits, s);
    Leads(shorty, shape, s, values);
    FramedMoved(s, m.answers[0].mem, plan);
    CallPreserved(s, m.answers[0], end.calls[1].at, args, values, proxy, lits);
  }

  lemma FramedMoved(s: State, m: Memory, plan: Plan)
    requires s.Valid() && plan.frame >= SCRATCH && Framed(s, m, plan)
    ensures Moved(s.mem, s.sp, m, s.sp - 16 - plan.frame, plan.moves, |plan.moves|)
  {
  }

  /** A call with a proxy has a reference as first argument. */
  lemma Leads(shorty: string, shape: CallShape, s: State, values: seq<seq<Byte>>)
    requires Accepts(shorty, shape) && (shape.Lifecycle? ==> shorty in {"ILL", "VLL"})
    requires IsCall(Darwin, s, Arguments(shorty, shape), values)
    ensures Substitutes(shape) ==>
              |values| > 0 && |values| == |Arguments(shorty, shape)| && Arguments(shorty, shape)[0] == 'L'
  {
  }
}
