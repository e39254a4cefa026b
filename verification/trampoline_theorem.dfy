/** What calling an address handed out by CreateTrampolines does. */
module TrampolineTheorem {
  import opened WordSize
  import opened Options
  import opened Bytes
  import opened Arm64
  import opened JniAbi
  import opened ShortyPlan
  import opened Thunk
  import opened ThunkCorrect
  import opened ThunkEmit
  import opened ThunkTheorem
  import opened TrampolineSet
  import TrampolineRegistry

  /** The argument types a request's target receives. */
  function ArgumentsOf(r: Request, shape: CallShape): (args: string)
    requires ShortyOk(r.shorty, shape)
    ensures AllArguments(args) && PlanFor(r, shape) == PlanOf(args)
  {
    OkIsAccepted(r.shorty, shape);
    Arguments(r.shorty.value, shape)
  }

  ghost predicate Addressable(t: Trampolines, hooks: Hooks) {
    && t.start + t.mapped < TWO_64 && hooks.push < TWO_64 && hooks.pop < TWO_64 && hooks.proxy < TWO_64
    && forall i :: 0 <= i < |t.requests| ==> t.requests[i].target < TWO_64
  }

  /**
   * Any Darwin call of a request's signature to the address that request was given reaches that request's
   * own target with the same arguments in AAPCS64 places, between one push and one pop, and returns.
   */
  lemma RequestRuns(t: Trampolines, shape: CallShape, hooks: Hooks, i: nat, s: State, values: seq<seq<Byte>>,
                    answers: seq<State>)
    returns (end: Config)
    requires GoodSet(t, shape, hooks) && i < |t.requests| && Addressable(t, hooks)
    requires var args := ArgumentsOf(t.requests[i], shape);
             IsCall(Darwin, s, args, values) && HasRoom(s, PlanOf(args)) && |answers| == 3
             && WellAnswered(Mapped(t.code, t.start, answers), Config(t.requested[i] - t.start, s, [], false), s.sp,
                             8 * |PlanOf(args).moves|)
    ensures var args := ArgumentsOf(t.requests[i], shape);
            var plan, proxy, m := PlanOf(args), Substitutes(shape), Mapped(t.code, t.start, answers);
            && m.Run(Config(t.requested[i] - t.start, s, [], false), Length(|plan.moves|, proxy) - 1) == Some(end)
            && |m.answers| == 3 && Returned(m, s, plan, proxy, LiteralsOf(hooks, t.requests[i]), end)
            && Restored(m, s, plan, end)
            && (proxy ==> |values| > 0)
            && end.calls[1].callee == t.requests[i].target
            && IsCall(Aapcs64, end.calls[1].at, args, Delivered(values, proxy, LiteralsOf(hooks, t.requests[i])))
    ensures |end.calls| == 3 && |end.calls[1].at.x| == |s.x| == 31
    ensures shape.Regular? || shape.Lifecycle? ==> end.calls[1].at.x[0] == hooks.proxy
    ensures shape.Critical? ==> end.calls[1].at.x[0] == s.x[0]
    ensures end.calls[0].callee == hooks.push && end.calls[2].callee == hooks.pop
  {
    hide Compiled, Mapped, IsCall, PlanOf, WellAnswered, Machine.Run, Accepts, Restored, Delivered, GoodEntries,
         HasRoom;
    var r := t.requests[i];
    OkIsAccepted(r.shorty, shape);
    end := SemanticPreservation(t.code, t.start, t.requested[i] - t.start, r.shorty.value, shape, LiteralsOf(hooks, r),
                                s, values, answers);
  }

  /** A created set may be published. */
  lemma CreatedIsSound(t: Trampolines, shape: CallShape, hooks: Hooks)
    requires GoodSet(t, shape, hooks)
    ensures TrampolineRegistry.Sound(t)
  {
  }
}
