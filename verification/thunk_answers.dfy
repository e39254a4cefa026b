/**
 * Callees as functions of the state they receive.  Whatever callees keep AAPCS64's rules, there are answers
 * that meet what the theorem about thunks asks of them, so the theorem holds for all such callees.
 */
module ThunkAnswers {
  import opened WordSize
  import opened Options
  import opened Bytes
  import opened Arm64
  import opened JniAbi
  import opened ShortyPlan
  import opened Thunk
  import opened ThunkCorrect
  import opened ThunkEmit
  import opened ThunkTheorem

  /** What the i-th call out leaves, given what it was entered with. */
  type Callees = (nat, State) -> State

  ghost predicate AllObey(f: Callees, top: int, tail: nat) {
    forall i: nat, at: State :: at.Valid() ==> Obeys(at, f(i, at), at.sp + (if i == 1 then tail else 0), top)
  }

  /** The state a call out is entered with. */
  function Entering(m: Machine, c: Config): State
    requires |c.s.x| == 31
  {
    c.s.(x := c.s.x[30 := m.base + c.pc + 4])
  }

  predicate Calls(m: Machine, c: Config) {
    var i := m.fetch(c.pc);
    i.Some? && i.value.Blr? && !c.returned && Enabled(i.value, c.s)
  }

  /** One step with the callees answering for themselves. */
  function StepWith(m: Machine, f: Callees, c: Config): Option<Config> {
    if Calls(m, c) then
      var at := Entering(m, c);
      Some(Config(c.pc + 4, f(|c.calls|, at), c.calls + [Call(c.s.x[m.fetch(c.pc).value.rn], at)], false))
    else m.Step(c)
  }

  function RunWith(m: Machine, f: Callees, c: Config, n: nat): Option<Config> {
    if n == 0 then Some(c)
    else
      var d := RunWith(m, f, c, n - 1);
      if d.None? then None else StepWith(m, f, d.value)
  }

  // States stay well-formed

  /** The decoder knows accesses of at most eight bytes. */
  lemma DecodedSize(w: nat)
    ensures Decode(w).Some? && Decode(w).value.Load? ==> Decode(w).value.size <= 8
  {
  }

  lemma Powers()
    ensures Pow256(8) == TWO_64 && Pow256(16) == TWO_128
  {
    assert Pow256(4) == 0x1_0000_0000;
    assert Pow256(8) == TWO_64;
    assert Pow256(12) == 0x1_0000_0000 * TWO_64;
  }

  lemma {:induction false} PowerGrows(n: nat, k: nat)
    requires n <= k
    ensures Pow256(n) <= Pow256(k)
  {
    if n < k { PowerGrows(n, k - 1); }
  }

  lemma ReadFits(m: Memory, a: int, n: nat, most: nat)
    requires n <= most
    ensures FromLe(ReadBytes(m, a, n)) < Pow256(most)
  {
    hide ReadBytes;
    LeInverse(ReadBytes(m, a, n));
    PowerGrows(n, most);
  }

  lemma ExecValid(i: Instr, s: State)
    requires Plain(i) && Enabled(i, s) && s.Valid() && (i.Load? ==> i.size <= 8)
    ensures Exec(i, s).Valid()
  {
    hide WriteBytes, ReadBytes, LeBytes, FromLe, Pow256;
    Powers();
    match i
    case Load(size, _, rn, off) => ReadFits(s.mem, s.Base(rn) + off, size, 8);
    case LoadQ(_, rn, off) => ReadFits(s.mem, s.Base(rn) + off, 16, 16);
    case LoadPairPost(_, _, _, _) =>
      ReadFits(s.mem, s.sp, 8, 8);
      ReadFits(s.mem, s.sp + 8, 8, 8);
    case _ =>
  }

  ghost predicate Sane(d: Config) {
    d.s.Valid() && forall i :: 0 <= i < |d.calls| ==> d.calls[i].at.Valid()
  }

  lemma LiteralFits(code: seq<Byte>, base: nat, a: int)
    ensures var v := Mapped(code, base, []).literal(a); v.Some? ==> v.value < TWO_64
  {
    if 0 <= a && a + 8 <= |code| {
      LeInverse(code[a..a + 8]);
      Powers();
    }
  }

  lemma StepSane(code: seq<Byte>, base: nat, f: Callees, d: Config, top: int, tail: nat)
    requires base + |code| < TWO_64 && Sane(d) && AllObey(f, top, tail)
    requires StepWith(Mapped(code, base, []), f, d).Some?
    ensures Sane(StepWith(Mapped(code, base, []), f, d).value)
  {
    hide Decode, FromLe, Exec, Obeys;
    var m := Mapped(code, base, []);
    var i := m.fetch(d.pc).value;
    if Calls(m, d) {
      var at := Entering(m, d);
      assert at.Valid();
      ObeysValid(at, f(|d.calls|, at), at.sp + (if |d.calls| == 1 then tail else 0), top);
    } else if Plain(i) {
      DecodedSize(FromLe(code[d.pc..d.pc + 4]));
      ExecValid(i, d.s);
    } else if i.LoadLiteral? {
      LiteralFits(code, base, d.pc + i.delta);
    }
  }

  lemma ObeysValid(at: State, after: State, lo: int, hi: int)
    requires Obeys(at, after, lo, hi)
    ensures after.Valid()
  {
  }

  lemma {:induction false} RunSane(code: seq<Byte>, base: nat, f: Callees, c: Config, top: int, tail: nat, n: nat)
    requires base + |code| < TWO_64 && Sane(c) && AllObey(f, top, tail)
    requires RunWith(Mapped(code, base, []), f, c, n).Some?
    ensures Sane(RunWith(Mapped(code, base, []), f, c, n).value)
  {
    hide Mapped, StepWith, AllObey, Sane;
    if n > 0 {
      RunSane(code, base, f, c, top, tail, n - 1);
      StepSane(code, base, f, RunWith(Mapped(code, base, []), f, c, n - 1).value, top, tail);
    }
  }

  // Each call is answered by its callee

  ghost predicate Answers(f: Callees, d: Config, i: nat, answer: State) {
    i < |d.calls| ==> answer == f(i, d.calls[i].at)
  }

  lemma StepCalls(m: Machine, f: Callees, d: Config)
    requires StepWith(m, f, d).Some?
    ensures d.calls <= StepWith(m, f, d).value.calls
    ensures |StepWith(m, f, d).value.calls| <= |d.calls| + 1
  {
    hide Exec, Enabled;
  }

  /** Calls made stay made. */
  lemma {:induction false} CallsGrow(m: Machine, f: Callees, c: Config, n: nat, k: nat)
    requires n <= k && RunWith(m, f, c, k).Some?
    ensures RunWith(m, f, c, n).Some? && RunWith(m, f, c, n).value.calls <= RunWith(m, f, c, k).value.calls
    decreases k
  {
    hide StepWith;
    if n < k {
      CallsGrow(m, f, c, n, k - 1);
      StepCalls(m, f, RunWith(m, f, c, k - 1).value);
    }
  }

  ghost predicate Makes(m: Machine, f: Callees, c: Config, n: nat, i: nat) {
    RunWith(m, f, c, n).Some? && i < |RunWith(m, f, c, n).value.calls|
  }

  /** What the i-th callee leaves in the one run there is, or anything when it is never called. */
  ghost function AnswerOf(m: Machine, f: Callees, c: Config, i: nat): State {
    if exists n: nat :: Makes(m, f, c, n, i) then
      var n: nat :| Makes(m, f, c, n, i);
      f(i, RunWith(m, f, c, n).value.calls[i].at)
    else c.s
  }

  lemma AnswerIs(m: Machine, f: Callees, c: Config, i: nat, k: nat)
    requires Makes(m, f, c, k, i)
    ensures AnswerOf(m, f, c, i) == f(i, RunWith(m, f, c, k).value.calls[i].at)
  {
    hide RunWith;
    var n: nat :| Makes(m, f, c, n, i) && AnswerOf(m, f, c, i) == f(i, RunWith(m, f, c, n).value.calls[i].at);
    if n <= k { CallsGrow(m, f, c, n, k); } else { CallsGrow(m, f, c, k, n); }
  }

  ghost function AnswersOf(m: Machine, f: Callees, c: Config): (answers: seq<State>)
    ensures |answers| == 3
  {
    [AnswerOf(m, f, c, 0), AnswerOf(m, f, c, 1), AnswerOf(m, f, c, 2)]
  }

  /** A step against the answers is the callees' own step, as long as the answers last. */
  lemma SameStep(code: seq<Byte>, base: nat, f: Callees, answers: seq<State>, d: Config)
    requires Mapped(code, base, answers).Step(d).Some?
    requires Calls(Mapped(code, base, []), d) && |d.calls| < |answers| ==>
               answers[|d.calls|] == f(|d.calls|, Entering(Mapped(code, base, []), d))
    ensures Mapped(code, base, answers).Step(d) == StepWith(Mapped(code, base, []), f, d)
    ensures |d.calls| <= |answers| ==> |Mapped(code, base, answers).Step(d).value.calls| <= |answers|
  {
    hide Decode, FromLe, Exec;
  }

  /** The answers taken from the callees' run reproduce that run. */
  lemma {:induction false} SameRun(code: seq<Byte>, base: nat, f: Callees, c: Config, n: nat)
    requires c.calls == []
    ensures var m := Mapped(code, base, []);
            var r := Mapped(code, base, AnswersOf(m, f, c)).Run(c, n);
            r.Some? ==> r == RunWith(m, f, c, n) && |r.value.calls| <= 3
  {
    hide Mapped, AnswerOf, Machine.Step, StepWith;
    var m := Mapped(code, base, []);
    var answers := AnswersOf(m, f, c);
    var full := Mapped(code, base, answers);
    if n > 0 && full.Run(c, n).Some? {
      SameRun(code, base, f, c, n - 1);
      var d := full.Run(c, n - 1).value;
      if Calls(m, d) && |d.calls| < 3 {
        CallMakes(m, f, c, n, d);
        AnswerIs(m, f, c, |d.calls|, n);
      }
      SameStep(code, base, f, answers, d);
    }
  }

  lemma CallMakes(m: Machine, f: Callees, c: Config, n: nat, d: Config)
    requires n > 0 && RunWith(m, f, c, n - 1) == Some(d) && Calls(m, d)
    ensures Makes(m, f, c, n, |d.calls|)
    ensures RunWith(m, f, c, n).value.calls[|d.calls|].at == Entering(m, d)
  {
  }

  /** In a run of the callees each call is answered by its callee, as AAPCS64 prescribes. */
  lemma RunAnswered(code: seq<Byte>, base: nat, f: Callees, c: Config, top: int, tail: nat, n: nat)
    requires base + |code| < TWO_64 && c.s.Valid() && c.calls == [] && AllObey(f, top, tail)
    requires Mapped(code, base, AnswersOf(Mapped(code, base, []), f, c)).Run(c, n).Some?
    ensures var answers := AnswersOf(Mapped(code, base, []), f, c);
            var m := Mapped(code, base, answers);
            && Answered(m, m.Run(c, n).value.calls, top, tail)
            && forall i :: 0 <= i < 3 ==> Answers(f, m.Run(c, n).value, i, answers[i])
  {
    hide Mapped, AnswerOf, RunWith, Machine.Run, Obeys;
    var m := Mapped(code, base, []);
    var answers := AnswersOf(m, f, c);
    MappedAnswers(code, base, answers);
    SameRun(code, base, f, c, n);
    RunSane(code, base, f, c, top, tail, n);
    var d := RunWith(m, f, c, n).value;
    forall i | 0 <= i < 3 ensures Answers(f, d, i, answers[i]) {
      if i < |d.calls| { AnswerIs(m, f, c, i, n); }
    }
    forall i | 0 <= i < |d.calls| && i < 3
      ensures Obeys(d.calls[i].at, answers[i], d.calls[i].at.sp + (if i == 1 then tail else 0), top)
    {
      assert Answers(f, d, i, answers[i]);
    }
  }

  lemma MappedAnswers(code: seq<Byte>, base: nat, answers: seq<State>)
    ensures Mapped(code, base, answers).answers == answers
  {
  }

  /** For any mapped code, any entry and any callees that keep the rules there are well-behaved answers. */
  lemma CalleesAnswer(code: seq<Byte>, base: nat, f: Callees, c: Config, top: int, tail: nat)
    returns (answers: seq<State>)
    requires base + |code| < TWO_64 && c.s.Valid() && c.calls == [] && AllObey(f, top, tail)
    ensures |answers| == 3 && WellAnswered(Mapped(code, base, answers), c, top, tail)
    ensures forall n: nat, i | Mapped(code, base, answers).Run(c, n).Some? && 0 <= i < 3 ::
              Answers(f, Mapped(code, base, answers).Run(c, n).value, i, answers[i])
  {
    hide Mapped, AnswerOf, Machine.Run, Answered, Answers, AllObey;
    answers := AnswersOf(Mapped(code, base, []), f, c);
    var m := Mapped(code, base, answers);
    forall n: nat | m.Run(c, n).Some?
      ensures Answered(m, m.Run(c, n).value.calls, top, tail)
      ensures forall i :: 0 <= i < 3 ==> Answers(f, m.Run(c, n).value, i, answers[i])
    {
      RunAnswered(code, base, f, c, top, tail, n);
    }
  }

  /** There are such callees: those that return the state they received. */
  lemma CalleesExist(top: int, tail: nat)
    ensures AllObey((i, at) => at, top, tail)
  {
  }

  /**
   * Semantic preservation for callees as functions: for every push, target and pop that keep AAPCS64's rules
   * the thunk runs to its return, the target gets the caller's arguments, and the caller gets its result.
   */
  lemma CalleesPreserved(buffer: seq<Byte>, base: nat, start: nat, shorty: string, shape: CallShape, lits: Literals,
                         s: State, values: seq<seq<Byte>>, f: Callees)
    returns (answers: seq<State>, end: Config)
    requires Accepts(shorty, shape) && (shape.Lifecycle? ==> shorty in {"ILL", "VLL"})
    requires AllArguments(Arguments(shorty, shape))
    requires Compiled(buffer, start, PlanOf(Arguments(shorty, shape)), Substitutes(shape), lits)
    requires base + |buffer| < TWO_64
    requires lits.push < TWO_64 && lits.pop < TWO_64 && lits.proxy < TWO_64 && lits.target < TWO_64
    requires IsCall(Darwin, s, Arguments(shorty, shape), values) && HasRoom(s, PlanOf(Arguments(shorty, shape)))
    requires AllObey(f, s.sp, 8 * |PlanOf(Arguments(shorty, shape)).moves|)
    ensures var args := Arguments(shorty, shape); var plan := PlanOf(args); var proxy := Substitutes(shape);
      var m := Mapped(buffer, base, answers);
      && m.Run(Config(start, s, [], false), Length(|plan.moves|, proxy) - 1) == Some(end)
      && |m.answers| == 3 && m.answers == answers
      && Returned(m, s, plan, proxy, lits, end) && Restored(m, s, plan, end)
      && (forall i :: 0 <= i < 3 ==> answers[i] == f(i, end.calls[i].at))
      && (proxy ==> |values| > 0)
      && IsCall(Aapcs64, end.calls[1].at, args, Delivered(values, proxy, lits))
    ensures |end.calls| == 3 && |end.calls[1].at.x| == |s.x| == 31
    ensures shape.Regular? || shape.Lifecycle? ==> end.calls[1].at.x[0] == lits.proxy
    ensures shape.Critical? ==> end.calls[1].at.x[0] == s.x[0]
  {
    hide Compiled, Mapped, IsCall, PlanOf, WellAnswered, Machine.Run, Restored, AllObey;
    var c := Config(start, s, [], false);
    answers := CalleesAnswer(buffer, base, f, c, s.sp, 8 * |PlanOf(Arguments(shorty, shape)).moves|);
    end := SemanticPreservation(buffer, base, start, shorty, shape, lits, s, values, answers);
    assert forall i :: 0 <= i < 3 ==> Answers(f, end, i, answers[i]);
  }
}
