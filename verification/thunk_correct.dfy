/** Running a whole thunk. */
module ThunkCorrect {
  import opened WordSize
  import opened Options
  import opened Bytes
  import opened Arm64
  import opened ShortyPlan
  import opened Thunk

  /**
   * What AAPCS64 lets a caller rely on across a call: the stack pointer, x19..x29, the low
   * halves of v8..v15, and memory in [lo, hi).  Everything else may have changed.
   */
  ghost predicate Obeys(at: State, after: State, lo: int, hi: int) {
    && at.Valid() && after.Valid() && after.sp == at.sp
    && (forall r :: 19 <= r <= 29 ==> after.x[r] == at.x[r])
    && (forall r :: 8 <= r <= 15 ==> after.v[r] % TWO_64 == at.v[r] % TWO_64)
    && SameWithin(at.mem, after.mem, lo, hi)
  }

  /** The frame a thunk entered in state s keeps below the caller's stack pointer. */
  ghost predicate Framed(s: State, m: Memory, plan: Plan)
    requires s.Valid() && plan.frame >= SCRATCH
  {
    var sp := s.sp - 16 - plan.frame;
    && Holds(m, s.sp - 16, LeBytes(s.x[29], 8)) && Holds(m, s.sp - 8, LeBytes(s.x[30], 8))
    && SavedV(m, sp + plan.frame - SCRATCH, s.v, 8)
    && SavedX(m, sp + plan.frame - SCRATCH + 128, s.x, 8)
    && Moved(s.mem, s.sp, m, sp, plan.moves, |plan.moves|)
  }

  ghost predicate Entered(s: State, t: State, plan: Plan)
    requires s.Valid() && plan.frame >= SCRATCH
  {
    && t.Valid() && t.sp == s.sp - 16 - plan.frame && t.v == s.v
    && t.x[29] == s.sp - 16 && t.x[0] == s.x[28] && SameX(s, t, {0, 9, 29})
    && SameOutside(s.mem, t.mem, t.sp, s.sp)
    && Framed(s, t.mem, plan)
  }

  ghost predicate CanEnter(s: State, plan: Plan) {
    && s.Valid() && s.sp % 16 == 0 && GoodPlan(plan)
    && 16 + plan.frame <= s.sp < TWO_64
  }

  lemma {:induction false} MovedSource(s: Memory, s': Memory, from: int, m: Memory, to: int, moves: seq<StackMove>,
                                       k: nat)
    requires k <= |moves| && Moved(s, from, m, to, moves, k)
    requires forall a: int :: a >= from ==> s'(a) == s(a)
    ensures Moved(s', from, m, to, moves, k)
  {
    if k > 0 {
      MovedSource(s, s', from, m, to, moves, k - 1);
      assert ReadBytes(s', from + moves[k - 1].darwin, moves[k - 1].size)
          == ReadBytes(s, from + moves[k - 1].darwin, moves[k - 1].size);
    }
  }

  lemma {:induction false} SavedXSame(m: Memory, a: int, x: seq<nat>, y: seq<nat>, k: nat)
    requires k <= |x| && k <= |y| && SavedX(m, a, x, k) && forall r :: 0 <= r < k ==> x[r] == y[r]
    ensures SavedX(m, a, y, k)
  {
    if k > 0 { SavedXSame(m, a, x, y, k - 1); }
  }

  /** Everything the frame holds survives where memory is unchanged. */
  lemma FramedAcross(s: State, m: Memory, m': Memory, plan: Plan)
    requires CanEnter(s, plan) && Framed(s, m, plan)
    requires SameWithin(m, m', s.sp - 16 - plan.frame, s.sp)
    ensures Framed(s, m', plan)
  {
    var sp := s.sp - 16 - plan.frame;
    HoldsAcross(m, m', s.sp - 16, LeBytes(s.x[29], 8));
    HoldsAcross(m, m', s.sp - 8, LeBytes(s.x[30], 8));
    SavedVAcross(m, m', sp + plan.frame - SCRATCH, s.v, 8);
    SavedXAcross(m, m', sp + plan.frame - SCRATCH + 128, s.x, 8);
    MovedAcross(s.mem, s.sp, m, m', sp, plan.moves, |plan.moves|);
  }

  /** The saves above the guest tail leave the tail and the saved pair in place. */
  lemma SavesKeep(s: State, p: State, q: State, v: State, w: State, plan: Plan)
    requires CanEnter(s, plan) && p.Valid() && q.Valid()
    requires p.sp == s.sp - 16 - plan.frame && p.x == s.x[29 := s.sp - 16] && p.v == s.v
    requires SameOutside(s.mem, p.mem, s.sp - 16, s.sp)
    requires Holds(p.mem, s.sp - 16, LeBytes(s.x[29], 8)) && Holds(p.mem, s.sp - 8, LeBytes(s.x[30], 8))
    requires AfterMoves(p, q, plan.moves, |plan.moves|)
    requires AfterSaveV(q, v, plan.frame - SCRATCH, 8)
    requires AfterSaveX(v, w, plan.frame - SCRATCH, 8)
    ensures Framed(s, w.mem, plan) && SameOutside(s.mem, w.mem, p.sp, s.sp)
  {
    hide LeBytes, SavedV, SavedX, Moved, Holds;
    var sp, scratch := p.sp, plan.frame - SCRATCH;
    MovedSource(p.mem, s.mem, s.sp, q.mem, sp, plan.moves, |plan.moves|);
    MovedAcross(s.mem, s.sp, q.mem, w.mem, sp, plan.moves, |plan.moves|);
    HoldsAcross(p.mem, w.mem, s.sp - 16, LeBytes(s.x[29], 8));
    HoldsAcross(p.mem, w.mem, s.sp - 8, LeBytes(s.x[30], 8));
    SavedVAcross(v.mem, w.mem, sp + scratch, s.v, 8);
    SavedXSame(w.mem, sp + scratch + 128, v.x, s.x, 8);
  }

  lemma EntryEffect(s: State, plan: Plan) returns (t: State)
    requires CanEnter(s, plan)
    ensures Takes(Entry(plan), s, t) && Entered(s, t, plan)
  {
    hide Takes, Framed, SavedV, SavedX, Moved, Holds, LeBytes;
    var scratch, n := plan.frame - SCRATCH, |plan.moves|;
    var p := PrologueEffect(s, plan.frame);
    var q := MoveEffect(p, plan.moves, n);
    var v := SaveVEffect(q, scratch, 8);
    var w := SaveXEffect(v, scratch, 8);
    SavesKeep(s, p, q, v, w, plan);
    TakesThen(Prologue(plan.frame), MoveCode(plan.moves, n), s, p, q);
    TakesThen(Prologue(plan.frame) + MoveCode(plan.moves, n), SaveV(scratch, 8), s, q, v);
    TakesThen(Prologue(plan.frame) + MoveCode(plan.moves, n) + SaveV(scratch, 8), SaveX(scratch, 8), s, v, w);
    TakesMore(Prologue(plan.frame) + MoveCode(plan.moves, n) + SaveV(scratch, 8) + SaveX(scratch, 8), MovReg(0, 28), s,
              w);
    t := Exec(MovReg(0, 28), w);
  }

  /** After the push hook, the argument registers are as the caller left them. */
  lemma ReloadEffect(s: State, r: State, plan: Plan) returns (t: State)
    requires CanEnter(s, plan) && r.Valid() && r.sp == s.sp - 16 - plan.frame && Framed(s, r.mem, plan)
    ensures Takes(Reload(plan.frame - SCRATCH), r, t)
    ensures t.Valid() && t.sp == r.sp && t.mem == r.mem && t.x == s.x[..8] + r.x[8..] && t.v == s.v[..8] + r.v[8..]
  {
    var scratch := plan.frame - SCRATCH;
    var u := RestoreVEffect(r, scratch, s.v, 8);
    t := RestoreXEffect(u, scratch, s.x, 8);
    TakesThen(RestoreV(scratch, 8), RestoreX(scratch, 8), r, u, t);
  }

  /** After the target, its result is parked above the guest tail and x0, x1 are set for the pop hook. */
  lemma KeepEffect(r: State, scratch: nat) returns (t: State)
    requires r.Valid() && r.sp % 16 == 0
    ensures Takes(KeepResult(scratch), r, t)
    ensures t.Valid() && t.sp == r.sp && t.v == r.v && t.x == r.x[0 := r.x[28]][1 := 0]
    ensures SameOutside(r.mem, t.mem, r.sp + scratch, r.sp + scratch + SCRATCH)
    ensures Holds(t.mem, r.sp + scratch + 8, LeBytes(r.x[0], 8))
    ensures Holds(t.mem, r.sp + scratch + 208, LeBytes(r.v[0], 16))
  {
    hide LeBytes;
    var a, b := Store(8, 0, SP, scratch + 8), StoreQ(0, SP, scratch + 208);
    var s1 := Exec(a, r);
    var s2 := Exec(b, s1);
    var s3 := Exec(MovReg(0, 28), s2);
    t := Exec(MovReg(1, 31), s3);
    TakesFour(a, b, MovReg(0, 28), MovReg(1, 31), r, s1, s2, s3);
    var x0, v0 := LeBytes(r.x[0], 8), LeBytes(r.v[0], 16);
    assert s1.mem == WriteBytes(r.mem, r.sp + scratch + 8, x0);
    assert t.mem == WriteBytes(s1.mem, r.sp + scratch + 208, v0);
    Parked(r.mem, r.sp + scratch, x0, v0);
  }

  lemma Parked(m: Memory, a: int, x0: seq<Byte>, v0: seq<Byte>)
    requires |x0| == 8 && |v0| == 16
    ensures var m' := WriteBytes(WriteBytes(m, a + 8, x0), a + 208, v0);
      && SameOutside(m, m', a, a + SCRATCH)
      && Holds(m', a + 8, x0) && Holds(m', a + 208, v0)
  {
    var m1 := WriteBytes(m, a + 8, x0);
    WriteEffect(m, a + 8, x0);
    WriteEffect(m1, a + 208, v0);
    HoldsAcross(m1, WriteBytes(m1, a + 208, v0), a + 8, x0);
  }

  lemma ReadsX0(r: State, off: nat, x0: nat)
    requires r.Valid() && r.sp % 16 == 0 && x0 < TWO_64 && Holds(r.mem, r.sp + off, LeBytes(x0, 8))
    ensures Enabled(Load(8, 0, SP, off), r) && Exec(Load(8, 0, SP, off), r) == r.(x := r.x[0 := x0])
  {
    hide FromLe, LeBytes, ReadBytes, Holds;
    PowValues();
    LoadSaved(r.mem, r.sp + off, x0, 8);
  }

  lemma ReadsV0(r: State, off: nat, v0: nat)
    requires r.Valid() && r.sp % 16 == 0 && v0 < TWO_128 && Holds(r.mem, r.sp + off, LeBytes(v0, 16))
    ensures Enabled(LoadQ(0, SP, off), r) && Exec(LoadQ(0, SP, off), r) == r.(v := r.v[0 := v0])
  {
    hide FromLe, LeBytes, ReadBytes, Holds;
    PowValues();
    LoadSaved(r.mem, r.sp + off, v0, 16);
  }

  lemma LeavesFrame(r: State)
    requires r.Valid() && r.x[29] < TWO_64
    ensures Enabled(AddImm(SP, 29, 0), r) && Exec(AddImm(SP, 29, 0), r) == r.(sp := r.x[29])
  {
  }

  lemma ReadsLink(r: State, fp: nat, lr: nat)
    requires r.Valid() && r.sp % 16 == 0 && r.sp + 16 < TWO_64 && fp < TWO_64 && lr < TWO_64
    requires Holds(r.mem, r.sp, LeBytes(fp, 8)) && Holds(r.mem, r.sp + 8, LeBytes(lr, 8))
    ensures Enabled(LoadPairPost(29, 30, SP, 16), r)
    ensures Exec(LoadPairPost(29, 30, SP, 16), r) == r.(sp := r.sp + 16, x := r.x[29 := fp][30 := lr])
  {
    hide FromLe, LeBytes, ReadBytes, Holds;
    PowValues();
    LoadSaved(r.mem, r.sp, fp, 8);
    LoadSaved(r.mem, r.sp + 8, lr, 8);
  }

  /** The exit sequence reads the parked result and unwinds the frame. */
  lemma ExitEffect(r: State, scratch: nat, x0: nat, v0: nat, fp: nat, lr: nat) returns (t: State)
    requires r.Valid() && r.sp % 16 == 0 && r.x[29] % 16 == 0 && r.x[29] + 16 < TWO_64
    requires x0 < TWO_64 && v0 < TWO_128 && fp < TWO_64 && lr < TWO_64
    requires Holds(r.mem, r.sp + scratch + 8, LeBytes(x0, 8)) && Holds(r.mem, r.sp + scratch + 208, LeBytes(v0, 16))
    requires Holds(r.mem, r.x[29], LeBytes(fp, 8)) && Holds(r.mem, r.x[29] + 8, LeBytes(lr, 8))
    ensures Takes(Exit(scratch), r, t)
    ensures t.Valid() && t.sp == r.x[29] + 16 && t.mem == r.mem
    ensures t.v == r.v[0 := v0] && t.x == r.x[0 := x0][29 := fp][30 := lr]
  {
    hide LeBytes, Holds, Exec, Enabled, Takes;
    var a, b := Load(8, 0, SP, scratch + 8), LoadQ(0, SP, scratch + 208);
    var c, d := AddImm(SP, 29, 0), LoadPairPost(29, 30, SP, 16);
    ReadsX0(r, scratch + 8, x0);
    var s1 := r.(x := r.x[0 := x0]);
    ReadsV0(s1, scratch + 208, v0);
    var s2 := s1.(v := s1.v[0 := v0]);
    LeavesFrame(s2);
    var s3 := s2.(sp := r.x[29]);
    ReadsLink(s3, fp, lr);
    t := s3.(sp := r.x[29] + 16, x := s3.x[29 := fp][30 := lr]);
    TakesFour(a, b, c, d, r, s1, s2, s3);
  }

  /* ----------------------------------------------------- the four stages of a run */

  /** What a thunk's literals name. */
  datatype Literals = Literals(push: nat, pop: nat, proxy: nat, target: nat)

  /** A thunk for plan is mapped at offset start of machine m. */
  ghost predicate ThunkAt(m: Machine, start: nat, plan: Plan, proxy: bool, lits: Literals) {
    var n := |plan.moves|;
    && plan.frame >= SCRATCH && m.CodeAt(start, ThunkCode(plan, proxy))
    && m.base + start + ThunkSize(n, proxy) < TWO_64
    && m.literal(start + PushLiteral(n, proxy)) == Some(lits.push)
    && m.literal(start + PopLiteral(n, proxy)) == Some(lits.pop)
    && (proxy ==> m.literal(start + ProxyLiteral(n, proxy)) == Some(lits.proxy))
    && m.literal(start + TargetLiteral(n, proxy)) == Some(lits.target)
    && lits.push < TWO_64 && lits.pop < TWO_64 && lits.proxy < TWO_64 && lits.target < TWO_64
  }

  /** Instruction counts of the stages: to the push call, to the target call, to the pop call. */
  function ToPush(plan: Plan): nat { 2 * |plan.moves| + 22 }
  function ToTarget(proxy: bool): nat { 18 + (if proxy then 1 else 0) }
  function ToPop(plan: Plan): nat { |KeepResult(plan.frame)| + 2 }
  function ToReturn(plan: Plan): nat { |Exit(plan.frame)| + 1 }

  /** The stages of a mapped thunk are mapped one after the other. */
  lemma FirstStages(m: Machine, start: nat, plan: Plan, proxy: bool, lits: Literals)
    requires ThunkAt(m, start, plan, proxy, lits)
    ensures |Entry(plan)| == 2 * |plan.moves| + 20
    ensures m.CodeAt(start, Entry(plan)) && m.CodeAt(start + 4 * |Entry(plan)|, PushLoad(plan, proxy))
    ensures var pc := start + 4 * ToPush(plan);
      && m.CodeAt(pc, Reload(plan.frame - SCRATCH))
      && m.CodeAt(pc + 64, ProxyLoad(plan, proxy))
      && m.CodeAt(pc + 4 * ToTarget(proxy) - 8, TargetLoad(plan, proxy))
  {
    hide MoveCode, SaveV, SaveX, RestoreV, RestoreX;
    var scratch := plan.frame - SCRATCH;
    var b := PushCall(plan, proxy) + Reload(scratch);
    var c := b + ProxyLoad(plan, proxy);
    var d := c + TargetLoad(plan, proxy);
    CodeSplit(m, start, d + PopCall(plan, proxy) + Exit(scratch), [Ret(30), Nop]);
    CodeSplit(m, start, d + PopCall(plan, proxy), Exit(scratch));
    CodeSplit(m, start, d, PopCall(plan, proxy));
    CodeSplit(m, start, c, TargetLoad(plan, proxy));
    CodeSplit(m, start, b, ProxyLoad(plan, proxy));
    CodeSplit(m, start, PushCall(plan, proxy), Reload(scratch));
    CodeSplit(m, start, Entry(plan), PushLoad(plan, proxy));
  }

  lemma LastStages(m: Machine, start: nat, plan: Plan, proxy: bool, lits: Literals)
    requires ThunkAt(m, start, plan, proxy, lits)
    ensures var pc := start + 4 * ToPush(plan) + 4 * ToTarget(proxy);
      && m.CodeAt(pc, KeepResult(plan.frame - SCRATCH))
      && m.CodeAt(pc + 16, PopLoad(plan, proxy))
      && m.CodeAt(pc + 4 * ToPop(plan), Exit(plan.frame - SCRATCH))
      && m.CodeAt(pc + 4 * ToPop(plan) + 16, [Ret(30), Nop])
  {
    hide MoveCode, SaveV, SaveX, RestoreV, RestoreX;
    var scratch := plan.frame - SCRATCH;
    var d := PushCall(plan, proxy) + Reload(scratch) + ProxyLoad(plan, proxy) + TargetLoad(plan, proxy);
    CodeSplit(m, start, d + PopCall(plan, proxy) + Exit(scratch), [Ret(30), Nop]);
    CodeSplit(m, start, d + PopCall(plan, proxy), Exit(scratch));
    CodeSplit(m, start, d, PopCall(plan, proxy));
    CodeSplit(m, start + 4 * |d|, KeepResult(scratch), PopLoad(plan, proxy));
  }

  /** x after a call through x16 from the instruction that ends at ret. */
  function Called(x: seq<nat>, callee: nat, ret: nat): seq<nat>
    requires |x| == 31
  {
    x[16 := callee][30 := ret]
  }

  /** Configurations between the stages. */
  function PcTarget(start: nat, plan: Plan): nat { start + 4 * ToPush(plan) }
  function PcPop(start: nat, plan: Plan, proxy: bool): nat { PcTarget(start, plan) + 4 * ToTarget(proxy) }
  function PcReturn(start: nat, plan: Plan, proxy: bool): nat { PcPop(start, plan, proxy) + 4 * ToPop(plan) }

  lemma PushMapped(m: Machine, start: nat, plan: Plan, proxy: bool, lits: Literals)
    requires ThunkAt(m, start, plan, proxy, lits)
    ensures m.CodeAt(start + 4 * |Entry(plan)|, PushLoad(plan, proxy))
    ensures start + 4 * |Entry(plan)| + PushLoad(plan, proxy)[0].delta == start + PushLiteral(|plan.moves|, proxy)
    ensures PcTarget(start, plan) == start + 4 * |Entry(plan)| + 8 < start + ThunkSize(|plan.moves|, proxy)
  {
    FirstStages(m, start, plan, proxy, lits);
  }

  lemma RunToPush(m: Machine, start: nat, plan: Plan, proxy: bool, lits: Literals, c: Config, t: State)
    returns (at: State)
    requires ThunkAt(m, start, plan, proxy, lits) && |c.calls| < |m.answers| && c.pc == start && !c.returned
    requires t.Valid()
    requires m.Run(c, |Entry(plan)|) == Some(c.(pc := c.pc + 4 * |Entry(plan)|, s := t))
    ensures var pc := PcTarget(start, plan);
      && at == t.(x := Called(t.x, lits.push, m.base + pc)) && at.Valid()
      && m.Run(c, ToPush(plan)) == Some(Config(pc, m.answers[|c.calls|], c.calls + [Call(lits.push, at)], false))
  {
    hide Machine.Run, Machine.Step;
    PushMapped(m, start, plan, proxy, lits);
    at := RunThenCall(m, c, |Entry(plan)|, c.(pc := c.pc + 4 * |Entry(plan)|, s := t),
                      PushLoad(plan, proxy)[0].delta, lits.push);
  }

  /** After the reload x0 is replaced if a proxy stands in for it. */
  lemma RunProxy(m: Machine, start: nat, plan: Plan, proxy: bool, lits: Literals, c: Config, u: State)
    returns (t: State)
    requires ThunkAt(m, start, plan, proxy, lits) && c.pc == PcTarget(start, plan) && !c.returned && u.Valid()
    requires m.Run(c, 16) == Some(c.(pc := c.pc + 64, s := u))
    ensures t == (if proxy then u.(x := u.x[0 := lits.proxy]) else u) && t.Valid()
    ensures m.Run(c, ToTarget(proxy) - 2) == Some(c.(pc := c.pc + 4 * (ToTarget(proxy) - 2), s := t))
  {
    hide Machine.Run, Machine.Step;
    FirstStages(m, start, plan, proxy, lits);
    t := u;
    if proxy {
      var load := ProxyLoad(plan, proxy);
      assert m.fetch(c.pc + 64 + 4 * 0) == Some(load[0]);
      var d := c.(pc := c.pc + 64, s := u);
      LiteralStep(m, d, 0, load[0].delta, lits.proxy);
      t := u.(x := u.x[0 := lits.proxy]);
      RunMore(m, c, 16, d, c.(pc := c.pc + 68, s := t));
    }
  }

  lemma TargetMapped(m: Machine, start: nat, plan: Plan, proxy: bool, lits: Literals)
    requires ThunkAt(m, start, plan, proxy, lits)
    ensures m.CodeAt(PcPop(start, plan, proxy) - 8, TargetLoad(plan, proxy))
    ensures PcPop(start, plan, proxy) - 8 + TargetLoad(plan, proxy)[0].delta
         == start + TargetLiteral(|plan.moves|, proxy)
    ensures PcPop(start, plan, proxy) < start + ThunkSize(|plan.moves|, proxy)
  {
    FirstStages(m, start, plan, proxy, lits);
  }

  lemma RunToTarget(m: Machine, start: nat, plan: Plan, proxy: bool, lits: Literals, c: Config, t: State)
    returns (at: State)
    requires ThunkAt(m, start, plan, proxy, lits) && c.pc == PcTarget(start, plan) && !c.returned
    requires t.Valid() && |c.calls| < |m.answers|
    requires m.Run(c, ToTarget(proxy) - 2) == Some(c.(pc := c.pc + 4 * (ToTarget(proxy) - 2), s := t))
    ensures var pc := PcPop(start, plan, proxy);
      && at == t.(x := Called(t.x, lits.target, m.base + pc)) && at.Valid()
      && m.Run(c, ToTarget(proxy)) == Some(Config(pc, m.answers[|c.calls|], c.calls + [Call(lits.target, at)], false))
  {
    hide Machine.Run, Machine.Step;
    TargetMapped(m, start, plan, proxy, lits);
    var k := ToTarget(proxy) - 2;
    at := RunThenCall(m, c, k, c.(pc := c.pc + 4 * k, s := t), TargetLoad(plan, proxy)[0].delta, lits.target);
  }

  lemma PopMapped(m: Machine, start: nat, plan: Plan, proxy: bool, lits: Literals)
    requires ThunkAt(m, start, plan, proxy, lits)
    ensures m.CodeAt(PcPop(start, plan, proxy) + 16, PopLoad(plan, proxy))
    ensures PcPop(start, plan, proxy) + 16 + PopLoad(plan, proxy)[0].delta == start + PopLiteral(|plan.moves|, proxy)
    ensures PcReturn(start, plan, proxy) == PcPop(start, plan, proxy) + 24 < start + ThunkSize(|plan.moves|, proxy)
  {
    LastStages(m, start, plan, proxy, lits);
  }

  lemma RunToPop(m: Machine, start: nat, plan: Plan, proxy: bool, lits: Literals, c: Config, t: State)
    returns (at: State)
    requires ThunkAt(m, start, plan, proxy, lits) && !c.returned && |c.calls| < |m.answers|
    requires c.pc == PcPop(start, plan, proxy) && t.Valid()
    requires m.Run(c, ToPop(plan) - 2) == Some(c.(pc := c.pc + 4 * (ToPop(plan) - 2), s := t))
    ensures var pc := PcReturn(start, plan, proxy);
      && at == t.(x := Called(t.x, lits.pop, m.base + pc)) && at.Valid()
      && m.Run(c, ToPop(plan)) == Some(Config(pc, m.answers[|c.calls|], c.calls + [Call(lits.pop, at)], false))
  {
    hide Machine.Run, Machine.Step;
    PopMapped(m, start, plan, proxy, lits);
    var k := ToPop(plan) - 2;
    at := RunThenCall(m, c, k, c.(pc := c.pc + 4 * k, s := t), PopLoad(plan, proxy)[0].delta, lits.pop);
  }

  lemma RunToReturn(m: Machine, start: nat, plan: Plan, proxy: bool, lits: Literals, c: Config, t: State)
    requires ThunkAt(m, start, plan, proxy, lits) && !c.returned
    requires c.pc == PcReturn(start, plan, proxy) && t.Valid()
    requires m.Run(c, ToReturn(plan) - 1) == Some(c.(pc := c.pc + 16, s := t))
    ensures m.Run(c, ToReturn(plan)) == Some(c.(pc := c.pc + 16, s := t, returned := true))
  {
    hide Machine.Run, Machine.Step;
    LastStages(m, start, plan, proxy, lits);
    var tail: seq<Instr> := [Ret(30), Nop];
    assert m.fetch(c.pc + 16 + 4 * 0) == Some(tail[0]);
    RunThenReturn(m, c, ToReturn(plan) - 1, c.(pc := c.pc + 16, s := t));
  }

  /* -------------------------------------------------------- stages with their effect */

  ghost predicate AtPush(s: State, at: State, plan: Plan)
    requires s.Valid() && plan.frame >= SCRATCH
  {
    && at.Valid() && at.sp == s.sp - 16 - plan.frame && at.v == s.v
    && at.x[29] == s.sp - 16 && at.x[0] == s.x[28] && SameX(s, at, {0, 9, 16, 29, 30})
    && SameOutside(s.mem, at.mem, at.sp, s.sp) && Framed(s, at.mem, plan)
  }

  lemma StagePush(m: Machine, start: nat, plan: Plan, proxy: bool, lits: Literals, s: State) returns (at: State)
    requires ThunkAt(m, start, plan, proxy, lits) && CanEnter(s, plan) && |m.answers| == 3
    ensures AtPush(s, at, plan)
    ensures m.Run(Config(start, s, [], false), ToPush(plan))
         == Some(Config(PcTarget(start, plan), m.answers[0], [Call(lits.push, at)], false))
  {
    hide Machine.Run, Machine.Step, Takes;
    FirstStages(m, start, plan, proxy, lits);
    var c := Config(start, s, [], false);
    var t := EntryEffect(s, plan);
    BlockRuns(m, c, Entry(plan), t);
    at := RunToPush(m, start, plan, proxy, lits, c, t);
    assert [] + [Call(lits.push, at)] == [Call(lits.push, at)];
  }

  /** The target's registers: the caller's arguments, with the proxy in x0 if there is one. */
  ghost predicate AtTarget(s: State, r: State, at: State, proxy: bool, lits: Literals)
    requires s.Valid() && r.Valid()
  {
    && at.Valid() && at.sp == r.sp && at.mem == r.mem
    && at.x[0] == (if proxy then lits.proxy else s.x[0])
    && (forall i :: 1 <= i < 8 ==> at.x[i] == s.x[i]) && (forall i :: 0 <= i < 8 ==> at.v[i] == s.v[i])
    && (forall i :: 19 <= i <= 29 ==> at.x[i] == r.x[i]) && (forall i :: 8 <= i <= 15 ==> at.v[i] == r.v[i])
  }

  lemma StageTarget(m: Machine, start: nat, plan: Plan, proxy: bool, lits: Literals, s: State, c: Config)
    returns (at: State)
    requires ThunkAt(m, start, plan, proxy, lits) && CanEnter(s, plan) && |c.calls| < |m.answers|
    requires c.pc == PcTarget(start, plan) && !c.returned
    requires c.s.Valid() && c.s.sp == s.sp - 16 - plan.frame && Framed(s, c.s.mem, plan)
    ensures AtTarget(s, c.s, at, proxy, lits)
    ensures m.Run(c, ToTarget(proxy))
         == Some(Config(PcPop(start, plan, proxy), m.answers[|c.calls|], c.calls + [Call(lits.target, at)], false))
  {
    hide Machine.Run, Machine.Step, Takes;
    FirstStages(m, start, plan, proxy, lits);
    var u := ReloadEffect(s, c.s, plan);
    BlockRuns(m, c, Reload(plan.frame - SCRATCH), u);
    var t := RunProxy(m, start, plan, proxy, lits, c, u);
    at := RunToTarget(m, start, plan, proxy, lits, c, t);
  }

  ghost predicate AtPop(r: State, at: State, plan: Plan)
    requires r.Valid() && plan.frame >= SCRATCH
  {
    var a := r.sp + plan.frame - SCRATCH;
    && at.Valid() && at.sp == r.sp && at.v == r.v && at.x[0] == r.x[28] && at.x[1] == 0 && SameX(r, at, {0, 1, 16, 30})
    && SameOutside(r.mem, at.mem, a, a + SCRATCH)
    && Holds(at.mem, a + 8, LeBytes(r.x[0], 8)) && Holds(at.mem, a + 208, LeBytes(r.v[0], 16))
  }

  lemma StagePop(m: Machine, start: nat, plan: Plan, proxy: bool, lits: Literals, c: Config) returns (at: State)
    requires ThunkAt(m, start, plan, proxy, lits) && |c.calls| < |m.answers|
    requires c.pc == PcPop(start, plan, proxy) && !c.returned && c.s.Valid() && c.s.sp % 16 == 0
    ensures AtPop(c.s, at, plan)
    ensures m.Run(c, ToPop(plan))
         == Some(Config(PcReturn(start, plan, proxy), m.answers[|c.calls|], c.calls + [Call(lits.pop, at)], false))
  {
    hide Machine.Run, Machine.Step, Takes;
    LastStages(m, start, plan, proxy, lits);
    var t := KeepEffect(c.s, plan.frame - SCRATCH);
    BlockRuns(m, c, KeepResult(plan.frame - SCRATCH), t);
    at := RunToPop(m, start, plan, proxy, lits, c, t);
  }

  lemma StageReturn(m: Machine, start: nat, plan: Plan, proxy: bool, lits: Literals, s: State, c: Config, x0: nat,
                    v0: nat)
    returns (t: State)
    requires ThunkAt(m, start, plan, proxy, lits) && CanEnter(s, plan) && x0 < TWO_64 && v0 < TWO_128
    requires c.pc == PcReturn(start, plan, proxy) && !c.returned && c.s.Valid()
    requires c.s.sp == s.sp - 16 - plan.frame && c.s.x[29] == s.sp - 16
    requires var a := c.s.sp + plan.frame - SCRATCH;
      Holds(c.s.mem, a + 8, LeBytes(x0, 8)) && Holds(c.s.mem, a + 208, LeBytes(v0, 16))
    requires Holds(c.s.mem, s.sp - 16, LeBytes(s.x[29], 8)) && Holds(c.s.mem, s.sp - 8, LeBytes(s.x[30], 8))
    ensures t.Valid() && t.sp == s.sp && t.mem == c.s.mem && t.v == c.s.v[0 := v0]
    ensures t.x == c.s.x[0 := x0][29 := s.x[29]][30 := s.x[30]]
    ensures m.Run(c, ToReturn(plan)) == Some(c.(pc := c.pc + 16, s := t, returned := true))
  {
    hide Machine.Run, Machine.Step, Takes, ThunkAt, GoodMoves, LeBytes, Holds;
    LastStages(m, start, plan, proxy, lits);
    t := ExitEffect(c.s, plan.frame - SCRATCH, x0, v0, s.x[29], s.x[30]);
    BlockRuns(m, c, Exit(plan.frame - SCRATCH), t);
    RunToReturn(m, start, plan, proxy, lits, c, t);
  }

  /* ----------------------------------------------------------------- the theorem */

  /** In every configuration reached, each call so far was answered as AAPCS64 prescribes. */
  ghost predicate WellAnswered(m: Machine, c: Config, top: int, tail: nat) {
    forall k: nat :: m.Run(c, k).Some? ==> Answered(m, m.Run(c, k).value.calls, top, tail)
  }

  /** The target may also overwrite its own stack arguments, tail bytes from the stack pointer on. */
  ghost predicate Answered(m: Machine, calls: seq<Call>, top: int, tail: nat) {
    forall i :: 0 <= i < |calls| && i < |m.answers| ==>
      Obeys(calls[i].at, m.answers[i], calls[i].at.sp + (if i == 1 then tail else 0), top)
  }

  /** The thunk ran push, target and pop once each and returned to its caller. */
  ghost predicate Returned(m: Machine, s: State, plan: Plan, proxy: bool, lits: Literals, end: Config)
    requires s.Valid() && |m.answers| == 3
  {
    && end.returned && |end.calls| == 3 && end.s.Valid()
    && (forall i :: 0 <= i < 3 ==> m.answers[i].Valid() && end.calls[i].at.Valid())
    && (forall i :: 0 <= i < 3 ==> end.calls[i].at.sp == s.sp - 16 - plan.frame && end.calls[i].at.sp % 16 == 0)
    && end.calls[0].callee == lits.push && end.calls[1].callee == lits.target && end.calls[2].callee == lits.pop
    && end.calls[0].at.x[0] == s.x[28] && end.calls[2].at.x[0] == s.x[28] && end.calls[2].at.x[1] == 0
  }

  /** The caller gets the target's result, and everything it may rely on back. */
  ghost predicate Restored(m: Machine, s: State, plan: Plan, end: Config)
    requires s.Valid() && end.s.Valid() && |m.answers| == 3 && |end.calls| == 3
  {
    && m.answers[1].Valid() && end.s.x[0] == m.answers[1].x[0] && end.s.v[0] == m.answers[1].v[0]
    && end.s.sp == s.sp && (forall r :: 19 <= r <= 30 ==> end.s.x[r] == s.x[r])
    && (forall r :: 8 <= r <= 15 ==> end.s.v[r] % TWO_64 == s.v[r] % TWO_64)
    && SameOutside(s.mem, end.calls[0].at.mem, s.sp - 16 - plan.frame, s.sp)
    && end.calls[1].at.mem == m.answers[0].mem
    && SameOutside(m.answers[1].mem, end.calls[2].at.mem, s.sp - 16 - plan.frame, s.sp)
    && end.s.mem == m.answers[2].mem
  }

  /** Steps from entry to return; the trailing no-op never runs. */
  function Steps(plan: Plan, proxy: bool): nat {
    ToPush(plan) + ToTarget(proxy) + ToPop(plan) + ToReturn(plan)
  }

  lemma StepCount(plan: Plan, proxy: bool)
    ensures Steps(plan, proxy) == Length(|plan.moves|, proxy) - 1
  {
  }

  lemma ReachTarget(m: Machine, start: nat, plan: Plan, proxy: bool, lits: Literals, s: State)
    returns (push: State, target: State)
    requires ThunkAt(m, start, plan, proxy, lits) && CanEnter(s, plan) && |m.answers| == 3
    requires WellAnswered(m, Config(start, s, [], false), s.sp, 8 * |plan.moves|)
    ensures AtPush(s, push, plan) && Obeys(push, m.answers[0], push.sp, s.sp) && Framed(s, m.answers[0].mem, plan)
    ensures AtTarget(s, m.answers[0], target, proxy, lits)
    ensures m.Run(Config(start, s, [], false), ToPush(plan) + ToTarget(proxy))
         == Some(Config(PcPop(start, plan, proxy), m.answers[1], [Call(lits.push, push), Call(lits.target, target)],
                        false))
  {
    hide ThunkAt, Framed, Machine.Run;
    push := StagePush(m, start, plan, proxy, lits, s);
    var c := Config(PcTarget(start, plan), m.answers[0], [Call(lits.push, push)], false);
    assert Answered(m, c.calls, s.sp, 8 * |plan.moves|);
    assert c.calls[0].at == push;
    FramedAcross(s, push.mem, c.s.mem, plan);
    target := StageTarget(m, start, plan, proxy, lits, s, c);
    var calls := [Call(lits.push, push), Call(lits.target, target)];
    assert c.calls + [Call(lits.target, target)] == calls;
    RunThen(m, Config(start, s, [], false), ToPush(plan), c, ToTarget(proxy),
            Config(PcPop(start, plan, proxy), m.answers[1], calls, false));
  }

  /** What the frame still holds when the pop hook has returned. */
  lemma FrameAtReturn(s: State, plan: Plan, r1: State, target: State, r2: State, pop: State, r3: State)
    requires CanEnter(s, plan) && r1.Valid() && Framed(s, r1.mem, plan) && r1.sp == s.sp - 16 - plan.frame
    requires target.Valid() && target.sp == r1.sp && target.mem == r1.mem
    requires Obeys(target, r2, target.sp + 8 * |plan.moves|, s.sp) && AtPop(r2, pop, plan)
    requires Obeys(pop, r3, pop.sp, s.sp)
    ensures Holds(r3.mem, s.sp - 16, LeBytes(s.x[29], 8)) && Holds(r3.mem, s.sp - 8, LeBytes(s.x[30], 8))
    ensures var a := r3.sp + plan.frame - SCRATCH;
      Holds(r3.mem, a + 8, LeBytes(r2.x[0], 8)) && Holds(r3.mem, a + 208, LeBytes(r2.v[0], 16))
  {
    hide LeBytes, SavedV, SavedX, Moved, Holds, GoodMoves;
    HoldsAcross(r1.mem, r3.mem, s.sp - 16, LeBytes(s.x[29], 8));
    HoldsAcross(r1.mem, r3.mem, s.sp - 8, LeBytes(s.x[30], 8));
    var a := r3.sp + plan.frame - SCRATCH;
    HoldsAcross(pop.mem, r3.mem, a + 8, LeBytes(r2.x[0], 8));
    HoldsAcross(pop.mem, r3.mem, a + 208, LeBytes(r2.v[0], 16));
  }

  /** From the target's return to the pop hook's. */
  lemma ReachPop(m: Machine, start: nat, plan: Plan, proxy: bool, lits: Literals, s: State, push: State, target: State)
    returns (pop: State)
    requires ThunkAt(m, start, plan, proxy, lits) && CanEnter(s, plan) && |m.answers| == 3
    requires WellAnswered(m, Config(start, s, [], false), s.sp, 8 * |plan.moves|)
    requires AtPush(s, push, plan) && Obeys(push, m.answers[0], push.sp, s.sp)
    requires AtTarget(s, m.answers[0], target, proxy, lits)
    requires m.Run(Config(start, s, [], false), ToPush(plan) + ToTarget(proxy))
          == Some(Config(PcPop(start, plan, proxy), m.answers[1], [Call(lits.push, push), Call(lits.target, target)],
                         false))
    ensures m.Run(Config(start, s, [], false), ToPush(plan) + ToTarget(proxy) + ToPop(plan))
         == Some(Config(PcReturn(start, plan, proxy), m.answers[2],
                        [Call(lits.push, push), Call(lits.target, target), Call(lits.pop, pop)], false))
    ensures Obeys(target, m.answers[1], target.sp + 8 * |plan.moves|, s.sp)
    ensures AtPop(m.answers[1], pop, plan) && Obeys(pop, m.answers[2], pop.sp, s.sp)
  {
    hide ThunkAt, Framed, Machine.Run, GoodMoves, LeBytes, Holds;
    var c0, tail := Config(start, s, [], false), 8 * |plan.moves|;
    var c2 := Config(PcPop(start, plan, proxy), m.answers[1], [Call(lits.push, push), Call(lits.target, target)],
                     false);
    assert Answered(m, c2.calls, s.sp, tail);
    assert c2.calls[1].at == target;
    pop := StagePop(m, start, plan, proxy, lits, c2);
    var calls := [Call(lits.push, push), Call(lits.target, target), Call(lits.pop, pop)];
    assert c2.calls + [Call(lits.pop, pop)] == calls;
    var c3 := Config(PcReturn(start, plan, proxy), m.answers[2], calls, false);
    RunThen(m, c0, ToPush(plan) + ToTarget(proxy), c2, ToPop(plan), c3);
    assert Answered(m, c3.calls, s.sp, tail);
    assert c3.calls[2].at == pop;
  }

  lemma ReachReturn(m: Machine, start: nat, plan: Plan, proxy: bool, lits: Literals, s: State, push: State,
                    target: State)
    returns (pop: State, end: Config)
    requires ThunkAt(m, start, plan, proxy, lits) && CanEnter(s, plan) && |m.answers| == 3
    requires WellAnswered(m, Config(start, s, [], false), s.sp, 8 * |plan.moves|)
    requires AtPush(s, push, plan) && Obeys(push, m.answers[0], push.sp, s.sp) && Framed(s, m.answers[0].mem, plan)
    requires AtTarget(s, m.answers[0], target, proxy, lits)
    requires m.Run(Config(start, s, [], false), ToPush(plan) + ToTarget(proxy))
          == Some(Config(PcPop(start, plan, proxy), m.answers[1], [Call(lits.push, push), Call(lits.target, target)],
                         false))
    ensures m.Run(Config(start, s, [], false), Steps(plan, proxy)) == Some(end) && end.returned && end.s.Valid()
    ensures end.calls == [Call(lits.push, push), Call(lits.target, target), Call(lits.pop, pop)]
    ensures Obeys(target, m.answers[1], target.sp + 8 * |plan.moves|, s.sp)
    ensures AtPop(m.answers[1], pop, plan) && Obeys(pop, m.answers[2], pop.sp, s.sp)
    ensures end.s.sp == s.sp && end.s.mem == m.answers[2].mem && end.s.v == m.answers[2].v[0 := m.answers[1].v[0]]
    ensures end.s.x == m.answers[2].x[0 := m.answers[1].x[0]][29 := s.x[29]][30 := s.x[30]]
  {
    hide ThunkAt, Framed, Machine.Run, WellAnswered, GoodMoves, LeBytes, Holds, SameWithin;
    pop := ReachPop(m, start, plan, proxy, lits, s, push, target);
    var c0, r2 := Config(start, s, [], false), m.answers[1];
    var c3 := Config(PcReturn(start, plan, proxy), m.answers[2],
                     [Call(lits.push, push), Call(lits.target, target), Call(lits.pop, pop)], false);
    FrameAtReturn(s, plan, m.answers[0], target, r2, pop, c3.s);
    var t := StageReturn(m, start, plan, proxy, lits, s, c3, r2.x[0], r2.v[0]);
    end := c3.(pc := c3.pc + 16, s := t, returned := true);
    RunThen(m, c0, ToPush(plan) + ToTarget(proxy) + ToPop(plan), c3, ToReturn(plan), end);
  }

  /** A mapped thunk, entered with room on the stack, calls push, target and pop and returns. */
  lemma ThunkRuns(m: Machine, start: nat, plan: Plan, proxy: bool, lits: Literals, s: State) returns (end: Config)
    requires ThunkAt(m, start, plan, proxy, lits) && CanEnter(s, plan) && |m.answers| == 3
    requires WellAnswered(m, Config(start, s, [], false), s.sp, 8 * |plan.moves|)
    ensures m.Run(Config(start, s, [], false), Steps(plan, proxy)) == Some(end)
    ensures Returned(m, s, plan, proxy, lits, end) && Restored(m, s, plan, end)
    ensures AtTarget(s, m.answers[0], end.calls[1].at, proxy, lits) && Framed(s, m.answers[0].mem, plan)
  {
    hide ThunkAt, Framed, WellAnswered, Machine.Run;
    var push, target := ReachTarget(m, start, plan, proxy, lits, s);
    var pop, last := ReachReturn(m, start, plan, proxy, lits, s, push, target);
    end := last;
  }
}
