/**
 * The instructions of one thunk, and the theorem that running them turns a Darwin call into
 * the AAPCS64 call of the same arguments.
 */
module Thunk {
  import opened WordSize
  import opened Bytes
  import opened Arm64
  import opened ShortyPlan

  function Prologue(frame: nat): seq<Instr> {
    [StorePairPre(29, 30, SP, -16), AddImm(29, SP, 0), SubImm(SP, SP, frame)]
  }

  /** The first k moves of the stack tail. */
  function MoveCode(moves: seq<StackMove>, k: nat): (ins: seq<Instr>)
    requires k <= |moves|
    ensures |ins| == 2 * k
  {
    if k == 0 then []
    else
      var move := moves[k - 1];
      MoveCode(moves, k - 1) + [Load(move.size, 9, 29, 16 + move.darwin), Store(move.size, 9, SP, move.android)]
  }

  function SaveV(scratch: nat, k: nat): (ins: seq<Instr>)
    ensures |ins| == k
  {
    if k == 0 then [] else SaveV(scratch, k - 1) + [StoreQ(k - 1, SP, scratch + 16 * (k - 1))]
  }

  function SaveX(scratch: nat, k: nat): (ins: seq<Instr>)
    ensures |ins| == k
  {
    if k == 0 then [] else SaveX(scratch, k - 1) + [Store(8, k - 1, SP, scratch + 128 + 8 * (k - 1))]
  }

  function RestoreV(scratch: nat, k: nat): (ins: seq<Instr>)
    ensures |ins| == k
  {
    if k == 0 then [] else RestoreV(scratch, k - 1) + [LoadQ(k - 1, SP, scratch + 16 * (k - 1))]
  }

  function RestoreX(scratch: nat, k: nat): (ins: seq<Instr>)
    ensures |ins| == k
  {
    if k == 0 then [] else RestoreX(scratch, k - 1) + [Load(8, k - 1, SP, scratch + 128 + 8 * (k - 1))]
  }

  /** Everything up to the first call: frame, tail, argument registers saved. */
  function Entry(plan: Plan): seq<Instr>
    requires plan.frame >= SCRATCH
  {
    var scratch := plan.frame - SCRATCH;
    Prologue(plan.frame) + MoveCode(plan.moves, |plan.moves|) + SaveV(scratch, 8) + SaveX(scratch, 8) + [MovReg(0, 28)]
  }

  function Reload(scratch: nat): seq<Instr> {
    RestoreV(scratch, 8) + RestoreX(scratch, 8)
  }

  function KeepResult(scratch: nat): seq<Instr> {
    [Store(8, 0, SP, scratch + 8), StoreQ(0, SP, scratch + 208), MovReg(0, 28), MovReg(1, 31)]
  }

  function Exit(scratch: nat): seq<Instr> {
    [Load(8, 0, SP, scratch + 8), LoadQ(0, SP, scratch + 208), AddImm(SP, 29, 0), LoadPairPost(29, 30, SP, 16)]
  }

  /** Instructions of a thunk that does or does not substitute a proxy for x0. */
  function Length(moves: nat, proxy: bool): nat {
    (if proxy then 53 else 52) + 2 * moves
  }

  /** Byte distance from the thunk start to its literals. */
  function PushLiteral(moves: nat, proxy: bool): nat { 4 * Length(moves, proxy) }
  function PopLiteral(moves: nat, proxy: bool): nat { PushLiteral(moves, proxy) + 8 }
  function ProxyLiteral(moves: nat, proxy: bool): nat { PopLiteral(moves, proxy) + 8 }
  function TargetLiteral(moves: nat, proxy: bool): nat { ProxyLiteral(moves, proxy) + (if proxy then 8 else 0) }
  function ThunkSize(moves: nat, proxy: bool): nat { TargetLiteral(moves, proxy) + 8 }

  /** A literal load at instruction index at. */
  function Literal(rt: nat, at: nat, literal: nat): Instr { LoadLiteral(rt, literal - 4 * at) }

  function PushCall(plan: Plan, proxy: bool): seq<Instr>
    requires plan.frame >= SCRATCH
  {
    Entry(plan) + PushLoad(plan, proxy)
  }

  function PushLoad(plan: Plan, proxy: bool): seq<Instr> {
    [Literal(16, 2 * |plan.moves| + 20, PushLiteral(|plan.moves|, proxy)), Blr(16)]
  }

  function ProxyLoad(plan: Plan, proxy: bool): seq<Instr> {
    if proxy then [Literal(0, 2 * |plan.moves| + 38, ProxyLiteral(|plan.moves|, proxy))] else []
  }

  function TargetLoad(plan: Plan, proxy: bool): seq<Instr> {
    [Literal(16, 2 * |plan.moves| + 38 + (if proxy then 1 else 0), TargetLiteral(|plan.moves|, proxy)), Blr(16)]
  }

  function PopCall(plan: Plan, proxy: bool): seq<Instr>
    requires plan.frame >= SCRATCH
  {
    KeepResult(plan.frame - SCRATCH) + PopLoad(plan, proxy)
  }

  function PopLoad(plan: Plan, proxy: bool): seq<Instr> {
    [Literal(16, 2 * |plan.moves| + 44 + (if proxy then 1 else 0), PopLiteral(|plan.moves|, proxy)), Blr(16)]
  }

  function ThunkCode(plan: Plan, proxy: bool): seq<Instr>
    requires plan.frame >= SCRATCH
  {
    PushCall(plan, proxy) + Reload(plan.frame - SCRATCH) + ProxyLoad(plan, proxy) + TargetLoad(plan, proxy)
    + PopCall(plan, proxy) + Exit(plan.frame - SCRATCH) + [Ret(30), Nop]
  }

  /* ---------------------------------------------------- effect of each block */

  /** A plan whose frame and moves the compiler can produce. */
  ghost predicate GoodPlan(plan: Plan) {
    && plan.frame % 16 == 0 && 240 <= plan.frame < 4096
    && 8 * |plan.moves| <= plan.frame - SCRATCH
    && GoodMoves(plan.moves)
  }

  /** Same registers but possibly those in except. */
  ghost predicate SameX(s: State, t: State, except: set<nat>)
    requires s.Valid() && t.Valid()
  {
    forall r :: 0 <= r < 31 && r !in except ==> t.x[r] == s.x[r]
  }

  lemma LoadBound(m: Memory, a: int, n: nat)
    requires n <= 16
    ensures FromLe(ReadBytes(m, a, n)) < Pow256(n)
    ensures n <= 8 ==> FromLe(ReadBytes(m, a, n)) < TWO_64
    ensures FromLe(ReadBytes(m, a, n)) < TWO_128
  {
    LeInverse(ReadBytes(m, a, n));
    PowMonotone(n, 16);
    if n <= 8 { PowMonotone(n, 8); }
    PowValues();
  }

  lemma PowValues()
    ensures Pow256(8) == TWO_64 && Pow256(16) == TWO_128
  {
    assert Pow256(4) == 0x1_0000_0000;
    assert Pow256(8) == 0x1_0000_0000 * Pow256(4);
    assert Pow256(12) == 0x1_0000_0000 * Pow256(8);
    assert Pow256(16) == 0x1_0000_0000 * Pow256(12);
  }

  lemma {:induction false} PowMonotone(n: nat, m: nat)
    requires n <= m
    ensures Pow256(n) <= Pow256(m)
    decreases m - n
  {
    if n < m { PowMonotone(n, m - 1); }
  }

  lemma PrologueEffect(s: State, frame: nat) returns (t: State)
    requires s.Valid() && s.sp % 16 == 0 && frame % 16 == 0 && 16 + frame <= s.sp < TWO_64
    ensures Takes(Prologue(frame), s, t)
    ensures t.Valid() && t.sp == s.sp - 16 - frame && t.x == s.x[29 := s.sp - 16] && t.v == s.v
    ensures SameOutside(s.mem, t.mem, s.sp - 16, s.sp)
    ensures Holds(t.mem, s.sp - 16, LeBytes(s.x[29], 8)) && Holds(t.mem, s.sp - 8, LeBytes(s.x[30], 8))
  {
    var push, mov, sub := StorePairPre(29, 30, SP, -16), AddImm(29, SP, 0), SubImm(SP, SP, frame);
    var a := Exec(push, s);
    var b := Exec(mov, a);
    t := Exec(sub, b);
    TakesNone(s);
    TakesMore([], push, s, s);
    TakesMore([] + [push], mov, s, a);
    TakesMore([] + [push] + [mov], sub, s, b);
    assert Prologue(frame) == [] + [push] + [mov] + [sub];
    WriteEffect(s.mem, s.sp - 16, LeBytes(s.x[29], 8));
    WriteEffect(WriteBytes(s.mem, s.sp - 16, LeBytes(s.x[29], 8)), s.sp - 8, LeBytes(s.x[30], 8));
  }

  /** One move copies the low bytes of a stacked argument; only x9 and the slot change. */
  lemma OneMove(s: State, move: StackMove)
    requires s.Valid() && s.sp % 16 == 0 && move.size in {1, 2, 4, 8}
    ensures Enabled(Load(move.size, 9, 29, 16 + move.darwin), s)
    ensures var loaded := Exec(Load(move.size, 9, 29, 16 + move.darwin), s);
      && Enabled(Store(move.size, 9, SP, move.android), loaded)
      && var t := Exec(Store(move.size, 9, SP, move.android), loaded);
         && t.Valid() && SameX(s, t, {9}) && t.v == s.v && t.sp == s.sp
         && SameOutside(s.mem, t.mem, s.sp + move.android, s.sp + move.android + move.size)
         && Holds(t.mem, s.sp + move.android, ReadBytes(s.mem, s.x[29] + 16 + move.darwin, move.size))
  {
    var bytes := ReadBytes(s.mem, s.x[29] + 16 + move.darwin, move.size);
    LoadBound(s.mem, s.x[29] + 16 + move.darwin, move.size);
    LeInverse(bytes);
    WriteEffect(s.mem, s.sp + move.android, bytes);
  }

  /** The stack tail the thunk has built below its frame after k moves. */
  ghost predicate Moved(source: Memory, from: int, m: Memory, to: int, moves: seq<StackMove>, k: nat)
    requires k <= |moves|
  {
    k > 0 ==>
      && Moved(source, from, m, to, moves, k - 1)
      && Holds(m, to + 8 * (k - 1), ReadBytes(source, from + moves[k - 1].darwin, moves[k - 1].size))
  }

  lemma {:induction false} MovedAt(source: Memory, from: int, m: Memory, to: int, moves: seq<StackMove>, k: nat, j: nat)
    requires j < k <= |moves| && Moved(source, from, m, to, moves, k)
    ensures Holds(m, to + 8 * j, ReadBytes(source, from + moves[j].darwin, moves[j].size))
  {
    if j < k - 1 { MovedAt(source, from, m, to, moves, k - 1, j); }
  }

  lemma {:induction false} MovedAcross(source: Memory, from: int, m: Memory, m': Memory, to: int, moves: seq<StackMove>,
                                       k: nat)
    requires k <= |moves| && GoodMoves(moves) && Moved(source, from, m, to, moves, k)
    requires SameWithin(m, m', to, to + 8 * k)
    ensures Moved(source, from, m', to, moves, k)
  {
    if k > 0 {
      MovedAcross(source, from, m, m', to, moves, k - 1);
      HoldsAcross(m, m', to + 8 * (k - 1), ReadBytes(source, from + moves[k - 1].darwin, moves[k - 1].size));
    }
  }

  /** The k-th move reads what the caller left and disturbs no earlier slot. */
  lemma MoveKeeps(s: State, u: State, t: State, moves: seq<StackMove>, k: nat)
    requires s.Valid() && GoodMoves(moves) && 0 < k <= |moves|
    requires s.sp + 8 * |moves| <= s.x[29] + 16
    requires SameOutside(s.mem, u.mem, s.sp, s.sp + 8 * (k - 1))
    requires Moved(s.mem, s.x[29] + 16, u.mem, s.sp, moves, k - 1)
    requires SameOutside(u.mem, t.mem, s.sp + 8 * (k - 1), s.sp + 8 * (k - 1) + moves[k - 1].size)
    requires Holds(t.mem, s.sp + 8 * (k - 1), ReadBytes(u.mem, s.x[29] + 16 + moves[k - 1].darwin, moves[k - 1].size))
    ensures SameOutside(s.mem, t.mem, s.sp, s.sp + 8 * k)
    ensures Moved(s.mem, s.x[29] + 16, t.mem, s.sp, moves, k)
  {
    var from := s.x[29] + 16;
    var last := moves[k - 1];
    assert ReadBytes(u.mem, from + last.darwin, last.size) == ReadBytes(s.mem, from + last.darwin, last.size);
    MovedAcross(s.mem, from, u.mem, t.mem, s.sp, moves, k - 1);
  }

  ghost predicate AfterMoves(s: State, t: State, moves: seq<StackMove>, k: nat)
    requires s.Valid() && k <= |moves|
  {
    && t.Valid() && SameX(s, t, {9}) && t.v == s.v && t.sp == s.sp
    && SameOutside(s.mem, t.mem, s.sp, s.sp + 8 * k)
    && Moved(s.mem, s.x[29] + 16, t.mem, s.sp, moves, k)
  }

  lemma MoveStep(s: State, u: State, moves: seq<StackMove>, k: nat)
    requires s.Valid() && s.sp % 16 == 0 && GoodMoves(moves) && k < |moves|
    requires s.sp + 8 * |moves| <= s.x[29] + 16 && AfterMoves(s, u, moves, k)
    ensures Enabled(Load(moves[k].size, 9, 29, 16 + moves[k].darwin), u)
    ensures var loaded := Exec(Load(moves[k].size, 9, 29, 16 + moves[k].darwin), u);
      && Enabled(Store(moves[k].size, 9, SP, moves[k].android), loaded)
      && AfterMoves(s, Exec(Store(moves[k].size, 9, SP, moves[k].android), loaded), moves, k + 1)
  {
    OneMove(u, moves[k]);
    var loaded := Exec(Load(moves[k].size, 9, 29, 16 + moves[k].darwin), u);
    MoveKeeps(s, u, Exec(Store(moves[k].size, 9, SP, moves[k].android), loaded), moves, k + 1);
  }

  lemma NoMoves(s: State, moves: seq<StackMove>)
    requires s.Valid()
    ensures AfterMoves(s, s, moves, 0)
  {
  }

  lemma {:induction false} MoveEffect(s: State, moves: seq<StackMove>, k: nat) returns (t: State)
    requires s.Valid() && s.sp % 16 == 0 && GoodMoves(moves) && k <= |moves|
    requires s.sp + 8 * |moves| <= s.x[29] + 16
    ensures Takes(MoveCode(moves, k), s, t) && AfterMoves(s, t, moves, k)
  {
    hide Takes, AfterMoves, Moved;
    if k == 0 {
      NoMoves(s, moves);
      TakesNone(s);
      t := s;
    } else {
      var u := MoveEffect(s, moves, k - 1);
      var init, move := MoveCode(moves, k - 1), moves[k - 1];
      MoveStep(s, u, moves, k - 1);
      var load, store := Load(move.size, 9, 29, 16 + move.darwin), Store(move.size, 9, SP, move.android);
      t := Exec(store, Exec(load, u));
      TakesMore(init, load, s, u);
      TakesMore(init + [load], store, s, Exec(load, u));
      assert MoveCode(moves, k) == init + [load] + [store];
    }
  }

  /** The first k vector registers are in memory from a on. */
  ghost predicate SavedV(m: Memory, a: int, v: seq<nat>, k: nat)
    requires k <= |v|
  {
    k > 0 ==> SavedV(m, a, v, k - 1) && Holds(m, a + 16 * (k - 1), LeBytes(v[k - 1], 16))
  }

  lemma {:induction false} SavedVAcross(m: Memory, m': Memory, a: int, v: seq<nat>, k: nat)
    requires k <= |v| && SavedV(m, a, v, k) && SameWithin(m, m', a, a + 16 * k)
    ensures SavedV(m', a, v, k)
  {
    if k > 0 {
      SavedVAcross(m, m', a, v, k - 1);
      HoldsAcross(m, m', a + 16 * (k - 1), LeBytes(v[k - 1], 16));
    }
  }

  lemma {:induction false} SavedVAt(m: Memory, a: int, v: seq<nat>, k: nat, r: nat)
    requires r < k <= |v| && SavedV(m, a, v, k)
    ensures Holds(m, a + 16 * r, LeBytes(v[r], 16))
  {
    if r < k - 1 { SavedVAt(m, a, v, k - 1, r); }
  }

  ghost predicate SavedX(m: Memory, a: int, x: seq<nat>, k: nat)
    requires k <= |x|
  {
    k > 0 ==> SavedX(m, a, x, k - 1) && Holds(m, a + 8 * (k - 1), LeBytes(x[k - 1], 8))
  }

  lemma {:induction false} SavedXAcross(m: Memory, m': Memory, a: int, x: seq<nat>, k: nat)
    requires k <= |x| && SavedX(m, a, x, k) && SameWithin(m, m', a, a + 8 * k)
    ensures SavedX(m', a, x, k)
  {
    if k > 0 {
      SavedXAcross(m, m', a, x, k - 1);
      HoldsAcross(m, m', a + 8 * (k - 1), LeBytes(x[k - 1], 8));
    }
  }

  lemma {:induction false} SavedXAt(m: Memory, a: int, x: seq<nat>, k: nat, r: nat)
    requires r < k <= |x| && SavedX(m, a, x, k)
    ensures Holds(m, a + 8 * r, LeBytes(x[r], 8))
  {
    if r < k - 1 { SavedXAt(m, a, x, k - 1, r); }
  }

  /** t is s after the first k vector registers were saved. */
  ghost predicate AfterSaveV(s: State, t: State, scratch: nat, k: nat)
    requires s.Valid() && k <= 8
  {
    && t.Valid() && t.x == s.x && t.v == s.v && t.sp == s.sp
    && SameOutside(s.mem, t.mem, s.sp + scratch, s.sp + scratch + 16 * k)
    && SavedV(t.mem, s.sp + scratch, s.v, k)
  }

  ghost predicate AfterSaveX(s: State, t: State, scratch: nat, k: nat)
    requires s.Valid() && k <= 8
  {
    && t.Valid() && t.x == s.x && t.v == s.v && t.sp == s.sp
    && SameOutside(s.mem, t.mem, s.sp + scratch + 128, s.sp + scratch + 128 + 8 * k)
    && SavedX(t.mem, s.sp + scratch + 128, s.x, k)
  }

  lemma SaveVStep(s: State, u: State, scratch: nat, k: nat)
    requires s.Valid() && s.sp % 16 == 0 && k < 8 && AfterSaveV(s, u, scratch, k)
    ensures Enabled(StoreQ(k, SP, scratch + 16 * k), u)
    ensures AfterSaveV(s, Exec(StoreQ(k, SP, scratch + 16 * k), u), scratch, k + 1)
  {
    var a := s.sp + scratch;
    var at, last := a + 16 * k, LeBytes(s.v[k], 16);
    var t := Exec(StoreQ(k, SP, scratch + 16 * k), u);
    assert t.mem == WriteBytes(u.mem, at, last);
    WriteEffect(u.mem, at, last);
    SavedVAcross(u.mem, t.mem, a, s.v, k);
  }

  lemma SaveXStep(s: State, u: State, scratch: nat, k: nat)
    requires s.Valid() && s.sp % 16 == 0 && k < 8 && AfterSaveX(s, u, scratch, k)
    ensures Enabled(Store(8, k, SP, scratch + 128 + 8 * k), u)
    ensures AfterSaveX(s, Exec(Store(8, k, SP, scratch + 128 + 8 * k), u), scratch, k + 1)
  {
    var a := s.sp + scratch + 128;
    var at, last := a + 8 * k, LeBytes(s.x[k], 8);
    var t := Exec(Store(8, k, SP, scratch + 128 + 8 * k), u);
    assert t.mem == WriteBytes(u.mem, at, last);
    WriteEffect(u.mem, at, last);
    SavedXAcross(u.mem, t.mem, a, s.x, k);
  }

  lemma {:induction false} SaveVEffect(s: State, scratch: nat, k: nat) returns (t: State)
    requires s.Valid() && s.sp % 16 == 0 && k <= 8
    ensures Takes(SaveV(scratch, k), s, t) && AfterSaveV(s, t, scratch, k)
  {
    if k == 0 {
      TakesNone(s);
      t := s;
    } else {
      var u := SaveVEffect(s, scratch, k - 1);
      SaveVStep(s, u, scratch, k - 1);
      var store := StoreQ(k - 1, SP, scratch + 16 * (k - 1));
      TakesMore(SaveV(scratch, k - 1), store, s, u);
      t := Exec(store, u);
    }
  }

  lemma {:induction false} SaveXEffect(s: State, scratch: nat, k: nat) returns (t: State)
    requires s.Valid() && s.sp % 16 == 0 && k <= 8
    ensures Takes(SaveX(scratch, k), s, t) && AfterSaveX(s, t, scratch, k)
  {
    if k == 0 {
      TakesNone(s);
      t := s;
    } else {
      var u := SaveXEffect(s, scratch, k - 1);
      SaveXStep(s, u, scratch, k - 1);
      var store := Store(8, k - 1, SP, scratch + 128 + 8 * (k - 1));
      TakesMore(SaveX(scratch, k - 1), store, s, u);
      t := Exec(store, u);
    }
  }

  lemma LoadSaved(m: Memory, a: int, value: nat, n: nat)
    requires Holds(m, a, LeBytes(value, n)) && value < Pow256(n)
    ensures FromLe(ReadBytes(m, a, n)) == value
  {
    HoldsRead(m, a, LeBytes(value, n));
    LeRoundTrip(value, n);
  }

  /** t is s with the first k vector registers replaced by those of v. */
  ghost predicate AfterRestoreV(s: State, t: State, v: seq<nat>, k: nat)
    requires s.Valid() && k <= 8 <= |v|
  {
    && t.Valid() && t.x == s.x && t.sp == s.sp && t.mem == s.mem
    && t.v == v[..k] + s.v[k..]
  }

  ghost predicate AfterRestoreX(s: State, t: State, x: seq<nat>, k: nat)
    requires s.Valid() && k <= 8 <= |x|
  {
    && t.Valid() && t.v == s.v && t.sp == s.sp && t.mem == s.mem
    && t.x == x[..k] + s.x[k..]
  }

  lemma RestoreVStep(s: State, u: State, scratch: nat, v: seq<nat>, k: nat)
    requires s.Valid() && s.sp % 16 == 0 && k < 8 <= |v| && AfterRestoreV(s, u, v, k)
    requires Holds(s.mem, s.sp + scratch + 16 * k, LeBytes(v[k], 16)) && v[k] < TWO_128
    ensures Enabled(LoadQ(k, SP, scratch + 16 * k), u)
    ensures AfterRestoreV(s, Exec(LoadQ(k, SP, scratch + 16 * k), u), v, k + 1)
  {
    PowValues();
    LoadSaved(s.mem, s.sp + scratch + 16 * k, v[k], 16);
    var t := Exec(LoadQ(k, SP, scratch + 16 * k), u);
    assert t.v == u.v[k := v[k]];
    assert u.v[k := v[k]] == v[..k + 1] + s.v[k + 1..];
  }

  lemma RestoreXStep(s: State, u: State, scratch: nat, x: seq<nat>, k: nat)
    requires s.Valid() && s.sp % 16 == 0 && k < 8 <= |x| && AfterRestoreX(s, u, x, k)
    requires Holds(s.mem, s.sp + scratch + 128 + 8 * k, LeBytes(x[k], 8)) && x[k] < TWO_64
    ensures Enabled(Load(8, k, SP, scratch + 128 + 8 * k), u)
    ensures AfterRestoreX(s, Exec(Load(8, k, SP, scratch + 128 + 8 * k), u), x, k + 1)
  {
    PowValues();
    LoadSaved(s.mem, s.sp + scratch + 128 + 8 * k, x[k], 8);
    var t := Exec(Load(8, k, SP, scratch + 128 + 8 * k), u);
    assert t.x == u.x[k := x[k]];
    assert u.x[k := x[k]] == x[..k + 1] + s.x[k + 1..];
  }

  lemma {:induction false} RestoreVEffect(s: State, scratch: nat, v: seq<nat>, k: nat) returns (t: State)
    requires s.Valid() && s.sp % 16 == 0 && k <= 8 <= |v|
    requires SavedV(s.mem, s.sp + scratch, v, 8) && forall r :: 0 <= r < 8 ==> v[r] < TWO_128
    ensures Takes(RestoreV(scratch, k), s, t) && AfterRestoreV(s, t, v, k)
  {
    if k == 0 {
      TakesNone(s);
      t := s;
    } else {
      var u := RestoreVEffect(s, scratch, v, k - 1);
      SavedVAt(s.mem, s.sp + scratch, v, 8, k - 1);
      RestoreVStep(s, u, scratch, v, k - 1);
      var load := LoadQ(k - 1, SP, scratch + 16 * (k - 1));
      TakesMore(RestoreV(scratch, k - 1), load, s, u);
      t := Exec(load, u);
    }
  }

  lemma {:induction false} RestoreXEffect(s: State, scratch: nat, x: seq<nat>, k: nat) returns (t: State)
    requires s.Valid() && s.sp % 16 == 0 && k <= 8 <= |x|
    requires SavedX(s.mem, s.sp + scratch + 128, x, 8) && forall r :: 0 <= r < 8 ==> x[r] < TWO_64
    ensures Takes(RestoreX(scratch, k), s, t) && AfterRestoreX(s, t, x, k)
  {
    if k == 0 {
      TakesNone(s);
      t := s;
    } else {
      var u := RestoreXEffect(s, scratch, x, k - 1);
      SavedXAt(s.mem, s.sp + scratch + 128, x, 8, k - 1);
      RestoreXStep(s, u, scratch, x, k - 1);
      var load := Load(8, k - 1, SP, scratch + 128 + 8 * (k - 1));
      TakesMore(RestoreX(scratch, k - 1), load, s, u);
      t := Exec(load, u);
    }
  }
}
