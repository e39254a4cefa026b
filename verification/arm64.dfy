/**
 * The part of the A64 instruction set that the JNI thunks use: a decoder written from the
 * encoding tables of the architecture, and a step semantics over registers, stack pointer
 * and byte memory.  Nothing here depends on how the thunk compiler builds its words.
 */
module Arm64 {
  import opened WordSize
  import opened Options
  import opened Bytes

  const TWO_128: nat := 0x1_0000_0000_0000_0000_0000_0000_0000_0000

  /** Register number 31 is the stack pointer where an address or AddImm/SubImm uses it. */
  const SP: nat := 31

  datatype Instr =
    | Load(size: nat, rt: nat, rn: nat, off: nat)      // zero-extending, size in bytes
    | Store(size: nat, rt: nat, rn: nat, off: nat)
    | LoadQ(vt: nat, rn: nat, off: nat)                // 16 bytes
    | StoreQ(vt: nat, rn: nat, off: nat)
    | LoadLiteral(rt: nat, delta: int)                 // 8 bytes at pc + delta
    | AddImm(rd: nat, rn: nat, imm: nat)
    | SubImm(rd: nat, rn: nat, imm: nat)
    | MovReg(rd: nat, rm: nat)                         // rm = 31 is the zero register
    | StorePairPre(rt: nat, rt2: nat, rn: nat, delta: int)
    | LoadPairPost(rt: nat, rt2: nat, rn: nat, delta: int)
    | Blr(rn: nat)
    | Ret(rn: nat)
    | Nop

  /** Two's-complement reading of a field of the given range. */
  function Signed(field: nat, range: nat): int {
    if 2 * field >= range then field as int - range else field
  }

  /** The A64 decoder, restricted to the encodings above; other words are undefined. */
  function Decode(w: nat): Option<Instr> {
    var rt := w % 0x20;
    var rn := (w / 0x20) % 0x20;
    var imm12 := (w / 0x400) % 0x1000;
    var opc := (w / 0x40_0000) % 4;
    var group := (w / 0x100_0000) % 0x40;
    var sz := w / 0x4000_0000;
    if group == 0x39 && sz < 4 && opc < 2 then
      var size := [1, 2, 4, 8][sz];
      Some(if opc == 0 then Store(size, rt, rn, imm12 * size) else Load(size, rt, rn, imm12 * size))
    else if group == 0x3d && sz == 0 && opc >= 2 then
      Some(if opc == 2 then StoreQ(rt, rn, imm12 * 16) else LoadQ(rt, rn, imm12 * 16))
    else if w / 0x100_0000 == 0x58 then
      Some(LoadLiteral(rt, 4 * Signed((w / 0x20) % 0x8_0000, 0x8_0000)))
    else if w / 0x40_0000 == 0x244 then
      Some(AddImm(rt, rn, imm12))
    else if w / 0x40_0000 == 0x344 then
      Some(SubImm(rt, rn, imm12))
    else if w / 0x20_0000 == 0x550 && (w / 0x400) % 0x40 == 0 && rn == 31 then
      Some(MovReg(rt, (w / 0x1_0000) % 0x20))
    else if w / 0x40_0000 == 0x2a6 then
      Some(StorePairPre(rt, (w / 0x400) % 0x20, rn, 8 * Signed((w / 0x8000) % 0x80, 0x80)))
    else if w / 0x40_0000 == 0x2a3 then
      Some(LoadPairPost(rt, (w / 0x400) % 0x20, rn, 8 * Signed((w / 0x8000) % 0x80, 0x80)))
    else if w / 0x400 == 0x35_8fc0 && rt == 0 then
      Some(Blr(rn))
    else if w / 0x400 == 0x35_97c0 && rt == 0 then
      Some(Ret(rn))
    else if w == 0xd503_201f then
      Some(Nop)
    else
      None
  }

  /* ---------------------------------------------------------------- data memory */

  type Memory = int -> Byte

  function ReadBytes(m: Memory, a: int, n: nat): (bs: seq<Byte>)
    ensures |bs| == n
  {
    seq(n, i requires 0 <= i < n => m(a + i))
  }

  function WriteBytes(m: Memory, a: int, bs: seq<Byte>): Memory {
    (b: int) => if a <= b < a + |bs| then bs[b - a] else m(b)
  }

  /** The bytes at address a are bs. */
  ghost predicate Holds(m: Memory, a: int, bs: seq<Byte>) {
    forall i :: 0 <= i < |bs| ==> m(a + i) == bs[i]
  }

  /** The two memories agree everywhere but possibly in [lo, hi). */
  ghost predicate SameOutside(m: Memory, m': Memory, lo: int, hi: int) {
    forall a: int :: a < lo || a >= hi ==> m'(a) == m(a)
  }

  /** The two memories agree in [lo, hi). */
  ghost predicate SameWithin(m: Memory, m': Memory, lo: int, hi: int) {
    forall a: int :: lo <= a < hi ==> m'(a) == m(a)
  }

  lemma HoldsRead(m: Memory, a: int, bs: seq<Byte>)
    requires Holds(m, a, bs)
    ensures ReadBytes(m, a, |bs|) == bs
  {
  }

  /** A write is seen at its own addresses and nowhere else. */
  lemma WriteEffect(m: Memory, a: int, bs: seq<Byte>)
    ensures Holds(WriteBytes(m, a, bs), a, bs)
    ensures SameOutside(m, WriteBytes(m, a, bs), a, a + |bs|)
  {
  }

  /** Bytes in an unchanged range are still there. */
  lemma HoldsAcross(m: Memory, m': Memory, a: int, bs: seq<Byte>)
    requires Holds(m, a, bs) && SameWithin(m, m', a, a + |bs|)
    ensures Holds(m', a, bs)
  {
    forall i | 0 <= i < |bs| ensures m'(a + i) == bs[i] {
      assert m(a + i) == bs[i];
    }
  }

  /* ------------------------------------------------------------ processor state */

  /** x0..x30, q0..q31, the stack pointer and data memory. */
  datatype State = State(x: seq<nat>, v: seq<nat>, sp: int, mem: Memory) {
    ghost predicate Valid() {
      && |x| == 31 && |v| == 32
      && (forall r :: 0 <= r < 31 ==> x[r] < TWO_64)
      && (forall r :: 0 <= r < 32 ==> v[r] < TWO_128)
    }

    function Base(rn: nat): int
      requires |x| == 31 && rn < 32
    {
      if rn == SP then sp else x[rn]
    }

    function SetBase(rd: nat, value: int): State
      requires |x| == 31 && rd < 32 && (rd != SP ==> 0 <= value)
    {
      if rd == SP then this.(sp := value) else this.(x := x[rd := value])
    }
  }

  /** Instructions that neither branch nor read the program counter. */
  predicate Plain(i: Instr) {
    !i.LoadLiteral? && !i.Blr? && !i.Ret?
  }

  /** The operands exist, and an access through the stack pointer finds it 16-byte aligned. */
  predicate Enabled(i: Instr, s: State) {
    && |s.x| == 31 && |s.v| == 32
    && match i
       case Load(size, rt, rn, off) => rt < 31 && rn < 32 && (rn == SP ==> s.sp % 16 == 0)
       case Store(size, rt, rn, off) => rt < 31 && rn < 32 && (rn == SP ==> s.sp % 16 == 0)
       case LoadQ(vt, rn, off) => vt < 32 && rn < 32 && (rn == SP ==> s.sp % 16 == 0)
       case StoreQ(vt, rn, off) => vt < 32 && rn < 32 && (rn == SP ==> s.sp % 16 == 0)
       case LoadLiteral(rt, delta) => rt < 31
       case AddImm(rd, rn, imm) => rd < 32 && rn < 32 && 0 <= s.Base(rn) + imm < TWO_64
       case SubImm(rd, rn, imm) => rd < 32 && rn < 32 && 0 <= s.Base(rn) - imm < TWO_64
       case MovReg(rd, rm) => rd < 31 && rm < 32
       case StorePairPre(rt, rt2, rn, delta) =>
         rt < 31 && rt2 < 31 && rn == SP && s.sp % 16 == 0 && 0 <= s.sp + delta
       case LoadPairPost(rt, rt2, rn, delta) =>
         rt < 31 && rt2 < 31 && rn == SP && s.sp % 16 == 0 && s.sp + delta < TWO_64
       case Blr(rn) => rn < 31
       case Ret(rn) => rn < 31
       case Nop => true
  }

  function Exec(i: Instr, s: State): State
    requires Plain(i) && Enabled(i, s)
  {
    match i
    case Load(size, rt, rn, off) => s.(x := s.x[rt := FromLe(ReadBytes(s.mem, s.Base(rn) + off, size))])
    case Store(size, rt, rn, off) => s.(mem := WriteBytes(s.mem, s.Base(rn) + off, LeBytes(s.x[rt], size)))
    case LoadQ(vt, rn, off) => s.(v := s.v[vt := FromLe(ReadBytes(s.mem, s.Base(rn) + off, 16))])
    case StoreQ(vt, rn, off) => s.(mem := WriteBytes(s.mem, s.Base(rn) + off, LeBytes(s.v[vt], 16)))
    case AddImm(rd, rn, imm) => s.SetBase(rd, s.Base(rn) + imm)
    case SubImm(rd, rn, imm) => s.SetBase(rd, s.Base(rn) - imm)
    case MovReg(rd, rm) => s.(x := s.x[rd := if rm == 31 then 0 else s.x[rm]])
    case StorePairPre(rt, rt2, rn, delta) =>
      var a := s.sp + delta;
      s.(sp := a, mem := WriteBytes(WriteBytes(s.mem, a, LeBytes(s.x[rt], 8)), a + 8, LeBytes(s.x[rt2], 8)))
    case LoadPairPost(rt, rt2, rn, delta) =>
      s.(sp := s.sp + delta,
         x := s.x[rt := FromLe(ReadBytes(s.mem, s.sp, 8))][rt2 := FromLe(ReadBytes(s.mem, s.sp + 8, 8))])
    case Nop => s
  }

  /* ------------------------------------------------------------------ execution */

  /** A call leaving the code: its address and the processor state the callee receives. */
  datatype Call = Call(callee: nat, at: State)

  /** pc is an offset into the mapped code; calls are those made so far. */
  datatype Config = Config(pc: nat, s: State, calls: seq<Call>, returned: bool)

  /**
   * What runs: instruction and literal fetch by code offset, the address the code is mapped
   * at, and the answers of the callees.  Mapped code is read-only, so it is kept apart from
   * data memory; the k-th call out is answered by the k-th given state.
   */
  datatype Machine = Machine(fetch: nat -> Option<Instr>, literal: int -> Option<nat>,
                             base: nat, answers: seq<State>) {
    function Step(c: Config): Option<Config> {
      match fetch(c.pc)
      case None => None
      case Some(i) => if c.returned || !Enabled(i, c.s) then None else StepAt(i, c)
    }

    function StepAt(i: Instr, c: Config): Option<Config>
      requires Enabled(i, c.s)
    {
      match i
      case Blr(rn) =>
        if |c.calls| < |answers| then
          var at := c.s.(x := c.s.x[30 := base + c.pc + 4]);
          Some(Config(c.pc + 4, answers[|c.calls|], c.calls + [Call(c.s.x[rn], at)], false))
        else None
      case Ret(rn) => Some(c.(returned := true))
      case LoadLiteral(rt, delta) =>
        (match literal(c.pc + delta)
         case None => None
         case Some(value) => Some(c.(pc := c.pc + 4, s := c.s.(x := c.s.x[rt := value]))))
      case _ => Some(c.(pc := c.pc + 4, s := Exec(i, c.s)))
    }

    /** n steps; None when some step is undefined. */
    function Run(c: Config, n: nat): Option<Config> {
      if n == 0 then Some(c)
      else match Run(c, n - 1)
        case None => None
        case Some(d) => Step(d)
    }

    lemma {:induction false} RunSplit(c: Config, n: nat, m: nat)
      requires Run(c, n).Some?
      ensures Run(c, n + m) == Run(Run(c, n).value, m)
    {
      hide Machine.Step;
      if m > 0 { RunSplit(c, n, m - 1); }
    }

    /** The instructions ins are mapped from offset pc on. */
    ghost predicate CodeAt(pc: nat, ins: seq<Instr>) {
      forall k :: 0 <= k < |ins| ==> fetch(pc + 4 * k) == Some(ins[k])
    }
  }

  /** The machine whose code is a mapped byte buffer. */
  function Mapped(code: seq<Byte>, base: nat, answers: seq<State>): Machine {
    Machine((pc: nat) => if pc + 4 <= |code| then Decode(FromLe(code[pc..pc + 4])) else None,
            (a: int) => if 0 <= a && a + 8 <= |code| then Some(FromLe(code[a..a + 8])) else None,
            base, answers)
  }

  ghost predicate AllEnabled(ins: seq<Instr>, s: State)
    decreases |ins|, 0
  {
    |ins| > 0 ==>
      var init, last := ins[..|ins| - 1], ins[|ins| - 1];
      AllEnabled(init, s) && Plain(last) && Enabled(last, ExecAll(init, s))
  }

  ghost function ExecAll(ins: seq<Instr>, s: State): State
    requires AllEnabled(ins, s)
    decreases |ins|, 1
  {
    if |ins| == 0 then s else Exec(ins[|ins| - 1], ExecAll(ins[..|ins| - 1], s))
  }

  lemma PlainStep(m: Machine, c: Config, i: Instr)
    requires m.fetch(c.pc) == Some(i) && Plain(i) && Enabled(i, c.s) && !c.returned
    ensures m.Step(c) == Some(c.(pc := c.pc + 4, s := Exec(i, c.s)))
  {
  }

  /** Executing ins takes s to t. */
  ghost predicate Takes(ins: seq<Instr>, s: State, t: State) {
    AllEnabled(ins, s) && t == ExecAll(ins, s)
  }

  lemma TakesNone(s: State)
    ensures Takes([], s, s)
  {
  }

  lemma TakesMore(ins: seq<Instr>, i: Instr, s: State, u: State)
    requires Takes(ins, s, u) && Plain(i) && Enabled(i, u)
    ensures Takes(ins + [i], s, Exec(i, u))
  {
    assert (ins + [i])[..|ins|] == ins;
  }

  lemma TakesFour(a: Instr, b: Instr, c: Instr, d: Instr, s: State, s1: State, s2: State, s3: State)
    requires Plain(a) && Enabled(a, s) && s1 == Exec(a, s)
    requires Plain(b) && Enabled(b, s1) && s2 == Exec(b, s1)
    requires Plain(c) && Enabled(c, s2) && s3 == Exec(c, s2)
    requires Plain(d) && Enabled(d, s3)
    ensures Takes([a, b, c, d], s, Exec(d, s3))
  {
    TakesNone(s);
    TakesMore([], a, s, s);
    TakesMore([] + [a], b, s, s1);
    TakesMore([] + [a] + [b], c, s, s2);
    TakesMore([] + [a] + [b] + [c], d, s, s3);
    assert [a, b, c, d] == [] + [a] + [b] + [c] + [d];
  }

  lemma {:induction false} TakesThen(a: seq<Instr>, b: seq<Instr>, s: State, u: State, t: State)
    requires Takes(a, s, u) && Takes(b, u, t)
    ensures Takes(a + b, s, t)
  {
    if |b| == 0 {
      assert a + b == a;
    } else {
      var init := b[..|b| - 1];
      TakesThen(a, init, s, u, ExecAll(init, u));
      assert a + b == (a + init) + [b[|b| - 1]];
      TakesMore(a + init, b[|b| - 1], s, ExecAll(init, u));
    }
  }

  /** Running mapped straight-line code is executing its instructions in order. */
  lemma {:induction false} BlockRuns(m: Machine, c: Config, ins: seq<Instr>, t: State)
    requires m.CodeAt(c.pc, ins) && Takes(ins, c.s, t) && !c.returned
    ensures m.Run(c, |ins|) == Some(c.(pc := c.pc + 4 * |ins|, s := t))
  {
    hide Exec, Enabled, Plain, Machine.Step, Machine.StepAt;
    if |ins| > 0 {
      var init := ins[..|ins| - 1];
      var u := ExecAll(init, c.s);
      assert m.CodeAt(c.pc, init);
      BlockRuns(m, c, init, u);
      PlainStep(m, c.(pc := c.pc + 4 * |init|, s := u), ins[|ins| - 1]);
    }
  }

  lemma CodeSplit(m: Machine, pc: nat, a: seq<Instr>, b: seq<Instr>)
    requires m.CodeAt(pc, a + b)
    ensures m.CodeAt(pc, a) && m.CodeAt(pc + 4 * |a|, b)
  {
    forall k | 0 <= k < |a| ensures m.fetch(pc + 4 * k) == Some(a[k]) {
      assert (a + b)[k] == a[k];
    }
    forall k | 0 <= k < |b| ensures m.fetch(pc + 4 * |a| + 4 * k) == Some(b[k]) {
      assert (a + b)[|a| + k] == b[k];
      assert pc + 4 * (|a| + k) == pc + 4 * |a| + 4 * k;
    }
  }

  lemma LiteralStep(m: Machine, c: Config, rt: nat, delta: int, value: nat)
    requires m.fetch(c.pc) == Some(LoadLiteral(rt, delta)) && !c.returned && c.s.Valid() && rt < 31
    requires m.literal(c.pc + delta) == Some(value)
    ensures m.Step(c) == Some(c.(pc := c.pc + 4, s := c.s.(x := c.s.x[rt := value])))
  {
  }

  lemma CallStep(m: Machine, c: Config, rn: nat)
    requires m.fetch(c.pc) == Some(Blr(rn)) && !c.returned && c.s.Valid() && rn < 31 && |c.calls| < |m.answers|
    ensures m.Step(c) == Some(Config(c.pc + 4, m.answers[|c.calls|],
      c.calls + [Call(c.s.x[rn], c.s.(x := c.s.x[30 := m.base + c.pc + 4]))], false))
  {
  }

  lemma ReturnStep(m: Machine, c: Config, rn: nat)
    requires m.fetch(c.pc) == Some(Ret(rn)) && !c.returned && c.s.Valid() && rn < 31
    ensures m.Step(c) == Some(c.(returned := true))
  {
  }

  lemma RunMore(m: Machine, c: Config, n: nat, d: Config, e: Config)
    requires m.Run(c, n) == Some(d) && m.Step(d) == Some(e)
    ensures m.Run(c, n + 1) == Some(e)
  {
  }

  lemma RunThen(m: Machine, c: Config, n: nat, d: Config, k: nat, e: Config)
    requires m.Run(c, n) == Some(d) && m.Run(d, k) == Some(e)
    ensures m.Run(c, n + k) == Some(e)
  {
    m.RunSplit(c, n, k);
  }

  /** A literal load into x16 and a call through it. */
  lemma LiteralCall(m: Machine, c: Config, delta: int, callee: nat) returns (at: State)
    requires m.CodeAt(c.pc, [LoadLiteral(16, delta), Blr(16)]) && !c.returned
    requires c.s.Valid() && callee < TWO_64 && m.base + c.pc + 8 < TWO_64
    requires m.literal(c.pc + delta) == Some(callee) && |c.calls| < |m.answers|
    ensures at == c.s.(x := c.s.x[16 := callee][30 := m.base + c.pc + 8]) && at.Valid()
    ensures m.Run(c, 1 + 1)
         == Some(Config(c.pc + 8, m.answers[|c.calls|], c.calls + [Call(callee, at)], false))
  {
    var tail: seq<Instr> := [LoadLiteral(16, delta), Blr(16)];
    assert m.fetch(c.pc + 4 * 0) == Some(tail[0]) && m.fetch(c.pc + 4 * 1) == Some(tail[1]);
    var d := c.(pc := c.pc + 4, s := c.s.(x := c.s.x[16 := callee]));
    LiteralStep(m, c, 16, delta, callee);
    CallStep(m, d, 16);
    at := d.s.(x := d.s.x[30 := m.base + c.pc + 8]);
    var e := Config(c.pc + 8, m.answers[|c.calls|], c.calls + [Call(callee, at)], false);
    RunMore(m, c, 0, c, d);
    RunMore(m, c, 1, d, e);
  }

  /** n steps, then a literal load into x16 and a call through it. */
  lemma RunThenCall(m: Machine, c: Config, n: nat, d: Config, delta: int, callee: nat) returns (at: State)
    requires m.Run(c, n) == Some(d) && !d.returned && d.s.Valid()
    requires m.CodeAt(d.pc, [LoadLiteral(16, delta), Blr(16)])
    requires callee < TWO_64 && m.base + d.pc + 8 < TWO_64
    requires m.literal(d.pc + delta) == Some(callee) && |d.calls| < |m.answers|
    ensures at == d.s.(x := d.s.x[16 := callee][30 := m.base + d.pc + 8]) && at.Valid()
    ensures m.Run(c, n + 2) == Some(Config(d.pc + 8, m.answers[|d.calls|], d.calls + [Call(callee, at)], false))
  {
    at := LiteralCall(m, d, delta, callee);
    RunThen(m, c, n, d, 1 + 1, Config(d.pc + 8, m.answers[|d.calls|], d.calls + [Call(callee, at)], false));
  }

  lemma RunThenReturn(m: Machine, c: Config, n: nat, d: Config)
    requires m.Run(c, n) == Some(d) && m.fetch(d.pc) == Some(Ret(30)) && !d.returned && d.s.Valid()
    ensures m.Run(c, n + 1) == Some(d.(returned := true))
  {
    ReturnStep(m, d, 30);
  }
}
