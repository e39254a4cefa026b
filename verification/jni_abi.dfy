/**
 * The two procedure-call conventions a JNI thunk stands between, stated on their own.
 * Both hand out x0..x7 and v0..v7 in order, each bank on its own count; they differ in
 * where the arguments that no longer fit lie on the stack.
 */
module JniAbi {
  import opened Bytes
  import opened Alignment
  import opened Arm64

  datatype CallShape = Regular | Critical | Lifecycle

  /** Size in bytes of a scalar or reference type; 0 for anything else. */
  function TypeSize(t: char): nat {
    match t
    case 'Z' => 1 case 'B' => 1
    case 'C' => 2 case 'S' => 2
    case 'I' => 4 case 'F' => 4
    case 'J' => 8 case 'D' => 8 case 'L' => 8
    case _ => 0
  }

  predicate IsArgument(t: char) { TypeSize(t) != 0 }

  predicate IsReturn(t: char) { t == 'V' || IsArgument(t) }

  predicate IsFp(t: char) { t == 'F' || t == 'D' }

  /**
   * The argument types the native function really receives: a regular JNI method gets
   * JNIEnv* and the class or object first, the other shapes only what the shorty lists.
   */
  function Arguments(shorty: string, shape: CallShape): string
    requires |shorty| > 0
  {
    Leading(shape) + shorty[1..]
  }

  function Leading(shape: CallShape): string {
    if shape.Regular? then "LL" else ""
  }

  /** How many of the first i arguments use the floating-point (or the general) bank. */
  function Earlier(args: string, fp: bool, i: nat): (n: nat)
    requires i <= |args|
    ensures n <= i
  {
    if i == 0 then 0 else Earlier(args, fp, i - 1) + (if IsFp(args[i - 1]) == fp then 1 else 0)
  }

  predicate InRegister(args: string, i: nat)
    requires i < |args|
  {
    Earlier(args, IsFp(args[i]), i) < 8
  }

  /** How many of the first i arguments lie on the stack. */
  function StackBefore(args: string, i: nat): (n: nat)
    requires i <= |args|
    ensures n <= i
  {
    if i == 0 then 0 else StackBefore(args, i - 1) + (if InRegister(args, i - 1) then 0 else 1)
  }

  predicate AllArguments(args: string) {
    forall i :: 0 <= i < |args| ==> IsArgument(args[i])
  }

  /** End of Darwin's stack tail after i arguments: packed at natural alignment. */
  function DarwinEnd(args: string, i: nat): nat
    requires i <= |args| && AllArguments(args)
  {
    if i == 0 then 0
    else if InRegister(args, i - 1) then DarwinEnd(args, i - 1)
    else RoundUp(DarwinEnd(args, i - 1), TypeSize(args[i - 1])) + TypeSize(args[i - 1])
  }

  function DarwinOffset(args: string, i: nat): nat
    requires i < |args| && AllArguments(args)
  {
    RoundUp(DarwinEnd(args, i), TypeSize(args[i]))
  }

  /** AAPCS64 gives every stacked scalar an eight-byte slot. */
  function Aapcs64Offset(args: string, i: nat): nat
    requires i < |args|
  {
    8 * StackBefore(args, i)
  }

  datatype Convention = Darwin | Aapcs64

  function StackOffset(c: Convention, args: string, i: nat): nat
    requires i < |args| && AllArguments(args)
  {
    if c.Darwin? then DarwinOffset(args, i) else Aapcs64Offset(args, i)
  }

  /** Argument i is where convention c puts it, with these low bytes. */
  ghost predicate ArgumentIs(c: Convention, s: State, args: string, i: nat, value: seq<Byte>)
    requires i < |args| && AllArguments(args) && s.Valid()
  {
    var n := Earlier(args, IsFp(args[i]), i);
    && |value| == TypeSize(args[i])
    && if n < 8 then
         value == LeBytes(if IsFp(args[i]) then s.v[n] else s.x[n], TypeSize(args[i]))
       else
         Holds(s.mem, s.sp + StackOffset(c, args, i), value)
  }

  /** State s is a call of convention c with the given argument values. */
  ghost predicate IsCall(c: Convention, s: State, args: string, values: seq<seq<Byte>>) {
    && AllArguments(args) && s.Valid() && |values| == |args|
    && s.sp % 16 == 0
    && forall i :: 0 <= i < |args| ==> ArgumentIs(c, s, args, i, values[i])
  }

  /* ------------------------------------------------------------ layout facts */

  /** Packing never needs more room than eight bytes an argument. */
  lemma {:induction false} DarwinTailBound(args: string, i: nat)
    requires i <= |args| && AllArguments(args)
    ensures DarwinEnd(args, i) <= 8 * StackBefore(args, i)
  {
    if i > 0 {
      DarwinTailBound(args, i - 1);
      if !InRegister(args, i - 1) {
        RoundUpBelow(DarwinEnd(args, i - 1), TypeSize(args[i - 1]), StackBefore(args, i - 1));
      }
    }
  }

  lemma RoundUpBelow(v: nat, size: nat, k: nat)
    requires v <= 8 * k && size in {1, 2, 4, 8}
    ensures RoundUp(v, size) <= 8 * k
  {
    RoundUpAligned(v, size);
    AlignedBelow(RoundUp(v, size), size, k);
  }

  lemma AlignedBelow(r: nat, size: nat, k: nat)
    requires size in {1, 2, 4, 8} && r % size == 0 && r < 8 * k + size
    ensures r <= 8 * k
  {
    if size == 2 {
      PairBelow(r, 4 * k);
    } else if size == 4 {
      QuadBelow(r, 2 * k);
    } else if size == 8 {
      OctBelow(r, k);
    }
  }

  lemma PairBelow(r: nat, n: nat)
    requires r % 2 == 0 && r < 2 * n + 2
    ensures r <= 2 * n
  {
  }

  lemma QuadBelow(r: nat, n: nat)
    requires r % 4 == 0 && r < 4 * n + 4
    ensures r <= 4 * n
  {
  }

  lemma OctBelow(r: nat, n: nat)
    requires r % 8 == 0 && r < 8 * n + 8
    ensures r <= 8 * n
  {
  }

  /** The first eight arguments of any signature fit in registers. */
  lemma {:induction false} StackCountBound(args: string, i: nat)
    requires i <= |args|
    ensures i <= 8 ==> StackBefore(args, i) == 0
    ensures i >= 8 ==> StackBefore(args, i) <= i - 8
  {
    if i > 0 { StackCountBound(args, i - 1); }
  }

  /** The widths of the Java types in bytes, a reference being a pointer. */
  lemma Widths()
    ensures TypeSize('Z') == TypeSize('B') == 1 && TypeSize('C') == TypeSize('S') == 2
    ensures TypeSize('I') == TypeSize('F') == 4 && TypeSize('J') == TypeSize('D') == TypeSize('L') == 8
    ensures forall t :: IsArgument(t) <==> t in "ZBCSIFJDL"
    ensures forall t :: IsFp(t) <==> t in "FD"
  {
  }

  const EXAMPLE := "LLLLLLLLDBSIJ"

  /** The two conventions on one signature: pointers in x0 to x7, a double in d0, and a tail that only Darwin packs. */
  lemma TailExample()
    ensures AllArguments(EXAMPLE) && forall i :: 0 <= i < |EXAMPLE| ==> (InRegister(EXAMPLE, i) <==> i < 9)
    ensures DarwinOffset(EXAMPLE, 9) == 0 && DarwinOffset(EXAMPLE, 10) == 2 && DarwinOffset(EXAMPLE, 11) == 4
    ensures DarwinOffset(EXAMPLE, 12) == 8
    ensures forall k :: 0 <= k < 4 ==> Aapcs64Offset(EXAMPLE, 9 + k) == 8 * k
  {
    ExampleRegisters();
    hide Earlier, InRegister, RoundUp, DarwinEnd, DarwinOffset;
    RegistersOnly(EXAMPLE, 9);
    RoundsTo(0, 1, 0);
    RoundsTo(1, 2, 2);
    RoundsTo(4, 4, 4);
    RoundsTo(8, 8, 8);
    OnStack(EXAMPLE, 9);
    OnStack(EXAMPLE, 10);
    OnStack(EXAMPLE, 11);
    OnStack(EXAMPLE, 12);
    assert StackBefore(EXAMPLE, 10) == 1 && StackBefore(EXAMPLE, 11) == 2 && StackBefore(EXAMPLE, 12) == 3;
  }

  /** Rounding up gives the one multiple within reach. */
  lemma RoundsTo(v: nat, a: nat, r: nat)
    requires a > 0 && v <= r < v + a && r % a == 0
    ensures RoundUp(v, a) == r
  {
    hide RoundUp;
    RoundUpAligned(v, a);
    var u := RoundUp(v, a);
    SameMultiple(u / a, r / a, a);
    assert u == a * (u / a) && r == a * (r / a);
  }

  lemma SameMultiple(n: nat, k: nat, a: nat)
    requires a * n < a * k + a && a * k < a * n + a
    ensures a * n == a * k
  {
    if n < k { MultiplesGrow(a, n + 1, k); }
    if k < n { MultiplesGrow(a, k + 1, n); }
    assert a * (n + 1) == a * n + a && a * (k + 1) == a * k + a;
  }

  lemma OnStack(args: string, i: nat)
    requires AllArguments(args) && i < |args| && !InRegister(args, i)
    ensures DarwinOffset(args, i) == RoundUp(DarwinEnd(args, i), TypeSize(args[i]))
    ensures DarwinEnd(args, i + 1) == DarwinOffset(args, i) + TypeSize(args[i])
  {
  }

  lemma ExampleRegisters()
    ensures AllArguments(EXAMPLE) && forall i :: 0 <= i < |EXAMPLE| ==> (InRegister(EXAMPLE, i) <==> i < 9)
  {
    Pointers(EXAMPLE, 8);
    forall i | 0 <= i < 8 ensures InRegister(EXAMPLE, i) { Pointers(EXAMPLE, i); }
    assert Earlier(EXAMPLE, false, 9) == 8;
    assert Earlier(EXAMPLE, false, 10) == 9;
    assert Earlier(EXAMPLE, false, 11) == 10;
    assert Earlier(EXAMPLE, false, 12) == 11;
  }

  lemma {:induction false} Pointers(args: string, i: nat)
    requires i <= |args| && forall j :: 0 <= j < i ==> args[j] == 'L'
    ensures Earlier(args, false, i) == i && Earlier(args, true, i) == 0
  {
    if i > 0 { Pointers(args, i - 1); }
  }

  lemma {:induction false} RegistersOnly(args: string, i: nat)
    requires i <= |args| && AllArguments(args) && forall j :: 0 <= j < i ==> InRegister(args, j)
    ensures DarwinEnd(args, i) == 0 && StackBefore(args, i) == 0
  {
    if i > 0 { RegistersOnly(args, i - 1); }
  }
}
