/** PlanShorty: how a thunk rearranges the stack tail of one signature. */
module ShortyPlan {
  import opened Options
  import opened Alignment
  import opened JniAbi

  const MAX_SHORTY: nat := 256
  const SCRATCH: nat := 224

  datatype StackMove = StackMove(darwin: nat, android: nat, size: nat)

  datatype Plan = Plan(moves: seq<StackMove>, frame: nat)

  datatype PlanError = NullShorty | BadHead | ReferenceReturn | ReferenceArgument | NotScalar | NotLifecycle

  datatype PlanResult = Planned(plan: Plan) | Rejected(error: PlanError)

  /** The shorties a thunk of the given shape can be made for. */
  predicate Accepts(shorty: string, shape: CallShape) {
    && 0 < |shorty| <= MAX_SHORTY && IsReturn(shorty[0])
    && TailAccepted(shorty, shape)
  }

  predicate TailAccepted(shorty: string, shape: CallShape) {
    && (forall i :: 1 <= i < |shorty| ==> IsArgument(shorty[i]))
    && (shape.Critical? ==> forall i :: 0 <= i < |shorty| ==> shorty[i] != 'L')
  }

  /** The move that carries stacked argument i to its slot. */
  function MoveFor(args: string, i: nat): StackMove
    requires i < |args| && AllArguments(args)
  {
    StackMove(DarwinOffset(args, i), Aapcs64Offset(args, i), TypeSize(args[i]))
  }

  function MovesOf(args: string, i: nat): seq<StackMove>
    requires i <= |args| && AllArguments(args)
  {
    if i == 0 then []
    else if InRegister(args, i - 1) then MovesOf(args, i - 1)
    else
      MovesOf(args, i - 1) + [MoveFor(args, i - 1)]
  }

  /** Guest tail, two slots when there is a tail, and the register save area. */
  function FrameSize(stacked: nat): nat {
    RoundUp(if 8 * stacked < 16 then 16 else 8 * stacked, 16) + (if stacked == 0 then 0 else 16) + SCRATCH
  }

  function PlanOf(args: string): Plan
    requires AllArguments(args)
  {
    Plan(MovesOf(args, |args|), FrameSize(StackBefore(args, |args|)))
  }

  lemma AcceptedArguments(shorty: string, shape: CallShape)
    requires |shorty| > 0 && forall i :: 1 <= i < |shorty| ==> IsArgument(shorty[i])
    ensures AllArguments(Arguments(shorty, shape))
  {
    var args := Arguments(shorty, shape);
    var lead := |Leading(shape)|;
    forall i | 0 <= i < |args| ensures IsArgument(args[i]) {
      if i >= lead { assert args[i] == shorty[i - lead + 1]; }
    }
  }

  /** What each error says about the shorty. */
  ghost predicate Reason(e: PlanError, shorty: Option<string>, shape: CallShape) {
    match e
    case NullShorty => shorty.None?
    case BadHead => shorty.Some? && !(0 < |shorty.value| <= MAX_SHORTY && IsReturn(shorty.value[0]))
    case ReferenceReturn => shape.Critical? && shorty.Some? && 0 < |shorty.value| && shorty.value[0] == 'L'
    case ReferenceArgument => shape.Critical? && shorty.Some? && 'L' in shorty.value
    case NotScalar => shorty.Some? && exists i :: 1 <= i < |shorty.value| && !IsArgument(shorty.value[i])
    case NotLifecycle => shorty != Some("ILL") && shorty != Some("VLL")
  }

  method PlanShorty(shorty: Option<string>, shape: CallShape) returns (r: PlanResult)
    ensures r.Planned? <==> shorty.Some? && Accepts(shorty.value, shape)
    ensures r.Planned? ==> AllArguments(Arguments(shorty.value, shape))
    ensures r.Planned? ==> r.plan == PlanOf(Arguments(shorty.value, shape))
    ensures r.Rejected? ==> Reason(r.error, shorty, shape)
  {
    if shorty.None? { return Rejected(NullShorty); }
    var text := shorty.value;
    if |text| == 0 || |text| > MAX_SHORTY || !IsReturn(text[0]) { return Rejected(BadHead); }
    if shape.Critical? && text[0] == 'L' { return Rejected(ReferenceReturn); }
    r := PlanTail(text, shape);
  }

  /** The argument loop of PlanShorty, entered once the return type is accepted. */
  method PlanTail(text: string, shape: CallShape) returns (r: PlanResult)
    requires 0 < |text| && (shape.Critical? ==> text[0] != 'L')
    ensures r.Planned? <==> TailAccepted(text, shape)
    ensures r.Planned? ==> AllArguments(Arguments(text, shape))
    ensures r.Planned? ==> r.plan == PlanOf(Arguments(text, shape))
    ensures r.Rejected? ==> r.error in {ReferenceArgument, NotScalar} && Reason(r.error, Some(text), shape)
  {
    hide Counted, PlanOf, RoundUp;
    ghost var done := Leading(shape);
    var gp, fp := if shape.Regular? then 2 else 0, 0;
    var darwin, android := 0, 0;
    var moves: seq<StackMove> := [];
    var index := 1;
    Prefix(shape);
    while index < |text|
      invariant 1 <= index <= |text|
      invariant forall i :: 1 <= i < index ==> IsArgument(text[i])
      invariant shape.Critical? ==> forall i :: 0 <= i < index ==> text[i] != 'L'
      invariant done == Leading(shape) + text[1..index]
      invariant AllArguments(done) && Counted(done, gp, fp, darwin, android, moves)
    {
      var t := text[index];
      if shape.Critical? && t == 'L' { return Rejected(ReferenceArgument); }
      var size := TypeSize(t);
      if size == 0 { return Rejected(NotScalar); }
      Advance(done, t, gp, fp, darwin, android, moves);
      assert text[1..index + 1] == text[1..index] + [t];
      done := done + [t];
      if IsFp(t) && fp < 8 {
        fp := fp + 1;
      } else if !IsFp(t) && gp < 8 {
        gp := gp + 1;
      } else {
        darwin := RoundUp(darwin, size);
        moves := moves + [StackMove(darwin, android, size)];
        darwin := darwin + size;
        android := android + 8;
      }
      index := index + 1;
    }
    var tail := if android < 16 then 16 else android;
    assert done == Arguments(text, shape);
    Finish(done, gp, fp, darwin, android, moves);
    r := Planned(Plan(moves, RoundUp(tail, 16) + (if android == 0 then 0 else 16) + SCRATCH));
  }

  /** The counters before the first listed argument. */
  lemma Prefix(shape: CallShape)
    ensures AllArguments(Leading(shape))
    ensures Counted(Leading(shape), if shape.Regular? then 2 else 0, 0, 0, 0, [])
  {
    if shape.Regular? {
      StackCountBound("LL", 2);
      assert MovesOf("LL", 2) == [] && DarwinEnd("LL", 2) == 0;
      assert Earlier("LL", false, 2) == 2 && Earlier("LL", true, 2) == 0;
    }
  }

  function Capped(n: nat): nat { if n < 8 then n else 8 }

  /** The planning loop's counters after the arguments done. */
  ghost predicate Counted(done: string, gp: nat, fp: nat, darwin: nat, android: nat, moves: seq<StackMove>)
    requires AllArguments(done)
  {
    && gp == Capped(Earlier(done, false, |done|)) && fp == Capped(Earlier(done, true, |done|))
    && darwin == DarwinEnd(done, |done|) && android == 8 * StackBefore(done, |done|)
    && moves == MovesOf(done, |done|)
  }

  /** The plan the counters amount to once every argument is done. */
  lemma Finish(done: string, gp: nat, fp: nat, darwin: nat, android: nat, moves: seq<StackMove>)
    requires AllArguments(done) && Counted(done, gp, fp, darwin, android, moves)
    ensures PlanOf(done)
         == Plan(moves, RoundUp(if android < 16 then 16 else android, 16) + (if android == 0 then 0 else 16) + SCRATCH)
  {
  }

  /** One turn of the planning loop. */
  lemma Advance(done: string, t: char, gp: nat, fp: nat, darwin: nat, android: nat, moves: seq<StackMove>)
    requires AllArguments(done) && IsArgument(t) && Counted(done, gp, fp, darwin, android, moves)
    ensures AllArguments(done + [t])
    ensures IsFp(t) && fp < 8 ==> Counted(done + [t], gp, fp + 1, darwin, android, moves)
    ensures !IsFp(t) && gp < 8 ==> Counted(done + [t], gp + 1, fp, darwin, android, moves)
    ensures (if IsFp(t) then fp else gp) == 8 ==>
      var at := RoundUp(darwin, TypeSize(t));
      Counted(done + [t], gp, fp, at + TypeSize(t), android + 8, moves + [StackMove(at, android, TypeSize(t))])
  {
    ExtendUpTo(done, t, |done|);
    var more := done + [t];
    assert more[|done|] == t;
    assert |more| - 1 == |done|;
  }

  /** Appending an argument leaves the layout of the earlier ones alone. */
  lemma {:induction false} ExtendUpTo(args: string, t: char, i: nat)
    requires AllArguments(args) && IsArgument(t) && i <= |args|
    ensures var more := args + [t];
      && AllArguments(more)
      && (forall fp :: Earlier(more, fp, i) == Earlier(args, fp, i))
      && StackBefore(more, i) == StackBefore(args, i)
      && DarwinEnd(more, i) == DarwinEnd(args, i)
      && MovesOf(more, i) == MovesOf(args, i)
  {
    if i > 0 { ExtendUpTo(args, t, i - 1); }
  }

  /** PlanLifecycleShorty: only the two JNI_OnLoad / JNI_OnUnload shapes. */
  method PlanLifecycle(shorty: Option<string>) returns (r: PlanResult)
    ensures r.Planned? <==> shorty == Some("ILL") || shorty == Some("VLL")
    ensures r.Planned? ==> r.plan == Plan([], 16 + SCRATCH)
  {
    hide PlanOf, Reason, AllArguments;
    if shorty != Some("ILL") && shorty != Some("VLL") { return Rejected(NotLifecycle); }
    r := PlanShorty(shorty, Lifecycle);
    LifecycleAccepted(shorty.value);
    FewArguments(Arguments(shorty.value, Lifecycle));
  }

  lemma LifecycleAccepted(shorty: string)
    requires shorty == "ILL" || shorty == "VLL"
    ensures Accepts(shorty, Lifecycle) && |Arguments(shorty, Lifecycle)| == 2
  {
  }

  /** Up to eight arguments stay in registers: nothing moves, and the frame is the smallest one. */
  lemma FewArguments(args: string)
    requires AllArguments(args) && |args| <= 8
    ensures PlanOf(args) == Plan([], 16 + SCRATCH)
  {
    hide MovesOf, StackBefore;
    StackCountBound(args, |args|);
    NoneMoved(args, |args|);
  }

  lemma {:induction false} NoneMoved(args: string, i: nat)
    requires AllArguments(args) && i <= |args| && i <= 8
    ensures MovesOf(args, i) == []
  {
    if i > 0 { NoneMoved(args, i - 1); }
  }

  /** Every move carries one stacked argument from its Darwin place to its AAPCS64 slot. */
  lemma {:induction false} MoveOfArgument(args: string, i: nat, n: nat)
    requires i < n <= |args| && AllArguments(args)
    ensures |MovesOf(args, n)| == StackBefore(args, n)
    ensures !InRegister(args, i) ==>
      StackBefore(args, i) < |MovesOf(args, n)|
      && MovesOf(args, n)[StackBefore(args, i)] == MoveFor(args, i)
  {
    hide Earlier, DarwinEnd, RoundUp;
    MoveCount(args, n);
    if i < n - 1 {
      MoveOfArgument(args, i, n - 1);
    } else {
      MoveCount(args, n - 1);
    }
  }

  lemma {:induction false} MoveCount(args: string, n: nat)
    requires n <= |args| && AllArguments(args)
    ensures |MovesOf(args, n)| == StackBefore(args, n)
  {
    if n > 0 { MoveCount(args, n - 1); }
  }

  /**
   * Moves are well placed: the k-th writes slot k, reads at natural alignment, and every
   * byte it reads lies inside a tail no larger than the slots.
   */
  ghost predicate GoodMoves(moves: seq<StackMove>) {
    forall k :: 0 <= k < |moves| ==>
      && moves[k].android == 8 * k
      && moves[k].size in {1, 2, 4, 8}
      && moves[k].darwin % moves[k].size == 0
      && moves[k].darwin <= 8 * k
  }

  lemma {:induction false} MovesAreGood(args: string, n: nat)
    requires n <= |args| && AllArguments(args)
    ensures GoodMoves(MovesOf(args, n))
  {
    hide Earlier, DarwinEnd, RoundUp;
    if n > 0 {
      MovesAreGood(args, n - 1);
      MoveCount(args, n - 1);
      if !InRegister(args, n - 1) {
        DarwinTailBound(args, n - 1);
        RoundUpBelow(DarwinEnd(args, n - 1), TypeSize(args[n - 1]), StackBefore(args, n - 1));
        RoundUpAligned(DarwinEnd(args, n - 1), TypeSize(args[n - 1]));
      }
    }
  }

  /** The frame of an accepted shorty is 16-aligned, holds tail and save area, and fits. */
  lemma FrameBounds(shorty: string, shape: CallShape)
    requires Accepts(shorty, shape)
    ensures AllArguments(Arguments(shorty, shape))
    ensures var plan := PlanOf(Arguments(shorty, shape));
      && plan.frame <= 2240 && plan.frame % 16 == 0
      && |plan.moves| <= 249
      && 8 * |plan.moves| <= plan.frame - SCRATCH
      && 240 <= plan.frame
      && GoodMoves(plan.moves)
  {
    hide FrameSize, MovesOf, StackBefore, GoodMoves, AllArguments;
    AcceptedArguments(shorty, shape);
    var args := Arguments(shorty, shape);
    assert |args| <= 257;
    StackCountBound(args, |args|);
    MoveCount(args, |args|);
    MovesAreGood(args, |args|);
    FrameFits(StackBefore(args, |args|));
  }

  lemma FrameFits(stacked: nat)
    requires stacked <= 249
    ensures 240 <= FrameSize(stacked) <= 2240 && FrameSize(stacked) % 16 == 0
    ensures 8 * stacked <= FrameSize(stacked) - SCRATCH
  {
    hide RoundUp;
    RoundUpAligned(if 8 * stacked < 16 then 16 else 8 * stacked, 16);
  }
}
