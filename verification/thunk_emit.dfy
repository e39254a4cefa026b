/** Writing one thunk into the executable buffer, as CreateTrampolines does with its cursor. */
module ThunkEmit {
  import opened WordSize
  import opened Options
  import opened Bytes
  import opened Arm64
  import opened ShortyPlan
  import opened ThunkEncoding
  import opened Thunk
  import opened ThunkCorrect

  /** The buffer holds words from offset start on that decode to ins. */
  ghost predicate Emitted(buffer: seq<Byte>, start: nat, ins: seq<Instr>) {
    && start + 4 * |ins| <= |buffer|
    && forall k :: 0 <= k < |ins| ==> WordAt(buffer, start + 4 * k, ins[k])
  }

  ghost predicate WordAt(buffer: seq<Byte>, at: nat, i: Instr) {
    at + 4 <= |buffer| && Decode(FromLe(buffer[at..at + 4])) == Some(i)
  }

  ghost predicate LiteralAt(buffer: seq<Byte>, at: nat, value: nat) {
    at + 8 <= |buffer| && buffer[at..at + 8] == LeBytes(value, 8)
  }

  /** Every byte outside [lo, hi) is as it was. */
  ghost predicate SameElsewhere(before: seq<Byte>, after: seq<Byte>, lo: int, hi: int) {
    |before| == |after| && forall i :: 0 <= i < |before| && !(lo <= i < hi) ==> after[i] == before[i]
  }

  method Write32(buffer: array<Byte>, offset: nat, value: nat)
    requires offset + 4 <= buffer.Length
    modifies buffer
    ensures buffer[offset..offset + 4] == LeBytes(value, 4)
    ensures SameElsewhere(old(buffer[..]), buffer[..], offset, offset + 4)
  {
    WriteLittleEndian(buffer, offset, value, 4);
  }

  method Write64(buffer: array<Byte>, offset: nat, value: nat)
    requires offset + 8 <= buffer.Length
    modifies buffer
    ensures LiteralAt(buffer[..], offset, value)
    ensures SameElsewhere(old(buffer[..]), buffer[..], offset, offset + 8)
  {
    WriteLittleEndian(buffer, offset, value, 8);
    assert buffer[..][offset..offset + 8] == buffer[offset..offset + 8];
  }

  /** The memcpy of a little-endian host. */
  method WriteLittleEndian(buffer: array<Byte>, offset: nat, value: nat, n: nat)
    requires offset + n <= buffer.Length
    modifies buffer
    ensures buffer[offset..offset + n] == LeBytes(value, n)
    ensures SameElsewhere(old(buffer[..]), buffer[..], offset, offset + n)
  {
    var bytes := LeBytes(value, n);
    for i := 0 to n
      invariant buffer[offset..offset + i] == bytes[..i]
      invariant SameElsewhere(old(buffer[..]), buffer[..], offset, offset + i)
    {
      buffer[offset + i] := bytes[i];
      assert buffer[offset..offset + i + 1] == buffer[offset..offset + i] + [bytes[i]];
      assert bytes[..i + 1] == bytes[..i] + [bytes[i]];
    }
    assert bytes[..n] == bytes;
  }

  lemma EmitMore(before: seq<Byte>, after: seq<Byte>, start: nat, ins: seq<Instr>, i: Instr, word: nat)
    requires Emitted(before, start, ins) && start + 4 * |ins| + 4 <= |before|
    requires SameElsewhere(before, after, start + 4 * |ins|, start + 4 * |ins| + 4)
    requires after[start + 4 * |ins|..start + 4 * |ins| + 4] == LeBytes(word, 4)
    requires word < 0x1_0000_0000 && Decode(word) == Some(i)
    ensures Emitted(after, start, ins + [i])
  {
    hide Decode;
    LeRoundTrip(word, 4);
    var more := ins + [i];
    forall k | 0 <= k < |more| ensures WordAt(after, start + 4 * k, more[k]) {
      if k < |ins| {
        assert WordAt(before, start + 4 * k, ins[k]);
        assert after[start + 4 * k..start + 4 * k + 4] == before[start + 4 * k..start + 4 * k + 4];
      }
    }
  }

  /** Each word decodes to the instruction meant. */
  ghost predicate Encodes(words: seq<nat>, piece: seq<Instr>) {
    && |words| == |piece|
    && forall k :: 0 <= k < |words| ==> words[k] < 0x1_0000_0000 && Decode(words[k]) == Some(piece[k])
  }

  method EmitWords(buffer: array<Byte>, cursor: nat, words: seq<nat>, ghost start: nat, ghost ins: seq<Instr>,
                   ghost piece: seq<Instr>)
    returns (next: nat)
    requires cursor == start + 4 * |ins| && cursor + 4 * |words| <= buffer.Length
    requires Encodes(words, piece) && Emitted(buffer[..], start, ins)
    modifies buffer
    ensures next == cursor + 4 * |words|
    ensures Emitted(buffer[..], start, ins + piece)
    ensures SameElsewhere(old(buffer[..]), buffer[..], cursor, next)
  {
    hide Decode;
    next := cursor;
    assert ins + piece[..0] == ins;
    for k := 0 to |words|
      invariant next == cursor + 4 * k
      invariant Emitted(buffer[..], start, ins + piece[..k])
      invariant SameElsewhere(old(buffer[..]), buffer[..], cursor, next)
    {
      ghost var before := buffer[..];
      Write32(buffer, next, words[k]);
      assert buffer[..][next..next + 4] == buffer[next..next + 4];
      EmitMore(before, buffer[..], start, ins + piece[..k], piece[k], words[k]);
      assert ins + piece[..k] + [piece[k]] == ins + piece[..k + 1];
      next := next + 4;
    }
    assert piece[..|words|] == piece;
  }

  lemma PrologueEncodes(frame: nat)
    requires frame < 4096
    ensures Encodes([0xa9bf_7bfd, 0x9100_03fd, EncodeSubSp(frame)], Prologue(frame))
  {
    hide Decode, EncodeSubSp;
    FixedDecode();
    SubSpDecode(frame);
  }

  lemma NothingEmitted(buffer: seq<Byte>, start: nat)
    requires start <= |buffer|
    ensures Emitted(buffer, start, [])
  {
  }

  /** The prologue and the stack-tail moves. */
  method EmitTail(buffer: array<Byte>, start: nat, plan: Plan) returns (cursor: nat)
    requires GoodPlan(plan) && start + 4 * (3 + 2 * |plan.moves|) <= buffer.Length
    modifies buffer
    ensures cursor == start + 4 * (3 + 2 * |plan.moves|)
    ensures Emitted(buffer[..], start, Prologue(plan.frame) + MoveCode(plan.moves, |plan.moves|))
    ensures SameElsewhere(old(buffer[..]), buffer[..], start, cursor)
  {
    hide Emitted, Encodes, Decode, MoveWords, EncodeSubSp;
    PrologueEncodes(plan.frame);
    NothingEmitted(buffer[..], start);
    cursor := EmitWords(buffer, start, [0xa9bf_7bfd, 0x9100_03fd, EncodeSubSp(plan.frame)], start, [],
                        Prologue(plan.frame));
    ghost var prologue := Prologue(plan.frame);
    assert [] + prologue == prologue == prologue + MoveCode(plan.moves, 0);
    for k := 0 to |plan.moves|
      invariant cursor == start + 4 * (3 + 2 * k)
      invariant Emitted(buffer[..], start, prologue + MoveCode(plan.moves, k))
      invariant SameElsewhere(old(buffer[..]), buffer[..], start, cursor)
    {
      var move := plan.moves[k];
      MoveEncodes(plan, k);
      ghost var piece := [Load(move.size, 9, 29, 16 + move.darwin), Store(move.size, 9, SP, move.android)];
      cursor := EmitWords(buffer, cursor, MoveWords(move), start, prologue + MoveCode(plan.moves, k), piece);
      assert prologue + MoveCode(plan.moves, k) + piece == prologue + MoveCode(plan.moves, k + 1);
    }
  }

  function MoveWords(move: StackMove): (words: seq<nat>)
    ensures |words| == 2
  {
    [EncodeLoad(9, 29, 16 + move.darwin, move.size), EncodeStore(9, 31, move.android, move.size)]
  }

  lemma MoveEncodes(plan: Plan, k: nat)
    requires GoodPlan(plan) && k < |plan.moves|
    ensures var move := plan.moves[k];
      Encodes(MoveWords(move), [Load(move.size, 9, 29, 16 + move.darwin), Store(move.size, 9, SP, move.android)])
  {
    hide Decode, EncodeLoad, EncodeStore;
    var move := plan.moves[k];
    assert Encodable(16 + move.darwin, move.size) && Encodable(move.android, move.size) by {
      MoveEncodable(move.darwin, move.size, k);
    }
    LoadStoreDecode(9, 29, 16 + move.darwin, move.size);
    LoadStoreDecode(9, 31, move.android, move.size);
  }

  lemma MoveEncodable(darwin: nat, size: nat, k: nat)
    requires size in {1, 2, 4, 8} && darwin % size == 0 && darwin <= 8 * k < 4000
    ensures Encodable(16 + darwin, size) && Encodable(8 * k, size)
  {
    if size == 1 {
    } else if size == 2 {
      assert (16 + darwin) % 2 == 0 && (8 * k) % 2 == 0;
    } else if size == 4 {
      assert (16 + darwin) % 4 == 0 && (8 * k) % 4 == 0;
    } else {
      assert (16 + darwin) % 8 == 0 && (8 * k) % 8 == 0;
    }
  }

  function VectorInstr(scratch: nat, load: bool, r: nat): Instr {
    if load then LoadQ(r, SP, scratch + 16 * r) else StoreQ(r, SP, scratch + 16 * r)
  }

  function VectorWord(scratch: nat, load: bool, r: nat): nat {
    if load then EncodeVectorLoad(r, 31, scratch + r * 16) else EncodeVectorStore(r, 31, scratch + r * 16)
  }

  function GeneralInstr(scratch: nat, load: bool, r: nat): Instr {
    if load then Load(8, r, SP, scratch + 128 + 8 * r) else Store(8, r, SP, scratch + 128 + 8 * r)
  }

  function GeneralWord(scratch: nat, load: bool, r: nat): nat {
    if load then EncodeLoad(r, 31, scratch + 128 + r * 8, 8) else EncodeStore(r, 31, scratch + 128 + r * 8, 8)
  }

  ghost function BankV(scratch: nat, load: bool, k: nat): (ins: seq<Instr>)
    ensures |ins| == k
  {
    if load then RestoreV(scratch, k) else SaveV(scratch, k)
  }

  ghost function BankX(scratch: nat, load: bool, k: nat): (ins: seq<Instr>)
    ensures |ins| == k
  {
    if load then RestoreX(scratch, k) else SaveX(scratch, k)
  }

  lemma RegisterEncodes(scratch: nat, load: bool, r: nat)
    requires r < 8 && scratch % 16 == 0 && scratch < 4000
    ensures Encodes([VectorWord(scratch, load, r)], [VectorInstr(scratch, load, r)])
    ensures Encodes([GeneralWord(scratch, load, r)], [GeneralInstr(scratch, load, r)])
    ensures BankV(scratch, load, r + 1) == BankV(scratch, load, r) + [VectorInstr(scratch, load, r)]
    ensures BankX(scratch, load, r + 1) == BankX(scratch, load, r) + [GeneralInstr(scratch, load, r)]
  {
    hide Decode, EncodeLoad, EncodeStore, EncodeVectorLoad, EncodeVectorStore;
    VectorDecode(r, 31, scratch + r * 16);
    LoadStoreDecode(r, 31, scratch + 128 + r * 8, 8);
  }

  /** The eight vector argument registers, saved or loaded back. */
  method EmitVectors(buffer: array<Byte>, cursor: nat, scratch: nat, load: bool, ghost start: nat,
                     ghost ins: seq<Instr>)
    returns (next: nat)
    requires cursor == start + 4 * |ins| && cursor + 32 <= buffer.Length && scratch % 16 == 0 && scratch < 4000
    requires Emitted(buffer[..], start, ins)
    modifies buffer
    ensures next == cursor + 32 && Emitted(buffer[..], start, ins + BankV(scratch, load, 8))
    ensures SameElsewhere(old(buffer[..]), buffer[..], cursor, next)
  {
    hide Emitted, Encodes, BankV, VectorWord;
    next := cursor;
    assert BankV(scratch, load, 0) == [];
    assert ins + [] == ins;
    for r := 0 to 8
      invariant next == cursor + 4 * r && Emitted(buffer[..], start, ins + BankV(scratch, load, r))
      invariant SameElsewhere(old(buffer[..]), buffer[..], cursor, next)
    {
      RegisterEncodes(scratch, load, r);
      ghost var i := VectorInstr(scratch, load, r);
      next := EmitWords(buffer, next, [VectorWord(scratch, load, r)], start, ins + BankV(scratch, load, r), [i]);
      assert ins + BankV(scratch, load, r) + [i] == ins + BankV(scratch, load, r + 1);
    }
  }

  /** The eight general argument registers, saved or loaded back. */
  method EmitGenerals(buffer: array<Byte>, cursor: nat, scratch: nat, load: bool, ghost start: nat,
                      ghost ins: seq<Instr>)
    returns (next: nat)
    requires cursor == start + 4 * |ins| && cursor + 32 <= buffer.Length && scratch % 16 == 0 && scratch < 4000
    requires Emitted(buffer[..], start, ins)
    modifies buffer
    ensures next == cursor + 32 && Emitted(buffer[..], start, ins + BankX(scratch, load, 8))
    ensures SameElsewhere(old(buffer[..]), buffer[..], cursor, next)
  {
    hide Emitted, Encodes, BankX, GeneralWord;
    next := cursor;
    assert BankX(scratch, load, 0) == [];
    assert ins + [] == ins;
    for r := 0 to 8
      invariant next == cursor + 4 * r && Emitted(buffer[..], start, ins + BankX(scratch, load, r))
      invariant SameElsewhere(old(buffer[..]), buffer[..], cursor, next)
    {
      RegisterEncodes(scratch, load, r);
      ghost var i := GeneralInstr(scratch, load, r);
      next := EmitWords(buffer, next, [GeneralWord(scratch, load, r)], start, ins + BankX(scratch, load, r), [i]);
      assert ins + BankX(scratch, load, r) + [i] == ins + BankX(scratch, load, r + 1);
    }
  }

  /** Words of a literal load into x16 and a call through it. */
  function CallWords(at: nat, literal: nat): (words: seq<nat>)
    requires at <= literal
    ensures |words| == 2
  {
    [EncodeLdrLiteral(16, at, literal), 0xd63f_0200]
  }

  lemma CallEncodes(start: nat, index: nat, literal: nat)
    requires 4 * index <= literal < 4 * index + 0x10_0000 && literal % 4 == 0
    ensures Encodes(CallWords(start + 4 * index, start + literal), [Literal(16, index, literal), Blr(16)])
    ensures Encodes([EncodeLdrLiteral(0, start + 4 * index, start + literal)], [Literal(0, index, literal)])
  {
    hide Decode, EncodeLdrLiteral;
    FixedDecode();
    LiteralDecode(16, start + 4 * index, start + literal);
    LiteralDecode(0, start + 4 * index, start + literal);
  }

  function KeepWords(scratch: nat): (words: seq<nat>)
    ensures |words| == 4
  {
    [EncodeStore(0, 31, scratch + 8, 8), EncodeVectorStore(0, 31, scratch + 208), 0xaa1c_03e0, 0xaa1f_03e1]
  }

  function ExitWords(scratch: nat): (words: seq<nat>)
    ensures |words| == 6
  {
    [EncodeLoad(0, 31, scratch + 8, 8), EncodeVectorLoad(0, 31, scratch + 208),
     0x9100_03bf, 0xa8c1_7bfd, 0xd65f_03c0, 0xd503_201f]
  }

  lemma FrameEncodes(scratch: nat)
    requires scratch % 16 == 0 && scratch < 4000
    ensures Encodes(KeepWords(scratch), KeepResult(scratch))
    ensures Encodes(ExitWords(scratch), Exit(scratch) + [Ret(30), Nop])
  {
    hide Decode, EncodeLoad, EncodeStore, EncodeVectorLoad, EncodeVectorStore;
    FixedDecode();
    LoadStoreDecode(0, 31, scratch + 8, 8);
    VectorDecode(0, 31, scratch + 208);
  }

  /** Up to and including the call of the push hook. */
  method EmitToPush(buffer: array<Byte>, start: nat, plan: Plan, proxy: bool) returns (cursor: nat)
    requires GoodPlan(plan) && start + ThunkSize(|plan.moves|, proxy) <= buffer.Length
    modifies buffer
    ensures cursor == start + 4 * |PushCall(plan, proxy)| && |PushCall(plan, proxy)| == 2 * |plan.moves| + 22
    ensures Emitted(buffer[..], start, PushCall(plan, proxy))
    ensures SameElsewhere(old(buffer[..]), buffer[..], start, cursor)
  {
    hide Emitted, Encodes, CallWords, MoveCode, SaveV, SaveX, Decode, GoodMoves;
    var scratch, n := plan.frame - SCRATCH, |plan.moves|;
    ghost var entry := Prologue(plan.frame) + MoveCode(plan.moves, n);
    cursor := EmitTail(buffer, start, plan);
    cursor := EmitVectors(buffer, cursor, scratch, false, start, entry);
    cursor := EmitGenerals(buffer, cursor, scratch, false, start, entry + SaveV(scratch, 8));
    CallEncodes(start, 2 * n + 20, PushLiteral(n, proxy));
    MovEncodes();
    cursor := EmitWords(buffer, cursor, [0xaa1c_03e0], start, entry + SaveV(scratch, 8) + SaveX(scratch, 8),
                        [MovReg(0, 28)]);
    cursor := EmitWords(buffer, cursor, CallWords(cursor, start + PushLiteral(n, proxy)), start, Entry(plan),
                        PushLoad(plan, proxy));
  }

  /** Everything up to the target call. */
  method EmitToTarget(buffer: array<Byte>, start: nat, plan: Plan, proxy: bool) returns (cursor: nat)
    requires GoodPlan(plan) && start + ThunkSize(|plan.moves|, proxy) <= buffer.Length
    modifies buffer
    ensures cursor == PcPop(start, plan, proxy)
    ensures Emitted(buffer[..], start,
      PushCall(plan, proxy) + Reload(plan.frame - SCRATCH) + ProxyLoad(plan, proxy) + TargetLoad(plan, proxy))
    ensures SameElsewhere(old(buffer[..]), buffer[..], start, cursor)
  {
    hide Emitted, Encodes, CallWords, PushCall, RestoreV, RestoreX, Decode, GoodMoves;
    var scratch, n := plan.frame - SCRATCH, |plan.moves|;
    cursor := EmitToPush(buffer, start, plan, proxy);
    cursor := EmitVectors(buffer, cursor, scratch, true, start, PushCall(plan, proxy));
    cursor := EmitGenerals(buffer, cursor, scratch, true, start, PushCall(plan, proxy) + RestoreV(scratch, 8));
    ghost var ins := PushCall(plan, proxy) + Reload(scratch);
    assert ins == PushCall(plan, proxy) + RestoreV(scratch, 8) + RestoreX(scratch, 8);
    if proxy {
      CallEncodes(start, 2 * n + 38, ProxyLiteral(n, proxy));
      cursor := EmitWords(buffer, cursor, [EncodeLdrLiteral(0, cursor, start + ProxyLiteral(n, proxy))], start, ins,
                          ProxyLoad(plan, proxy));
    } else {
      assert ins + ProxyLoad(plan, proxy) == ins;
    }
    CallEncodes(start, 2 * n + 38 + (if proxy then 1 else 0), TargetLiteral(n, proxy));
    cursor := EmitWords(buffer, cursor, CallWords(cursor, start + TargetLiteral(n, proxy)), start,
                        ins + ProxyLoad(plan, proxy), TargetLoad(plan, proxy));
  }

  lemma MovEncodes()
    ensures Encodes([0xaa1c_03e0], [MovReg(0, 28)])
  {
    FixedDecode();
  }

  /** A whole thunk, code and literals, lies in the buffer at start. */
  ghost predicate Compiled(buffer: seq<Byte>, start: nat, plan: Plan, proxy: bool, lits: Literals) {
    var n := |plan.moves|;
    && plan.frame >= SCRATCH
    && Emitted(buffer, start, ThunkCode(plan, proxy))
    && LiteralAt(buffer, start + PushLiteral(n, proxy), lits.push)
    && LiteralAt(buffer, start + PopLiteral(n, proxy), lits.pop)
    && (proxy ==> LiteralAt(buffer, start + ProxyLiteral(n, proxy), lits.proxy))
    && LiteralAt(buffer, start + TargetLiteral(n, proxy), lits.target)
  }

  /** The instructions of one thunk; the cursor lands on the first literal. */
  method EmitCode(buffer: array<Byte>, start: nat, plan: Plan, proxy: bool) returns (cursor: nat)
    requires GoodPlan(plan) && start + ThunkSize(|plan.moves|, proxy) <= buffer.Length
    modifies buffer
    ensures cursor == start + PushLiteral(|plan.moves|, proxy)
    ensures Emitted(buffer[..], start, ThunkCode(plan, proxy))
    ensures SameElsewhere(old(buffer[..]), buffer[..], start, cursor)
  {
    hide Emitted, Encodes, CallWords, MoveCode, SaveV, SaveX, RestoreV, RestoreX, Decode, GoodMoves;
    hide KeepWords, ExitWords;
    var scratch, n := plan.frame - SCRATCH, |plan.moves|;
    ghost var ins := PushCall(plan, proxy) + Reload(scratch) + ProxyLoad(plan, proxy) + TargetLoad(plan, proxy);
    cursor := EmitToTarget(buffer, start, plan, proxy);
    FrameEncodes(scratch);
    CallEncodes(start, 2 * n + 44 + (if proxy then 1 else 0), PopLiteral(n, proxy));
    cursor := EmitWords(buffer, cursor, KeepWords(scratch), start, ins, KeepResult(scratch));
    cursor := EmitWords(buffer, cursor, CallWords(cursor, start + PopLiteral(n, proxy)), start,
                        ins + KeepResult(scratch), PopLoad(plan, proxy));
    assert ins + KeepResult(scratch) + PopLoad(plan, proxy) == ins + PopCall(plan, proxy);
    cursor := EmitWords(buffer, cursor, ExitWords(scratch), start, ins + PopCall(plan, proxy),
                        Exit(scratch) + [Ret(30), Nop]);
    assert ThunkCode(plan, proxy) == ins + PopCall(plan, proxy) + (Exit(scratch) + [Ret(30), Nop]);
  }

  /** ok is false where the source reports a layout mismatch: never. */
  method EmitThunk(buffer: array<Byte>, start: nat, plan: Plan, proxy: bool, lits: Literals) returns (ok: bool)
    requires GoodPlan(plan) && start + ThunkSize(|plan.moves|, proxy) <= buffer.Length
    modifies buffer
    ensures ok && Compiled(buffer[..], start, plan, proxy, lits)
    ensures SameElsewhere(old(buffer[..]), buffer[..], start, start + ThunkSize(|plan.moves|, proxy))
  {
    var n := |plan.moves|;
    var cursor := EmitCode(buffer, start, plan, proxy);
    if cursor != start + PushLiteral(n, proxy) { return false; }
    ghost var coded := buffer[..];
    EmitLiterals(buffer, start, n, proxy, lits);
    CodeKept(coded, buffer[..], start, ThunkCode(plan, proxy));
    ok := true;
  }

  method EmitLiterals(buffer: array<Byte>, start: nat, n: nat, proxy: bool, lits: Literals)
    requires start + ThunkSize(n, proxy) <= buffer.Length
    modifies buffer
    ensures LiteralAt(buffer[..], start + PushLiteral(n, proxy), lits.push)
    ensures LiteralAt(buffer[..], start + PopLiteral(n, proxy), lits.pop)
    ensures proxy ==> LiteralAt(buffer[..], start + ProxyLiteral(n, proxy), lits.proxy)
    ensures LiteralAt(buffer[..], start + TargetLiteral(n, proxy), lits.target)
    ensures SameElsewhere(old(buffer[..]), buffer[..], start + PushLiteral(n, proxy), start + ThunkSize(n, proxy))
  {
    hide LeBytes;
    Write64(buffer, start + PushLiteral(n, proxy), lits.push);
    ghost var a := buffer[..];
    Write64(buffer, start + PopLiteral(n, proxy), lits.pop);
    LiteralKept(a, buffer[..], start + PopLiteral(n, proxy), start + PopLiteral(n, proxy) + 8,
                start + PushLiteral(n, proxy), lits.push);
    ghost var b := buffer[..];
    if proxy {
      Write64(buffer, start + ProxyLiteral(n, proxy), lits.proxy);
      LiteralKept(b, buffer[..], start + ProxyLiteral(n, proxy), start + ProxyLiteral(n, proxy) + 8,
                  start + PushLiteral(n, proxy), lits.push);
      LiteralKept(b, buffer[..], start + ProxyLiteral(n, proxy), start + ProxyLiteral(n, proxy) + 8,
                  start + PopLiteral(n, proxy), lits.pop);
    }
    ghost var c := buffer[..];
    var at := start + ThunkSize(n, proxy) - 8;
    Write64(buffer, at, lits.target);
    LiteralKept(c, buffer[..], at, at + 8, start + PushLiteral(n, proxy), lits.push);
    LiteralKept(c, buffer[..], at, at + 8, start + PopLiteral(n, proxy), lits.pop);
    if proxy { LiteralKept(c, buffer[..], at, at + 8, start + ProxyLiteral(n, proxy), lits.proxy); }
  }

  lemma LiteralKept(before: seq<Byte>, after: seq<Byte>, lo: int, hi: int, at: nat, value: nat)
    requires LiteralAt(before, at, value) && SameElsewhere(before, after, lo, hi) && (at + 8 <= lo || hi <= at)
    ensures LiteralAt(after, at, value)
  {
    assert after[at..at + 8] == before[at..at + 8];
  }

  lemma CodeKept(before: seq<Byte>, after: seq<Byte>, start: nat, ins: seq<Instr>)
    requires Emitted(before, start, ins) && |after| == |before|
    requires forall i :: start <= i < start + 4 * |ins| ==> after[i] == before[i]
    ensures Emitted(after, start, ins)
  {
    hide Decode, FromLe;
    forall k | 0 <= k < |ins| ensures WordAt(after, start + 4 * k, ins[k]) {
      assert WordAt(before, start + 4 * k, ins[k]);
      assert after[start + 4 * k..start + 4 * k + 4] == before[start + 4 * k..start + 4 * k + 4];
    }
  }

  lemma CodeLength(plan: Plan, proxy: bool)
    requires plan.frame >= SCRATCH
    ensures |ThunkCode(plan, proxy)| == Length(|plan.moves|, proxy)
  {
  }

  /** Writing other thunks leaves a compiled one alone. */
  lemma CompiledKept(before: seq<Byte>, after: seq<Byte>, lo: int, hi: int, start: nat, plan: Plan, proxy: bool,
                     lits: Literals)
    requires Compiled(before, start, plan, proxy, lits) && SameElsewhere(before, after, lo, hi)
    requires start + ThunkSize(|plan.moves|, proxy) <= lo || hi <= start
    ensures Compiled(after, start, plan, proxy, lits)
  {
    hide ThunkCode, LeBytes, WordAt;
    var n := |plan.moves|;
    CodeLength(plan, proxy);
    CodeKept(before, after, start, ThunkCode(plan, proxy));
    LiteralKept(before, after, lo, hi, start + PushLiteral(n, proxy), lits.push);
    LiteralKept(before, after, lo, hi, start + PopLiteral(n, proxy), lits.pop);
    if proxy { LiteralKept(before, after, lo, hi, start + ProxyLiteral(n, proxy), lits.proxy); }
    LiteralKept(before, after, lo, hi, start + TargetLiteral(n, proxy), lits.target);
  }

  lemma LiteralMapped(buffer: seq<Byte>, base: nat, answers: seq<State>, at: nat, value: nat)
    requires LiteralAt(buffer, at, value) && value < TWO_64
    ensures Mapped(buffer, base, answers).literal(at) == Some(value)
  {
    PowValues();
    LeRoundTrip(value, 8);
  }

  lemma CodeMapped(buffer: seq<Byte>, base: nat, answers: seq<State>, start: nat, ins: seq<Instr>)
    requires Emitted(buffer, start, ins)
    ensures Mapped(buffer, base, answers).CodeAt(start, ins)
  {
    hide Decode, FromLe;
    var m := Mapped(buffer, base, answers);
    forall k | 0 <= k < |ins| ensures m.fetch(start + 4 * k) == Some(ins[k]) {
      assert WordAt(buffer, start + 4 * k, ins[k]);
    }
  }

  /** The bytes of a compiled thunk, mapped, are a thunk the processor can run. */
  lemma CompiledMapped(buffer: seq<Byte>, base: nat, answers: seq<State>, start: nat, plan: Plan, proxy: bool,
                       lits: Literals)
    requires Compiled(buffer, start, plan, proxy, lits) && base + |buffer| < TWO_64
    requires lits.push < TWO_64 && lits.pop < TWO_64 && lits.proxy < TWO_64 && lits.target < TWO_64
    ensures ThunkAt(Mapped(buffer, base, answers), start, plan, proxy, lits)
  {
    hide ThunkCode, LeBytes, Mapped, Emitted;
    var n := |plan.moves|;
    CodeMapped(buffer, base, answers, start, ThunkCode(plan, proxy));
    LiteralMapped(buffer, base, answers, start + PushLiteral(n, proxy), lits.push);
    LiteralMapped(buffer, base, answers, start + PopLiteral(n, proxy), lits.pop);
    if proxy { LiteralMapped(buffer, base, answers, start + ProxyLiteral(n, proxy), lits.proxy); }
    LiteralMapped(buffer, base, answers, start + TargetLiteral(n, proxy), lits.target);
    assert Mapped(buffer, base, answers).base == base by { MappedBase(buffer, base, answers); }
  }

  lemma MappedBase(buffer: seq<Byte>, base: nat, answers: seq<State>)
    ensures Mapped(buffer, base, answers).base == base && Mapped(buffer, base, answers).answers == answers
  {
  }
}
