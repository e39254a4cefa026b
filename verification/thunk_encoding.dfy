/** The word encoders of the thunk compiler, checked against the A64 decoder. */
module ThunkEncoding {
  import opened Options
  import opened Arm64

  /** The source ORs the fields; OrIsSum shows that in-range fields do not overlap. */
  function EncodeUnsigned(opcode: nat, rt: nat, rn: nat, off: nat, scale: nat): nat
    requires scale > 0
  {
    opcode + off / scale * 0x400 + rn * 0x20 + rt
  }

  function EncodeLoad(rt: nat, rn: nat, off: nat, size: nat): nat {
    match size
    case 1 => EncodeUnsigned(0x3940_0000, rt, rn, off, 1)
    case 2 => EncodeUnsigned(0x7940_0000, rt, rn, off, 2)
    case 4 => EncodeUnsigned(0xb940_0000, rt, rn, off, 4)
    case _ => EncodeUnsigned(0xf940_0000, rt, rn, off, 8)
  }

  function EncodeStore(rt: nat, rn: nat, off: nat, size: nat): nat {
    match size
    case 1 => EncodeUnsigned(0x3900_0000, rt, rn, off, 1)
    case 2 => EncodeUnsigned(0x7900_0000, rt, rn, off, 2)
    case 4 => EncodeUnsigned(0xb900_0000, rt, rn, off, 4)
    case _ => EncodeUnsigned(0xf900_0000, rt, rn, off, 8)
  }

  function EncodeVectorStore(vt: nat, rn: nat, off: nat): nat {
    EncodeUnsigned(0x3d80_0000, vt, rn, off, 16)
  }

  function EncodeVectorLoad(vt: nat, rn: nat, off: nat): nat {
    EncodeUnsigned(0x3dc0_0000, vt, rn, off, 16)
  }

  function EncodeSubSp(bytes: nat): nat {
    0xd100_03ff + bytes * 0x400
  }

  function EncodeLdrLiteral(rt: nat, at: nat, literal: nat): nat
    requires at <= literal
  {
    0x5800_0000 + (literal - at) / 4 * 0x20 + rt
  }

  /** The scaled offset divides exactly and fits its twelve-bit field. */
  predicate Encodable(off: nat, scale: nat) {
    scale > 0 && off % scale == 0 && off / scale < 0x1000
  }

  /** On 32-bit words the OR of an opcode with disjoint fields is their sum. */
  lemma OrIsSum(opcode: bv32, imm: bv32, rn: bv32, rt: bv32)
    requires opcode & 0x3f_ffff == 0 && imm < 0x1000 && rn < 0x20 && rt < 0x20
    ensures opcode | (imm << 10) | (rn << 5) | rt == opcode + (imm << 10) + (rn << 5) + rt
  {
  }

  lemma UnsignedFields(top: nat, imm: nat, rn: nat, rt: nat, w: nat)
    requires top < 0x400 && imm < 0x1000 && rn < 0x20 && rt < 0x20
    requires w == top * 0x40_0000 + imm * 0x400 + rn * 0x20 + rt
    ensures w % 0x20 == rt && (w / 0x20) % 0x20 == rn && (w / 0x400) % 0x1000 == imm
    ensures w / 0x40_0000 == top && w < 0x1_0000_0000
    ensures (w / 0x40_0000) % 4 == top % 4
    ensures (w / 0x100_0000) % 0x40 == (top / 4) % 0x40
    ensures w / 0x4000_0000 == top / 0x100
  {
    assert w / 0x20 == top * 0x2_0000 + imm * 0x20 + rn;
    assert w / 0x400 == top * 0x1000 + imm;
    assert w / 0x40_0000 == top;
  }

  function Width(sz: nat): nat
    requires sz < 4
  {
    [1, 2, 4, 8][sz]
  }

  lemma IntegerAccess(sz: nat, opc: nat, imm: nat, rn: nat, rt: nat, w: nat)
    requires sz < 4 && opc < 2 && imm < 0x1000 && rn < 0x20 && rt < 0x20
    requires w == (sz * 0x100 + 0xe4 + opc) * 0x40_0000 + imm * 0x400 + rn * 0x20 + rt
    ensures w < 0x1_0000_0000
    ensures var size := Width(sz);
      Decode(w) == Some(if opc == 0 then Store(size, rt, rn, imm * size) else Load(size, rt, rn, imm * size))
  {
    var top := sz * 0x100 + 0xe4 + opc;
    UnsignedFields(top, imm, rn, rt, w);
    assert top % 4 == opc && (top / 4) % 0x40 == 0x39 && top / 0x100 == sz;
  }

  lemma VectorAccess(opc: nat, imm: nat, rn: nat, vt: nat, w: nat)
    requires 2 <= opc < 4 && imm < 0x1000 && rn < 0x20 && vt < 0x20
    requires w == (0xf4 + opc) * 0x40_0000 + imm * 0x400 + rn * 0x20 + vt
    ensures w < 0x1_0000_0000
    ensures Decode(w) == Some(if opc == 2 then StoreQ(vt, rn, imm * 16) else LoadQ(vt, rn, imm * 16))
  {
    UnsignedFields(0xf4 + opc, imm, rn, vt, w);
  }

  lemma LoadStoreDecodeAt(rt: nat, rn: nat, off: nat, sz: nat)
    requires rt < 0x20 && rn < 0x20 && sz < 4 && Encodable(off, Width(sz))
    ensures Decode(EncodeLoad(rt, rn, off, Width(sz))) == Some(Load(Width(sz), rt, rn, off))
    ensures Decode(EncodeStore(rt, rn, off, Width(sz))) == Some(Store(Width(sz), rt, rn, off))
    ensures EncodeLoad(rt, rn, off, Width(sz)) < 0x1_0000_0000 && EncodeStore(rt, rn, off, Width(sz)) < 0x1_0000_0000
  {
    var size := Width(sz);
    var imm := off / size;
    assert imm * size == off;
    IntegerAccess(sz, 1, imm, rn, rt, EncodeLoad(rt, rn, off, size));
    IntegerAccess(sz, 0, imm, rn, rt, EncodeStore(rt, rn, off, size));
  }

  /** Loads and stores decode to the access that was asked for. */
  lemma LoadStoreDecode(rt: nat, rn: nat, off: nat, size: nat)
    requires rt < 0x20 && rn < 0x20 && size in {1, 2, 4, 8} && Encodable(off, size)
    ensures Decode(EncodeLoad(rt, rn, off, size)) == Some(Load(size, rt, rn, off))
    ensures Decode(EncodeStore(rt, rn, off, size)) == Some(Store(size, rt, rn, off))
    ensures EncodeLoad(rt, rn, off, size) < 0x1_0000_0000 && EncodeStore(rt, rn, off, size) < 0x1_0000_0000
  {
    var sz := if size == 1 then 0 else if size == 2 then 1 else if size == 4 then 2 else 3;
    LoadStoreDecodeAt(rt, rn, off, sz);
  }

  lemma VectorDecode(vt: nat, rn: nat, off: nat)
    requires vt < 0x20 && rn < 0x20 && Encodable(off, 16)
    ensures Decode(EncodeVectorLoad(vt, rn, off)) == Some(LoadQ(vt, rn, off))
    ensures Decode(EncodeVectorStore(vt, rn, off)) == Some(StoreQ(vt, rn, off))
    ensures EncodeVectorLoad(vt, rn, off) < 0x1_0000_0000 && EncodeVectorStore(vt, rn, off) < 0x1_0000_0000
  {
    var imm := off / 16;
    assert imm * 16 == off;
    VectorAccess(3, imm, rn, vt, EncodeVectorLoad(vt, rn, off));
    VectorAccess(2, imm, rn, vt, EncodeVectorStore(vt, rn, off));
  }

  lemma SubSpDecode(bytes: nat)
    requires bytes < 0x1000
    ensures Decode(EncodeSubSp(bytes)) == Some(SubImm(31, 31, bytes)) && EncodeSubSp(bytes) < 0x1_0000_0000
  {
    UnsignedFields(0x344, bytes, 31, 31, EncodeSubSp(bytes));
  }

  lemma LiteralDecode(rt: nat, at: nat, literal: nat)
    requires rt < 0x20 && at <= literal < at + 0x10_0000 && (literal - at) % 4 == 0
    ensures Decode(EncodeLdrLiteral(rt, at, literal)) == Some(LoadLiteral(rt, literal - at))
    ensures EncodeLdrLiteral(rt, at, literal) < 0x1_0000_0000
  {
    var imm := (literal - at) / 4;
    var w := EncodeLdrLiteral(rt, at, literal);
    assert w % 0x20 == rt && w / 0x20 == 0x2c0_0000 + imm;
    assert (w / 0x20) % 0x8_0000 == imm;
    assert w / 0x100_0000 == 0x58;
    assert (w / 0x100_0000) % 0x40 == 0x18;
  }

  /** The words the compiler writes as constants. */
  lemma FixedDecode()
    ensures Decode(0xa9bf_7bfd) == Some(StorePairPre(29, 30, 31, -16))
    ensures Decode(0x9100_03fd) == Some(AddImm(29, 31, 0))
    ensures Decode(0xaa1c_03e0) == Some(MovReg(0, 28))
    ensures Decode(0xd63f_0200) == Some(Blr(16))
    ensures Decode(0xaa1f_03e1) == Some(MovReg(1, 31))
    ensures Decode(0x9100_03bf) == Some(AddImm(31, 29, 0))
    ensures Decode(0xa8c1_7bfd) == Some(LoadPairPost(29, 30, 31, 16))
    ensures Decode(0xd65f_03c0) == Some(Ret(30))
    ensures Decode(0xd503_201f) == Some(Nop)
  {
    hide Decode;
    EntryDecode();
    CallDecode();
    ExitDecode();
  }

  lemma EntryDecode()
    ensures Decode(0xa9bf_7bfd) == Some(StorePairPre(29, 30, 31, -16))
    ensures Decode(0x9100_03fd) == Some(AddImm(29, 31, 0))
    ensures Decode(0xaa1c_03e0) == Some(MovReg(0, 28))
  {
  }

  lemma CallDecode()
    ensures Decode(0xd63f_0200) == Some(Blr(16))
    ensures Decode(0xaa1f_03e1) == Some(MovReg(1, 31))
    ensures Decode(0x9100_03bf) == Some(AddImm(31, 29, 0))
  {
  }

  lemma ExitDecode()
    ensures Decode(0xa8c1_7bfd) == Some(LoadPairPost(29, 30, 31, 16))
    ensures Decode(0xd65f_03c0) == Some(Ret(30))
    ensures Decode(0xd503_201f) == Some(Nop)
  {
  }
}
