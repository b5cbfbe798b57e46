/** The 32-to-64-bit thunk that BTCpuProcessInit writes at the start of the
    code buffer (struct thunk_32to64, dlls/wow64cpu/cpu.c:33-51; filled in at
    cpu.c:291-307): a packed 25-byte sequence of x86 instructions.

      offset  bytes        instruction
       0      ff 1d <op>   lcall *op            far call through the pointer at op
       6      <addr> <cs>  (data: the m16:32 far pointer: offset, then selector)
      12      83 c4 08     add $8, %esp         drop the far return address
      15      ff 25 <0>    jmp *0(%rip)         64-bit: jump through the next qword
      21      <addr>       (data: the low half of the jump target)

    Only the layout is modelled; decoding and running the bytes is not. */
module Thunk {
  import opened Bytes

  datatype Thunk32To64 = Thunk32To64(
    Lcall: bv8,
    Modrm: bv8,
    Op: bv32,
    LcallAddr: bv32,
    Cs: bv16,
    Add: bv8,
    AddModrm: bv8,
    AddOp: bv8,
    Jmp: bv8,
    JmpModrm: bv8,
    JmpOp: bv32,
    JmpAddr: bv32)

  /** sizeof(struct thunk_32to64) under pshpack1, and the field offsets. */
  const THUNK_SIZE := 25
  const OP_OFFSET: bv64 := 2
  const LCALL_ADDR_OFFSET: bv64 := 6
  const CS_OFFSET: bv64 := 10
  const ADD_OFFSET: bv64 := 12
  const JMP_OFFSET: bv64 := 15
  const JMP_ADDR_OFFSET: bv64 := 21

  /** The packed little-endian image of the structure, fields in declaration
      order with no padding. */
  function Serialize(t: Thunk32To64): (b: seq<bv8>)
    ensures |b| == THUNK_SIZE
  {
    [t.Lcall, t.Modrm] + Le32(t.Op) + Le32(t.LcallAddr) + Le16(t.Cs)
    + [t.Add, t.AddModrm, t.AddOp, t.Jmp, t.JmpModrm] + Le32(t.JmpOp) + Le32(t.JmpAddr)
  }

  /** Reads the structure back from 25 bytes. */
  function Deserialize(b: seq<bv8>): Thunk32To64
    requires |b| == THUNK_SIZE
  {
    Thunk32To64(
      Lcall := b[0],
      Modrm := b[1],
      Op := FromLe32(b[2..6]),
      LcallAddr := FromLe32(b[6..10]),
      Cs := FromLe16(b[10..12]),
      Add := b[12],
      AddModrm := b[13],
      AddOp := b[14],
      Jmp := b[15],
      JmpModrm := b[16],
      JmpOp := FromLe32(b[17..21]),
      JmpAddr := FromLe32(b[21..25]))
  }

  /** The seven runs of the packed image, as slices: two opcode bytes, two
      DWORDs, a WORD, five opcode bytes, two DWORDs. Generic in the element
      type so that the sequence reasoning stays apart from the bit-level
      content of the bytes. */
  lemma ConcatSlices<T>(a: seq<T>, b: seq<T>, c: seq<T>, d: seq<T>, e: seq<T>, f: seq<T>, g: seq<T>)
    requires |a| == 2 && |b| == 4 && |c| == 4 && |d| == 2 && |e| == 5 && |f| == 4 && |g| == 4
    ensures var s := a + b + c + d + e + f + g;
      && s[..2] == a && s[2..6] == b && s[6..10] == c && s[10..12] == d
      && s[12..17] == e && s[17..21] == f && s[21..] == g
  {
    var s := a + b + c + d + e + f + g;
    assert s == (((((a + b) + c) + d) + e) + f) + g;
    assert s[..2] == a;
    assert s[2..6] == b;
    assert s[6..10] == c;
    assert s[10..12] == d;
    assert s[12..17] == e;
    assert s[17..21] == f;
    assert s[21..] == g;
  }

  /** Two 25-byte strings that agree on each run are equal. */
  lemma EqualBySlices<T>(x: seq<T>, y: seq<T>)
    requires |x| == THUNK_SIZE && |y| == THUNK_SIZE
    requires x[..2] == y[..2] && x[2..6] == y[2..6] && x[6..10] == y[6..10] && x[10..12] == y[10..12]
    requires x[12..17] == y[12..17] && x[17..21] == y[17..21] && x[21..] == y[21..]
    ensures x == y
  {
    assert x == x[..2] + x[2..6] + x[6..10] + x[10..12] + x[12..17] + x[17..21] + x[21..];
    assert y == y[..2] + y[2..6] + y[6..10] + y[10..12] + y[12..17] + y[17..21] + y[21..];
  }

  /** Where each field of the image lies. */
  lemma SerializeLayout(t: Thunk32To64)
    ensures var b := Serialize(t);
      && b[..2] == [t.Lcall, t.Modrm]
      && b[2..6] == Le32(t.Op) && b[6..10] == Le32(t.LcallAddr) && b[10..12] == Le16(t.Cs)
      && b[12..17] == [t.Add, t.AddModrm, t.AddOp, t.Jmp, t.JmpModrm]
      && b[17..21] == Le32(t.JmpOp) && b[21..] == Le32(t.JmpAddr)
  {
    ConcatSlices([t.Lcall, t.Modrm], Le32(t.Op), Le32(t.LcallAddr), Le16(t.Cs),
      [t.Add, t.AddModrm, t.AddOp, t.Jmp, t.JmpModrm], Le32(t.JmpOp), Le32(t.JmpAddr));
  }

  /** Reading back a serialized thunk gives the same thunk. */
  lemma DeserializeSerialize(t: Thunk32To64)
    ensures Deserialize(Serialize(t)) == t
  {
    SerializeLayout(t);
    var b := Serialize(t);
    assert b[0] == b[..2][0] && b[1] == b[..2][1];
    assert b[12] == b[12..17][0] && b[13] == b[12..17][1] && b[14] == b[12..17][2];
    assert b[15] == b[12..17][3] && b[16] == b[12..17][4];
    assert b[21..25] == b[21..];
    Le32RoundTrip(t.Op);
    Le32RoundTrip(t.LcallAddr);
    Le16RoundTrip(t.Cs);
    Le32RoundTrip(t.JmpOp);
    Le32RoundTrip(t.JmpAddr);
  }

  /** Every 25-byte string is the image of exactly the thunk read from it. */
  lemma SerializeDeserialize(b: seq<bv8>)
    requires |b| == THUNK_SIZE
    ensures Serialize(Deserialize(b)) == b
  {
    var t := Deserialize(b);
    FromLe32Inverse(b[2..6]);
    FromLe32Inverse(b[6..10]);
    FromLe16Inverse(b[10..12]);
    FromLe32Inverse(b[17..21]);
    FromLe32Inverse(b[21..25]);
    SerializeMatches(t, b);
  }

  /** A thunk whose fields encode to the matching runs of b serializes to b. */
  lemma SerializeMatches(t: Thunk32To64, b: seq<bv8>)
    requires |b| == THUNK_SIZE
    requires b[..2] == [t.Lcall, t.Modrm]
    requires b[2..6] == Le32(t.Op) && b[6..10] == Le32(t.LcallAddr) && b[10..12] == Le16(t.Cs)
    requires b[12..17] == [t.Add, t.AddModrm, t.AddOp, t.Jmp, t.JmpModrm]
    requires b[17..21] == Le32(t.JmpOp) && b[21..25] == Le32(t.JmpAddr)
    ensures Serialize(t) == b
  {
    SerializeLayout(t);
    assert b[21..] == b[21..25];
    EqualBySlices(Serialize(t), b);
  }

  /** The thunk BTCpuProcessInit writes at base, for the 64-bit code selector
      cs and the 64-bit routine at target: each address is stored as the low
      32 bits of the pointer (PtrToUlong). */
  function BuildThunk(base: bv64, cs: bv16, target: bv64): Thunk32To64 {
    Thunk32To64(
      Lcall := 0xff,
      Modrm := 0x1d,
      Op := Low32(base + LCALL_ADDR_OFFSET),
      LcallAddr := Low32(base + ADD_OFFSET),
      Cs := cs,
      Add := 0x83,
      AddModrm := 0xc4,
      AddOp := 0x08,
      Jmp := 0xff,
      JmpModrm := 0x25,
      JmpOp := 0,
      JmpAddr := Low32(target))
  }

  /** The fixed bytes: `ff 1d` (lcall, memory-indirect far call), `83 c4 08`
      (add $8, %esp) and `ff 25 00 00 00 00` (jmp through the next quadword). */
  lemma ThunkOpcodes(base: bv64, cs: bv16, target: bv64)
    ensures var b := Serialize(BuildThunk(base, cs, target));
      && b[..2] == [0xff, 0x1d]
      && b[12..15] == [0x83, 0xc4, 0x08]
      && b[15..21] == [0xff, 0x25, 0, 0, 0, 0]
  {
    var t := BuildThunk(base, cs, target);
    SerializeLayout(t);
    var b := Serialize(t);
    assert Le32(0) == [0, 0, 0, 0];
    assert b[15..21] == [b[15], b[16]] + b[17..21];
  }

  /** When the thunk lies in the low 4 GiB, its two self-references hold:
      the lcall operand is the address of the far pointer stored at offset 6,
      whose offset half is the address of the add instruction at offset 12 and
      whose selector half is the 64-bit code selector. */
  lemma ThunkSelfReference(base: bv64, cs: bv16, target: bv64)
    requires base < 0x1_0000_0000 - 25
    ensures var b := Serialize(BuildThunk(base, cs, target));
      && ZeroExtend(FromLe32(b[2..6])) == base + LCALL_ADDR_OFFSET
      && ZeroExtend(FromLe32(b[6..10])) == base + ADD_OFFSET
      && FromLe16(b[10..12]) == cs
  {
    DeserializeSerialize(BuildThunk(base, cs, target));
    InsideThunk(base, LCALL_ADDR_OFFSET);
    InsideThunk(base, ADD_OFFSET);
  }

  /** An address inside a thunk that lies in the low 4 GiB survives PtrToUlong. */
  lemma InsideThunk(base: bv64, offset: bv64)
    requires base < 0x1_0000_0000 - 25 && offset < 25
    ensures ZeroExtend(Low32(base + offset)) == base + offset
  {
    Low32Exact(base + offset);
  }

  /** The jump target the CPU reads in 64-bit mode: the quadword after the
      six-byte jmp, i.e. the stored low half followed by the four bytes that
      come after the structure. */
  function JumpTarget(image: seq<bv8>): bv64
    requires |image| >= 29
  {
    FromLe64(image[JMP_ADDR_OFFSET .. JMP_ADDR_OFFSET + 8])
  }

  /** The quadword at offset 21 of a 25-byte image followed by four more bytes. */
  lemma TailQuad<T>(image: seq<T>, after: seq<T>)
    requires |image| == THUNK_SIZE && |after| == 4
    ensures (image + after)[21..29] == image[21..] + after
  {
  }

  /** With zero bytes after the structure, the jump lands on the zero-extended
      stored address. */
  lemma JumpTargetOf(t: Thunk32To64)
    ensures JumpTarget(Serialize(t) + [0, 0, 0, 0]) == ZeroExtend(t.JmpAddr)
  {
    var zeros: seq<bv8> := [0, 0, 0, 0];
    SerializeLayout(t);
    TailQuad(Serialize(t), zeros);
    JumpQuad(t.JmpAddr);
  }

  /** So for a thunk that stores the low half of target (as BuildThunk does),
      the jump lands on target exactly when target lies below 4 GiB: that is
      the condition BTCpuProcessInit checks before writing the thunk. */
  lemma JumpTargetExact(t: Thunk32To64, target: bv64)
    requires t.JmpAddr == Low32(target)
    ensures JumpTarget(Serialize(t) + [0, 0, 0, 0]) == target <==> target >> 32 == 0
  {
    JumpTargetOf(t);
    LandsExactly(JumpTarget(Serialize(t) + [0, 0, 0, 0]), target);
  }

  /** A zero-extended low half equals the full address exactly when the high
      half is zero. */
  lemma LandsExactly(landed: bv64, target: bv64)
    requires landed == ZeroExtend(Low32(target))
    ensures landed == target <==> target >> 32 == 0
  {
    Low32Exact(target);
  }

  /** A DWORD followed by four zero bytes reads as that DWORD zero-extended. */
  lemma JumpQuad(x: bv32)
    ensures FromLe64(Le32(x) + [0, 0, 0, 0]) == ZeroExtend(x)
  {
  }
}
