/** The x87 part of the WoW64 context conversion: rebuilding a legacy i386
    FLOATING_SAVE_AREA from the FXSAVE image (XMM_SAVE_AREA32) that a 64-bit
    CONTEXT carries (fpux_to_fpu, dlls/wow64cpu/cpu.c:70-108).

    The FXSAVE image keeps one "abridged" validity bit per physical register,
    whereas the legacy area keeps a 2-bit tag per physical register
    (0 valid, 1 zero, 2 special, 3 empty; Intel SDM Vol. 1, section 8.1.7).
    Rebuilding the tag means classifying the register's 80-bit contents. All of
    it is bit manipulation on fixed-width integers; no floating-point value is
    ever computed. */
module X87 {
  import opened Bytes

  /** A 16-byte register slot (M128A). For an x87 register the 80-bit value
      sits in the low ten bytes: the 64-bit significand in Low (bit 63 is the
      explicit integer bit) and sign and 15-bit exponent in bits 0..15 of High. */
  datatype M128A = M128A(Low: bv64, High: bv64)

  type FloatRegisterFile = s: seq<M128A> | |s| == 8 witness seq(8, _ => M128A(0, 0))
  type XmmRegisterFile = s: seq<M128A> | |s| == 16 witness seq(16, _ => M128A(0, 0))
  type ReservedBytes = s: seq<bv8> | |s| == 96 witness seq(96, _ => 0)
  type RegisterArea = s: seq<bv8> | |s| == 80 witness seq(80, _ => 0)

  /** XMM_SAVE_AREA32, the 512-byte FXSAVE image. FloatRegisters is in stack
      order: FloatRegisters[j] holds ST(j). TagWord is the abridged tag, whose
      bit i says whether PHYSICAL register i is non-empty. */
  datatype XmmSaveArea = XmmSaveArea(
    ControlWord: bv16,
    StatusWord: bv16,
    TagWord: bv8,
    Reserved1: bv8,
    ErrorOpcode: bv16,
    ErrorOffset: bv32,
    ErrorSelector: bv16,
    Reserved2: bv16,
    DataOffset: bv32,
    DataSelector: bv16,
    Reserved3: bv16,
    MxCsr: bv32,
    MxCsrMask: bv32,
    FloatRegisters: FloatRegisterFile,
    XmmRegisters: XmmRegisterFile,
    Reserved4: ReservedBytes)

  /** The i386 FLOATING_SAVE_AREA (FSAVE layout widened to DWORDs).
      RegisterArea holds ST(0)..ST(7), ten bytes each; TagWord holds the full
      2-bit tags, field i (bits 2i..2i+1) for physical register i. */
  datatype FloatingSaveArea = FloatingSaveArea(
    ControlWord: bv32,
    StatusWord: bv32,
    TagWord: bv32,
    ErrorOffset: bv32,
    ErrorSelector: bv32,
    DataOffset: bv32,
    DataSelector: bv32,
    RegisterArea: RegisterArea,
    Cr0NpxState: bv32)

  const TAG_VALID: bv32 := 0
  const TAG_ZERO: bv32 := 1
  const TAG_SPECIAL: bv32 := 2
  const TAG_EMPTY: bv32 := 3

  // ---------------------------------------------------------------------------
  // Classification of one register

  /** The encodings of an 80-bit extended-precision value (Intel SDM Vol. 1,
      sections 4.2.2, 4.8.3 and 8.2.2), told apart by exponent, integer bit J
      and fraction. */
  datatype Encoding =
    | Zero | Denormal | PseudoDenormal
    | Normal | Unnormal
    | Infinity | NaN | PseudoInfinity | PseudoNaN

  /** The 15-bit biased exponent. */
  function Exponent(r: M128A): bv64 { ExponentBits(r.High) }

  /** Bits 0..14 of the sign and exponent word. */
  function ExponentBits(high: bv64): bv64 { high & 0x7fff }

  /** The explicit integer bit J, bit 63 of the significand. */
  function IntegerBit(r: M128A): bv64 { r.Low >> 63 }

  /** The 63 fraction bits below J. */
  function Fraction(r: M128A): bv64 { r.Low & 0x7fff_ffff_ffff_ffff }

  function EncodingOf(r: M128A): Encoding {
    var j := IntegerBit(r) == 1;
    var fraction := Fraction(r);
    if Exponent(r) == 0 then
      (if r.Low == 0 then Zero else if j then PseudoDenormal else Denormal)
    else if Exponent(r) == 0x7fff then
      (if !j then (if fraction == 0 then PseudoInfinity else PseudoNaN)
       else if fraction == 0 then Infinity else NaN)
    else if j then Normal else Unnormal
  }

  /** The x87 tag of each encoding: only a normal number is "valid", only a
      true zero is "zero", every other encoding is "special". */
  function TagOfEncoding(e: Encoding): bv32 {
    match e
    case Normal => TAG_VALID
    case Zero => TAG_ZERO
    case _ => TAG_SPECIAL
  }

  /** The tag of a non-empty register, decided as the source decides it: the
      exponent first, then the significand or the explicit integer bit. */
  function ClassifyRegister(r: M128A): (tag: bv32)
    ensures tag < TAG_EMPTY
  {
    if Exponent(r) == 0x7fff then TAG_SPECIAL
    else if Exponent(r) == 0 then (if r.Low != 0 then TAG_SPECIAL else TAG_ZERO)
    else if IntegerBit(r) != 0 then TAG_VALID
    else TAG_SPECIAL
  }

  /** The source's decision procedure agrees with the classification of the
      encodings: a register is tagged valid exactly when it holds a normal
      number, zero exactly when it holds a true zero, special otherwise. */
  lemma ClassifyRegisterMatchesEncoding(r: M128A)
    ensures ClassifyRegister(r) == TagOfEncoding(EncodingOf(r))
  {
    if Exponent(r) == 0x7fff {
    } else if Exponent(r) == 0 {
    } else {
    }
  }

  // ---------------------------------------------------------------------------
  // Physical registers and the stack

  /** TOP, bits 11..13 of the status word. */
  function StackTop(statusWord: bv16): (top: bv32)
    ensures top < 8
  {
    ((statusWord >> 11) & 7) as bv32
  }

  /** TOP is exactly the three bits 11..13 of the status word. */
  lemma StackTopBits(statusWord: bv16)
    ensures (StackTop(statusWord) << 11) as bv16 == statusWord & 0x3800
  {
  }

  /** The stack position j such that ST(j) is physical register i: the
      physical register of ST(j) is (TOP + j) mod 8. */
  function StackIndex(i: bv32, top: bv32): (j: bv32)
    requires i < 8 && top < 8
    ensures j < 8
  {
    (i - top) & 7
  }

  /** Counting j places up the stack from TOP lands on physical register i. */
  lemma StackIndexRotates(i: bv32, top: bv32)
    requires i < 8 && top < 8
    ensures (top + StackIndex(i, top)) & 7 == i
  {
  }

  /** Register slot j of the stack-ordered register file. */
  function Slot(regs: seq<M128A>, j: bv32): M128A
    requires j < 8 && |regs| == 8
  {
    regs[j]
  }

  /** The first n slots of the register file. */
  function Prefix(regs: seq<M128A>, n: bv32): (p: seq<M128A>)
    requires n <= 8 && |regs| == 8
  {
    regs[..n]
  }

  /** Bit i of the abridged tag, in place: nonzero when physical register i
      is in use. */
  function AbridgedBit(abridged: bv8, i: bv32): bv32
    requires i < 8
  {
    (abridged as bv32) & (1 << i)
  }

  /** The 2-bit tag of physical register i. */
  function RegisterTag(fpux: XmmSaveArea, i: bv32): (tag: bv32)
    requires i < 8
    ensures tag <= 3
  {
    if AbridgedBit(fpux.TagWord, i) == 0 then TAG_EMPTY
    else ClassifyRegister(Slot(fpux.FloatRegisters, StackIndex(i, StackTop(fpux.StatusWord))))
  }

  /** A register's tag is "empty" exactly when its abridged bit is clear:
      a non-empty register is always classified as valid, zero or special. */
  lemma RegisterTagEmpty(fpux: XmmSaveArea, i: bv32)
    requires i < 8
    ensures RegisterTag(fpux, i) == TAG_EMPTY <==> AbridgedBit(fpux.TagWord, i) == 0
  {
  }

  /** `w |= tag << (2 * i)`: or-s a tag into field i of a tag word. */
  function SetTag(w: bv32, tag: bv32, i: bv32): bv32
    requires i < 8
  {
    w | (tag << (2 * i))
  }

  /** Field i (bits 2i..2i+1) of a packed tag word. */
  function TagField(w: bv32, i: bv32): bv32
    requires i < 8
  {
    (w >> (2 * i)) & 3
  }

  /** The tag word after the first n iterations of the tag loop: 0xffff0000
      with the tags of physical registers 0..n-1 or-ed into bits 2i..2i+1. */
  function TagWordAfter(fpux: XmmSaveArea, n: bv32): bv32
    requires n <= 8
    decreases n
  {
    if n == 0 then 0xffff_0000
    else SetTag(TagWordAfter(fpux, n - 1), RegisterTag(fpux, n - 1), n - 1)
  }

  /** One more iteration or-s the next register's tag into its field. */
  lemma TagWordAfterStep(fpux: XmmSaveArea, i: bv32)
    requires i < 8
    ensures TagWordAfter(fpux, i + 1) == SetTag(TagWordAfter(fpux, i), RegisterTag(fpux, i), i)
  {
    assert (i + 1) - 1 == i;
  }

  /** The legacy tag word: all eight registers' tags. */
  function TagWordOf(fpux: XmmSaveArea): bv32 {
    TagWordAfter(fpux, 8)
  }

  /** Fields 0..n-1 of w hold the tags of registers 0..n-1, the fields above
      are still clear, and the upper half is all ones. */
  ghost predicate TagsUpTo(fpux: XmmSaveArea, w: bv32, n: bv32)
    requires n <= 8
  {
    && w >> 16 == 0xffff
    && (w & 0xffff) >> (2 * n) == 0
    && forall k: bv32 :: k < n ==> TagField(w, k) == RegisterTag(fpux, k)
  }

  /** One iteration of the tag loop: with the tags of registers 0..i-1 in
      place, or-ing in the tag of register i yields the tags of 0..i. */
  lemma TagStep(fpux: XmmSaveArea, w: bv32, tag: bv32, i: bv32)
    requires i < 8 && TagsUpTo(fpux, w, i) && tag == RegisterTag(fpux, i)
    ensures TagsUpTo(fpux, SetTag(w, tag, i), i + 1)
  {
    SetTagField(w, tag, i, i);
    forall k: bv32 | k < i + 1
      ensures TagField(SetTag(w, tag, i), k) == RegisterTag(fpux, k)
    {
      SetTagField(w, tag, i, k);
    }
  }

  /** After n iterations, fields 0..n-1 hold the registers' tags and the rest
      of the low half is still clear. */
  lemma {:induction false} TagWordAfterFields(fpux: XmmSaveArea, n: bv32)
    requires n <= 8
    ensures TagsUpTo(fpux, TagWordAfter(fpux, n), n)
  {
    if n != 0 {
      var m := n - 1;
      TagWordAfterFields(fpux, m);
      TagStep(fpux, TagWordAfter(fpux, m), RegisterTag(fpux, m), m);
      assert m + 1 == n;
    }
  }

  /** Read back field by field, the tag word holds each register's tag. */
  lemma TagWordOfFields(fpux: XmmSaveArea)
    ensures TagWordOf(fpux) >> 16 == 0xffff
    ensures forall i: bv32 :: i < 8 ==> TagField(TagWordOf(fpux), i) == RegisterTag(fpux, i)
  {
    TagWordAfterFields(fpux, 8);
  }

  /** A word is fixed by its upper half and its eight 2-bit fields. */
  lemma FieldsDetermineWord(w1: bv32, w2: bv32)
    requires w1 >> 16 == w2 >> 16
    requires forall i: bv32 :: i < 8 ==> TagField(w1, i) == TagField(w2, i)
    ensures w1 == w2
  {
    assert TagField(w1, 0) == TagField(w2, 0) && TagField(w1, 1) == TagField(w2, 1);
    assert TagField(w1, 2) == TagField(w2, 2) && TagField(w1, 3) == TagField(w2, 3);
    assert TagField(w1, 4) == TagField(w2, 4) && TagField(w1, 5) == TagField(w2, 5);
    assert TagField(w1, 6) == TagField(w2, 6) && TagField(w1, 7) == TagField(w2, 7);
  }

  /** Or-ing a tag into the next free field (what one iteration of the source's
      loop does) sets exactly that field and leaves the others and the upper
      half alone. */
  lemma SetTagField(w: bv32, tag: bv32, i: bv32, k: bv32)
    requires tag <= 3 && i < 8 && k < 8
    requires (w & 0xffff) >> (2 * i) == 0
    ensures TagField(SetTag(w, tag, i), k) == if k == i then tag else TagField(w, k)
    ensures SetTag(w, tag, i) >> 16 == w >> 16
    ensures (SetTag(w, tag, i) & 0xffff) >> (2 * (i + 1)) == 0
  {
  }

  // ---------------------------------------------------------------------------
  // The register area

  /** The ten bytes of an 80-bit register as memcpy copies them out of its
      16-byte slot: the significand, then the sign and exponent word. */
  function RegisterBytes(r: M128A): (b: seq<bv8>)
    ensures |b| == 10
  {
    Le64(r.Low) + Le16((r.High & 0xffff) as bv16)
  }

  /** The ten bytes decode back to the significand and the sign and exponent
      word; only the unused upper 48 bits of High are lost. */
  lemma RegisterBytesDecode(r: M128A)
    ensures DecodeRegister(RegisterBytes(r)) == M128A(r.Low, r.High & 0xffff)
  {
    SplitConcat(Le64(r.Low), Le16((r.High & 0xffff) as bv16));
    Le64RoundTrip(r.Low);
    Le16RoundTrip((r.High & 0xffff) as bv16);
  }

  lemma SplitConcat(a: seq<bv8>, c: seq<bv8>)
    ensures (a + c)[..|a|] == a && (a + c)[|a|..] == c
  {
  }

  /** Reads an 80-bit register back out of ten bytes of a register area. */
  function DecodeRegister(b: seq<bv8>): M128A
    requires |b| == 10
  {
    M128A(FromLe64(b[..8]), FromLe16(b[8..]) as bv64)
  }

  /** The register images of regs laid end to end. */
  function RegisterAreaOf(regs: seq<M128A>): (area: seq<bv8>)
    ensures |area| == 10 * |regs|
  {
    if regs == [] then [] else RegisterAreaOf(regs[..|regs| - 1]) + RegisterBytes(regs[|regs| - 1])
  }

  // ---------------------------------------------------------------------------
  // The conversion

  /** The legacy save area with the given tag word and register area; every
      other field is copied across from the FXSAVE image, widened to a DWORD,
      the last opcode going into the upper half of the error selector and the
      status word into the low half of Cr0NpxState. */
  function LegacyFields(fpux: XmmSaveArea, tagWord: bv32, area: RegisterArea): FloatingSaveArea {
    FloatingSaveArea(
      ControlWord := Widen(fpux.ControlWord),
      StatusWord := Widen(fpux.StatusWord),
      TagWord := tagWord,
      ErrorOffset := fpux.ErrorOffset,
      ErrorSelector := JoinWords(fpux.ErrorSelector, fpux.ErrorOpcode),
      DataOffset := fpux.DataOffset,
      DataSelector := Widen(fpux.DataSelector),
      RegisterArea := area,
      Cr0NpxState := JoinWords(fpux.StatusWord, 0xffff))
  }

  /** The legacy save area that fpux_to_fpu builds from an FXSAVE image. */
  function LegacyFloatingSave(fpux: XmmSaveArea): FloatingSaveArea {
    LegacyFields(fpux, TagWordOf(fpux), RegisterAreaOf(fpux.FloatRegisters))
  }

  /** memcpy( &RegisterArea[10 * i], &FloatRegisters[i], 10 ): the image of
      register i (in stack order, not rotated by TOP) sits at bytes 10i..10i+9. */
  lemma {:induction false} RegisterAreaSlot(regs: seq<M128A>, i: nat)
    requires i < |regs|
    ensures RegisterAreaOf(regs)[10 * i .. 10 * i + 10] == RegisterBytes(regs[i])
  {
    var n := |regs| - 1;
    var init := regs[..n];
    assert RegisterAreaOf(regs) == RegisterAreaOf(init) + RegisterBytes(regs[n]);
    if i < n {
      RegisterAreaSlot(init, i);
      assert init[i] == regs[i];
    }
  }

  lemma RegisterAreaStep(regs: seq<M128A>, i: bv32)
    requires i < 8 && |regs| == 8
    ensures RegisterAreaOf(Prefix(regs, i + 1)) == RegisterAreaOf(Prefix(regs, i)) + RegisterBytes(Slot(regs, i))
  {
    IncAsInt(i);
    var done := regs[..i + 1];
    assert done[..|done| - 1] == regs[..i];
  }


  lemma PrefixAll(regs: seq<M128A>)
    requires |regs| == 8
    ensures Prefix(regs, 8) == regs
  {
  }

  // ---------------------------------------------------------------------------
  // Properties of the legacy area

  /** The fields copied across unchanged, and the two packed ones. */
  lemma LegacyCopiedFields(fpux: XmmSaveArea)
    ensures LegacyFloatingSave(fpux).ControlWord == Widen(fpux.ControlWord)
    ensures LegacyFloatingSave(fpux).StatusWord == Widen(fpux.StatusWord)
    ensures LegacyFloatingSave(fpux).ErrorOffset == fpux.ErrorOffset
    ensures LegacyFloatingSave(fpux).DataOffset == fpux.DataOffset
    ensures LegacyFloatingSave(fpux).DataSelector == Widen(fpux.DataSelector)
    ensures LowWord(LegacyFloatingSave(fpux).ErrorSelector) == Widen(fpux.ErrorSelector)
    ensures HighWord(LegacyFloatingSave(fpux).ErrorSelector) == Widen(fpux.ErrorOpcode)
    ensures LowWord(LegacyFloatingSave(fpux).Cr0NpxState) == Widen(fpux.StatusWord)
    ensures HighWord(LegacyFloatingSave(fpux).Cr0NpxState) == 0xffff
  {
    JoinWordsSplit(fpux.ErrorSelector, fpux.ErrorOpcode);
    JoinWordsSplit(fpux.StatusWord, 0xffff);
  }

  /** The legacy register area holds, for each ST(i), the ten bytes that
      decode back to its significand and its sign and exponent word. */
  lemma LegacyRegisterImage(fpux: XmmSaveArea, i: nat)
    requires i < 8
    ensures var area := LegacyFloatingSave(fpux).RegisterArea;
      DecodeRegister(area[10 * i .. 10 * i + 10])
        == M128A(fpux.FloatRegisters[i].Low, fpux.FloatRegisters[i].High & 0xffff)
  {
    RegisterAreaSlot(fpux.FloatRegisters, i);
    RegisterBytesDecode(fpux.FloatRegisters[i]);
  }

  /** The tag word's upper half is all ones, and field i is "empty" exactly
      when the abridged tag's bit i is clear. */
  lemma LegacyTagWordEmpty(fpux: XmmSaveArea, i: bv32)
    requires i < 8
    ensures LegacyFloatingSave(fpux).TagWord >> 16 == 0xffff
    ensures TagField(LegacyFloatingSave(fpux).TagWord, i) == TAG_EMPTY
      <==> AbridgedBit(fpux.TagWord, i) == 0
  {
    TagWordOfFields(fpux);
    RegisterTagEmpty(fpux, i);
  }

  /** For a register marked non-empty, its tag field is the x87 tag of the
      encoding held by ST((i - TOP) mod 8), physical register i. */
  lemma LegacyTagWordClassified(fpux: XmmSaveArea, i: bv32)
    requires i < 8
    requires AbridgedBit(fpux.TagWord, i) != 0
    ensures var j := StackIndex(i, StackTop(fpux.StatusWord));
      TagField(LegacyFloatingSave(fpux).TagWord, i) == TagOfEncoding(EncodingOf(fpux.FloatRegisters[j]))
  {
    TagWordOfFields(fpux);
    ClassifyRegisterMatchesEncoding(Slot(fpux.FloatRegisters, StackIndex(i, StackTop(fpux.StatusWord))));
  }

  /** The classification reads only the significand and the exponent bits,
      all of which survive the ten-byte copy. */
  lemma ClassifyLow10(r: M128A)
    ensures ClassifyRegister(M128A(r.Low, r.High & 0xffff)) == ClassifyRegister(r)
  {
    ExponentLow16(r.High);
    ClassifySameFields(M128A(r.Low, r.High & 0xffff), r);
  }

  /** The exponent bits lie in the low 16 bits of the word. */
  lemma ExponentLow16(high: bv64)
    ensures ExponentBits(high & 0xffff) == ExponentBits(high)
  {
  }

  /** Registers with the same significand and exponent get the same tag. */
  lemma ClassifySameFields(r1: M128A, r2: M128A)
    requires r1.Low == r2.Low && Exponent(r1) == Exponent(r2)
    ensures ClassifyRegister(r1) == ClassifyRegister(r2)
  {
  }

  /** TOP as read from the widened status word of the legacy area. */
  function LegacyStackTop(statusWord: bv32): (top: bv32)
    ensures top < 8
  {
    (statusWord >> 11) & 7
  }

  /** The legacy area's status word gives the same TOP as the FXSAVE one. */
  lemma LegacyStackTopAgrees(statusWord: bv16)
    ensures LegacyStackTop(Widen(statusWord)) == StackTop(statusWord)
  {
  }

  /** The legacy area is self-consistent: for a register marked in use, its
      tag field is the classification of the register image the area itself
      holds for ST((i - TOP) & 7), with TOP read from the area's status word. */
  lemma LegacyTagWordFromOutput(fpux: XmmSaveArea, i: bv32)
    requires i < 8
    requires AbridgedBit(fpux.TagWord, i) != 0
    ensures var out := LegacyFloatingSave(fpux);
      var j := StackIndex(i, LegacyStackTop(out.StatusWord)) as int;
      TagField(out.TagWord, i) == ClassifyRegister(DecodeRegister(out.RegisterArea[10 * j .. 10 * j + 10]))
  {
    LegacyCopiedFields(fpux);
    LegacyStackTopAgrees(fpux.StatusWord);
    var j := StackIndex(i, StackTop(fpux.StatusWord));
    LegacyTagFieldOfSlot(fpux, i);
    LegacyImageClassified(fpux, j as int);
  }

  /** Field i of a register in use is the tag of slot (i - TOP) & 7. */
  lemma LegacyTagFieldOfSlot(fpux: XmmSaveArea, i: bv32)
    requires i < 8
    requires AbridgedBit(fpux.TagWord, i) != 0
    ensures TagField(LegacyFloatingSave(fpux).TagWord, i)
      == ClassifyRegister(fpux.FloatRegisters[StackIndex(i, StackTop(fpux.StatusWord))])
  {
    TagWordOfFields(fpux);
  }

  /** The image the legacy area holds for ST(j) classifies as ST(j) does. */
  lemma LegacyImageClassified(fpux: XmmSaveArea, j: int)
    requires 0 <= j < 8
    ensures ClassifyRegister(DecodeRegister(LegacyFloatingSave(fpux).RegisterArea[10 * j .. 10 * j + 10]))
      == ClassifyRegister(fpux.FloatRegisters[j])
  {
    LegacyRegisterImage(fpux, j);
    ClassifyLow10(fpux.FloatRegisters[j]);
  }

  /** An FXSAVE image with every register empty gives the all-ones tag word. */
  lemma AllEmptyTagWord(fpux: XmmSaveArea)
    requires fpux.TagWord == 0
    ensures LegacyFloatingSave(fpux).TagWord == 0xffff_ffff
  {
    TagWordOfFields(fpux);
    FieldsDetermineWord(TagWordOf(fpux), 0xffff_ffff);
  }

  lemma IncAsInt(i: bv32)
    requires i < 8
    ensures (i + 1) as int == i as int + 1
  {
  }

  /** The body of the tag loop for register i: "empty" when its abridged bit
      is clear, otherwise the exponent-first decision on ST((i - TOP) & 7). */
  method ComputeTag(fpux: XmmSaveArea, i: bv32, stackTop: bv32) returns (tag: bv32)
    requires i < 8 && stackTop == StackTop(fpux.StatusWord)
    ensures tag == RegisterTag(fpux, i)
  {
    if AbridgedBit(fpux.TagWord, i) == 0 {
      tag := TAG_EMPTY;
    } else {
      var reg := Slot(fpux.FloatRegisters, StackIndex(i, stackTop));
      if Exponent(reg) == 0x7fff {
        tag := TAG_SPECIAL;
      } else if Exponent(reg) == 0 {
        if reg.Low != 0 {
          tag := TAG_SPECIAL;
        } else {
          tag := TAG_ZERO;
        }
      } else {
        if IntegerBit(reg) != 0 {
          tag := TAG_VALID;
        } else {
          tag := TAG_SPECIAL;
        }
      }
    }
  }

  /** fpux_to_fpu: fills the legacy area field by field, then accumulates the
      tag word and copies the register images in one pass over the eight
      registers. */
  method FpuxToFpu(fpux: XmmSaveArea) returns (fpu: FloatingSaveArea)
    ensures fpu == LegacyFloatingSave(fpux)
  {
    var stackTop := StackTop(fpux.StatusWord);
    var tagWord: bv32 := 0xffff_0000;
    var area: seq<bv8> := [];
    var i: bv32 := 0;
    while i < 8
      invariant i <= 8
      invariant tagWord == TagWordAfter(fpux, i)
      invariant area == RegisterAreaOf(Prefix(fpux.FloatRegisters, i))
    {
      assert area + RegisterBytes(Slot(fpux.FloatRegisters, i)) == RegisterAreaOf(Prefix(fpux.FloatRegisters, i + 1)) by {
        RegisterAreaStep(fpux.FloatRegisters, i);
      }
      area := area + RegisterBytes(Slot(fpux.FloatRegisters, i));
      var tag := ComputeTag(fpux, i, stackTop);
      TagWordAfterStep(fpux, i);
      tagWord := SetTag(tagWord, tag, i);
      i := i + 1;
    }
    PrefixAll(fpux.FloatRegisters);
    fpu := LegacyFields(fpux, tagWord, area);
  }
}
