/** Conversion of a 64-bit (AMD64) thread context into the 32-bit (i386)
    context a WoW64 guest sees (copy_context_64to32,
    dlls/wow64cpu/cpu.c:116-163).

    The caller passes a CONTEXT_I386_* mask. The mask is stored as is, the
    architecture bit CONTEXT_i386 is stripped, and then each requested subset
    of registers is overwritten while the others keep whatever the i386
    context held. Segment selectors do not come from the 64-bit context: they
    are the values the process captured at start-up. */
module Context {
  import opened Bytes
  import opened X87

  // ---------------------------------------------------------------------------
  // Context flags (winnt.h). Every subset constant carries the architecture bit.

  const CONTEXT_i386: bv32 := 0x0001_0000
  const CONTEXT_I386_CONTROL: bv32 := 0x0001_0001
  const CONTEXT_I386_INTEGER: bv32 := 0x0001_0002
  const CONTEXT_I386_SEGMENTS: bv32 := 0x0001_0004
  const CONTEXT_I386_FLOATING_POINT: bv32 := 0x0001_0008
  const CONTEXT_I386_DEBUG_REGISTERS: bv32 := 0x0001_0010
  const CONTEXT_I386_EXTENDED_REGISTERS: bv32 := 0x0001_0020
  const CONTEXT_I386_ALL: bv32 := 0x0001_003f

  /** The six register subsets a mask can request. */
  predicate IsSubset(subset: bv32) {
    || subset == CONTEXT_I386_CONTROL
    || subset == CONTEXT_I386_INTEGER
    || subset == CONTEXT_I386_SEGMENTS
    || subset == CONTEXT_I386_FLOATING_POINT
    || subset == CONTEXT_I386_DEBUG_REGISTERS
    || subset == CONTEXT_I386_EXTENDED_REGISTERS
  }

  /** The mask with the architecture bit cleared (`flags &= ~CONTEXT_i386`). */
  function SubsetBits(flags: bv32): bv32 { flags & !CONTEXT_i386 }

  /** `bits & subset` is nonzero. */
  predicate Selects(bits: bv32, subset: bv32) { bits & subset != 0 }

  /** Whether the mask requests a subset, tested after the strip. */
  predicate Requested(flags: bv32, subset: bv32) { Selects(SubsetBits(flags), subset) }

  /** A subset is requested exactly when the mask has that subset's own bit:
      because of the strip, the architecture bit shared by every subset
      constant never selects anything on its own. */
  lemma RequestedOwnBit(flags: bv32, subset: bv32)
    requires IsSubset(subset)
    ensures Requested(flags, subset) <==> flags & (subset & 0xffff) != 0
  {
  }

  /** The architecture bit alone requests nothing; CONTEXT_I386_ALL requests
      every subset. */
  lemma RequestedExtremes(subset: bv32)
    requires IsSubset(subset)
    ensures !Requested(CONTEXT_i386, subset)
    ensures Requested(CONTEXT_I386_ALL, subset)
  {
  }

  // ---------------------------------------------------------------------------
  // The two contexts, grouped by subset

  /** The selectors BTCpuProcessInit captured from the 64-bit process: the
      64-bit code segment, the flat data segment and the 32-bit TEB segment
      (cs64_sel, ds64_sel and fs32_sel, cpu.c:55-57). */
  datatype Selectors = Selectors(Cs64: bv16, Ds64: bv16, Fs32: bv16)

  datatype IntegerRegisters = IntegerRegisters(Edi: bv32, Esi: bv32, Ebx: bv32, Edx: bv32, Ecx: bv32, Eax: bv32)
  datatype ControlRegisters = ControlRegisters(Ebp: bv32, Eip: bv32, SegCs: bv32, EFlags: bv32, Esp: bv32, SegSs: bv32)
  datatype SegmentRegisters = SegmentRegisters(SegGs: bv32, SegFs: bv32, SegEs: bv32, SegDs: bv32)
  datatype DebugRegisters = DebugRegisters(Dr0: bv32, Dr1: bv32, Dr2: bv32, Dr3: bv32, Dr6: bv32, Dr7: bv32)

  /** The value of an I386_CONTEXT, its fields grouped by the subset that
      governs them. ExtendedRegisters holds the FXSAVE image its 512 bytes are
      reinterpreted as. */
  datatype I386View = I386View(
    ContextFlags: bv32,
    Debug: DebugRegisters,
    FloatSave: FloatingSaveArea,
    Segments: SegmentRegisters,
    Integer: IntegerRegisters,
    Control: ControlRegisters,
    ExtendedRegisters: XmmSaveArea)

  /** The AMD64 CONTEXT fields the conversion reads or the reset rewrites,
      grouped by the CONTEXT_AMD64 subset that governs them. */
  datatype Amd64Control = Amd64Control(SegCs: bv16, SegSs: bv16, EFlags: bv32, Rsp: bv64, Rip: bv64)
  datatype Amd64Integer = Amd64Integer(Rax: bv64, Rcx: bv64, Rdx: bv64, Rbx: bv64, Rbp: bv64, Rsi: bv64, Rdi: bv64)
  datatype Amd64Segments = Amd64Segments(SegDs: bv16, SegEs: bv16, SegFs: bv16, SegGs: bv16)
  datatype Amd64Debug = Amd64Debug(Dr0: bv64, Dr1: bv64, Dr2: bv64, Dr3: bv64, Dr6: bv64, Dr7: bv64)

  datatype Amd64View = Amd64View(
    Control: Amd64Control,
    Integer: Amd64Integer,
    Segments: Amd64Segments,
    Debug: Amd64Debug,
    FltSave: XmmSaveArea)

  /** An I386_CONTEXT record. Each field of the class holds the registers of
      one subset; the conversion updates them register by register. */
  class I386Context {
    var ContextFlags: bv32
    var Debug: DebugRegisters
    var FloatSave: FloatingSaveArea
    var Segments: SegmentRegisters
    var Integer: IntegerRegisters
    var Control: ControlRegisters
    var ExtendedRegisters: XmmSaveArea

    /** A record declared but not initialised: every field holds an
        arbitrary value. */
    constructor ()
    {
    }

    function View(): I386View
      reads this
    {
      I386View(ContextFlags, Debug, FloatSave, Segments, Integer, Control, ExtendedRegisters)
    }
  }

  /** An AMD64 CONTEXT record, grouped the same way. */
  class Amd64Context {
    var Control: Amd64Control
    var Integer: Amd64Integer
    var Segments: Amd64Segments
    var Debug: Amd64Debug
    var FltSave: XmmSaveArea

    function View(): Amd64View
      reads this
    {
      Amd64View(Control, Integer, Segments, Debug, FltSave)
    }
  }

  // ---------------------------------------------------------------------------
  // What each subset becomes

  /** CONTEXT_I386_INTEGER: the low halves of the general registers. */
  function IntegerOf(c: Amd64View): IntegerRegisters {
    IntegerRegisters(Low32(c.Integer.Rdi), Low32(c.Integer.Rsi), Low32(c.Integer.Rbx), Low32(c.Integer.Rdx), Low32(c.Integer.Rcx), Low32(c.Integer.Rax))
  }

  /** CONTEXT_I386_CONTROL: the low halves of the stack, frame and instruction
      pointers, the flags as they are, the code selector of the 64-bit
      context and the captured data selector as stack selector. */
  function ControlOf(c: Amd64View, sel: Selectors): ControlRegisters {
    ControlRegisters(Low32(c.Integer.Rbp), Low32(c.Control.Rip), Widen(c.Control.SegCs), c.Control.EFlags, Low32(c.Control.Rsp), Widen(sel.Ds64))
  }

  /** CONTEXT_I386_SEGMENTS: the captured data selector everywhere but FS,
      which gets the 32-bit TEB selector. */
  function SegmentsOf(sel: Selectors): SegmentRegisters {
    SegmentRegisters(Widen(sel.Ds64), Widen(sel.Fs32), Widen(sel.Ds64), Widen(sel.Ds64))
  }

  /** CONTEXT_I386_DEBUG_REGISTERS: the low halves of the debug registers. */
  function DebugOf(c: Amd64View): DebugRegisters {
    DebugRegisters(Low32(c.Debug.Dr0), Low32(c.Debug.Dr1), Low32(c.Debug.Dr2), Low32(c.Debug.Dr3), Low32(c.Debug.Dr6), Low32(c.Debug.Dr7))
  }

  /** The i386 context after the conversion, given what it held before. */
  function Converted(prior: I386View, flags: bv32, c: Amd64View, sel: Selectors): I386View {
    I386View(
      ContextFlags := flags,
      Debug := if Requested(flags, CONTEXT_I386_DEBUG_REGISTERS) then DebugOf(c) else prior.Debug,
      FloatSave := if Requested(flags, CONTEXT_I386_FLOATING_POINT) then LegacyFloatingSave(c.FltSave) else prior.FloatSave,
      Segments := if Requested(flags, CONTEXT_I386_SEGMENTS) then SegmentsOf(sel) else prior.Segments,
      Integer := if Requested(flags, CONTEXT_I386_INTEGER) then IntegerOf(c) else prior.Integer,
      Control := if Requested(flags, CONTEXT_I386_CONTROL) then ControlOf(c, sel) else prior.Control,
      ExtendedRegisters := if Requested(flags, CONTEXT_I386_EXTENDED_REGISTERS) then c.FltSave else prior.ExtendedRegisters)
  }

  /** The full conversion (CONTEXT_I386_ALL), which depends on nothing the
      i386 context held before. */
  function FullConversion(c: Amd64View, sel: Selectors): I386View {
    I386View(CONTEXT_I386_ALL, DebugOf(c), LegacyFloatingSave(c.FltSave), SegmentsOf(sel),
      IntegerOf(c), ControlOf(c, sel), c.FltSave)
  }

  // ---------------------------------------------------------------------------
  // The conversion, in place

  /** copy_context_64to32: overwrites the requested subsets of ctx32 from
      ctx64 and the captured selectors, and stores the mask. */
  method CopyContext64To32(ctx32: I386Context, flags: bv32, ctx64: Amd64Context, sel: Selectors)
    modifies ctx32
    ensures ctx32.View() == Converted(old(ctx32.View()), flags, ctx64.View(), sel)
  {
    ghost var c := ctx64.View();
    ghost var prior := old(ctx32.View());
    ctx32.ContextFlags := flags;
    var subsets := SubsetBits(flags);
    if Selects(subsets, CONTEXT_I386_INTEGER) {
      CopyIntegers(ctx32, ctx64);
    }
    assert ctx32.View() == prior.(ContextFlags := flags, Integer := Converted(prior, flags, c, sel).Integer);
    if Selects(subsets, CONTEXT_I386_CONTROL) {
      CopyControl(ctx32, ctx64, sel);
    }
    if Selects(subsets, CONTEXT_I386_SEGMENTS) {
      CopySegments(ctx32, sel);
    }
    assert ctx32.View() == prior.(ContextFlags := flags, Integer := Converted(prior, flags, c, sel).Integer,
      Control := Converted(prior, flags, c, sel).Control, Segments := Converted(prior, flags, c, sel).Segments);
    if Selects(subsets, CONTEXT_I386_DEBUG_REGISTERS) {
      CopyDebug(ctx32, ctx64);
    }
    assert ctx32.View() == Converted(prior, flags, c, sel).(FloatSave := prior.FloatSave,
      ExtendedRegisters := prior.ExtendedRegisters);
    if Selects(subsets, CONTEXT_I386_FLOATING_POINT) {
      ctx32.FloatSave := FpuxToFpu(ctx64.FltSave);
    }
    if Selects(subsets, CONTEXT_I386_EXTENDED_REGISTERS) {
      ctx32.ExtendedRegisters := ctx64.FltSave;
    }
  }

  /** The CONTEXT_I386_INTEGER block of copy_context_64to32 (cpu.c:120-128). */
  method CopyIntegers(ctx32: I386Context, ctx64: Amd64Context)
    modifies ctx32
    ensures ctx32.View() == old(ctx32.View()).(Integer := IntegerOf(ctx64.View()))
  {
    ctx32.Integer := ctx32.Integer.(Eax := Low32(ctx64.Integer.Rax));
    ctx32.Integer := ctx32.Integer.(Ebx := Low32(ctx64.Integer.Rbx));
    ctx32.Integer := ctx32.Integer.(Ecx := Low32(ctx64.Integer.Rcx));
    ctx32.Integer := ctx32.Integer.(Edx := Low32(ctx64.Integer.Rdx));
    ctx32.Integer := ctx32.Integer.(Esi := Low32(ctx64.Integer.Rsi));
    ctx32.Integer := ctx32.Integer.(Edi := Low32(ctx64.Integer.Rdi));
  }

  /** The CONTEXT_I386_CONTROL block (cpu.c:129-137). */
  method CopyControl(ctx32: I386Context, ctx64: Amd64Context, sel: Selectors)
    modifies ctx32
    ensures ctx32.View() == old(ctx32.View()).(Control := ControlOf(ctx64.View(), sel))
  {
    ctx32.Control := ctx32.Control.(Esp := Low32(ctx64.Control.Rsp));
    ctx32.Control := ctx32.Control.(Ebp := Low32(ctx64.Integer.Rbp));
    ctx32.Control := ctx32.Control.(Eip := Low32(ctx64.Control.Rip));
    ctx32.Control := ctx32.Control.(EFlags := ctx64.Control.EFlags);
    ctx32.Control := ctx32.Control.(SegCs := Widen(ctx64.Control.SegCs));
    ctx32.Control := ctx32.Control.(SegSs := Widen(sel.Ds64));
  }

  /** The CONTEXT_I386_SEGMENTS block (cpu.c:138-144). */
  method CopySegments(ctx32: I386Context, sel: Selectors)
    modifies ctx32
    ensures ctx32.View() == old(ctx32.View()).(Segments := SegmentsOf(sel))
  {
    ctx32.Segments := ctx32.Segments.(SegDs := Widen(sel.Ds64));
    ctx32.Segments := ctx32.Segments.(SegEs := Widen(sel.Ds64));
    ctx32.Segments := ctx32.Segments.(SegFs := Widen(sel.Fs32));
    ctx32.Segments := ctx32.Segments.(SegGs := Widen(sel.Ds64));
  }

  /** The CONTEXT_I386_DEBUG_REGISTERS block (cpu.c:145-153). */
  method CopyDebug(ctx32: I386Context, ctx64: Amd64Context)
    modifies ctx32
    ensures ctx32.View() == old(ctx32.View()).(Debug := DebugOf(ctx64.View()))
  {
    ctx32.Debug := ctx32.Debug.(Dr0 := Low32(ctx64.Debug.Dr0));
    ctx32.Debug := ctx32.Debug.(Dr1 := Low32(ctx64.Debug.Dr1));
    ctx32.Debug := ctx32.Debug.(Dr2 := Low32(ctx64.Debug.Dr2));
    ctx32.Debug := ctx32.Debug.(Dr3 := Low32(ctx64.Debug.Dr3));
    ctx32.Debug := ctx32.Debug.(Dr6 := Low32(ctx64.Debug.Dr6));
    ctx32.Debug := ctx32.Debug.(Dr7 := Low32(ctx64.Debug.Dr7));
  }

  // ---------------------------------------------------------------------------
  // Properties of the conversion

  /** The stored mask is the caller's, architecture bit included, and every
      subset the mask does not request keeps what the i386 context held. */
  lemma UnrequestedUntouched(prior: I386View, flags: bv32, c: Amd64View, sel: Selectors)
    ensures var r := Converted(prior, flags, c, sel);
      && r.ContextFlags == flags
      && (!Requested(flags, CONTEXT_I386_INTEGER) ==> r.Integer == prior.Integer)
      && (!Requested(flags, CONTEXT_I386_CONTROL) ==> r.Control == prior.Control)
      && (!Requested(flags, CONTEXT_I386_SEGMENTS) ==> r.Segments == prior.Segments)
      && (!Requested(flags, CONTEXT_I386_DEBUG_REGISTERS) ==> r.Debug == prior.Debug)
      && (!Requested(flags, CONTEXT_I386_FLOATING_POINT) ==> r.FloatSave == prior.FloatSave)
      && (!Requested(flags, CONTEXT_I386_EXTENDED_REGISTERS) ==> r.ExtendedRegisters == prior.ExtendedRegisters)
  {
  }

  /** A mask that holds only the architecture bit changes nothing but the
      stored mask. */
  lemma ArchitectureBitAlone(prior: I386View, c: Amd64View, sel: Selectors)
    ensures Converted(prior, CONTEXT_i386, c, sel) == prior.(ContextFlags := CONTEXT_i386)
  {
    RequestedExtremes(CONTEXT_I386_CONTROL);
    RequestedExtremes(CONTEXT_I386_INTEGER);
    RequestedExtremes(CONTEXT_I386_SEGMENTS);
    RequestedExtremes(CONTEXT_I386_FLOATING_POINT);
    RequestedExtremes(CONTEXT_I386_DEBUG_REGISTERS);
    RequestedExtremes(CONTEXT_I386_EXTENDED_REGISTERS);
  }

  /** With CONTEXT_I386_ALL the result is the full conversion, whatever the
      i386 context held before. */
  lemma AllIgnoresPrior(prior: I386View, c: Amd64View, sel: Selectors)
    ensures Converted(prior, CONTEXT_I386_ALL, c, sel) == FullConversion(c, sel)
  {
    RequestedExtremes(CONTEXT_I386_CONTROL);
    RequestedExtremes(CONTEXT_I386_INTEGER);
    RequestedExtremes(CONTEXT_I386_SEGMENTS);
    RequestedExtremes(CONTEXT_I386_FLOATING_POINT);
    RequestedExtremes(CONTEXT_I386_DEBUG_REGISTERS);
    RequestedExtremes(CONTEXT_I386_EXTENDED_REGISTERS);
  }

  /** Converting twice with the same mask and source is converting once. */
  lemma ConvertIdempotent(prior: I386View, flags: bv32, c: Amd64View, sel: Selectors)
    ensures Converted(Converted(prior, flags, c, sel), flags, c, sel) == Converted(prior, flags, c, sel)
  {
  }

  /** The segment selectors of the result, SegSs included, come from the
      captured selectors only: two 64-bit contexts that differ anywhere,
      segment registers included, give the same ones. */
  lemma SegmentsFromCapturedSelectors(prior: I386View, flags: bv32, c1: Amd64View, c2: Amd64View, sel: Selectors)
    ensures Converted(prior, flags, c1, sel).Segments == Converted(prior, flags, c2, sel).Segments
    ensures Converted(prior, flags, c1, sel).Control.SegSs == Converted(prior, flags, c2, sel).Control.SegSs
    ensures Requested(flags, CONTEXT_I386_SEGMENTS) ==>
      var s := Converted(prior, flags, c1, sel).Segments;
      s.SegDs == s.SegEs == s.SegGs == Widen(sel.Ds64) && s.SegFs == Widen(sel.Fs32)
  {
  }

  /** Every narrowed general register keeps exactly the low 32 bits of its
      64-bit counterpart. */
  lemma IntegerKeepsLowHalves(c: Amd64View)
    ensures var r := IntegerOf(c);
      && ZeroExtend(r.Eax) == c.Integer.Rax & 0xffff_ffff && ZeroExtend(r.Ebx) == c.Integer.Rbx & 0xffff_ffff
      && ZeroExtend(r.Ecx) == c.Integer.Rcx & 0xffff_ffff && ZeroExtend(r.Edx) == c.Integer.Rdx & 0xffff_ffff
      && ZeroExtend(r.Esi) == c.Integer.Rsi & 0xffff_ffff && ZeroExtend(r.Edi) == c.Integer.Rdi & 0xffff_ffff
  {
    Low32Split(c.Integer.Rax); Low32Split(c.Integer.Rbx); Low32Split(c.Integer.Rcx);
    Low32Split(c.Integer.Rdx); Low32Split(c.Integer.Rsi); Low32Split(c.Integer.Rdi);
  }

  /** The control subset keeps the low halves of the pointers, the flags
      and the 64-bit context's code selector; the stack selector is the
      captured data selector. */
  lemma ControlKeepsLowHalves(c: Amd64View, sel: Selectors)
    ensures var r := ControlOf(c, sel);
      && ZeroExtend(r.Esp) == c.Control.Rsp & 0xffff_ffff && ZeroExtend(r.Ebp) == c.Integer.Rbp & 0xffff_ffff
      && ZeroExtend(r.Eip) == c.Control.Rip & 0xffff_ffff
      && r.EFlags == c.Control.EFlags && LowWord(r.SegCs) == Widen(c.Control.SegCs) && HighWord(r.SegCs) == 0
      && r.SegSs == Widen(sel.Ds64)
  {
    Low32Split(c.Control.Rsp); Low32Split(c.Integer.Rbp); Low32Split(c.Control.Rip);
    JoinWordsSplit(c.Control.SegCs, 0);
  }

  /** Every narrowed debug register keeps exactly its low 32 bits. */
  lemma DebugKeepsLowHalves(c: Amd64View)
    ensures var r := DebugOf(c);
      && ZeroExtend(r.Dr0) == c.Debug.Dr0 & 0xffff_ffff && ZeroExtend(r.Dr1) == c.Debug.Dr1 & 0xffff_ffff
      && ZeroExtend(r.Dr2) == c.Debug.Dr2 & 0xffff_ffff && ZeroExtend(r.Dr3) == c.Debug.Dr3 & 0xffff_ffff
      && ZeroExtend(r.Dr6) == c.Debug.Dr6 & 0xffff_ffff && ZeroExtend(r.Dr7) == c.Debug.Dr7 & 0xffff_ffff
  {
    Low32Split(c.Debug.Dr0); Low32Split(c.Debug.Dr1); Low32Split(c.Debug.Dr2);
    Low32Split(c.Debug.Dr3); Low32Split(c.Debug.Dr6); Low32Split(c.Debug.Dr7);
  }

  /** The floating-point subsets: the legacy area is rebuilt from the FXSAVE
      image (its copied fields as the x87 model states them), and the
      extended registers receive the FXSAVE image itself. */
  lemma FloatingPointFromFxsave(prior: I386View, flags: bv32, c: Amd64View, sel: Selectors)
    ensures var r := Converted(prior, flags, c, sel);
      && (Requested(flags, CONTEXT_I386_FLOATING_POINT) ==>
        && r.FloatSave == LegacyFloatingSave(c.FltSave)
        && r.FloatSave.ControlWord == Widen(c.FltSave.ControlWord)
        && r.FloatSave.StatusWord == Widen(c.FltSave.StatusWord)
        && r.FloatSave.ErrorOffset == c.FltSave.ErrorOffset
        && r.FloatSave.DataOffset == c.FltSave.DataOffset
        && r.FloatSave.DataSelector == Widen(c.FltSave.DataSelector))
      && (Requested(flags, CONTEXT_I386_EXTENDED_REGISTERS) ==> r.ExtendedRegisters == c.FltSave)
  {
    LegacyCopiedFields(c.FltSave);
  }
}
