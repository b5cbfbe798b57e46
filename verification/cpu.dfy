/** The exported entry points of the WoW64 CPU backend that are plain logic
    (dlls/wow64cpu/cpu.c): process initialisation, which captures the 64-bit
    selectors and writes the 32-to-64-bit thunk into the code buffer; the
    BOP code query; the reset of a thread to a consistent state after an
    exception; and the turbo-thunk switch.

    The process-wide statics (code_buffer, cs64_sel, ds64_sel, fs32_sel,
    cpu.c:53-57) and the address of syscall_32to64 are the fields of one
    Wow64Cpu object. */
module Wow64Cpu {
  import opened Bytes
  import opened Context
  import opened Thunk

  const STATUS_SUCCESS: bv32 := 0
  const STATUS_NOT_SUPPORTED: bv32 := 0xC000_00BB
  const STATUS_INVALID_ADDRESS: bv32 := 0xC000_0141

  /** sizeof(code_buffer), one page. */
  const CODE_BUFFER_SIZE := 0x1000

  /** TLS_MINIMUM_AVAILABLE, the number of TLS slots in a TEB. */
  const TLS_SLOTS := 64

  /** The slot holding the 64-bit stack pointer of a thread running 32-bit
      code (WOW64_TLS_WINEHYBRID_RESERVED_R14). */
  const TLS_RESERVED_R14 := 2

  type TlsSlotArray = s: seq<bv64> | |s| == TLS_SLOTS witness seq(TLS_SLOTS, _ => 0)

  // ---------------------------------------------------------------------------
  // BTCpuTurboThunkControl

  /** Turbo thunks are not implemented: asking for them fails, turning them
      off succeeds. */
  function TurboThunkControl(enable: bv32): (status: bv32)
    ensures status == STATUS_NOT_SUPPORTED <==> enable != 0
    ensures status == STATUS_SUCCESS <==> enable == 0
  {
    if enable != 0 then STATUS_NOT_SUPPORTED else STATUS_SUCCESS
  }

  // ---------------------------------------------------------------------------
  // The reset

  /** EFlags with the trap flag (bit 8, single-step) and the alignment-check
      flag (bit 18) cleared: `EFlags &= ~(0x100|0x40000)`. */
  function ClearTrapAndAlignment(eflags: bv32): bv32 { eflags & !(0x100 | 0x40000) }

  /** The cleared value has neither flag and agrees with the input on every
      other bit; clearing twice is clearing once. */
  lemma ClearTrapAndAlignmentBits(eflags: bv32)
    ensures ClearTrapAndAlignment(eflags) & 0x40100 == 0
    ensures ClearTrapAndAlignment(eflags) | (eflags & 0x40100) == eflags
  {
  }

  lemma ClearTrapAndAlignmentIdempotent(eflags: bv32)
    ensures ClearTrapAndAlignment(ClearTrapAndAlignment(eflags)) == ClearTrapAndAlignment(eflags)
  {
  }

  /** The 32-bit context the reset commits for the thread: the full
      conversion of the 64-bit frame, without single-stepping or alignment
      checking. */
  function ConsistentGuestContext(c: Amd64View, sel: Selectors): I386View {
    WithoutTrapAndAlignment(FullConversion(c, sel))
  }

  /** An i386 record with TF and AC cleared in its flags. */
  function WithoutTrapAndAlignment(v: I386View): I386View {
    v.(Control := v.Control.(EFlags := ClearTrapAndAlignment(v.Control.EFlags)))
  }

  /** The 64-bit frame after the reset: as if the thread had just entered
      64-bit mode through the thunk, at syscall_32to64 in the 64-bit code
      segment on its saved 64-bit stack. */
  function ResumeFrame(c: Amd64View, rip: bv64, cs: bv16, rsp: bv64): Amd64View {
    c.(Control := c.Control.(Rip := rip, SegCs := cs, Rsp := rsp))
  }

  /** What the committed context holds: the full mask, the converted
      registers of every subset, and the 64-bit flags less TF and AC (see
      ClearTrapAndAlignmentBits). */
  lemma ConsistentGuestContextMeaning(c: Amd64View, sel: Selectors)
    ensures var r := ConsistentGuestContext(c, sel);
      && r.ContextFlags == CONTEXT_I386_ALL
      && r.Integer == IntegerOf(c) && r.Segments == SegmentsOf(sel) && r.Debug == DebugOf(c)
      && r.FloatSave == X87.LegacyFloatingSave(c.FltSave) && r.ExtendedRegisters == c.FltSave
      && r.Control == ControlOf(c, sel).(EFlags := ClearTrapAndAlignment(c.Control.EFlags))
  {
  }

  /** The committed context is the CONTEXT_I386_ALL conversion of whatever
      the uninitialised i386 record held, with TF and AC cleared. */
  lemma ConsistentGuestContextIgnoresPrior(prior: I386View, c: Amd64View, sel: Selectors)
    ensures ConsistentGuestContext(c, sel) == WithoutTrapAndAlignment(Converted(prior, CONTEXT_I386_ALL, c, sel))
  {
    AllIgnoresPrior(prior, c, sel);
  }

  /** The reset leaves the 64-bit frame alone but for the instruction
      pointer, code selector and stack pointer. */
  lemma ResumeFrameMeaning(c: Amd64View, rip: bv64, cs: bv16, rsp: bv64)
    ensures var r := ResumeFrame(c, rip, cs, rsp);
      && r.Control.Rip == rip && r.Control.SegCs == cs && r.Control.Rsp == rsp
      && r.Control.EFlags == c.Control.EFlags && r.Control.SegSs == c.Control.SegSs
      && r.Integer == c.Integer && r.Segments == c.Segments && r.Debug == c.Debug && r.FltSave == c.FltSave
  {
  }

  /** A thread as the reset sees it: the TLS slots of its 64-bit TEB, and its
      32-bit context as held by the host (ThreadWow64Context). */
  class GuestThread {
    var TlsSlots: TlsSlotArray
    var Wow64Context: I386View
  }

  /** BTCpuSetContext: the host takes the record as the thread's 32-bit
      context. */
  method SetContext(thread: GuestThread, ctx: I386Context)
    modifies thread
    ensures thread.Wow64Context == ctx.View()
    ensures thread.TlsSlots == old(thread.TlsSlots)
  {
    thread.Wow64Context := ctx.View();
  }

  /** copy_context_64to32 with CONTEXT_I386_ALL into a fresh, uninitialised
      i386 record: every subset is converted, so nothing of the record's prior
      contents survives. */
  method ConvertWhole(context: Amd64Context, sel: Selectors) returns (wowContext: I386Context)
    ensures fresh(wowContext)
    ensures wowContext.View() == FullConversion(context.View(), sel)
  {
    wowContext := new I386Context();
    ghost var blank := wowContext.View();
    CopyContext64To32(wowContext, CONTEXT_I386_ALL, context, sel);
    AllIgnoresPrior(blank, context.View(), sel);
  }

  /** Clears the trap flag (bit 8) and the alignment-check flag (bit 18) in
      the record's EFlags; nothing else in the record changes. */
  method ClearTrapAndAlignmentIn(ctx: I386Context)
    modifies ctx
    ensures ctx.View() == WithoutTrapAndAlignment(old(ctx.View()))
  {
    ctx.Control := ctx.Control.(EFlags := ClearTrapAndAlignment(ctx.Control.EFlags));
  }

  /** The first half of BTCpuResetToConsistentState (cpu.c:349-351): the
      frame converted in full into an uninitialised i386 record, TF and AC
      cleared, and the record committed for the thread. */
  method CommitConsistentContext(context: Amd64Context, thread: GuestThread, sel: Selectors)
    modifies thread
    ensures thread.Wow64Context == ConsistentGuestContext(context.View(), sel)
    ensures thread.TlsSlots == old(thread.TlsSlots)
  {
    var wowContext := ConvertWhole(context, sel);
    ClearTrapAndAlignmentIn(wowContext);
    SetContext(thread, wowContext);
  }

  /** The second half of BTCpuResetToConsistentState (cpu.c:354-356): the
      frame's instruction pointer, code selector and stack pointer are
      overwritten, in that order. */
  method RedirectFrame(context: Amd64Context, rip: bv64, cs: bv16, rsp: bv64)
    modifies context
    ensures context.View() == ResumeFrame(old(context.View()), rip, cs, rsp)
  {
    context.Control := context.Control.(Rip := rip);
    context.Control := context.Control.(SegCs := cs);
    context.Control := context.Control.(Rsp := rsp);
  }

  // ---------------------------------------------------------------------------
  // The process-wide state

  class Wow64Cpu {
    /** The address of syscall_32to64, the 64-bit entry the thunk jumps to. */
    const Syscall32To64: bv64
    /** The address of code_buffer, page aligned. */
    const CodeBufferBase: bv64
    /** code_buffer itself. */
    const CodeBuffer: array<bv8>
    var Cs64Sel: bv16
    var Ds64Sel: bv16
    var Fs32Sel: bv16

    /** The buffer is one page, and nothing but the thunk is ever written to
        it: past the thunk it stays zero, as the static was initialised. */
    ghost predicate Valid()
      reads this, CodeBuffer
    {
      && CodeBuffer.Length == CODE_BUFFER_SIZE
      && forall k :: THUNK_SIZE <= k < CODE_BUFFER_SIZE ==> CodeBuffer[k] == 0
    }

    function Selectors(): Selectors
      reads this
    {
      Context.Selectors(Cs64Sel, Ds64Sel, Fs32Sel)
    }

    /** The statics at load time: a zeroed buffer and zero selectors. */
    constructor (syscall32To64: bv64, codeBufferBase: bv64)
      requires codeBufferBase & 0xfff == 0
      ensures Valid()
      ensures Syscall32To64 == syscall32To64 && CodeBufferBase == codeBufferBase
      ensures forall k :: 0 <= k < CODE_BUFFER_SIZE ==> CodeBuffer[k] == 0
      ensures Selectors() == Context.Selectors(0, 0, 0)
    {
      Syscall32To64 := syscall32To64;
      CodeBufferBase := codeBufferBase;
      CodeBuffer := new bv8[CODE_BUFFER_SIZE](_ => 0);
      Cs64Sel, Ds64Sel, Fs32Sel := 0, 0, 0;
    }

    /** BTCpuGetBopCode: the address 32-bit code calls to enter 64-bit mode. */
    function GetBopCode(): (code: bv64)
      reads this
      ensures code == CodeBufferBase
    {
      CodeBufferBase
    }

    /** BTCpuProcessInit. captured is what RtlCaptureContext returns on the
        64-bit side. If syscall_32to64 lies above 4 GiB the thunk could not
        reach it and nothing is written; otherwise the selectors are captured
        and the thunk is written field by field at the start of the buffer. */
    method ProcessInit(captured: Amd64View) returns (status: bv32)
      requires Valid()
      modifies this, CodeBuffer
      ensures Valid()
      ensures status == STATUS_SUCCESS || status == STATUS_INVALID_ADDRESS
      ensures status == STATUS_INVALID_ADDRESS <==> Syscall32To64 >> 32 != 0
      ensures status == STATUS_INVALID_ADDRESS ==>
        Selectors() == old(Selectors()) && CodeBuffer[..] == old(CodeBuffer[..])
      ensures status == STATUS_SUCCESS ==>
        && Selectors() == Context.Selectors(captured.Control.SegCs, captured.Segments.SegDs, captured.Segments.SegFs)
        && CodeBuffer[..THUNK_SIZE] == Serialize(BuildThunk(GetBopCode(), Cs64Sel, Syscall32To64))
        && JumpTarget(CodeBuffer[..THUNK_SIZE + 4]) == Syscall32To64
    {
      if Syscall32To64 >> 32 != 0 {
        return STATUS_INVALID_ADDRESS;
      }
      Cs64Sel := captured.Control.SegCs;
      Ds64Sel := captured.Segments.SegDs;
      Fs32Sel := captured.Segments.SegFs;

      WriteThunk(CodeBuffer, CodeBufferBase, Cs64Sel, Syscall32To64);
      ghost var t := BuildThunk(CodeBufferBase, Cs64Sel, Syscall32To64);
      ThunkFollowedByZeros(CodeBuffer[..], t);
      JumpTargetExact(t, Syscall32To64);
      status := STATUS_SUCCESS;
    }

    /** BTCpuResetToConsistentState: converts the whole 64-bit frame into a
        fresh i386 record, clears TF and AC in it, commits it as the thread's
        32-bit context, and rewrites the frame so that it resumes in 64-bit
        mode at syscall_32to64. */
    method ResetToConsistentState(context: Amd64Context, thread: GuestThread) returns (status: bv32)
      modifies context, thread
      ensures status == STATUS_SUCCESS
      ensures thread.Wow64Context == ConsistentGuestContext(old(context.View()), Selectors())
      ensures thread.TlsSlots == old(thread.TlsSlots)
      ensures context.View() == ResumeFrame(old(context.View()), Syscall32To64, Cs64Sel,
        old(thread.TlsSlots[TLS_RESERVED_R14]))
    {
      CommitConsistentContext(context, thread, Selectors());
      RedirectFrame(context, Syscall32To64, Cs64Sel, thread.TlsSlots[TLS_RESERVED_R14]);
      status := STATUS_SUCCESS;
    }
  }

  // ---------------------------------------------------------------------------
  // Writing into the buffer

  /** The field stores of BTCpuProcessInit, in the source's order, into the
      buffer at base: the thunk for code selector cs and jump target target. */
  method WriteThunk(buffer: array<bv8>, base: bv64, cs: bv16, target: bv64)
    requires buffer.Length == CODE_BUFFER_SIZE
    modifies buffer
    ensures buffer[..THUNK_SIZE] == Serialize(BuildThunk(base, cs, target))
    ensures forall k :: THUNK_SIZE <= k < CODE_BUFFER_SIZE ==> buffer[k] == old(buffer[k])
  {
    ghost var t := BuildThunk(base, cs, target);
    WriteFarCall(buffer, base, cs);
    ghost var call := buffer[..CS_END];
    WriteJump(buffer, target, call);
    FieldOrder(t);
  }

  /** End of the cs field: the far call and its operand occupy bytes 0 .. 12. */
  const CS_END := 12

  /** The stores of lcall, modrm, op, lcall_addr and cs. */
  method WriteFarCall(buffer: array<bv8>, base: bv64, cs: bv16)
    requires buffer.Length == CODE_BUFFER_SIZE
    modifies buffer
    ensures buffer[..CS_END] == [0xff, 0x1d] + Le32(Low32(base + LCALL_ADDR_OFFSET))
      + Le32(Low32(base + ADD_OFFSET)) + Le16(cs)
    ensures forall k :: CS_END <= k < CODE_BUFFER_SIZE ==> buffer[k] == old(buffer[k])
  {
    ghost var image: seq<bv8> := [];
    StoreAt(buffer, 0, [0xff], image);                            // lcall
    image := image + [0xff];
    StoreAt(buffer, 1, [0x1d], image);                            // modrm
    image := image + [0x1d];
    StoreAt(buffer, 2, Le32(Low32(base + LCALL_ADDR_OFFSET)), image);  // op
    image := image + Le32(Low32(base + LCALL_ADDR_OFFSET));
    StoreAt(buffer, 6, Le32(Low32(base + ADD_OFFSET)), image);    // lcall_addr
    image := image + Le32(Low32(base + ADD_OFFSET));
    StoreAt(buffer, 10, Le16(cs), image);                         // cs
    RegroupFarCall(0xff, 0x1d, Le32(Low32(base + LCALL_ADDR_OFFSET)), Le32(Low32(base + ADD_OFFSET)), Le16(cs));
  }

  /** The stores of add, add_modrm, add_op, jmp, jmp_modrm, jmp_op and
      jmp_addr, behind the far call already in the buffer. */
  method WriteJump(buffer: array<bv8>, target: bv64, ghost call: seq<bv8>)
    requires buffer.Length == CODE_BUFFER_SIZE
    requires |call| == CS_END && buffer[..CS_END] == call
    modifies buffer
    ensures buffer[..THUNK_SIZE] == call + [0x83, 0xc4, 0x08, 0xff, 0x25] + Le32(0) + Le32(Low32(target))
    ensures forall k :: THUNK_SIZE <= k < CODE_BUFFER_SIZE ==> buffer[k] == old(buffer[k])
  {
    ghost var image := call;
    StoreAt(buffer, 12, [0x83], image);                           // add
    image := image + [0x83];
    StoreAt(buffer, 13, [0xc4], image);                           // add_modrm
    image := image + [0xc4];
    StoreAt(buffer, 14, [0x08], image);                           // add_op
    image := image + [0x08];
    StoreAt(buffer, 15, [0xff], image);                           // jmp
    image := image + [0xff];
    StoreAt(buffer, 16, [0x25], image);                           // jmp_modrm
    image := image + [0x25];
    StoreAt(buffer, 17, Le32(0), image);                          // jmp_op
    image := image + Le32(0);
    StoreAt(buffer, 21, Le32(Low32(target)), image);              // jmp_addr
    RegroupJump(call, 0x83, 0xc4, 0x08, 0xff, 0x25, Le32(0), Le32(Low32(target)));
  }

  /** A C store of a field at offset: the bytes land at offset .. offset+|bytes|,
      the rest of the array is unchanged. written is what the earlier
      stores left in front of offset. */
  method StoreAt<T>(a: array<T>, offset: nat, bytes: seq<T>, ghost written: seq<T>)
    requires offset + |bytes| <= a.Length
    requires |written| == offset && a[..offset] == written
    modifies a
    ensures a[..offset + |bytes|] == written + bytes
    ensures forall k :: offset + |bytes| <= k < a.Length ==> a[k] == old(a[k])
  {
    var i := 0;
    while i < |bytes|
      invariant 0 <= i <= |bytes|
      invariant a[..offset + i] == written + bytes[..i]
      invariant forall k :: offset + i <= k < a.Length ==> a[k] == old(a[k])
    {
      a[offset + i] := bytes[i];
      assert a[..offset + i + 1] == a[..offset + i] + [bytes[i]];
      assert bytes[..i + 1] == bytes[..i] + [bytes[i]];
      i := i + 1;
    }
    assert bytes[..|bytes|] == bytes;
  }

  /** The far-call half followed by the jump half is the packed image. */
  lemma FieldOrder(t: Thunk32To64)
    ensures ([t.Lcall, t.Modrm] + Le32(t.Op) + Le32(t.LcallAddr) + Le16(t.Cs))
      + [t.Add, t.AddModrm, t.AddOp, t.Jmp, t.JmpModrm] + Le32(t.JmpOp) + Le32(t.JmpAddr)
      == Serialize(t)
  {
  }

  /** Single-byte stores one after another lay down the bytes as one run. */
  lemma RegroupFarCall<T>(a: T, b: T, p: seq<T>, q: seq<T>, r: seq<T>)
    ensures [] + [a] + [b] + p + q + r == [a, b] + p + q + r
  {
  }

  lemma RegroupJump<T>(call: seq<T>, c: T, d: T, e: T, f: T, g: T, u: seq<T>, v: seq<T>)
    ensures call + [c] + [d] + [e] + [f] + [g] + u + v == call + [c, d, e, f, g] + u + v
  {
  }

  /** A buffer that starts with the thunk and is zero after it holds the
      thunk followed by four zero bytes in its first 29 bytes. */
  lemma ThunkFollowedByZeros(buffer: seq<bv8>, t: Thunk32To64)
    requires |buffer| == CODE_BUFFER_SIZE && buffer[..THUNK_SIZE] == Serialize(t)
    requires forall k :: THUNK_SIZE <= k < CODE_BUFFER_SIZE ==> buffer[k] == 0
    ensures buffer[..THUNK_SIZE + 4] == Serialize(t) + [0, 0, 0, 0]
  {
    assert buffer[..THUNK_SIZE + 4] == buffer[..THUNK_SIZE] + buffer[THUNK_SIZE..THUNK_SIZE + 4];
  }
}
