# WoW64 CPU backend (x86-64 host) — a Dafny model

`dlls/wow64cpu/cpu.c` is the CPU backend Wine's WoW64 layer uses to run
32-bit x86 code in a 64-bit process on an x86-64 host. Apart from its
hand-written assembly, it does three things, and this project models all of
them:

- **Context conversion.** `copy_context_64to32` turns the AMD64 `CONTEXT`
  of a thread stopped in 32-bit mode into the `I386_CONTEXT` the 32-bit side
  expects, one register subset at a time as a `CONTEXT_I386_*` mask selects.
  `fpux_to_fpu` rebuilds the legacy x87 save area, including its 2-bit tag
  word, from the FXSAVE image.
- **Reset to a consistent state.** `BTCpuResetToConsistentState` commits the
  fully converted context, with TF and AC cleared, as the thread's 32-bit
  context. It then rewrites the 64-bit frame so that it resumes at
  `syscall_32to64`.
- **Process initialisation.** `BTCpuProcessInit` refuses to run when
  `syscall_32to64` lies above 4 GiB. Otherwise it captures the 64-bit
  selectors and writes the packed 25-byte 32-to-64-bit thunk into the
  page-aligned code buffer. `BTCpuGetBopCode` returns that buffer, and
  `BTCpuTurboThunkControl` reports that turbo thunks are not supported.

Files:

- `bytes.dfy` (module `Bytes`): little-endian encodings, 16/32-bit word
  packing, and 64-to-32-bit narrowing.
- `x87.dfy` (module `X87`): the FXSAVE image, the legacy save area, the
  classification of 80-bit registers, and `fpux_to_fpu` as a loop over the
  eight registers.
- `context.dfy` (module `Context`): the two context records, as classes
  whose fields are updated in place, and the subset-by-subset conversion.
- `thunk.dfy` (module `Thunk`): the packed layout of `struct thunk_32to64`,
  its serialisation and what the bytes written by process initialisation
  contain.
- `cpu.dfy` (module `Wow64Cpu`): the process-wide state (code buffer,
  captured selectors, address of `syscall_32to64`) as a class, together with
  initialisation, the reset, the BOP code and the turbo-thunk switch.

Registers are bit-vectors of their C width. A 64-bit value stored into a
32-bit field is narrowed explicitly (`Low32`), and a 16-bit selector stored
into a 32-bit field is zero-extended (`Widen`). The `CONTEXT_I386_*`
constants are the winnt.h values: each subset constant carries the
architecture bit `0x10000`.

## Model

| member | source | states |
|---|---|---|
| Bytes.Le16RoundTrip | dlls/wow64cpu/cpu.c:33-51 | A 16-bit field stored little-endian in the packed struct reads back as the same value |
| Bytes.Le32RoundTrip | dlls/wow64cpu/cpu.c:33-51 | A 32-bit field stored little-endian reads back as the same value |
| Bytes.Le64RoundTrip | dlls/wow64cpu/cpu.c:86 | The 8 significand bytes of a register image read back as the significand |
| Bytes.FromLe16Inverse | dlls/wow64cpu/cpu.c:33-51 | Any 2 bytes are the encoding of the value they decode to |
| Bytes.FromLe32Inverse | dlls/wow64cpu/cpu.c:33-51 | Any 4 bytes are the encoding of the value they decode to |
| Bytes.FromLe64Inverse | dlls/wow64cpu/cpu.c:86 | Any 8 bytes are the encoding of the value they decode to |
| Bytes.JoinWordsSplit | dlls/wow64cpu/cpu.c:77-80 | Packing two 16-bit words into a DWORD puts the first in the low half and the second in the high half |
| Bytes.Low32Split | dlls/wow64cpu/cpu.c:122-133 | Narrowing a 64-bit register keeps exactly its low 32 bits; with the high half put back, the original is recovered |
| Bytes.Low32Exact | dlls/wow64cpu/cpu.c:277-281 | Narrowing to 32 bits loses nothing exactly when no bit at or above bit 32 is set |
| X87.ClassifyRegister | dlls/wow64cpu/cpu.c:90-104 | The tag of a non-empty register is never "empty" (it is valid, zero or special) |
| X87.ClassifyRegisterMatchesEncoding | dlls/wow64cpu/cpu.c:91-104 | The exponent-first decision gives "valid" exactly for a normal number, "zero" exactly for a true zero, and "special" for every other 80-bit encoding (denormal, pseudo-denormal, unnormal, infinity, NaN, pseudo-infinity, pseudo-NaN) |
| X87.StackTop | dlls/wow64cpu/cpu.c:82 | TOP lies in 0..7 |
| X87.StackTopBits | dlls/wow64cpu/cpu.c:82 | TOP is exactly bits 11..13 of the status word |
| X87.StackIndex | dlls/wow64cpu/cpu.c:90 | The rotated register index lies in 0..7 |
| X87.StackIndexRotates | dlls/wow64cpu/cpu.c:90 | ST((i - TOP) & 7) is physical register i: counting that many places from TOP lands on i |
| X87.RegisterTag | dlls/wow64cpu/cpu.c:87-105 | Every register's tag fits its 2-bit field |
| X87.RegisterTagEmpty | dlls/wow64cpu/cpu.c:87 | A register's tag is "empty" if and only if bit i of the abridged tag is clear |
| X87.TagWordAfterStep | dlls/wow64cpu/cpu.c:84-107 | Each loop iteration ors the next register's tag into its own field |
| X87.TagStep | dlls/wow64cpu/cpu.c:106 | One iteration sets exactly field i and keeps the fields already set, the clear fields above and the all-ones upper half |
| X87.TagWordAfterFields | dlls/wow64cpu/cpu.c:83-107 | After n iterations the upper half is 0xffff, fields 0..n-1 hold the registers' tags and the other low bits are clear (by induction on n) |
| X87.TagWordOfFields | dlls/wow64cpu/cpu.c:83-107 | The finished tag word has the upper half 0xffff and holds each physical register's tag in field i |
| X87.FieldsDetermineWord | dlls/wow64cpu/cpu.c:106 | A tag word is fixed by its upper half and its eight 2-bit fields |
| X87.SetTagField | dlls/wow64cpu/cpu.c:106 | Or-ing a tag of at most 3 into the next clear field changes that field only |
| X87.RegisterBytes | dlls/wow64cpu/cpu.c:86 | A register image is 10 bytes long |
| X87.RegisterBytesDecode | dlls/wow64cpu/cpu.c:86 | The 10 copied bytes decode to the significand and the sign/exponent word; only the unused upper bytes of the slot are dropped |
| X87.RegisterAreaOf | dlls/wow64cpu/cpu.c:84-86 | The register area is 10 bytes per register |
| X87.RegisterAreaSlot | dlls/wow64cpu/cpu.c:86 | Bytes 10i..10i+9 of the register area are the image of FloatRegisters[i], the logical index and not the rotated one (by induction) |
| X87.RegisterAreaStep | dlls/wow64cpu/cpu.c:84-86 | Each iteration appends the next register's image to the area |
| X87.LegacyCopiedFields | dlls/wow64cpu/cpu.c:74-80 | ControlWord, StatusWord, ErrorOffset, DataOffset and DataSelector are copied (widened); ErrorSelector holds the selector in its low half and the last opcode in its high half; Cr0NpxState holds the status word under 0xffff |
| X87.LegacyRegisterImage | dlls/wow64cpu/cpu.c:86 | Bytes 10i..10i+9 of the legacy area decode to ST(i)'s significand and sign/exponent word |
| X87.LegacyTagWordEmpty | dlls/wow64cpu/cpu.c:83-87 | The tag word's upper half is 0xffff, and field i is "empty" if and only if abridged bit i is clear |
| X87.LegacyTagWordClassified | dlls/wow64cpu/cpu.c:87-106 | For a register marked in use, field i is the tag of the encoding held in FloatRegisters[(i - TOP) & 7] |
| X87.ClassifySameFields | dlls/wow64cpu/cpu.c:91-104 | The tag depends only on the significand and the exponent bits |
| X87.ExponentLow16 | dlls/wow64cpu/cpu.c:91 | The 15 exponent bits lie within the low 16 bits of the word |
| X87.ClassifyLow10 | dlls/wow64cpu/cpu.c:86-104 | A register and its 10-byte copy are classified alike: the copy keeps everything the classification reads |
| X87.LegacyStackTop | dlls/wow64cpu/cpu.c:82 | TOP read from the legacy area's status word lies in 0..7 |
| X87.LegacyStackTopAgrees | dlls/wow64cpu/cpu.c:75-82 | The legacy status word yields the same TOP as the FXSAVE one |
| X87.LegacyTagFieldOfSlot | dlls/wow64cpu/cpu.c:87-106 | For a register marked in use, tag field i is the classification of FloatRegisters[(i - TOP) & 7] |
| X87.LegacyImageClassified | dlls/wow64cpu/cpu.c:86-104 | The image the legacy area holds for ST(j) is classified exactly as ST(j) is |
| X87.LegacyTagWordFromOutput | dlls/wow64cpu/cpu.c:75-106 | The legacy area is self-consistent: for a register marked in use, tag field i is the classification of the register image the area itself holds at slot (i - TOP) & 7, with TOP read from the area's own status word |
| X87.AllEmptyTagWord | dlls/wow64cpu/cpu.c:83-106 | An all-zero abridged tag gives the tag word 0xffffffff |
| X87.ComputeTag | dlls/wow64cpu/cpu.c:87-105 | The loop body's branches compute RegisterTag for register i |
| X87.FpuxToFpu | dlls/wow64cpu/cpu.c:70-108 | The loop over the eight registers yields exactly LegacyFloatingSave, whose fields, register images and tag word the lemmas above characterise (invariants: tag word and area after i iterations) |
| Context.RequestedOwnBit | dlls/wow64cpu/cpu.c:119-120 | After the strip, a subset is requested exactly when the mask holds that subset's own bit; the shared architecture bit never selects anything |
| Context.RequestedExtremes | dlls/wow64cpu/cpu.c:119 | A mask of CONTEXT_i386 alone requests no subset; CONTEXT_I386_ALL requests every subset |
| Context.CopyContext64To32 | dlls/wow64cpu/cpu.c:116-163 | The record afterwards is Converted: the mask stored as given, and each requested subset converted with the others left as they were |
| Context.CopyIntegers | dlls/wow64cpu/cpu.c:120-128 | The integer subset becomes the low halves of Rax..Rdi; nothing else in the record changes |
| Context.CopyControl | dlls/wow64cpu/cpu.c:129-137 | The control subset becomes Rsp/Rbp/Rip narrowed, EFlags, SegCs and ds64_sel as SegSs; nothing else changes |
| Context.CopySegments | dlls/wow64cpu/cpu.c:138-144 | DS, ES and GS become ds64_sel and FS becomes fs32_sel; nothing else changes |
| Context.CopyDebug | dlls/wow64cpu/cpu.c:145-153 | The debug subset becomes the low halves of Dr0-Dr3, Dr6 and Dr7; nothing else changes |
| Context.UnrequestedUntouched | dlls/wow64cpu/cpu.c:118-161 | ContextFlags is the caller's mask, and every subset the mask does not request keeps its prior contents |
| Context.ArchitectureBitAlone | dlls/wow64cpu/cpu.c:118-119 | With only the architecture bit, nothing but ContextFlags changes |
| Context.AllIgnoresPrior | dlls/wow64cpu/cpu.c:118-161 | With CONTEXT_I386_ALL the result does not depend on the record's prior contents |
| Context.ConvertIdempotent | dlls/wow64cpu/cpu.c:116-163 | Converting again with the same mask and source changes nothing |
| Context.SegmentsFromCapturedSelectors | dlls/wow64cpu/cpu.c:136-143 | The segment selectors and SegSs come from the captured selectors only, never from the 64-bit context |
| Context.IntegerKeepsLowHalves | dlls/wow64cpu/cpu.c:122-127 | Each 32-bit general register equals the low 32 bits of its 64-bit counterpart |
| Context.ControlKeepsLowHalves | dlls/wow64cpu/cpu.c:131-136 | Esp/Ebp/Eip are the low halves of Rsp/Rbp/Rip, EFlags is copied, SegCs is zero-extended and SegSs is ds64_sel |
| Context.DebugKeepsLowHalves | dlls/wow64cpu/cpu.c:147-152 | Each debug register equals the low 32 bits of its 64-bit counterpart |
| Context.FloatingPointFromFxsave | dlls/wow64cpu/cpu.c:154-161 | When requested, FloatSave is the legacy area rebuilt from FltSave with its copied fields, and ExtendedRegisters is the FXSAVE image itself |
| Thunk.Serialize | dlls/wow64cpu/cpu.c:33-51 | The packed structure is 25 bytes |
| Thunk.SerializeLayout | dlls/wow64cpu/cpu.c:33-51 | Each field sits at its packed offset (0, 2, 6, 10, 12, 17, 21), little-endian |
| Thunk.DeserializeSerialize | dlls/wow64cpu/cpu.c:33-51 | Reading the packed image back gives the same structure |
| Thunk.SerializeDeserialize | dlls/wow64cpu/cpu.c:33-51 | Any 25 bytes are the image of the structure they read as |
| Thunk.SerializeMatches | dlls/wow64cpu/cpu.c:33-51 | 25 bytes whose slices hold the field encodings are the image of the structure |
| Thunk.ThunkOpcodes | dlls/wow64cpu/cpu.c:291-306 | The thunk starts ff 1d, has 83 c4 08 at offset 12 and ff 25 00000000 at offset 15 |
| Thunk.ThunkSelfReference | dlls/wow64cpu/cpu.c:293-295 | For a buffer in the low 4 GiB, the lcall operand is the address of the far pointer at offset 6, the pointer's offset is the address of the add at offset 12, and its selector is cs |
| Thunk.InsideThunk | dlls/wow64cpu/cpu.c:293-294 | An address inside a thunk below 4 GiB survives PtrToUlong |
| Thunk.JumpTargetOf | dlls/wow64cpu/cpu.c:305-307 | The qword the RIP-relative jmp reads (jmp_addr and the 4 bytes after the thunk) is jmp_addr zero-extended, when those bytes are zero |
| Thunk.JumpTargetExact | dlls/wow64cpu/cpu.c:277-281 | The jump lands on syscall_32to64 if and only if its address has no bit at or above bit 32 |
| Thunk.LandsExactly | dlls/wow64cpu/cpu.c:307 | A truncated address zero-extended back equals the original exactly when its high half is clear |
| Thunk.JumpQuad | dlls/wow64cpu/cpu.c:305-307 | A DWORD followed by four zero bytes reads as that DWORD zero-extended to 64 bits |
| Wow64Cpu.TurboThunkControl | dlls/wow64cpu/cpu.c:364-369 | STATUS_NOT_SUPPORTED if and only if enable is nonzero, STATUS_SUCCESS if and only if it is zero |
| Wow64Cpu.ClearTrapAndAlignmentBits | dlls/wow64cpu/cpu.c:350 | The cleared flags have neither TF nor AC set and agree with the input on every other bit |
| Wow64Cpu.ClearTrapAndAlignmentIdempotent | dlls/wow64cpu/cpu.c:350 | Clearing twice is clearing once |
| Wow64Cpu.ConsistentGuestContextMeaning | dlls/wow64cpu/cpu.c:349-350 | The committed context has the full mask, every subset converted, and the 64-bit EFlags without TF and AC |
| Wow64Cpu.ConsistentGuestContextIgnoresPrior | dlls/wow64cpu/cpu.c:347-350 | The committed context is the CONTEXT_I386_ALL conversion of any prior record, TF and AC cleared: what the uninitialised record held does not matter |
| Wow64Cpu.ResumeFrameMeaning | dlls/wow64cpu/cpu.c:354-356 | The rewritten frame differs from the old one only in Rip, SegCs and Rsp |
| Wow64Cpu.SetContext | dlls/wow64cpu/cpu.c:335-338 | The thread's 32-bit context becomes the record; its TLS slots are unchanged |
| Wow64Cpu.ConvertWhole | dlls/wow64cpu/cpu.c:347-349 | A fresh record converted with CONTEXT_I386_ALL is the full conversion of the frame |
| Wow64Cpu.ClearTrapAndAlignmentIn | dlls/wow64cpu/cpu.c:350 | Only EFlags changes, losing TF and AC |
| Wow64Cpu.CommitConsistentContext | dlls/wow64cpu/cpu.c:347-351 | The thread's 32-bit context becomes ConsistentGuestContext of the frame |
| Wow64Cpu.RedirectFrame | dlls/wow64cpu/cpu.c:354-356 | The frame becomes ResumeFrame: new Rip, SegCs and Rsp, all else kept |
| Wow64Cpu.Wow64Cpu.constructor | dlls/wow64cpu/cpu.c:53-57 | The code buffer is a zero-filled page at a page-aligned base, and the selectors start at zero |
| Wow64Cpu.Wow64Cpu.GetBopCode | dlls/wow64cpu/cpu.c:317-320 | The BOP code is the code buffer's address |
| Wow64Cpu.Wow64Cpu.ProcessInit | dlls/wow64cpu/cpu.c:270-311 | Returns STATUS_INVALID_ADDRESS if and only if syscall_32to64 is above 4 GiB, changing nothing then; otherwise returns STATUS_SUCCESS with the captured selectors stored, the serialised thunk in the buffer's first 25 bytes and the thunk's jump landing exactly on syscall_32to64 |
| Wow64Cpu.Wow64Cpu.ResetToConsistentState | dlls/wow64cpu/cpu.c:344-358 | Always returns STATUS_SUCCESS; the thread's 32-bit context is ConsistentGuestContext of the old frame, and the frame is the old frame resuming at syscall_32to64 with cs64_sel and TLS slot 2 as stack |
| Wow64Cpu.WriteThunk | dlls/wow64cpu/cpu.c:291-307 | The field stores lay down the serialised thunk in bytes 0..24 and leave the rest of the buffer alone |
| Wow64Cpu.WriteFarCall | dlls/wow64cpu/cpu.c:291-295 | Bytes 0..11 hold ff 1d, the two self-addresses and cs; the rest is untouched |
| Wow64Cpu.WriteJump | dlls/wow64cpu/cpu.c:299-307 | Bytes 12..24 hold 83 c4 08 ff 25, zero and the truncated target behind the far call; the rest is untouched |
| Wow64Cpu.FieldOrder | dlls/wow64cpu/cpu.c:291-307 | The far-call bytes followed by the jump bytes are the packed image of the thunk |
| Wow64Cpu.RegroupFarCall | dlls/wow64cpu/cpu.c:291-295 | The single-byte stores of lcall and modrm followed by the operand stores form one run of bytes |
| Wow64Cpu.RegroupJump | dlls/wow64cpu/cpu.c:299-307 | The single-byte stores of add..jmp_modrm followed by jmp_op and jmp_addr form one run of bytes |
| Wow64Cpu.ThunkFollowedByZeros | dlls/wow64cpu/cpu.c:53 | In a zero-initialised static buffer, the thunk is followed by four zero bytes, which the jmp reads as the high half of its target |

## Left out

- `syscall_32to64` and `BTCpuSimulate` (cpu.c:171-264) are x86-64 assembly. They switch stacks and code segments and leave through `lret`/`iretq`. The model only fixes the state they are entered with.
- `DllMain` (cpu.c:59-63) is loader plumbing.
- `BTCpuGetContext` (cpu.c:326-329) only forwards to `NtQueryInformationThread`, so it is not modelled.
- `BTCpuSetContext` (cpu.c:335-338) is modelled as a sink that stores the record as the thread's 32-bit context. Failure of the host call is not modelled, and the reset ignores its status anyway.
- `RtlCaptureContext` (cpu.c:283) is a foreign call: its result is a parameter of `ProcessInit`.
- `NtProtectVirtualMemory` (cpu.c:309) is a foreign call. Page protection is not modelled.
- The thread handle, `GetCurrentThread` and `NtCurrentTeb` are replaced by the `GuestThread` object passed in.
- The extended state marked FIXME at cpu.c:162 is not converted by the source, so there is nothing to model.
- Fields of both contexts that the code neither reads nor writes are not modelled: R8-R15, the vector registers, MxCsr, the AMD64 flags word and the debug-control registers.
- `ExtendedRegisters` is a 512-byte array. It is represented by the `XMM_SAVE_AREA32` value that is stored into it.
- The class fields of the two context records are grouped into one datatype per register subset. The source updates those groups register by register, and so does the model.
- The thunk bytes are not decoded or executed; only their layout is modelled.
- Thunk.ThunkSelfReference: requires the buffer to lie below 4 GiB minus the thunk size. Above that, `PtrToUlong` truncates the addresses and the self-references do not hold. The source only checks `syscall_32to64`, not `code_buffer`.
- Wow64Cpu.Wow64Cpu.constructor: requires page alignment, standing in for `DECLSPEC_ALIGN(4096)`. The Wine loader's placement of the buffer is not modelled.
