/** Little-endian byte images of the fixed-width integers that the packed
    x86 structures of the WoW64 CPU backend are made of, and the narrowing
    conversions C performs when a 64-bit value is stored into a 32-bit field. */
module Bytes {

  /** The two bytes of a WORD, least significant first. */
  function Le16(x: bv16): (r: seq<bv8>)
    ensures |r| == 2
  {
    [(x & 0xff) as bv8, (x >> 8) as bv8]
  }

  function FromLe16(s: seq<bv8>): bv16
    requires |s| == 2
  {
    (s[0] as bv16) | ((s[1] as bv16) << 8)
  }

  /** The four bytes of a DWORD, least significant first. */
  function Le32(x: bv32): (r: seq<bv8>)
    ensures |r| == 4
  {
    [(x & 0xff) as bv8, ((x >> 8) & 0xff) as bv8, ((x >> 16) & 0xff) as bv8, (x >> 24) as bv8]
  }

  function FromLe32(s: seq<bv8>): bv32
    requires |s| == 4
  {
    (s[0] as bv32) | ((s[1] as bv32) << 8) | ((s[2] as bv32) << 16) | ((s[3] as bv32) << 24)
  }

  /** The eight bytes of a ULONGLONG, least significant first. */
  function Le64(x: bv64): (r: seq<bv8>)
    ensures |r| == 8
  {
    [(x & 0xff) as bv8, ((x >> 8) & 0xff) as bv8, ((x >> 16) & 0xff) as bv8, ((x >> 24) & 0xff) as bv8,
     ((x >> 32) & 0xff) as bv8, ((x >> 40) & 0xff) as bv8, ((x >> 48) & 0xff) as bv8, (x >> 56) as bv8]
  }

  function FromLe64(s: seq<bv8>): bv64
    requires |s| == 8
  {
    (s[0] as bv64) | ((s[1] as bv64) << 8) | ((s[2] as bv64) << 16) | ((s[3] as bv64) << 24)
    | ((s[4] as bv64) << 32) | ((s[5] as bv64) << 40) | ((s[6] as bv64) << 48) | ((s[7] as bv64) << 56)
  }

  /** Encoding then decoding gives the value back: the encodings are one-to-one. */
  lemma Le16RoundTrip(x: bv16)
    ensures FromLe16(Le16(x)) == x
  {
  }

  lemma Le32RoundTrip(x: bv32)
    ensures FromLe32(Le32(x)) == x
  {
  }

  lemma Le64RoundTrip(x: bv64)
    ensures FromLe64(Le64(x)) == x
  {
  }

  /** Decoding then re-encoding a byte string gives it back: the encodings are onto. */
  lemma FromLe16Inverse(s: seq<bv8>)
    requires |s| == 2
    ensures Le16(FromLe16(s)) == s
  {
  }

  lemma FromLe32Inverse(s: seq<bv8>)
    requires |s| == 4
    ensures Le32(FromLe32(s)) == s
  {
  }

  lemma FromLe64Inverse(s: seq<bv8>)
    requires |s| == 8
    ensures Le64(FromLe64(s)) == s
  {
  }

  /** A WORD stored into a DWORD: zero-extended. */
  function Widen(x: bv16): bv32 { x as bv32 }

  /** The low and the high 16 bits of a DWORD, each in place. */
  function LowWord(x: bv32): bv32 { x & 0xffff }

  function HighWord(x: bv32): bv32 { x >> 16 }

  /** `low | (high << 16)` for two WORDs widened to DWORDs. */
  function JoinWords(low: bv16, high: bv16): bv32 {
    (low as bv32) | ((high as bv32) << 16)
  }

  /** Joining two WORDs keeps each one whole in its half. */
  lemma JoinWordsSplit(low: bv16, high: bv16)
    ensures LowWord(JoinWords(low, high)) == Widen(low)
    ensures HighWord(JoinWords(low, high)) == Widen(high)
  {
  }

  /** A DWORD stored into a ULONG64 (or a pointer): zero-extended. */
  function ZeroExtend(x: bv32): bv64 { x as bv64 }

  /** The 32-bit value a C assignment `DWORD d = (ULONG64) q;` (or PtrToUlong)
      stores: the low half; the high half is what the store drops. */
  function Low32(x: bv64): bv32 {
    (x & 0xffff_ffff) as bv32
  }

  /** The low half is kept exactly, and together with the dropped high half
      it makes up the original value. */
  lemma Low32Split(x: bv64)
    ensures ZeroExtend(Low32(x)) == x & 0xffff_ffff
    ensures ZeroExtend(Low32(x)) | (x & 0xffff_ffff_0000_0000) == x
  {
  }

  /** Narrowing loses nothing exactly when the high half is zero. */
  lemma Low32Exact(x: bv64)
    ensures ZeroExtend(Low32(x)) == x <==> x >> 32 == 0
  {
  }
}
