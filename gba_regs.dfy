/**
 * Bit-field views of two memory-control registers (gba.hpp): WAITCNT at
 * 0x4000204 and InternalMemoryControl at 0x4xx0800. In the source each is a
 * union of an integer with a struct of bit-fields; here each is a record of
 * its fields with explicit unpack and pack functions. Fields are allocated
 * from the least significant bit upwards, in declaration order, as GCC and
 * Clang do on little-endian targets. The unnamed padding fields are kept in
 * the record so that packing restores every bit.
 */
module GbaRegisters {

  // ---------------------------------------------------------------------
  // WAITCNT
  // ---------------------------------------------------------------------

  /** The fields of WAITCNT, least significant first; bits 13 and 15 have no name in the source. */
  datatype WaitControl = WaitControl(
    sramWaitControl: bv16,           // bits 0-1
    ws0NonSequentialControl: bv16,   // bits 2-3
    ws0SequentialControl: bv16,      // bit 4
    ws1NonSequentialControl: bv16,   // bits 5-6
    ws1SequentialControl: bv16,      // bit 7
    ws2NonSequentialControl: bv16,   // bits 8-9
    ws2SequentialControl: bv16,      // bit 10
    phiControl: bv16,                // bits 11-12
    unused13: bv16,                  // bit 13
    prefetchBufferEnable: bv16,      // bit 14
    unused15: bv16)                  // bit 15

  /** Each field holds no more bits than its declared width: 2-bit fields 0..3, 1-bit fields 0..1. */
  predicate WaitFieldsInRange(w: WaitControl) {
    && w.sramWaitControl <= 3 && w.ws0NonSequentialControl <= 3 && w.ws0SequentialControl <= 1
    && w.ws1NonSequentialControl <= 3 && w.ws1SequentialControl <= 1
    && w.ws2NonSequentialControl <= 3 && w.ws2SequentialControl <= 1
    && w.phiControl <= 3 && w.unused13 <= 1 && w.prefetchBufferEnable <= 1 && w.unused15 <= 1
  }

  /** Reading the register through its bit-field view. */
  function DecodeWaitcnt(x: bv16): (w: WaitControl)
    ensures WaitFieldsInRange(w)
  {
    WaitControl(
      x & 3,
      (x >> 2) & 3,
      (x >> 4) & 1,
      (x >> 5) & 3,
      (x >> 7) & 1,
      (x >> 8) & 3,
      (x >> 10) & 1,
      (x >> 11) & 3,
      (x >> 13) & 1,
      (x >> 14) & 1,
      (x >> 15) & 1)
  }

  /** The register value a bit-field view stands for. */
  function EncodeWaitcnt(w: WaitControl): bv16 {
    w.sramWaitControl
    | (w.ws0NonSequentialControl << 2)
    | (w.ws0SequentialControl << 4)
    | (w.ws1NonSequentialControl << 5)
    | (w.ws1SequentialControl << 7)
    | (w.ws2NonSequentialControl << 8)
    | (w.ws2SequentialControl << 10)
    | (w.phiControl << 11)
    | (w.unused13 << 13)
    | (w.prefetchBufferEnable << 14)
    | (w.unused15 << 15)
  }

  /** Packing the view of a register value gives the value back, reserved bits included. */
  lemma DecodeEncodeWaitcnt(x: bv16)
    ensures EncodeWaitcnt(DecodeWaitcnt(x)) == x
  {
  }

  /** Unpacking a packed view gives the view back. */
  lemma EncodeDecodeWaitcnt(w: WaitControl)
    requires WaitFieldsInRange(w)
    ensures DecodeWaitcnt(EncodeWaitcnt(w)) == w
  {
  }

  /**
   * Every field of the view reads exactly its declared bits of the register,
   * so a 2-bit field reads 0..3 and a 1-bit field 0..1.
   */
  lemma WaitFieldLayout(x: bv16)
    ensures var w := DecodeWaitcnt(x);
      && w.sramWaitControl == x & 0x0003
      && w.ws0NonSequentialControl == (x & 0x000C) >> 2
      && w.ws0SequentialControl == (x & 0x0010) >> 4
      && w.ws1NonSequentialControl == (x & 0x0060) >> 5
      && w.ws1SequentialControl == (x & 0x0080) >> 7
      && w.ws2NonSequentialControl == (x & 0x0300) >> 8
      && w.ws2SequentialControl == (x & 0x0400) >> 10
      && w.phiControl == (x & 0x1800) >> 11
      && w.prefetchBufferEnable == (x & 0x4000) >> 14
  {
  }

  /**
   * Assigning `v` to one field through the view (an unsigned bit-field keeps
   * the value modulo 2 to the power of its width) stores the truncated value
   * in that field's bits and leaves every other bit of the register as it was.
   */
  lemma AssignSramWait(x: bv16, v: bv16)
    ensures EncodeWaitcnt(DecodeWaitcnt(x).(sramWaitControl := v & 3)) == (x & !0x0003) | (v & 3)
  {
  }

  lemma AssignWaitState0(x: bv16, v: bv16)
    ensures EncodeWaitcnt(DecodeWaitcnt(x).(ws0NonSequentialControl := v & 3)) == (x & !0x000C) | ((v & 3) << 2)
    ensures EncodeWaitcnt(DecodeWaitcnt(x).(ws0SequentialControl := v & 1)) == (x & !0x0010) | ((v & 1) << 4)
  {
  }

  lemma AssignWaitState1(x: bv16, v: bv16)
    ensures EncodeWaitcnt(DecodeWaitcnt(x).(ws1NonSequentialControl := v & 3)) == (x & !0x0060) | ((v & 3) << 5)
    ensures EncodeWaitcnt(DecodeWaitcnt(x).(ws1SequentialControl := v & 1)) == (x & !0x0080) | ((v & 1) << 7)
  {
  }

  lemma AssignWaitState2(x: bv16, v: bv16)
    ensures EncodeWaitcnt(DecodeWaitcnt(x).(ws2NonSequentialControl := v & 3)) == (x & !0x0300) | ((v & 3) << 8)
    ensures EncodeWaitcnt(DecodeWaitcnt(x).(ws2SequentialControl := v & 1)) == (x & !0x0400) | ((v & 1) << 10)
  {
  }

  lemma AssignPhi(x: bv16, v: bv16)
    ensures EncodeWaitcnt(DecodeWaitcnt(x).(phiControl := v & 3)) == (x & !0x1800) | ((v & 3) << 11)
  {
  }

  lemma AssignPrefetch(x: bv16, v: bv16)
    ensures EncodeWaitcnt(DecodeWaitcnt(x).(prefetchBufferEnable := v & 1)) == (x & !0x4000) | ((v & 1) << 14)
  {
  }

  /** An example: 0x4317, a setting common in cartridge start-up code, read through the view. */
  lemma WaitcntExample()
    ensures DecodeWaitcnt(0x4317)
      == WaitControl(3, 1, 1, 0, 0, 3, 0, 0, 0, 1, 0)
  {
  }

  // ---------------------------------------------------------------------
  // InternalMemoryControl
  // ---------------------------------------------------------------------

  /** The fields of InternalMemoryControl, least significant first; the unused runs have no name in the source. */
  datatype MemoryControl = MemoryControl(
    biosSwap: bv32,            // bit 0
    unused1: bv32,             // bits 1-4
    ewramEnable: bv32,         // bit 5
    unused6: bv32,             // bits 6-23
    ewramWaitControl: bv32,    // bits 24-27
    unused28: bv32)            // bits 28-31

  /** Each field holds no more bits than its declared width. */
  predicate MemoryFieldsInRange(m: MemoryControl) {
    && m.biosSwap <= 1 && m.unused1 <= 0xF && m.ewramEnable <= 1
    && m.unused6 <= 0x3_FFFF && m.ewramWaitControl <= 0xF && m.unused28 <= 0xF
  }

  function DecodeMemoryControl(x: bv32): (m: MemoryControl)
    ensures MemoryFieldsInRange(m)
  {
    MemoryControl(
      x & 1,
      (x >> 1) & 0xF,
      (x >> 5) & 1,
      (x >> 6) & 0x3_FFFF,
      (x >> 24) & 0xF,
      (x >> 28) & 0xF)
  }

  function EncodeMemoryControl(m: MemoryControl): bv32 {
    m.biosSwap
    | (m.unused1 << 1)
    | (m.ewramEnable << 5)
    | (m.unused6 << 6)
    | (m.ewramWaitControl << 24)
    | (m.unused28 << 28)
  }

  /** Packing the view of a register value gives the value back, reserved bits included. */
  lemma DecodeEncodeMemoryControl(x: bv32)
    ensures EncodeMemoryControl(DecodeMemoryControl(x)) == x
  {
  }

  /** Unpacking a packed view gives the view back. */
  lemma EncodeDecodeMemoryControl(m: MemoryControl)
    requires MemoryFieldsInRange(m)
    ensures DecodeMemoryControl(EncodeMemoryControl(m)) == m
  {
  }

  /** The named fields read bit 0, bit 5 and bits 24-27. */
  lemma MemoryControlLayout(x: bv32)
    ensures DecodeMemoryControl(x).biosSwap == x & 1
    ensures DecodeMemoryControl(x).ewramEnable == (x & 0x20) >> 5
    ensures DecodeMemoryControl(x).ewramWaitControl == (x & 0x0F00_0000) >> 24
  {
  }

  /** An example: 0x0D000020 reads as EWRAM enabled with wait control 13. */
  lemma MemoryControlExample()
    ensures DecodeMemoryControl(0x0D00_0020) == MemoryControl(0, 0, 1, 0, 13, 0)
  {
  }
}
