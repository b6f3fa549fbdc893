/** The xHCI Extended Message Interrupt capability: its Message Control
    and Table Offset/BIR registers, laid out as the MSI-X capability of
    section 6.8.2 of the PCI Local Bus Specification 3.0. */
module MessageInterrupt {
  import opened Bits

  // -----------------------------------------------------------------------
  // Message Control: MSI-X Enable in bit 15 (read-write), Table Size in
  // bits 0..=10 (read-only).

  class MessageControl {
    var raw: U16

    constructor (raw: U16)
      ensures this.raw == raw
    {
      this.raw := raw;
    }

    /** Bit 15. */
    function MsiXEnable(): (b: bool)
      reads this
      ensures b <==> raw >= 0x8000
    {
      Pow2Values();
      GetBit(raw, 15)
    }

    /** Bits 0..=10: at most 2047, whatever the other bits hold. */
    function TableSize(): (n: U16)
      reads this
      ensures n <= 2047 && n == raw % 0x800
    {
      Pow2Values();
      GetBitsMaskThenShift(raw, 0, 10);
      GetBits(raw, 0, 10)
    }

    /** Writes bit 15; the Table Size and every other bit are kept. */
    method SetMsiXEnable(b: bool)
      modifies this
      ensures MsiXEnable() == b
      ensures raw % 0x8000 == old(raw) % 0x8000
      ensures forall i: nat :: i != 15 ==> GetBit(raw, i) == GetBit(old(raw), i)
      ensures TableSize() == old(TableSize())
    {
      Pow2Values();
      var v := if b then 1 else 0;
      raw := SetBit(16, raw, 15, b);
      SetBitsKeepsOtherBits(16, old(raw), 15, 15, v);
      SetBitsKeepsField(16, old(raw), 15, 15, v, 0, 10);
    }
  }

  /** The Table Size does not depend on the MSI-X Enable bit: two values
      that differ only in bit 15 report the same size. */
  lemma TableSizeIgnoresEnable(c: MessageControl, d: MessageControl)
    requires c.raw + 0x8000 == d.raw
    ensures c.TableSize() == d.TableSize()
    ensures !c.MsiXEnable() && d.MsiXEnable()
  {
    assert d.raw == c.raw % 0x800 + 0x800 * (c.raw / 0x800 + 0x10);
  }

  // -----------------------------------------------------------------------
  // Table Offset and BIR: the Base address Indicator Register in bits
  // 0..=2, the 8-byte-aligned offset of the MSI-X table above them.

  datatype TableOffset = TableOffset(raw: U32)
  {
    /** `raw & !0b111`: the register with its low three bits cleared. */
    function Offset(): (o: U32)
      ensures o % 8 == 0 && o == raw - raw % 8
    {
      LowMask32();
      ClearLowBits(32, raw, 3);
      var o := BitAnd(raw, BitNot(32, 7));
      assert o == raw - raw % 8;
      o
    }

    /** Bits 0..=2. */
    function Bir(): (b: U8)
      ensures b < 8 && b == raw % 8
    {
      Pow2Values();
      GetBitsMaskThenShift(raw, 0, 2);
      GetBits(raw, 0, 2)
    }
  }

  lemma LowMask32()
    ensures Pow2(3) == 8 && Pow2(32) == 0x1_0000_0000
  {
    Pow2Values();
  }

  /** The offset and the BIR split the register between them. */
  lemma OffsetPlusBir(t: TableOffset)
    ensures t.Offset() + t.Bir() == t.raw
  {
  }

  /** Masking an offset again changes nothing. */
  lemma OffsetIdempotent(t: TableOffset)
    ensures TableOffset(t.Offset()).Offset() == t.Offset()
    ensures TableOffset(t.Offset()).Bir() == 0
  {
  }

  /** A register reading 0x1007 points at BIR 7, offset 0x1000. */
  lemma TableOffsetExample(t: TableOffset)
    requires t.raw == 0x1007
    ensures t.Bir() == 7 && t.Offset() == 0x1000
  {
  }
}
