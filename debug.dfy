/** The xHCI Debug Capability (DbC): its eleven registers, the byte offsets
    at which `Debug::new` places them, and the bit fields of each register
    (section 7.6.8 of the xHCI specification).

    Every register is a transparent wrapper around a `u32` or `u64`. A
    register whose Rust type has `&mut self` setters is a class with one
    `raw` field that the setters overwrite; a register with getters only
    is a datatype. Getters read a bit range of `raw` with Bits.GetBits;
    read-write setters replace it with Bits.SetBits. */
module DebugCapability {
  import opened Bits
  import opened Accessor

  // -----------------------------------------------------------------------
  // The register block.

  /** The entry point to the Debug Capability: one accessor per register. */
  datatype Debug = Debug(
    dcid: Single,
    dcdb: Single,
    dcerstsz: Single,
    dcerstba: Single,
    dcerdp: Single,
    dcctrl: Single,
    dcst: Single,
    dcportsc: Single,
    dccp: Single,
    dcddi1: Single,
    dcddi2: Single)
  {
    /** The eleven accessors in declaration order. */
    function Registers(): (rs: seq<Single>)
    {
      [dcid, dcdb, dcerstsz, dcerstba, dcerdp, dcctrl, dcst, dcportsc, dccp, dcddi1, dcddi2]
    }
  }

  /** The byte offset of each register from the base of the capability,
      in declaration order. */
  const OFFSETS: seq<nat> := [0x00, 0x04, 0x08, 0x10, 0x18, 0x20, 0x24, 0x28, 0x30, 0x38, 0x3C]

  /** The byte width of each register, in declaration order: the size of
      the `u32` or `u64` it wraps. */
  const SIZES: seq<nat> := [U32_BYTES, U32_BYTES, U32_BYTES, U64_BYTES, U64_BYTES, U32_BYTES,
                            U32_BYTES, U32_BYTES, U64_BYTES, U32_BYTES, U32_BYTES]

  /** `Debug::new(base, mapper)`: every register at its offset from base,
      with the width of its Rust type (`u64` for the Event Ring Segment
      Table Base Address, the Event Ring Dequeue Pointer and the Context
      Pointer, `u32` for the others). Each register ends where the next
      one may begin, and all of them fit in the 64 bytes from base. */
  function New(base: nat): (d: Debug)
    ensures |d.Registers()| == |OFFSETS|
    ensures forall i :: 0 <= i < |OFFSETS| ==> d.Registers()[i].address == base + OFFSETS[i]
    ensures forall i :: 0 <= i < |SIZES| ==> d.Registers()[i].size == SIZES[i]
    ensures Ascending(d.Registers())
    ensures d.dcid.address == base && d.dcddi2.End() == base + 0x40
  {
    Debug(
      Single(base + 0x00, U32_BYTES),
      Single(base + 0x04, U32_BYTES),
      Single(base + 0x08, U32_BYTES),
      Single(base + 0x10, U64_BYTES),
      Single(base + 0x18, U64_BYTES),
      Single(base + 0x20, U32_BYTES),
      Single(base + 0x24, U32_BYTES),
      Single(base + 0x28, U32_BYTES),
      Single(base + 0x30, U64_BYTES),
      Single(base + 0x38, U32_BYTES),
      Single(base + 0x3C, U32_BYTES))
  }

  /** No two registers of the block returned by `Debug::new` overlap, and
      every one of them lies in the 64 bytes from base. */
  lemma NewDisjoint(base: nat)
    ensures forall i, j :: 0 <= i < j < |New(base).Registers()| ==>
      New(base).Registers()[i].DisjointFrom(New(base).Registers()[j])
    ensures forall r <- New(base).Registers() :: base <= r.address && r.End() <= base + 0x40
  {
    var rs := New(base).Registers();
    AscendingDisjoint(rs);
    forall k | 0 <= k < |rs|
      ensures base <= rs[k].address && rs[k].End() <= base + 0x40
    {
      if 0 < k {
        AscendingReach(rs, 0, k);
      }
      if k < |rs| - 1 {
        AscendingReach(rs, k, |rs| - 1);
      }
    }
  }

  // -----------------------------------------------------------------------
  // The 16-byte alignment that the pointer registers demand.

  /** `a.trailing_zeros() >= 4`, the check made by the setters of the
      three pointer registers before they write. It accepts exactly the
      multiples of 16, zero included. */
  predicate Aligned16(a: U64): (ok: bool)
    ensures ok <==> a % 16 == 0
  {
    Pow2Values();
    TrailingZerosMultiple(64, a, 4);
    TrailingZeros(64, a) >= 4
  }

  /** Adding the low four bits of x to a multiple of 16 keeps those bits,
      and with them the low three. */
  lemma AlignedPlusLow(a: nat, x: nat)
    requires a % 16 == 0
    ensures (a + x % 16) % 16 == x % 16
    ensures (a + x % 16) % 8 == x % 8
  {
    var m := x % 16;
    var qa, qx, qm, r := a / 16, x / 16, m / 8, m % 8;
    assert a + m == qa * 16 + m;
    DivModUnique(a + m, 16, qa, m);
    assert x == (qx * 2 + qm) * 8 + r;
    DivModUnique(x, 8, qx * 2 + qm, r);
    assert a + m == (qa * 2 + qm) * 8 + r;
    DivModUnique(a + m, 8, qa * 2 + qm, r);
  }

  lemma LowMask64()
    ensures Pow2(4) == 16 && Pow2(64) == 0x1_0000_0000_0000_0000
  {
    Pow2Values();
  }

  // -----------------------------------------------------------------------
  // Capability ID (offset 0x00).

  datatype Id = Id(raw: U32)
  {
    /** Bits 16..=20; always fits a `u8`. */
    function DebugCapabilityEventRingSegmentTableMax(): (n: U8)
      ensures n <= 31 && n == (raw % 0x20_0000) / 0x1_0000
    {
      Pow2Values();
      GetBitsMaskThenShift(raw, 16, 20);
      GetBits(raw, 16, 20)
    }
  }

  // -----------------------------------------------------------------------
  // Doorbell (offset 0x04). Its only field, the write-only Doorbell Target
  // at bits 8..=15, has no getter. Its setter is not part of this model,
  // so the register stands here for its type only, as a plain value.

  datatype Doorbell = Doorbell(raw: U32)

  // -----------------------------------------------------------------------
  // Event Ring Segment Table Size (offset 0x08).

  class EventRingSegmentTableSize {
    var raw: U32

    constructor (raw: U32)
      ensures this.raw == raw
    {
      this.raw := raw;
    }

    /** Bits 0..=15; the conversion to `u16` cannot fail. */
    function Get(): (sz: U16)
      reads this
      ensures sz == raw % 0x1_0000
    {
      Pow2Values();
      GetBitsMaskThenShift(raw, 0, 15);
      GetBits(raw, 0, 15)
    }

    /** Writes bits 0..=15 and keeps bits 16..=31. */
    method Set(sz: U16)
      modifies this
      ensures Get() == sz
      ensures GetBits(raw, 16, 31) == GetBits(old(raw), 16, 31)
    {
      Pow2Values();
      raw := SetBits(32, raw, 0, 15, sz);
      SetBitsKeepsField(32, old(raw), 0, 15, sz, 16, 31);
    }
  }

  // -----------------------------------------------------------------------
  // Event Ring Segment Table Base Address (offset 0x10).

  class EventRingSegmentTableBaseAddress {
    var raw: U64

    constructor (raw: U64)
      ensures this.raw == raw
    {
      this.raw := raw;
    }

    /** The whole register. */
    function Get(): (a: U64)
      reads this
      ensures a == raw
    {
      raw
    }

    /** Panics unless a is 16-byte aligned; otherwise stores a as it is. */
    method Set(a: U64)
      requires Aligned16(a)
      modifies this
      ensures raw == a && Get() == a
      ensures Get() % 16 == 0
    {
      Pow2Values();
      raw := a;
    }
  }

  // -----------------------------------------------------------------------
  // Event Ring Dequeue Pointer (offset 0x18): the segment index in bits
  // 0..=2, the 16-byte-aligned pointer in bits 4..=63.

  class EventRingDequeuePointer {
    var raw: U64

    constructor (raw: U64)
      ensures this.raw == raw
    {
      this.raw := raw;
    }

    /** Bits 0..=2. */
    function DequeueErstSegmentIndex(): (i: U8)
      reads this
      ensures i < 8 && i == raw % 8
    {
      Pow2Values();
      GetBitsMaskThenShift(raw, 0, 2);
      GetBits(raw, 0, 2)
    }

    /** Writes bits 0..=2; `set_bits` panics on an index of 8 or more. */
    method SetDequeueErstSegmentIndex(i: U8)
      requires i < 8
      modifies this
      ensures DequeueErstSegmentIndex() == i
      ensures DequeuePointer() == old(DequeuePointer())
      ensures GetBit(raw, 3) == GetBit(old(raw), 3)
    {
      Pow2Values();
      raw := SetBits(64, raw, 0, 2, i);
      SetBitsKeepsField(64, old(raw), 0, 2, i, 3, 3);
      SetBitsKeepsHigh(64, old(raw), 0, 2, i, 4);
      RoundDown(raw, 4);
      RoundDown(old(raw), 4);
    }

    /** `raw & !0xF`: the register with its low four bits cleared. */
    function DequeuePointer(): (p: U64)
      reads this
      ensures p % 16 == 0 && p == raw - raw % 16
    {
      LowMask64();
      ClearLowBits(64, raw, 4);
      var p := BitAnd(raw, BitNot(64, 0xF));
      assert p == raw - raw % 16;
      p
    }

    /** Panics unless a is 16-byte aligned; otherwise writes bits 4..=63
        of a into bits 4..=63 and keeps bits 0..=3, so the segment index
        and bit 3 are preserved. */
    method SetDequeuePointer(a: U64)
      requires Aligned16(a)
      modifies this
      ensures DequeuePointer() == a
      ensures raw % 16 == old(raw) % 16
      ensures DequeueErstSegmentIndex() == old(DequeueErstSegmentIndex())
    {
      Pow2Values();
      SetTopField(64, raw, 4, a);
      raw := SetBits(64, raw, 4, 63, GetBits(a, 4, 63));
      AlignedPlusLow(a, old(raw));
    }
  }

  // -----------------------------------------------------------------------
  // Control (offset 0x20).

  class Control {
    var raw: U32

    constructor (raw: U32)
      ensures this.raw == raw
    {
      this.raw := raw;
    }

    /** Bit 0, read-only. */
    function DbcRun(): (b: bool)
      reads this
      ensures b <==> raw % 0x2 >= 0x1
    {
      Pow2Values();
      GetBit(raw, 0)
    }

    /** Bit 1, read-write. */
    function LinkStatusEventEnable(): (b: bool)
      reads this
      ensures b <==> raw % 0x4 >= 0x2
    {
      Pow2Values();
      GetBit(raw, 1)
    }

    /** Bit 2, write-1-to-set. */
    function HaltOutTr(): (b: bool)
      reads this
      ensures b <==> raw % 0x8 >= 0x4
    {
      Pow2Values();
      GetBit(raw, 2)
    }

    /** Bit 3, write-1-to-set. */
    function HaltInTr(): (b: bool)
      reads this
      ensures b <==> raw % 0x10 >= 0x8
    {
      Pow2Values();
      GetBit(raw, 3)
    }

    /** Bit 4, write-1-to-clear. */
    function DbcRunChange(): (b: bool)
      reads this
      ensures b <==> raw % 0x20 >= 0x10
    {
      Pow2Values();
      GetBit(raw, 4)
    }

    /** Bits 16..=23, read-only. */
    function DebugMaxBurstSize(): (n: U8)
      reads this
      ensures n == (raw % 0x100_0000) / 0x1_0000
    {
      Pow2Values();
      GetBitsMaskThenShift(raw, 16, 23);
      GetBits(raw, 16, 23)
    }

    /** Bits 24..=30, read-only; at most 127, so it fits a `u8`. */
    function DeviceAddress(): (n: U8)
      reads this
      ensures n <= 127 && n == (raw % 0x8000_0000) / 0x100_0000
    {
      Pow2Values();
      GetBitsMaskThenShift(raw, 24, 30);
      GetBits(raw, 24, 30)
    }

    /** Bit 31, read-write. */
    function DebugCapabilityEnable(): (b: bool)
      reads this
      ensures b <==> raw >= 0x8000_0000
    {
      Pow2Values();
      GetBit(raw, 31)
    }

    /** Writes bit 1; no other bit and no other field changes. */
    method SetLinkStatusEventEnable(b: bool)
      modifies this
      ensures LinkStatusEventEnable() == b
      ensures raw % 2 == old(raw) % 2 && raw / 4 == old(raw) / 4
      ensures forall i: nat :: i != 1 ==> GetBit(raw, i) == GetBit(old(raw), i)
      ensures DbcRun() == old(DbcRun()) && HaltOutTr() == old(HaltOutTr())
      ensures HaltInTr() == old(HaltInTr()) && DbcRunChange() == old(DbcRunChange())
      ensures DebugMaxBurstSize() == old(DebugMaxBurstSize())
      ensures DeviceAddress() == old(DeviceAddress())
      ensures DebugCapabilityEnable() == old(DebugCapabilityEnable())
    {
      var v := if b then 1 else 0;
      Pow2Values();
      raw := SetBit(32, raw, 1, b);
      SetBitsKeepsOtherBits(32, old(raw), 1, 1, v);
      SetBitsKeepsField(32, old(raw), 1, 1, v, 16, 23);
      SetBitsKeepsField(32, old(raw), 1, 1, v, 24, 30);
    }

    /** Writes bit 31; no other bit and no other field changes. */
    method SetDebugCapabilityEnable(b: bool)
      modifies this
      ensures DebugCapabilityEnable() == b
      ensures raw % 0x8000_0000 == old(raw) % 0x8000_0000
      ensures forall i: nat :: i != 31 ==> GetBit(raw, i) == GetBit(old(raw), i)
      ensures DbcRun() == old(DbcRun()) && LinkStatusEventEnable() == old(LinkStatusEventEnable())
      ensures HaltOutTr() == old(HaltOutTr()) && HaltInTr() == old(HaltInTr())
      ensures DbcRunChange() == old(DbcRunChange())
      ensures DebugMaxBurstSize() == old(DebugMaxBurstSize())
      ensures DeviceAddress() == old(DeviceAddress())
    {
      var v := if b then 1 else 0;
      Pow2Values();
      raw := SetBit(32, raw, 31, b);
      SetBitsKeepsOtherBits(32, old(raw), 31, 31, v);
      SetBitsKeepsField(32, old(raw), 31, 31, v, 16, 23);
      SetBitsKeepsField(32, old(raw), 31, 31, v, 24, 30);
    }
  }

  /** Decoding by bit position: a Control register reading 0x8000_0012
      has the capability enabled, link status events enabled and a run
      change latched ... */
  lemma ControlDecodeSet(c: Control)
    requires c.raw == 0x8000_0012
    ensures c.DebugCapabilityEnable() && c.LinkStatusEventEnable() && c.DbcRunChange()
  {
  }

  /** ... and is neither running nor halting its OUT transfer ring. */
  lemma ControlDecodeClear(c: Control)
    requires c.raw == 0x8000_0012
    ensures !c.DbcRun() && !c.HaltOutTr()
  {
  }

  // -----------------------------------------------------------------------
  // Status (offset 0x24), read-only.

  datatype Status = Status(raw: U32)
  {
    /** Bit 0. */
    function EventRingNotEmpty(): (b: bool)
      ensures b <==> raw % 0x2 >= 0x1
    {
      Pow2Values();
      GetBit(raw, 0)
    }

    /** Bit 1. */
    function DbcSystemBusReset(): (b: bool)
      ensures b <==> raw % 0x4 >= 0x2
    {
      Pow2Values();
      GetBit(raw, 1)
    }

    /** Bits 24..=31. */
    function DebugPortNumber(): (n: U8)
      ensures n == raw / 0x100_0000
    {
      Pow2Values();
      GetBitsMaskThenShift(raw, 24, 31);
      GetBits(raw, 24, 31)
    }
  }

  // -----------------------------------------------------------------------
  // Port Status and Control (offset 0x28).

  class PortStatusAndControl {
    var raw: U32

    constructor (raw: U32)
      ensures this.raw == raw
    {
      this.raw := raw;
    }

    /** Bit 0, read-only. */
    function CurrentConnectStatus(): (b: bool)
      reads this
      ensures b <==> raw % 0x2 >= 0x1
    {
      Pow2Values();
      GetBit(raw, 0)
    }

    /** Bit 1, read-write. */
    function PortEnabledDisabled(): (b: bool)
      reads this
      ensures b <==> raw % 0x4 >= 0x2
    {
      Pow2Values();
      GetBit(raw, 1)
    }

    /** Bit 4, read-only. */
    function PortReset(): (b: bool)
      reads this
      ensures b <==> raw % 0x20 >= 0x10
    {
      Pow2Values();
      GetBit(raw, 4)
    }

    /** Bits 5..=8, read-only; at most 15. */
    function PortLinkState(): (n: U8)
      reads this
      ensures n <= 15 && n == (raw % 0x200) / 0x20
    {
      Pow2Values();
      GetBitsMaskThenShift(raw, 5, 8);
      GetBits(raw, 5, 8)
    }

    /** Bits 10..=13, read-only; at most 15. */
    function PortSpeed(): (n: U8)
      reads this
      ensures n <= 15 && n == (raw % 0x4000) / 0x400
    {
      Pow2Values();
      GetBitsMaskThenShift(raw, 10, 13);
      GetBits(raw, 10, 13)
    }

    /** Bit 17, write-1-to-clear. */
    function ConnectStatusChange(): (b: bool)
      reads this
      ensures b <==> raw % 0x4_0000 >= 0x2_0000
    {
      Pow2Values();
      GetBit(raw, 17)
    }

    /** Bit 21, write-1-to-clear. */
    function PortResetChange(): (b: bool)
      reads this
      ensures b <==> raw % 0x40_0000 >= 0x20_0000
    {
      Pow2Values();
      GetBit(raw, 21)
    }

    /** Bit 22, write-1-to-clear. */
    function PortLinkStatusChange(): (b: bool)
      reads this
      ensures b <==> raw % 0x80_0000 >= 0x40_0000
    {
      Pow2Values();
      GetBit(raw, 22)
    }

    /** Bit 23, write-1-to-clear. */
    function PortConfigErrorChange(): (b: bool)
      reads this
      ensures b <==> raw % 0x100_0000 >= 0x80_0000
    {
      Pow2Values();
      GetBit(raw, 23)
    }

    /** Writes bit 1; no other bit and no other field changes. */
    method SetPortEnabledDisabled(b: bool)
      modifies this
      ensures PortEnabledDisabled() == b
      ensures raw % 2 == old(raw) % 2 && raw / 4 == old(raw) / 4
      ensures forall i: nat :: i != 1 ==> GetBit(raw, i) == GetBit(old(raw), i)
      ensures CurrentConnectStatus() == old(CurrentConnectStatus()) && PortReset() == old(PortReset())
      ensures PortLinkState() == old(PortLinkState()) && PortSpeed() == old(PortSpeed())
      ensures ConnectStatusChange() == old(ConnectStatusChange())
      ensures PortResetChange() == old(PortResetChange())
      ensures PortLinkStatusChange() == old(PortLinkStatusChange())
      ensures PortConfigErrorChange() == old(PortConfigErrorChange())
    {
      var v := if b then 1 else 0;
      Pow2Values();
      raw := SetBit(32, raw, 1, b);
      SetBitsKeepsOtherBits(32, old(raw), 1, 1, v);
      SetBitsKeepsField(32, old(raw), 1, 1, v, 5, 8);
      SetBitsKeepsField(32, old(raw), 1, 1, v, 10, 13);
    }
  }

  // -----------------------------------------------------------------------
  // Debug Capability Context Pointer (offset 0x30).

  class ContextPointer {
    var raw: U64

    constructor (raw: U64)
      ensures this.raw == raw
    {
      this.raw := raw;
    }

    /** The whole register. */
    function Get(): (a: U64)
      reads this
      ensures a == raw
    {
      raw
    }

    /** Panics unless a is 16-byte aligned; otherwise stores a as it is. */
    method Set(a: U64)
      requires Aligned16(a)
      modifies this
      ensures raw == a && Get() == a
      ensures Get() % 16 == 0
    {
      Pow2Values();
      raw := a;
    }
  }

  // -----------------------------------------------------------------------
  // Device Descriptor Info 1 (offset 0x38).

  class DeviceDescriptorInfo1 {
    var raw: U32

    constructor (raw: U32)
      ensures this.raw == raw
    {
      this.raw := raw;
    }

    /** Bits 0..=7. */
    function DbcProtocol(): (p: U8)
      reads this
      ensures p == raw % 0x100
    {
      Pow2Values();
      GetBitsMaskThenShift(raw, 0, 7);
      GetBits(raw, 0, 7)
    }

    /** Bits 16..=31. */
    function VendorId(): (id: U16)
      reads this
      ensures id == raw / 0x1_0000
    {
      Pow2Values();
      GetBitsMaskThenShift(raw, 16, 31);
      GetBits(raw, 16, 31)
    }

    /** Writes bits 0..=7; bits 8..=15 and the Vendor ID are kept. */
    method SetDbcProtocol(p: U8)
      modifies this
      ensures DbcProtocol() == p
      ensures GetBits(raw, 8, 15) == GetBits(old(raw), 8, 15)
      ensures VendorId() == old(VendorId())
    {
      Pow2Values();
      raw := SetBits(32, raw, 0, 7, p);
      SetBitsKeepsField(32, old(raw), 0, 7, p, 8, 15);
      SetBitsKeepsField(32, old(raw), 0, 7, p, 16, 31);
    }

    /** Writes bits 16..=31; the DbC Protocol and bits 8..=15 are kept. */
    method SetVendorId(id: U16)
      modifies this
      ensures VendorId() == id
      ensures GetBits(raw, 8, 15) == GetBits(old(raw), 8, 15)
      ensures DbcProtocol() == old(DbcProtocol())
    {
      Pow2Values();
      raw := SetBits(32, raw, 16, 31, id);
      SetBitsKeepsField(32, old(raw), 16, 31, id, 8, 15);
      SetBitsKeepsField(32, old(raw), 16, 31, id, 0, 7);
    }
  }

  // -----------------------------------------------------------------------
  // Device Descriptor Info 2 (offset 0x3C).

  class DeviceDescriptorInfo2 {
    var raw: U32

    constructor (raw: U32)
      ensures this.raw == raw
    {
      this.raw := raw;
    }

    /** Bits 0..=15. */
    function ProductId(): (id: U16)
      reads this
      ensures id == raw % 0x1_0000
    {
      Pow2Values();
      GetBitsMaskThenShift(raw, 0, 15);
      GetBits(raw, 0, 15)
    }

    /** Bits 16..=31. */
    function DeviceRevision(): (rev: U16)
      reads this
      ensures rev == raw / 0x1_0000
    {
      Pow2Values();
      GetBitsMaskThenShift(raw, 16, 31);
      GetBits(raw, 16, 31)
    }

    /** The two fields cover the whole register. */
    lemma Partition()
      ensures raw == ProductId() + 0x1_0000 * DeviceRevision()
    {
    }

    /** Writes bits 0..=15; the Device Revision is kept. */
    method SetProductId(id: U16)
      modifies this
      ensures ProductId() == id && DeviceRevision() == old(DeviceRevision())
    {
      Pow2Values();
      raw := SetBits(32, raw, 0, 15, id);
      SetBitsKeepsField(32, old(raw), 0, 15, id, 16, 31);
    }

    /** Writes bits 16..=31; the Product ID is kept. */
    method SetDeviceRevision(rev: U16)
      modifies this
      ensures DeviceRevision() == rev && ProductId() == old(ProductId())
    {
      Pow2Values();
      raw := SetBits(32, raw, 16, 31, rev);
      SetBitsKeepsField(32, old(raw), 16, 31, rev, 0, 15);
    }
  }
}
