# xHCI Debug Capability and Extended Message Interrupt registers

A model of two of the extended capabilities of the `xhci` crate. The first is
the USB Debug Capability (DbC, section 7.6.8 of the xHCI specification). It has
eleven registers: ID, Doorbell, Event Ring Segment Table Size and Base Address,
Event Ring Dequeue Pointer, Control, Status, Port Status and Control, Context
Pointer, and Device Descriptor Info 1 and 2. The second is the xHCI Extended
Message Interrupt capability, whose Message Control and Table Offset/BIR
registers follow the MSI-X layout of section 6.8.2 of the PCI Local Bus
Specification 3.0.

Every register wraps a `u16`, `u32` or `u64`. The model holds that value as a
natural number below 2^16, 2^32 or 2^64. Fields are inclusive bit ranges.

- `bits.dfy` (module `Bits`) holds the arithmetic underneath:
  - `GetBits` and `SetBits` are arithmetic definitions of the `get_bits` and
    `set_bits` calls of the `bit_field` crate.
  - `BitAnd` and `BitNot` model `&` and `!`.
  - `TrailingZeros` models `trailing_zeros`.
  - Lemmas relate these to plain division and remainder.
- `accessor.dfy` (module `Accessor`) reduces the `Single` accessor to its
  address and byte width.
- `debug.dfy` (module `DebugCapability`) holds the register block built by
  `Debug::new` and the eleven registers.
  - A register whose Rust type has `&mut self` setters is a class with one
    `raw` field. Its setters overwrite that field.
  - A register with getters only is a datatype.
- `message_interrupt.dfy` (module `MessageInterrupt`) holds `MessageControl`
  (a class, since `msi_x_enable` can be written) and `TableOffset` (a datatype).
- `extended_capabilities.dfy` (module `ExtendedCapabilities`) holds the two
  `From` conversions into `ExtendedCapability`.

An `assert!` in a setter, and the panic of `set_bits` on a value that does not
fit its range, abort the program. Each becomes a precondition of the setter.

Read-write setters are stated by what the new register reads back. The
written field reads back the new value. Every bit outside the field, and every
other named field, reads back as before. `Bits.BitsExtensional` proves that
values agreeing on every bit are equal, so these clauses fix the whole new
value. The single-bit setters also state it in closed form: the register
modulo 2^i and divided by 2^(i+1) is unchanged.

Each field getter's contract gives its field in closed form on literals,
independently of the `GetBits` definition. A field is
`(raw % 2^(hi+1)) / 2^lo`, shortened to `raw % 2^(hi+1)` or `raw / 2^lo` where
the field starts at bit 0 or ends at the top bit. A flag is
`raw % 2^(i+1) >= 2^i`, shortened to `raw >= 2^i` for the top bit of the
register. The two pointer `Get`s return the whole register.

## Model

| member | source | states |
|---|---|---|
| Bits.GetBits | src/extended_capabilities/debug.rs:117 | a field read out of lo..=hi is below 2^(hi-lo+1) |
| Bits.SetBits | src/extended_capabilities/debug.rs:122 | `set_bits` panics unless the range lies in the register and the value fits it; the field then reads back the value, the bits above and below it are kept, and the result stays within the register width |
| Bits.GetBit | src/extended_capabilities/debug.rs:206-213 | the flag read by `ro_bit!`/`rw_bit!` at bit i is set exactly when the register modulo 2^(i+1) is at least 2^i |
| Bits.SetBit | src/extended_capabilities/debug.rs:207 | the flag written by `rw_bit!` reads back, and the value stays within the register width |
| Bits.BitsExtensional | src/extended_capabilities/debug.rs:122 | two values of the register width that agree on every bit are equal, so a setter's read-back and kept-bits clauses fix the new value |
| Bits.BitAnd | src/extended_capabilities/debug.rs:177 | `x & y` is at most each operand |
| Bits.BitNot | src/extended_capabilities/debug.rs:177 | `!m` stays within the register width, and each of its bits below the width is the opposite of the same bit of m |
| Bits.ComplementFlipsBit | src/extended_capabilities/debug.rs:177 | for every m of the register width and every bit i below the width, the all-ones value minus m has bit i flipped relative to m |
| Bits.TrailingZeros | src/extended_capabilities/debug.rs:149 | `trailing_zeros()` is at most the width, and below it for a nonzero value |
| Bits.GetBitsMaskThenShift | src/extended_capabilities/debug.rs:117 | a field equals the register taken modulo 2^(hi+1) and divided by 2^lo |
| Bits.SetBitsKeepsField | src/extended_capabilities/debug.rs:122 | writing one field leaves every field disjoint from it unchanged |
| Bits.SetBitsKeepsOtherBits | src/extended_capabilities/debug.rs:122 | writing one field leaves every bit outside it unchanged |
| Bits.SetTopField | src/extended_capabilities/debug.rs:191 | copying bits n..=top of a multiple a of 2^n over x yields a plus the low n bits of x |
| Bits.AndNotLowMask | src/extended_capabilities/debug.rs:177 | `x & !(2^n - 1)` equals x minus its remainder modulo 2^n |
| Bits.ClearLowBits | src/extended_capabilities/debug.rs:177 | clearing the low n bits rounds x down to a multiple of 2^n |
| Bits.TrailingZerosMultiple | src/extended_capabilities/debug.rs:149 | `trailing_zeros() >= k` holds exactly when the value is a multiple of 2^k, zero included |
| Accessor.AscendingDisjoint | src/extended_capabilities/debug.rs:59-71 | accessors laid out in ascending order, each ending before the next begins, never share a byte |
| DebugCapability.New | src/extended_capabilities/debug.rs:52-72 | the eleven registers sit at base plus 0x00, 0x04, 0x08, 0x10, 0x18, 0x20, 0x24, 0x28, 0x30, 0x38 and 0x3C, each 8 bytes wide for the three `u64` registers (ERSTBA, ERDP, Context Pointer) and 4 bytes for the others, in ascending order, from base to base + 0x40 |
| DebugCapability.NewDisjoint | src/extended_capabilities/debug.rs:59-71 | with 8-byte windows for the three u64 registers and 4-byte windows for the rest, no two registers overlap, and all lie in the 64 bytes from base |
| DebugCapability.Aligned16 | src/extended_capabilities/debug.rs:148-151 | the alignment check `a.trailing_zeros() >= 4` accepts exactly the multiples of 16, zero included |
| DebugCapability.EventRingSegmentTableBaseAddress.Get | src/extended_capabilities/debug.rs:138-140 | returns the whole 64-bit register; after `Set` that is the written address |
| DebugCapability.Id.DebugCapabilityEventRingSegmentTableMax | src/extended_capabilities/debug.rs:88-93 | bits 16..=20, at most 31, so the `u8` conversion cannot fail |
| DebugCapability.EventRingSegmentTableSize.Get | src/extended_capabilities/debug.rs:116-118 | bits 0..=15, which always fit a `u16`, so `try_into().unwrap()` cannot panic |
| DebugCapability.EventRingSegmentTableSize.Set | src/extended_capabilities/debug.rs:121-123 | `get` then returns the written size, and bits 16..=31 are unchanged |
| DebugCapability.EventRingSegmentTableBaseAddress.Set | src/extended_capabilities/debug.rs:147-154 | aborts unless the address is 16-byte aligned; otherwise the register holds the address, and `get` returns it |
| DebugCapability.EventRingDequeuePointer.DequeueErstSegmentIndex | src/extended_capabilities/debug.rs:167-172 | bits 0..=2, below 8 |
| DebugCapability.EventRingDequeuePointer.SetDequeueErstSegmentIndex | src/extended_capabilities/debug.rs:167-172 | an index of 8 or more aborts; otherwise the index reads back, and the dequeue pointer and bit 3 are unchanged |
| DebugCapability.EventRingDequeuePointer.DequeuePointer | src/extended_capabilities/debug.rs:176-178 | the register with its low four bits cleared, always a multiple of 16 |
| DebugCapability.EventRingDequeuePointer.SetDequeuePointer | src/extended_capabilities/debug.rs:185-192 | aborts unless the pointer is 16-byte aligned; otherwise `dequeue_pointer` returns it, and bits 0..=3 (segment index and bit 3) are unchanged |
| DebugCapability.Control.DbcRun | src/extended_capabilities/debug.rs:206 | bit 0 |
| DebugCapability.Control.LinkStatusEventEnable | src/extended_capabilities/debug.rs:207 | bit 1 |
| DebugCapability.Control.HaltOutTr | src/extended_capabilities/debug.rs:208 | bit 2 |
| DebugCapability.Control.HaltInTr | src/extended_capabilities/debug.rs:209 | bit 3 |
| DebugCapability.Control.DbcRunChange | src/extended_capabilities/debug.rs:210 | bit 4 |
| DebugCapability.Control.DebugMaxBurstSize | src/extended_capabilities/debug.rs:211 | bits 16..=23 |
| DebugCapability.Control.DeviceAddress | src/extended_capabilities/debug.rs:212 | bits 24..=30, at most 127 |
| DebugCapability.Control.DebugCapabilityEnable | src/extended_capabilities/debug.rs:213 | bit 31 |
| DebugCapability.Control.SetLinkStatusEventEnable | src/extended_capabilities/debug.rs:207 | bit 1 reads back the flag; every other bit and every other field is unchanged, and so are the register modulo 2 and divided by 4 |
| DebugCapability.Control.SetDebugCapabilityEnable | src/extended_capabilities/debug.rs:213 | bit 31 reads back the flag; every other bit and every other field is unchanged, and so is the register modulo 2^31 |
| DebugCapability.ControlDecodeSet | src/extended_capabilities/debug.rs:206-213 | raw 0x8000_0012 decodes to Debug Capability Enable, Link Status Event Enable and DbC Run Change set |
| DebugCapability.ControlDecodeClear | src/extended_capabilities/debug.rs:206-213 | raw 0x8000_0012 decodes to DbC Run and Halt OUT TR clear |
| DebugCapability.Status.EventRingNotEmpty | src/extended_capabilities/debug.rs:233 | bit 0 |
| DebugCapability.Status.DbcSystemBusReset | src/extended_capabilities/debug.rs:234 | bit 1 |
| DebugCapability.Status.DebugPortNumber | src/extended_capabilities/debug.rs:235 | bits 24..=31 |
| DebugCapability.PortStatusAndControl.CurrentConnectStatus | src/extended_capabilities/debug.rs:250 | bit 0 |
| DebugCapability.PortStatusAndControl.PortEnabledDisabled | src/extended_capabilities/debug.rs:251 | bit 1 |
| DebugCapability.PortStatusAndControl.PortReset | src/extended_capabilities/debug.rs:252 | bit 4 |
| DebugCapability.PortStatusAndControl.PortLinkState | src/extended_capabilities/debug.rs:253 | bits 5..=8, at most 15 |
| DebugCapability.PortStatusAndControl.PortSpeed | src/extended_capabilities/debug.rs:254 | bits 10..=13, at most 15 |
| DebugCapability.PortStatusAndControl.ConnectStatusChange | src/extended_capabilities/debug.rs:255 | bit 17 |
| DebugCapability.PortStatusAndControl.PortResetChange | src/extended_capabilities/debug.rs:256 | bit 21 |
| DebugCapability.PortStatusAndControl.PortLinkStatusChange | src/extended_capabilities/debug.rs:257 | bit 22 |
| DebugCapability.PortStatusAndControl.PortConfigErrorChange | src/extended_capabilities/debug.rs:258 | bit 23 |
| DebugCapability.PortStatusAndControl.SetPortEnabledDisabled | src/extended_capabilities/debug.rs:251 | bit 1 reads back the flag; every other bit and every other field is unchanged, and so are the register modulo 2 and divided by 4 |
| DebugCapability.ContextPointer.Get | src/extended_capabilities/debug.rs:281-283 | returns the whole 64-bit register; after `Set` that is the written address |
| DebugCapability.ContextPointer.Set | src/extended_capabilities/debug.rs:290-294 | aborts unless the address is 16-byte aligned; otherwise the register holds the address, and `get` returns it |
| DebugCapability.DeviceDescriptorInfo1.DbcProtocol | src/extended_capabilities/debug.rs:302 | bits 0..=7 |
| DebugCapability.DeviceDescriptorInfo1.VendorId | src/extended_capabilities/debug.rs:303 | bits 16..=31 |
| DebugCapability.DeviceDescriptorInfo1.SetDbcProtocol | src/extended_capabilities/debug.rs:302 | the protocol reads back; the Vendor ID and bits 8..=15 are unchanged |
| DebugCapability.DeviceDescriptorInfo1.SetVendorId | src/extended_capabilities/debug.rs:303 | the Vendor ID reads back; the protocol and bits 8..=15 are unchanged |
| DebugCapability.DeviceDescriptorInfo2.ProductId | src/extended_capabilities/debug.rs:317 | bits 0..=15 |
| DebugCapability.DeviceDescriptorInfo2.DeviceRevision | src/extended_capabilities/debug.rs:318 | bits 16..=31 |
| DebugCapability.DeviceDescriptorInfo2.Partition | src/extended_capabilities/debug.rs:317-318 | the register equals the Product ID plus 65536 times the Device Revision |
| DebugCapability.DeviceDescriptorInfo2.SetProductId | src/extended_capabilities/debug.rs:317 | the Product ID reads back; the Device Revision is unchanged |
| DebugCapability.DeviceDescriptorInfo2.SetDeviceRevision | src/extended_capabilities/debug.rs:318 | the Device Revision reads back; the Product ID is unchanged |
| MessageInterrupt.MessageControl.MsiXEnable | src/extended_capabilities/xhci_extended_message_interrupt.rs:34 | bit 15: set exactly when the register is at least 0x8000 |
| MessageInterrupt.MessageControl.TableSize | src/extended_capabilities/xhci_extended_message_interrupt.rs:35 | bits 0..=10, at most 2047 |
| MessageInterrupt.MessageControl.SetMsiXEnable | src/extended_capabilities/xhci_extended_message_interrupt.rs:34 | bit 15 reads back the flag; the Table Size and every other bit are unchanged, and so is the register modulo 0x8000 |
| MessageInterrupt.TableSizeIgnoresEnable | src/extended_capabilities/xhci_extended_message_interrupt.rs:34-35 | two registers that differ only in bit 15 report the same Table Size |
| MessageInterrupt.TableOffset.Offset | src/extended_capabilities/xhci_extended_message_interrupt.rs:51-53 | the register with its low three bits cleared, always a multiple of 8 |
| MessageInterrupt.TableOffset.Bir | src/extended_capabilities/xhci_extended_message_interrupt.rs:55 | bits 0..=2, below 8 |
| MessageInterrupt.OffsetPlusBir | src/extended_capabilities/xhci_extended_message_interrupt.rs:51-55 | the offset plus the BIR is the register |
| MessageInterrupt.OffsetIdempotent | src/extended_capabilities/xhci_extended_message_interrupt.rs:52 | masking an offset again returns it unchanged and leaves a zero BIR |
| MessageInterrupt.TableOffsetExample | src/extended_capabilities/xhci_extended_message_interrupt.rs:51-55 | raw 0x1007 gives BIR 7 and offset 0x1000 |
| ExtendedCapabilities.FromDebug | src/extended_capabilities/debug.rs:74-81 | gives the Debug variant, holding the register block unchanged |
| ExtendedCapabilities.FromXhciExtendedMessageInterrupt | src/extended_capabilities/xhci_extended_message_interrupt.rs:20-27 | gives the Extended Message Interrupt variant, holding the accessor unchanged |
| ExtendedCapabilities.ConversionsInjective | src/extended_capabilities/xhci_extended_message_interrupt.rs:24-26 | both conversions, this one and `From<Debug>` at src/extended_capabilities/debug.rs:78-80, are injective, and their results never coincide |

## Left out

- Reads and writes through `Single` and the `Mapper`: the accessor lives in another crate and is reduced to its address and byte width; volatile memory access is not modelled.
- DebugCapability.New: `base + offset` on `usize` is not bounded; the model uses unbounded addresses, so overflow near the top of the address space is not captured.
- The `unsafe` contract of `Debug::new` (exclusive access through the returned accessors) is caller discipline and is not modelled.
- The panic on a misaligned `base` promised in the doc comment of `Debug::new`: no such check appears in the function itself, so none is modelled.
- The setters generated by `rw1s_bit!`, `rw1c_bit!` and `wo_field!` (Halt OUT/IN TR, DbC Run Change, the four Port Status change bits, the Doorbell Target): the macro bodies are not part of this model, so only the getters of those bits are modelled, and the Doorbell register is a plain value with no member.
- The formatting produced by `impl_debug_from_methods!` and `#[derive(Debug)]`: presentation only.
- The `repr(C)` byte layout of `XhciExtendedMessageInterrupt` (ID, next pointer, Message Control, Message Upper Address, Table Offset): it depends on the compiler's layout rules; only the Message Control and Table Offset registers are modelled.
- The remaining variants of `ExtendedCapability`: its definition belongs to a module that is not part of this model.
- src/lib.rs: module declarations and an empty initializer type, with no logic.
- The DbC enable, run and halt handshake: a driver protocol that nothing in these files sequences.
- The `bit_field` crate is not part of this model; `get_bits` and `set_bits` are modelled by their documented behaviour on inclusive ranges, including the panic of `set_bits` on a value wider than the range.
