# ez_hpet in Dafny

A model of the core of `ez_hpet`, a `no_std` Rust driver for the High Precision
Event Timer (HPET) of the IA-PC HPET Specification rev 1.0a. The model covers:

- the memory-mapped register block: where each register sits in the `#[repr(C)]`
  structs, and how much memory must be mapped;
- the `bitfield` getters and setters of the five register types;
- the device handles: `Hpet`, the timer views `HpetTimer` and `HpetTimerMut`,
  the `timers()` iterator and the shared `HpetTimerRef` getters.

Files:

- `mmio_bits.dfy` (`MmioBits`): the Rust integer types as 64-bit vectors, and a
  reference "bit i is set" predicate.
- `mmio_layout.dfy` (`MmioLayout`): the C layout rule, the two structs as field
  lists, and the register map derived from them.
- `mmio_capabilities.dfy`, `mmio_configuration.dfy`,
  `mmio_interrupt_status.dfy`, `mmio_timer_config.dfy`, `mmio_fsb_route.dfy`:
  one module per `bitfield!` register. Every accessor is written the way the
  crate computes it. A getter shifts the register left and then right. A setter
  clears the field's mask and ors in the shifted value cut to the mask. Each
  contract states the field's bit position as a mask.
- `hpet.dfy` (`HpetDevice`): the device.
  - `Hpet` is a class whose fields are the registers.
  - `timers` is an array of the 32 timer blocks.
  - `HpetTimersIterator` is a class holding the next index.
  - The two views share one datatype, `TimerView`, whose two constructors are
    `HpetTimer` and `HpetTimerMut`.
  - The closures that `configure_interrupt` hands to the volatile `update` are
    pure functions on a register value. The `ConfigureInterrupt` method applies
    them to the timer's block.

A Rust panic becomes an `Err` of `HpetError`, and on every `Err` the model
writes nothing. This matches the source: each panic happens before the write or
inside an `update` closure, so the register is never written.

The vendor ID is read from bits 31..16, as `src/mmio.rs:52` declares. In a
register such as `0x8086_0001_0305_1234`, the vendor ID is therefore `0x0305`,
and `0x8086` is the top of the tick period, not the vendor ID (see
`MmioCapabilities.VendorIdFromBits31To16`).

## Model

| member | source | states |
|---|---|---|
| MmioLayout.AlignUp | src/mmio.rs:12-35 | the result is a multiple of the alignment, at least the offset and less than one alignment beyond it; an aligned offset is kept |
| MmioLayout.OffsetAfterStart | src/mmio.rs:12-35 | no field of a `#[repr(C)]` struct starts before the struct's start |
| MmioLayout.EndAfterStart | src/mmio.rs:12-35 | the end of a struct's fields is not before its start |
| MmioLayout.FieldEndsBeforeEnd | src/mmio.rs:12-35 | every field lies entirely inside the struct |
| MmioLayout.FieldsDisjoint | src/mmio.rs:12-35 | a field ends before any later field begins, so no two fields overlap |
| MmioLayout.TimerMemorySize | src/mmio.rs:115-122 | one `HpetTimerMemory` is 0x20 bytes with alignment 8, so the array of 32 timers is 0x400 bytes |
| MmioLayout.TimerMemoryOffsets | src/mmio.rs:117-120 | within a timer block, configuration is at 0x00, comparator at 0x08 and FSB route at 0x10 |
| MmioLayout.HpetMemoryEnd | src/mmio.rs:14-35 | the last field of `HpetMemory` ends at 0x500 |
| MmioLayout.HpetMmioSizeIs0x500 | src/mmio.rs:37 | `HPET_MMIO_SIZE`, the size of `HpetMemory`, is 0x500 |
| MmioLayout.HpetMemoryFieldsDisjoint | src/mmio.rs:14-35 | no two fields of `HpetMemory` overlap, reserved gaps and the timer array included, by the general layout rule |
| MmioLayout.HpetMemoryFieldsMapped | src/mmio.rs:14-37 | every field of `HpetMemory` lies inside `HPET_MMIO_SIZE` bytes |
| MmioLayout.TimerMemoryFieldsDisjoint | src/mmio.rs:115-122 | no two fields of a timer block overlap, and each lies inside the block |
| MmioLayout.HpetMemoryOffsets | src/mmio.rs:14-35 | capabilities at 0x000, configuration at 0x010, interrupt status at 0x020, main counter at 0x0F0, timers at 0x100 |
| MmioLayout.RegisterOffsetsAsDocumented | src/mmio.rs:14-35 | every register, including timer n's three registers at 0x100 + 0x20·n (+0, +8, +0x10), sits at the offset of the published register map |
| MmioLayout.RegistersDisjointAndMapped | src/mmio.rs:14-37 | every register lies inside `HPET_MMIO_SIZE`, and no two registers overlap |
| MmioCapabilities.GetCounterClkPeriod | src/mmio.rs:48 | the tick period is bits 63..32 |
| MmioCapabilities.GetVendorId | src/mmio.rs:52 | the vendor ID is bits 31..16 |
| MmioCapabilities.GetLegRtCap | src/mmio.rs:56 | LegacyReplacement capability is bit 15 |
| MmioCapabilities.GetCountSizeCap | src/mmio.rs:62 | 64-bit counter capability is bit 13 |
| MmioCapabilities.GetNumTimCap | src/mmio.rs:66 | NUM_TIM_CAP is bits 12..8, hence below 32 |
| MmioCapabilities.GetRevId | src/mmio.rs:70 | the revision ID is bits 7..0 |
| MmioCapabilities.EncodeCapabilities | src/mmio.rs:39-71 | placing the fields never sets the unused bit 14 |
| MmioCapabilities.DecodeCapabilities | src/mmio.rs:39-71 | the six getters together read every bit except bit 14: re-encoding what they read gives back the register without bit 14 |
| MmioCapabilities.CapabilitiesRoundTrip | src/mmio.rs:39-71 | each field comes back from the register unchanged whatever the other fields hold |
| MmioCapabilities.IntelCapabilitiesDecoded | src/mmio.rs:48-70 | a typical chipset register decodes to period 69841279 fs, vendor 0x8086, legacy capable, 64-bit, NUM_TIM_CAP 2, revision 1 |
| MmioCapabilities.VendorIdFromBits31To16 | src/mmio.rs:48-70 | in 0x8086_0001_0305_1234 the vendor ID is 0x0305, the period 0x8086_0001 and the revision 0x34 |
| MmioConfiguration.GetLegacyReplacementCnf | src/mmio.rs:91 | LEG_RT_CNF is bit 1 |
| MmioConfiguration.SetLegacyReplacementCnf | src/mmio.rs:91 | the setter makes the getter return the value written and keeps every other bit |
| MmioConfiguration.GetEnableCnf | src/mmio.rs:97 | ENABLE_CNF is bit 0 |
| MmioConfiguration.SetEnableCnf | src/mmio.rs:97 | the setter makes the getter return the value written and keeps every other bit |
| MmioConfiguration.ConfigurationBitsIndependent | src/mmio.rs:91-97 | writing either configuration bit leaves the other one as it was |
| MmioInterruptStatus.GetTnIntSts | src/mmio.rs:112 | entry n of Tn_INT_STS is bit n, returned as the `u64` 0 or 1 |
| MmioInterruptStatus.SetTnIntSts | src/mmio.rs:112 | writing the `u64` value v to entry n makes bit n equal to bit 0 of v |
| MmioInterruptStatus.StatusSetKeepsOtherBits | src/mmio.rs:112 | writing entry n changes no bit other than n |
| MmioInterruptStatus.StatusSetThenGet | src/mmio.rs:112 | reading entry n after writing v gives bit 0 of v |
| MmioInterruptStatus.StatusSetKeepsOtherEntries | src/mmio.rs:112 | writing entry n leaves every other entry as it was |
| MmioTimerConfig.GetIntRouteCap | src/mmio.rs:132 | Tn_INT_ROUTE_CAP is bits 63..32 |
| MmioTimerConfig.GetFsbIntDelCap | src/mmio.rs:133 | Tn_FSB_INT_DEL_CAP is bit 15 |
| MmioTimerConfig.GetFsbEnCnf | src/mmio.rs:135 | Tn_FSB_EN_CNF is bit 14 |
| MmioTimerConfig.SetFsbEnCnf | src/mmio.rs:135 | the setter makes the getter return the value written and keeps every other bit |
| MmioTimerConfig.GetIntRouteCnf | src/mmio.rs:137 | Tn_INT_ROUTE_CNF is bits 13..9, hence below 32 |
| MmioTimerConfig.SetIntRouteCnf | src/mmio.rs:137 | the setter stores the low five bits of the IRQ, so an IRQ below 32 reads back exactly; no bit outside 13..9 changes |
| MmioTimerConfig.Get32ModeCnf | src/mmio.rs:141 | Tn_32MODE_CNF is bit 8 |
| MmioTimerConfig.Set32ModeCnf | src/mmio.rs:141 | the setter makes the getter return the value written and keeps every other bit |
| MmioTimerConfig.GetValSetCnf | src/mmio.rs:147 | Tn_VAL_SET_CNF is bit 6 |
| MmioTimerConfig.SetValSetCnf | src/mmio.rs:147 | the setter makes the getter return the value written and keeps every other bit |
| MmioTimerConfig.GetSizeCap | src/mmio.rs:150 | Tn_SIZE_CAP is bit 5 |
| MmioTimerConfig.GetPerIntCap | src/mmio.rs:153 | Tn_PER_INT_CAP is bit 4 |
| MmioTimerConfig.GetTypeCnf | src/mmio.rs:160 | Tn_TYPE_CNF is bit 3 |
| MmioTimerConfig.SetTypeCnf | src/mmio.rs:160 | the setter makes the getter return the value written and keeps every other bit |
| MmioTimerConfig.GetIntEnbCnf | src/mmio.rs:165 | Tn_INT_ENB_CNF is bit 2 |
| MmioTimerConfig.SetIntEnbCnf | src/mmio.rs:165 | the setter makes the getter return the value written and keeps every other bit |
| MmioTimerConfig.GetIntTypeCnf | src/mmio.rs:172 | Tn_INT_TYPE_CNF is bit 1 |
| MmioTimerConfig.SetIntTypeCnf | src/mmio.rs:172 | the setter makes the getter return the value written and keeps every other bit |
| MmioTimerConfig.EncodeTimerConfig | src/mmio.rs:124-173 | placing the fields never sets the reserved bits 31..16, 7 and 0 |
| MmioTimerConfig.DecodeTimerConfig | src/mmio.rs:124-173 | the getters together read every bit except the reserved ones: re-encoding gives back the register without them |
| MmioTimerConfig.TimerConfigRoundTrip | src/mmio.rs:124-173 | each field of the timer configuration register comes back unchanged whatever the others hold |
| MmioTimerConfig.WriteOutsideCapabilities | src/mmio.rs:132-172 | a write confined to bits that avoid the read-only capability bits keeps those bits |
| MmioTimerConfig.CapabilityGettersReadOnlyTheirBits | src/mmio.rs:132-153 | registers that agree on the capability bits report the same four capabilities |
| MmioFsbRoute.FsbIntAddr | src/mmio.rs:184 | Tn_FSB_INT_ADDR is bits 63..32 |
| MmioFsbRoute.SetFsbIntAddr | src/mmio.rs:184 | the setter makes the address read back and keeps the value field |
| MmioFsbRoute.FsbIntVal | src/mmio.rs:188 | Tn_FSB_INT_VAL is bits 31..0 |
| MmioFsbRoute.SetFsbIntVal | src/mmio.rs:188 | the setter makes the value read back and keeps the address field |
| MmioFsbRoute.EncodeFsbRoute | src/mmio.rs:181-188 | a route built from an address and a value reads back both |
| MmioFsbRoute.FsbRouteRoundTrip | src/mmio.rs:181-188 | every route register is the encoding of its own address and value |
| HpetDevice.Hpet.constructor | src/hpet.rs:20-27 | a handle over a register block holding the given values, with 32 timer blocks |
| HpetDevice.Hpet.VendorId | src/hpet.rs:29-35 | bits 31..16 of the capabilities register |
| HpetDevice.Hpet.TimersCount | src/hpet.rs:37-44 | NUM_TIM_CAP + 1, between 1 and 32, so every timer has a block; the `u8` addition cannot overflow |
| HpetDevice.Hpet.MainCounterTickPeriod | src/hpet.rs:46-53 | bits 63..32 of the capabilities register |
| HpetDevice.Hpet.LegacyReplacementCapable | src/hpet.rs:55-61 | bit 15 of the capabilities register |
| HpetDevice.Hpet.Supports64BitMode | src/hpet.rs:63-69 | bit 13 of the capabilities register |
| HpetDevice.Hpet.RevisionId | src/hpet.rs:71-73 | bits 7..0 of the capabilities register |
| HpetDevice.Hpet.GetEnable | src/hpet.rs:75-77 | bit 0 of the configuration register |
| HpetDevice.Hpet.SetEnable | src/hpet.rs:79-84 | afterwards `get_enable` returns the value written, every other configuration bit is as before, and no other register changes |
| HpetDevice.Hpet.MainCounterValue | src/hpet.rs:87-89 | the main counter register |
| HpetDevice.Hpet.SetMainCounterValue | src/hpet.rs:91-100 | refused exactly when the HPET is enabled, and then the counter is unchanged; otherwise the counter reads back the value written |
| HpetDevice.Hpet.GetLegacyReplacementEnabled | src/hpet.rs:102-108 | bit 1 of the configuration register |
| HpetDevice.Hpet.Timers | src/hpet.rs:110-115 | a fresh iterator over this HPET, at timer 0 |
| HpetDevice.Hpet.Timer | src/hpet.rs:117-122 | a read-only view of timer `index` exactly when `index` < `timers_count()`, otherwise the out-of-range error |
| HpetDevice.Hpet.TimerMut | src/hpet.rs:124-132 | a writable view of timer `index` exactly when `index` < `timers_count()`, otherwise the out-of-range error |
| HpetDevice.Hpet.AllTimers | src/hpet.rs:110-115 | draining `timers()` yields exactly `timers_count()` views, the i-th being `timer(i)`, all of them valid |
| HpetDevice.HpetTimersIterator.constructor | src/hpet.rs:110-115 | the iterator starts at index 0 |
| HpetDevice.HpetTimersIterator.Next | src/hpet.rs:152-166 | below `timers_count()`, yields the view of the current index and advances by one; otherwise yields nothing and stays |
| HpetDevice.TimerView.SupportedIoApicInterrupts | src/hpet.rs:281-286 | bits 63..32 of the timer's configuration register |
| HpetDevice.TimerView.SupportsFsbInterrupts | src/hpet.rs:288-293 | bit 15 of the timer's configuration register |
| HpetDevice.TimerView.Supports64BitMode | src/hpet.rs:295-300 | bit 5 of the timer's configuration register |
| HpetDevice.TimerView.SupportsPeriodicMode | src/hpet.rs:302-307 | bit 4 of the timer's configuration register |
| HpetDevice.TimerView.CurrentInterruptMode | src/hpet.rs:309-320 | FSB exactly when bit 14 of the timer's configuration register is set, the I/O APIC otherwise |
| HpetDevice.InterruptModeOf | src/hpet.rs:309-320 | FSB exactly when Tn_FSB_EN_CNF is set |
| HpetDevice.RouteCapHasBit | src/hpet.rs:239 | the test `cap & (1 << irq)` reads bit `irq` of the route capability |
| HpetDevice.IoApicRouteUpdate | src/hpet.rs:234-245 | a refusal is the shift overflow for an IRQ of 32 or more, and the unsupported-IRQ panic otherwise |
| HpetDevice.ClearFsbKeepsRouteCap | src/hpet.rs:238-239 | clearing Tn_FSB_EN_CNF does not change the route capability the closure then tests |
| HpetDevice.IoApicRouteUpdateAccepts | src/hpet.rs:234-245 | the I/O APIC closure succeeds exactly for an IRQ below 32 whose bit is set in the timer's route capability |
| HpetDevice.IoApicRouteUpdateRoutes | src/hpet.rs:242 | on success the route field holds the requested IRQ |
| HpetDevice.IoApicRouteUpdateLeavesFsb | src/hpet.rs:238 | on success the timer delivers through the I/O APIC |
| HpetDevice.ClearThenRouteFrame | src/hpet.rs:238-242 | clearing bit 14 and writing the route field changes no bit outside 14..9 |
| HpetDevice.IoApicRouteUpdateFrame | src/hpet.rs:234-245 | on success no bit outside 14..9 of the configuration register changes |
| HpetDevice.ClearThenRouteKeepsCapabilities | src/hpet.rs:238-242 | clearing bit 14 and writing the route field keeps the read-only capability bits |
| HpetDevice.IoApicRouteUpdateKeepsCapabilities | src/hpet.rs:234-245 | on success the timer's capability bits are unchanged |
| HpetDevice.FsbEnableUpdate | src/hpet.rs:246-255 | the FSB closure succeeds exactly when the timer supports FSB delivery, and otherwise panics with the FSB message |
| HpetDevice.FsbEnableUpdateSelects | src/hpet.rs:253 | on success the timer delivers FSB messages and no other bit changes |
| HpetDevice.EnableFsbKeepsCapabilities | src/hpet.rs:253 | setting bit 14 keeps the read-only capability bits |
| HpetDevice.FsbEnableUpdateKeepsCapabilities | src/hpet.rs:246-255 | on success the timer's capability bits are unchanged |
| HpetDevice.ConfigureInterruptSpec | src/hpet.rs:232-259 | the comparator is never touched; the I/O APIC arm keeps the FSB route, the FSB arm stores the requested route |
| HpetDevice.ConfigureInterruptAccepts | src/hpet.rs:232-259 | configuring succeeds exactly when the timer supports the requested delivery: an IRQ below 32 in its route capability, or FSB capability |
| HpetDevice.ConfigureIoApicDelivers | src/hpet.rs:234-245 | after an I/O APIC configuration the timer delivers through the I/O APIC to the requested IRQ |
| HpetDevice.ConfigureFsbDelivers | src/hpet.rs:246-257 | after an FSB configuration the timer delivers FSB messages |
| HpetDevice.ConfigureIoApicKeepsCapabilities | src/hpet.rs:234-245 | I/O APIC configuration never changes what the timer reports it can do |
| HpetDevice.ConfigureFsbKeepsCapabilities | src/hpet.rs:246-257 | FSB configuration never changes what the timer reports it can do |
| HpetDevice.ConfigureInterruptKeepsCapabilities | src/hpet.rs:232-259 | configuring an interrupt never changes what the timer reports it can do |
| HpetDevice.TimerView.ConfigureInterrupt | src/hpet.rs:232-259 | succeeds exactly when the closure does; on success only this timer's block changes, as the specification function says; on a refusal nothing is written |
| HpetDevice.TimerView.SetInterruptEnable | src/hpet.rs:261-268 | Tn_INT_ENB_CNF reads back the value written, no other bit of the register and no other block changes |
| HpetDevice.TimerView.SetComparatorValue | src/hpet.rs:270-274 | only this timer's comparator changes, to the value written |
| HpetDevice.IoApicRouteUpdateRelease | src/hpet.rs:239 | with overflow checks off, the only refusal is the unsupported-IRQ panic |
| HpetDevice.ReleaseAgreesBelow32 | src/hpet.rs:239 | for an IRQ below 32 the release and debug closures agree |
| HpetDevice.ReleaseRoutesIrq33ToInput1 | src/hpet.rs:239-242 | for route capability 0b10, IRQ 33 is accepted and routed to input 1 in a release build, and refused in a debug build |

## Left out

- `Hpet::new`: turning an address into a volatile reference is not modelled. The constructor takes the register values instead.
- Volatile access: every read returns what was last written. Hardware side effects are not modelled: the counter incrementing, status bits set by the device, the write-1-to-clear behaviour of Tn_INT_STS (`SetTnIntSts` is a plain bit store), Tn_VAL_SET_CNF self-clearing, and read-only bits that ignore writes.
- Borrowing and lifetimes: `HpetTimerMut` taking `&mut self` is not modelled. Its methods may modify the timer array of the `Hpet` it refers to.
- The `Debug` implementations are not modelled, since they only format values. `AllTimers` models the one thing they do with `timers()`: drain it.
- The reserved padding of `HpetMemory` and the reserved word of `HpetTimerMemory` are layout fields only, never data.
- `lib.rs` only re-exports the two modules, so it has nothing to model.
- `HpetTimerRef` is a trait in the source. Both views are one datatype here, so its default methods are defined once.
- MmioInterruptStatus.GetTnIntSts: an index of 32 or more fails the crate's index assertion (a panic). It is modelled as a precondition, because no caller in the driver indexes the status register.
- MmioInterruptStatus.SetTnIntSts: same precondition, for the same reason.
- HpetDevice.TimerView.ConfigureInterrupt: the two writes of the FSB arm are modelled in order, but nothing can observe the state between them.

## Findings

| source | as written | input that shows it | evidently intended | confidence | as-written member | corrected member |
|---|---|---|---|---|---|---|
| src/hpet.rs:239 | `1 << irq` on a `u32` with an IRQ of 32 or more: a debug build panics with a shift overflow, and a release build shifts by `irq & 31`. The route field then keeps `irq & 0x1F` | route capability 0b10 (configuration register 0x2_0000_0000), `IoApic(33)`: a release build accepts it and routes the timer to input 1 | IRQs of 32 or more are refused as unsupported, since no timer can route to them | medium, not executed | HpetDevice.ReleaseRoutesIrq33ToInput1 | HpetDevice.IoApicRouteUpdateAccepts |
