/** The device handles of src/hpet.rs: `Hpet` over the mapped register block, the
    timer views `HpetTimer` and `HpetTimerMut`, and the `timers()` iterator.

    The register block is a class whose fields are the registers; the read-only
    capabilities register and the array of timer blocks never change identity, so
    they are constants. A Rust panic becomes an `Err` result that leaves every
    register as it was: in the source each panic happens inside a volatile
    `update` closure or before any write, so nothing has been written yet. */
module HpetDevice {
  import B = MmioBits
  import Caps = MmioCapabilities
  import Cnf = MmioConfiguration
  import Tmr = MmioTimerConfig
  import Layout = MmioLayout

  /** A Rust `u8` used as a count or an index. */
  type Index = i: int | 0 <= i < 0x100

  datatype Option<T> = None | Some(value: T)

  /** The panics of src/hpet.rs, one per message. */
  datatype HpetError =
    | CounterWriteWhileEnabled
    | TimerIndexOutOfRange
    | IrqShiftOverflow
    | UnsupportedIrq
    | FsbUnsupported

  datatype Result<T> = Ok(value: T) | Err(error: HpetError)

  /** One `HpetTimerMemory` block; the reserved word after the FSB route is not
      modelled. */
  datatype TimerMemory = TimerMemory(config: bv64, comparator: bv64, fsbRoute: bv64)

  /** How a timer's interrupt is to be delivered: to an I/O APIC input, or as an
      FSB message whose address and value the route register holds. */
  datatype InterruptConfig = IoApic(irq: B.u8) | Fsb(route: bv64)

  /** How a timer's interrupt is currently delivered. */
  datatype InterruptMode = IoApic | Fsb

  /** `interrupt_mode` on a configuration register value: FSB delivery exactly
      when Tn_FSB_EN_CNF is set. */
  function InterruptModeOf(config: bv64): (r: InterruptMode)
    ensures r == InterruptMode.Fsb <==> config & 0x4000 != 0
  {
    if Tmr.GetFsbEnCnf(config) then InterruptMode.Fsb else InterruptMode.IoApic
  }

  // -------------------------------------------------------------------------
  // `configure_interrupt`, as a transition of one timer block
  // -------------------------------------------------------------------------

  /** The test `cap & (1 << irq) != 0` on the `u32` route capability, for a
      shift amount that does not overflow. */
  predicate RouteCapHas(cap: B.u32, irq: B.u8)
    requires irq < 32
  {
    cap & (1 << irq) != 0
  }

  /** The test reads bit `irq` of the capability. */
  lemma RouteCapHasBit(cap: B.u32, irq: B.u8)
    requires irq < 32
    ensures RouteCapHas(cap, irq) == B.BitSet(cap, irq)
  {
  }

  /** The closure the I/O APIC arm hands to `update`, in a debug build: clear
      FSB delivery, panic on an IRQ whose `1 << irq` overflows a `u32` or that
      the timer cannot route, then select the IRQ. */
  function IoApicRouteUpdate(config: bv64, irq: B.u8): (r: Result<bv64>)
    ensures r.Err? ==> r.error == (if irq >= 32 then IrqShiftOverflow else UnsupportedIrq)
  {
    var cleared := Tmr.SetFsbEnCnf(config, false);
    if irq >= 32 then Err(IrqShiftOverflow)
    else if !RouteCapHas(Tmr.GetIntRouteCap(cleared), irq) then Err(UnsupportedIrq)
    else Ok(Tmr.SetIntRouteCnf(cleared, irq))
  }

  /** Clearing FSB delivery leaves the route capability as it was. */
  lemma ClearFsbKeepsRouteCap(config: bv64)
    ensures Tmr.GetIntRouteCap(Tmr.SetFsbEnCnf(config, false)) == Tmr.GetIntRouteCap(config)
  {
  }

  /** The update is accepted exactly for an IRQ below 32 that the timer's route
      capability lists; clearing FSB delivery first does not change the
      capability the closure tests. */
  lemma IoApicRouteUpdateAccepts(config: bv64, irq: B.u8)
    ensures IoApicRouteUpdate(config, irq).Ok? <==>
      irq < 32 && RouteCapHas(Tmr.GetIntRouteCap(config), irq)
  {
    ClearFsbKeepsRouteCap(config);
  }

  /** A successful I/O APIC update selects exactly the requested input. */
  lemma IoApicRouteUpdateRoutes(config: bv64, irq: B.u8)
    requires IoApicRouteUpdate(config, irq).Ok?
    ensures Tmr.GetIntRouteCnf(IoApicRouteUpdate(config, irq).value) == irq
  {
  }

  /** A successful I/O APIC update turns FSB delivery off. */
  lemma IoApicRouteUpdateLeavesFsb(config: bv64, irq: B.u8)
    requires IoApicRouteUpdate(config, irq).Ok?
    ensures InterruptModeOf(IoApicRouteUpdate(config, irq).value) == InterruptMode.IoApic
  {
  }

  /** Clearing bit 14 and then rewriting bits 13..9 changes no bit outside
      14..9. */
  lemma ClearThenRouteFrame(config: bv64, irq: B.u8)
    requires irq < 32
    ensures Tmr.SetIntRouteCnf(Tmr.SetFsbEnCnf(config, false), irq) & !0x7E00 == config & !0x7E00
  {
  }

  /** A successful I/O APIC update touches no bit outside bits 14..9
      (Tn_FSB_EN_CNF and Tn_INT_ROUTE_CNF). */
  lemma IoApicRouteUpdateFrame(config: bv64, irq: B.u8)
    requires IoApicRouteUpdate(config, irq).Ok?
    ensures IoApicRouteUpdate(config, irq).value & !0x7E00 == config & !0x7E00
  {
    ClearThenRouteFrame(config, irq);
  }

  /** Clearing bit 14 and then rewriting bits 13..9 leaves the read-only
      capability bits as they were. */
  lemma ClearThenRouteKeepsCapabilities(config: bv64, irq: B.u8)
    requires irq < 32
    ensures Tmr.SameCapabilityBits(Tmr.SetIntRouteCnf(Tmr.SetFsbEnCnf(config, false), irq), config)
  {
  }

  /** A successful I/O APIC update leaves the read-only capability bits as they
      were. */
  lemma IoApicRouteUpdateKeepsCapabilities(config: bv64, irq: B.u8)
    requires IoApicRouteUpdate(config, irq).Ok?
    ensures Tmr.SameCapabilityBits(IoApicRouteUpdate(config, irq).value, config)
  {
    ClearThenRouteKeepsCapabilities(config, irq);
  }

  /** The closure the FSB arm hands to `update`: panic unless the timer can
      deliver FSB messages, then enable FSB delivery. */
  function FsbEnableUpdate(config: bv64): (r: Result<bv64>)
    ensures r.Ok? <==> Tmr.GetFsbIntDelCap(config)
    ensures r.Err? ==> r.error == FsbUnsupported
  {
    if !Tmr.GetFsbIntDelCap(config) then Err(FsbUnsupported)
    else Ok(Tmr.SetFsbEnCnf(config, true))
  }

  /** A successful FSB update turns FSB delivery on and changes nothing else. */
  lemma FsbEnableUpdateSelects(config: bv64)
    requires FsbEnableUpdate(config).Ok?
    ensures InterruptModeOf(FsbEnableUpdate(config).value) == InterruptMode.Fsb
    ensures FsbEnableUpdate(config).value & !0x4000 == config & !0x4000
  {
  }

  /** What `configure_interrupt` does to the timer's block: the I/O APIC arm
      rewrites the configuration register only; the FSB arm rewrites the
      configuration register and then the FSB route register. */
  function ConfigureInterruptSpec(t: TimerMemory, c: InterruptConfig): (r: Result<TimerMemory>)
    ensures r.Ok? ==> r.value.comparator == t.comparator
    ensures r.Ok? && c.IoApic? ==> r.value.fsbRoute == t.fsbRoute
    ensures r.Ok? && c.Fsb? ==> r.value.fsbRoute == c.route
  {
    match c
    case IoApic(irq) =>
      (match IoApicRouteUpdate(t.config, irq)
       case Ok(config) => Ok(t.(config := config))
       case Err(e) => Err(e))
    case Fsb(route) =>
      (match FsbEnableUpdate(t.config)
       case Ok(config) => Ok(t.(config := config, fsbRoute := route))
       case Err(e) => Err(e))
  }

  /** Configuring an interrupt succeeds exactly when the timer supports the
      requested delivery. */
  lemma ConfigureInterruptAccepts(t: TimerMemory, c: InterruptConfig)
    ensures ConfigureInterruptSpec(t, c).Ok? <==>
      match c
      case IoApic(irq) => irq < 32 && RouteCapHas(Tmr.GetIntRouteCap(t.config), irq)
      case Fsb(_) => Tmr.GetFsbIntDelCap(t.config)
  {
    if c.IoApic? {
      IoApicRouteUpdateAccepts(t.config, c.irq);
    }
  }

  /** After a successful I/O APIC configuration the timer delivers through the
      I/O APIC, to the requested input. */
  lemma ConfigureIoApicDelivers(t: TimerMemory, irq: B.u8)
    requires ConfigureInterruptSpec(t, InterruptConfig.IoApic(irq)).Ok?
    ensures InterruptModeOf(ConfigureInterruptSpec(t, InterruptConfig.IoApic(irq)).value.config) == InterruptMode.IoApic
    ensures Tmr.GetIntRouteCnf(ConfigureInterruptSpec(t, InterruptConfig.IoApic(irq)).value.config) == irq
  {
    IoApicRouteUpdateRoutes(t.config, irq);
    IoApicRouteUpdateLeavesFsb(t.config, irq);
  }

  /** After a successful FSB configuration the timer delivers FSB messages. */
  lemma ConfigureFsbDelivers(t: TimerMemory, route: bv64)
    requires ConfigureInterruptSpec(t, InterruptConfig.Fsb(route)).Ok?
    ensures InterruptModeOf(ConfigureInterruptSpec(t, InterruptConfig.Fsb(route)).value.config) == InterruptMode.Fsb
  {
    FsbEnableUpdateSelects(t.config);
  }

  /** A successful FSB update leaves the read-only capability bits as they
      were. */
  lemma FsbEnableUpdateKeepsCapabilities(config: bv64)
    requires FsbEnableUpdate(config).Ok?
    ensures Tmr.SameCapabilityBits(FsbEnableUpdate(config).value, config)
  {
    EnableFsbKeepsCapabilities(config);
  }

  /** Setting bit 14 leaves the read-only capability bits as they were. */
  lemma EnableFsbKeepsCapabilities(config: bv64)
    ensures Tmr.SameCapabilityBits(Tmr.SetFsbEnCnf(config, true), config)
  {
  }

  /** Configuring I/O APIC delivery never changes what the timer reports it can
      do. */
  lemma ConfigureIoApicKeepsCapabilities(t: TimerMemory, irq: B.u8)
    requires ConfigureInterruptSpec(t, InterruptConfig.IoApic(irq)).Ok?
    ensures Tmr.SameCapabilityBits(ConfigureInterruptSpec(t, InterruptConfig.IoApic(irq)).value.config, t.config)
  {
    IoApicRouteUpdateKeepsCapabilities(t.config, irq);
  }

  /** Configuring FSB delivery never changes what the timer reports it can do. */
  lemma ConfigureFsbKeepsCapabilities(t: TimerMemory, route: bv64)
    requires ConfigureInterruptSpec(t, InterruptConfig.Fsb(route)).Ok?
    ensures Tmr.SameCapabilityBits(ConfigureInterruptSpec(t, InterruptConfig.Fsb(route)).value.config, t.config)
  {
    FsbEnableUpdateKeepsCapabilities(t.config);
  }

  /** Configuring an interrupt never changes what the timer reports it can do. */
  lemma ConfigureInterruptKeepsCapabilities(t: TimerMemory, c: InterruptConfig)
    requires ConfigureInterruptSpec(t, c).Ok?
    ensures Tmr.SameCapabilityBits(ConfigureInterruptSpec(t, c).value.config, t.config)
  {
    match c
    case IoApic(irq) => ConfigureIoApicKeepsCapabilities(t, irq);
    case Fsb(route) => ConfigureFsbKeepsCapabilities(t, route);
  }

  // -------------------------------------------------------------------------
  // The shift in the I/O APIC arm when overflow checks are off
  // -------------------------------------------------------------------------

  /** The I/O APIC closure as a release build runs it: `1 << irq` on a `u32`
      shifts by `irq & 31` instead of panicking, so an IRQ of 32 or more is
      tested against another input's capability bit and the route field keeps
      only its low five bits. */
  function IoApicRouteUpdateRelease(config: bv64, irq: B.u8): (r: Result<bv64>)
    ensures r.Err? ==> r.error == UnsupportedIrq
  {
    var cleared := Tmr.SetFsbEnCnf(config, false);
    if !RouteCapHas(Tmr.GetIntRouteCap(cleared), irq & 31) then Err(UnsupportedIrq)
    else Ok(Tmr.SetIntRouteCnf(cleared, irq))
  }

  /** For the IRQs the shift can express, both builds behave alike. */
  lemma ReleaseAgreesBelow32(config: bv64, irq: B.u8)
    requires irq < 32
    ensures IoApicRouteUpdateRelease(config, irq) == IoApicRouteUpdate(config, irq)
  {
  }

  /** A timer that can only be routed to input 1, asked for IRQ 33: the release
      closure accepts and routes to input 1, where the debug closure refuses. */
  lemma ReleaseRoutesIrq33ToInput1()
    ensures IoApicRouteUpdateRelease(0x2_0000_0000, 33).Ok?
    ensures Tmr.GetIntRouteCnf(IoApicRouteUpdateRelease(0x2_0000_0000, 33).value) == 1
    ensures IoApicRouteUpdate(0x2_0000_0000, 33) == Err(IrqShiftOverflow)
  {
  }

  // -------------------------------------------------------------------------
  // `Hpet`: the register block
  // -------------------------------------------------------------------------

  /** The HPET's memory-mapped registers. The capabilities register is
      read-only and the timer blocks stay at the same place, so both are
      constants; the other registers are fields the methods rewrite. */
  class Hpet {
    const capabilities: bv64
    var config: bv64
    var interruptStatus: bv64
    var mainCounter: bv64
    const timers: array<TimerMemory>

    /** The block has room for all 32 timers the layout reserves. */
    predicate Valid()
    {
      timers.Length == Layout.TimerSlots
    }

    /** A register block holding the given register values. */
    constructor(capabilities: bv64, config: bv64, interruptStatus: bv64, mainCounter: bv64,
                blocks: seq<TimerMemory>)
      requires |blocks| == Layout.TimerSlots
      ensures Valid()
      ensures this.capabilities == capabilities && this.config == config
      ensures this.interruptStatus == interruptStatus && this.mainCounter == mainCounter
      ensures timers[..] == blocks && fresh(timers)
    {
      this.capabilities := capabilities;
      this.config := config;
      this.interruptStatus := interruptStatus;
      this.mainCounter := mainCounter;
      timers := new TimerMemory[|blocks|](i requires 0 <= i < |blocks| => blocks[i]);
    }

    function VendorId(): (r: B.u16)
      ensures r == (capabilities & 0xFFFF_0000) >> 16
    {
      Caps.GetVendorId(capabilities)
    }

    /** NUM_TIM_CAP is the index of the last timer, so there are between 1 and
        32 timers and every one of them has a block. */
    function TimersCount(): (r: Index)
      ensures r == Caps.DecodeCapabilities(capabilities).numTimCap as int + 1
      ensures 1 <= r <= Layout.TimerSlots
    {
      Caps.GetNumTimCap(capabilities) as int + 1
    }

    /** Main counter tick period in femtoseconds. */
    function MainCounterTickPeriod(): (r: B.u32)
      ensures r == capabilities >> 32
    {
      Caps.GetCounterClkPeriod(capabilities)
    }

    function LegacyReplacementCapable(): (r: bool)
      ensures r <==> capabilities & 0x8000 != 0
    {
      Caps.GetLegRtCap(capabilities)
    }

    function Supports64BitMode(): (r: bool)
      ensures r <==> capabilities & 0x2000 != 0
    {
      Caps.GetCountSizeCap(capabilities)
    }

    function RevisionId(): (r: B.u8)
      ensures r == capabilities & 0xFF
    {
      Caps.GetRevId(capabilities)
    }

    function GetEnable(): (r: bool)
      reads this
      ensures r <==> config & 0x1 != 0
    {
      Cnf.GetEnableCnf(config)
    }

    /** Read-modify-write of ENABLE_CNF; every other configuration bit is
        written back as it was read. */
    method SetEnable(enable: bool)
      modifies this`config
      ensures config == Cnf.SetEnableCnf(old(config), enable)
      ensures GetEnable() == enable
      ensures config & !0x1 == old(config) & !0x1
    {
      config := Cnf.SetEnableCnf(config, enable);
    }

    function MainCounterValue(): (r: bv64)
      reads this
      ensures r == mainCounter
    {
      mainCounter
    }

    /** Writing the main counter while the HPET is enabled is refused (a panic
        in the source) and writes nothing. */
    method SetMainCounterValue(value: bv64) returns (r: Result<()>)
      modifies this`mainCounter
      ensures r.Err? <==> old(GetEnable())
      ensures r.Err? ==> r.error == CounterWriteWhileEnabled && mainCounter == old(mainCounter)
      ensures r.Ok? ==> MainCounterValue() == value
    {
      if GetEnable() {
        return Err(CounterWriteWhileEnabled);
      }
      mainCounter := value;
      r := Ok(());
    }

    function GetLegacyReplacementEnabled(): (r: bool)
      reads this
      ensures r <==> config & 0x2 != 0
    {
      Cnf.GetLegacyReplacementCnf(config)
    }

    /** A fresh iterator over the timers, starting at timer 0. */
    method Timers() returns (it: HpetTimersIterator)
      ensures fresh(it) && it.hpet == this && it.index == 0
    {
      it := new HpetTimersIterator(this);
    }

    /** The read-only view of timer `index`, which must be one of the timers the
        HPET has. */
    function Timer(index: Index): (r: Result<TimerView>)
      ensures r.Ok? <==> index < TimersCount()
      ensures r.Ok? ==> r.value.HpetTimer? && r.value.hpet == this && r.value.index == index
      ensures r.Err? ==> r.error == TimerIndexOutOfRange
    {
      if index >= TimersCount() then Err(TimerIndexOutOfRange) else Ok(HpetTimer(this, index))
    }

    /** The writable view of timer `index`, under the same condition. */
    function TimerMut(index: Index): (r: Result<TimerView>)
      ensures r.Ok? <==> index < TimersCount()
      ensures r.Ok? ==> r.value.HpetTimerMut? && r.value.hpet == this && r.value.index == index
      ensures r.Err? ==> r.error == TimerIndexOutOfRange
    {
      if index >= TimersCount() then Err(TimerIndexOutOfRange) else Ok(HpetTimerMut(this, index))
    }

    /** Drains a fresh `timers()` iterator: it yields the view of every timer
        the HPET has, in order, each the one `timer` gives for that index. */
    method AllTimers() returns (ts: seq<TimerView>)
      requires Valid()
      ensures |ts| == TimersCount()
      ensures forall i: Index :: i < |ts| ==> Timer(i) == Ok(ts[i])
      ensures forall t :: t in ts ==> t.Valid()
    {
      var it := Timers();
      ts := [];
      var next := it.Next();
      while next.Some?
        invariant it.hpet == this && it.index <= TimersCount()
        invariant |ts| + (if next.Some? then 1 else 0) == it.index
        invariant next.Some? ==> next.value == HpetTimer(this, |ts|)
        invariant next.None? ==> it.index == TimersCount()
        invariant forall i: Index :: i < |ts| ==> ts[i] == HpetTimer(this, i)
        decreases TimersCount() - it.index, next.Some?
      {
        ts := ts + [next.value];
        next := it.Next();
      }
    }
  }

  // -------------------------------------------------------------------------
  // `timers()`
  // -------------------------------------------------------------------------

  /** The iterator `timers()` returns: the next index to yield. */
  class HpetTimersIterator {
    const hpet: Hpet
    var index: Index

    constructor(hpet: Hpet)
      ensures this.hpet == hpet && index == 0
    {
      this.hpet := hpet;
      index := 0;
    }

    /** Yields the view of the next timer while there is one, else nothing. */
    method Next() returns (t: Option<TimerView>)
      modifies this`index
      ensures old(index) < hpet.TimersCount() ==>
        t == Some(HpetTimer(hpet, old(index))) && index == old(index) + 1
      ensures old(index) >= hpet.TimersCount() ==> t == None && index == old(index)
    {
      if index < hpet.TimersCount() {
        t := Some(HpetTimer(hpet, index));
        index := index + 1;
      } else {
        t := None;
      }
    }
  }

  // -------------------------------------------------------------------------
  // `HpetTimer`, `HpetTimerMut` and `HpetTimerRef`
  // -------------------------------------------------------------------------

  /** A view of one timer: `HpetTimer` reads it, `HpetTimerMut` may also write
      it. The `HpetTimerRef` getters are shared by both. */
  datatype TimerView =
    | HpetTimer(hpet: Hpet, index: Index)
    | HpetTimerMut(hpet: Hpet, index: Index)
  {
    /** Views are only made for timers the HPET has. */
    predicate Valid()
    {
      hpet.Valid() && index < hpet.TimersCount()
    }

    /** The timer's configuration and capability register. */
    function Register(): bv64
      requires Valid()
      reads hpet.timers
    {
      hpet.timers[index].config
    }

    function SupportedIoApicInterrupts(): (r: B.u32)
      requires Valid()
      reads hpet.timers
      ensures r == Register() >> 32
    {
      Tmr.GetIntRouteCap(Register())
    }

    function SupportsFsbInterrupts(): (r: bool)
      requires Valid()
      reads hpet.timers
      ensures r <==> Register() & 0x8000 != 0
    {
      Tmr.GetFsbIntDelCap(Register())
    }

    function Supports64BitMode(): (r: bool)
      requires Valid()
      reads hpet.timers
      ensures r <==> Register() & 0x20 != 0
    {
      Tmr.GetSizeCap(Register())
    }

    function SupportsPeriodicMode(): (r: bool)
      requires Valid()
      reads hpet.timers
      ensures r <==> Register() & 0x10 != 0
    {
      Tmr.GetPerIntCap(Register())
    }

    function CurrentInterruptMode(): (r: InterruptMode)
      requires Valid()
      reads hpet.timers
      ensures r == InterruptMode.Fsb <==> Register() & 0x4000 != 0
    {
      InterruptModeOf(Register())
    }

    /** `configure_interrupt`: on success the timer's block becomes what
        `ConfigureInterruptSpec` gives and no other block changes; on a refusal
        nothing is written. */
    method ConfigureInterrupt(c: InterruptConfig) returns (r: Result<()>)
      requires HpetTimerMut? && Valid()
      modifies hpet.timers
      ensures r.Ok? <==> ConfigureInterruptSpec(old(hpet.timers[index]), c).Ok?
      ensures r.Err? ==> r.error == ConfigureInterruptSpec(old(hpet.timers[index]), c).error
      ensures r.Err? ==> hpet.timers[..] == old(hpet.timers[..])
      ensures r.Ok? ==> (hpet.timers[..] ==
        old(hpet.timers[..])[index := ConfigureInterruptSpec(old(hpet.timers[index]), c).value])
    {
      var block := hpet.timers[index];
      match c
      case IoApic(irq) =>
        var update := IoApicRouteUpdate(block.config, irq);
        if update.Err? {
          return Err(update.error);
        }
        hpet.timers[index] := block.(config := update.value);
        r := Ok(());
      case Fsb(route) =>
        var update := FsbEnableUpdate(block.config);
        if update.Err? {
          return Err(update.error);
        }
        hpet.timers[index] := block.(config := update.value);
        hpet.timers[index] := hpet.timers[index].(fsbRoute := route);
        r := Ok(());
    }

    /** `set_interrupt_enable`: read-modify-write of Tn_INT_ENB_CNF. */
    method SetInterruptEnable(enable: bool)
      requires HpetTimerMut? && Valid()
      modifies hpet.timers
      ensures hpet.timers[..] == old(hpet.timers[..])[index :=
        old(hpet.timers[index]).(config := Tmr.SetIntEnbCnf(old(hpet.timers[index].config), enable))]
      ensures Tmr.GetIntEnbCnf(Register()) == enable
      ensures Register() & !0x4 == old(Register()) & !0x4
    {
      var block := hpet.timers[index];
      hpet.timers[index] := block.(config := Tmr.SetIntEnbCnf(block.config, enable));
    }

    /** `set_comparator_value`: a plain write of the comparator register. */
    method SetComparatorValue(value: bv64)
      requires HpetTimerMut? && Valid()
      modifies hpet.timers
      ensures hpet.timers[..] == old(hpet.timers[..])[index := old(hpet.timers[index]).(comparator := value)]
    {
      hpet.timers[index] := hpet.timers[index].(comparator := value);
    }
  }
}
