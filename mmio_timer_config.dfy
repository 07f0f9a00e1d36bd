/** Timer N Configuration and Capability Register (section 2.3.8 of the IA-PC
    HPET Specification rev 1.0a). */
module MmioTimerConfig {
  import opened MmioBits

  /** Tn_INT_ROUTE_CAP, the supported I/O APIC lines: bits 63..32. */
  function GetIntRouteCap(x: bv64): (r: u32)
    ensures r == (x & 0xFFFF_FFFF_0000_0000) >> 32
  {
    x >> 32
  }

  /** Tn_FSB_INT_DEL_CAP: bit 15. */
  function GetFsbIntDelCap(x: bv64): (r: bool)
    ensures r <==> x & 0x8000 != 0
  {
    (x << 48) >> 63 != 0
  }

  /** Tn_FSB_EN_CNF: bit 14. */
  function GetFsbEnCnf(x: bv64): (r: bool)
    ensures r <==> x & 0x4000 != 0
  {
    (x << 49) >> 63 != 0
  }

  function SetFsbEnCnf(x: bv64, b: bool): (r: bv64)
    ensures GetFsbEnCnf(r) == b
    ensures r & !0x4000 == x & !0x4000
  {
    (x & !0x4000) | (((if b then 1 else 0) << 14) & 0x4000)
  }

  /** Tn_INT_ROUTE_CNF, the selected I/O APIC line: bits 13..9. */
  function GetIntRouteCnf(x: bv64): (r: u8)
    ensures r == (x & 0x3E00) >> 9
    ensures r < 32
  {
    (x << 50) >> 59
  }

  /** Stores the low five bits of `v`; a value below 32 is stored exactly. */
  function SetIntRouteCnf(x: bv64, v: u8): (r: bv64)
    ensures GetIntRouteCnf(r) == v & 0x1F
    ensures v < 32 ==> GetIntRouteCnf(r) == v
    ensures r & !0x3E00 == x & !0x3E00
  {
    (x & !0x3E00) | ((v << 9) & 0x3E00)
  }

  /** Tn_32MODE_CNF: bit 8. */
  function Get32ModeCnf(x: bv64): (r: bool)
    ensures r <==> x & 0x100 != 0
  {
    (x << 55) >> 63 != 0
  }

  function Set32ModeCnf(x: bv64, b: bool): (r: bv64)
    ensures Get32ModeCnf(r) == b
    ensures r & !0x100 == x & !0x100
  {
    (x & !0x100) | (((if b then 1 else 0) << 8) & 0x100)
  }

  /** Tn_VAL_SET_CNF: bit 6. */
  function GetValSetCnf(x: bv64): (r: bool)
    ensures r <==> x & 0x40 != 0
  {
    (x << 57) >> 63 != 0
  }

  function SetValSetCnf(x: bv64, b: bool): (r: bv64)
    ensures GetValSetCnf(r) == b
    ensures r & !0x40 == x & !0x40
  {
    (x & !0x40) | (((if b then 1 else 0) << 6) & 0x40)
  }

  /** Tn_SIZE_CAP, the timer is 64 bits wide: bit 5. */
  function GetSizeCap(x: bv64): (r: bool)
    ensures r <==> x & 0x20 != 0
  {
    (x << 58) >> 63 != 0
  }

  /** Tn_PER_INT_CAP, periodic mode supported: bit 4. */
  function GetPerIntCap(x: bv64): (r: bool)
    ensures r <==> x & 0x10 != 0
  {
    (x << 59) >> 63 != 0
  }

  /** Tn_TYPE_CNF, periodic mode enabled: bit 3. */
  function GetTypeCnf(x: bv64): (r: bool)
    ensures r <==> x & 0x8 != 0
  {
    (x << 60) >> 63 != 0
  }

  function SetTypeCnf(x: bv64, b: bool): (r: bv64)
    ensures GetTypeCnf(r) == b
    ensures r & !0x8 == x & !0x8
  {
    (x & !0x8) | (((if b then 1 else 0) << 3) & 0x8)
  }

  /** Tn_INT_ENB_CNF, interrupt enabled: bit 2. */
  function GetIntEnbCnf(x: bv64): (r: bool)
    ensures r <==> x & 0x4 != 0
  {
    (x << 61) >> 63 != 0
  }

  function SetIntEnbCnf(x: bv64, b: bool): (r: bv64)
    ensures GetIntEnbCnf(r) == b
    ensures r & !0x4 == x & !0x4
  {
    (x & !0x4) | (((if b then 1 else 0) << 2) & 0x4)
  }

  /** Tn_INT_TYPE_CNF, level (rather than edge) triggered: bit 1. */
  function GetIntTypeCnf(x: bv64): (r: bool)
    ensures r <==> x & 0x2 != 0
  {
    (x << 62) >> 63 != 0
  }

  function SetIntTypeCnf(x: bv64, b: bool): (r: bv64)
    ensures GetIntTypeCnf(r) == b
    ensures r & !0x2 == x & !0x2
  {
    (x & !0x2) | (((if b then 1 else 0) << 1) & 0x2)
  }

  /** The fields of a timer's configuration and capability register, decoded. */
  datatype TimerConfig = TimerConfig(
    intRouteCap: u32,
    fsbIntDelCap: bool,
    fsbEnCnf: bool,
    intRouteCnf: u8,
    mode32Cnf: bool,
    valSetCnf: bool,
    sizeCap: bool,
    perIntCap: bool,
    typeCnf: bool,
    intEnbCnf: bool,
    intTypeCnf: bool)
  {
    /** Tn_INT_ROUTE_CNF is a five-bit field. */
    predicate Valid() { intRouteCnf < 32 }
  }

  function EncodeTimerConfig(c: TimerConfig): (x: bv64)
    requires c.Valid()
    ensures x & 0x0000_0000_FFFF_0081 == 0
  {
    (c.intRouteCap << 32)
    | (if c.fsbIntDelCap then 0x8000 else 0)
    | (if c.fsbEnCnf then 0x4000 else 0)
    | (c.intRouteCnf << 9)
    | (if c.mode32Cnf then 0x100 else 0)
    | (if c.valSetCnf then 0x40 else 0)
    | (if c.sizeCap then 0x20 else 0)
    | (if c.perIntCap then 0x10 else 0)
    | (if c.typeCnf then 0x8 else 0)
    | (if c.intEnbCnf then 0x4 else 0)
    | (if c.intTypeCnf then 0x2 else 0)
  }

  /** Every bit except the reserved ones belongs to exactly one field. */
  function DecodeTimerConfig(x: bv64): (c: TimerConfig)
    ensures c.Valid()
    ensures EncodeTimerConfig(c) == x & !0x0000_0000_FFFF_0081
  {
    TimerConfig(GetIntRouteCap(x), GetFsbIntDelCap(x), GetFsbEnCnf(x), GetIntRouteCnf(x),
                Get32ModeCnf(x), GetValSetCnf(x), GetSizeCap(x), GetPerIntCap(x),
                GetTypeCnf(x), GetIntEnbCnf(x), GetIntTypeCnf(x))
  }

  lemma TimerConfigRoundTrip(c: TimerConfig)
    requires c.Valid()
    ensures DecodeTimerConfig(EncodeTimerConfig(c)) == c
  {
  }

  /** The two register values agree on the read-only capability bits
      (0xFFFF_FFFF_0000_8030: Tn_INT_ROUTE_CAP at 63..32, Tn_FSB_INT_DEL_CAP at 15,
      Tn_SIZE_CAP at 5, Tn_PER_INT_CAP at 4). */
  predicate SameCapabilityBits(x: bv64, y: bv64)
  {
    x & 0xFFFF_FFFF_0000_8030 == y & 0xFFFF_FFFF_0000_8030
  }

  /** A write confined to `field` bits that avoid the capability bits leaves
      those bits as they were. Every setter above keeps all bits outside its own
      field, and no writable field overlaps a capability bit. */
  lemma WriteOutsideCapabilities(x: bv64, y: bv64, field: bv64)
    requires field & 0xFFFF_FFFF_0000_8030 == 0
    requires y & !field == x & !field
    ensures SameCapabilityBits(y, x)
  {
  }

  /** The capability getters read nothing but those bits, so after any setter
      they return what they returned before. */
  lemma CapabilityGettersReadOnlyTheirBits(x: bv64, y: bv64)
    requires SameCapabilityBits(y, x)
    ensures GetIntRouteCap(y) == GetIntRouteCap(x)
    ensures GetFsbIntDelCap(y) == GetFsbIntDelCap(x)
    ensures GetSizeCap(y) == GetSizeCap(x)
    ensures GetPerIntCap(y) == GetPerIntCap(x)
  {
  }
}
