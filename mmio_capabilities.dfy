/** General Capabilities and ID Register (section 2.3.4 of the IA-PC HPET
    Specification rev 1.0a), read-only. */
module MmioCapabilities {
  import opened MmioBits

  /** Main counter tick period in femtoseconds: bits 63..32. */
  function GetCounterClkPeriod(x: bv64): (r: u32)
    ensures r == (x & 0xFFFF_FFFF_0000_0000) >> 32
  {
    x >> 32
  }

  /** PCI vendor ID: bits 31..16. */
  function GetVendorId(x: bv64): (r: u16)
    ensures r == (x & 0x0000_0000_FFFF_0000) >> 16
  {
    (x << 32) >> 48
  }

  /** LegacyReplacement route capable: bit 15. */
  function GetLegRtCap(x: bv64): (r: bool)
    ensures r <==> x & 0x8000 != 0
  {
    (x << 48) >> 63 != 0
  }

  /** The main counter is 64 bits wide: bit 13. */
  function GetCountSizeCap(x: bv64): (r: bool)
    ensures r <==> x & 0x2000 != 0
  {
    (x << 50) >> 63 != 0
  }

  /** Index of the last timer: bits 12..8, hence at most 31. */
  function GetNumTimCap(x: bv64): (r: u8)
    ensures r == (x & 0x1F00) >> 8
    ensures r < 32
  {
    (x << 51) >> 59
  }

  /** Revision ID: bits 7..0. */
  function GetRevId(x: bv64): (r: u8)
    ensures r == x & 0xFF
  {
    (x << 56) >> 56
  }

  /** The fields of the capabilities register, decoded. */
  datatype Capabilities = Capabilities(
    counterClkPeriod: u32,
    vendorId: u16,
    legRtCap: bool,
    countSizeCap: bool,
    numTimCap: u8,
    revId: u8)
  {
    /** NUM_TIM_CAP is a five-bit field. */
    predicate Valid() { numTimCap < 32 }
  }

  /** Places each field at its bit position; bit 14 stays 0. */
  function EncodeCapabilities(c: Capabilities): (x: bv64)
    requires c.Valid()
    ensures x & 0x4000 == 0
  {
    (c.counterClkPeriod << 32)
    | (c.vendorId << 16)
    | (if c.legRtCap then 0x8000 else 0)
    | (if c.countSizeCap then 0x2000 else 0)
    | (c.numTimCap << 8)
    | c.revId
  }

  /** Reads every field with its getter. Every bit except the reserved bit 14
      belongs to exactly one field, so re-encoding gives back the register. */
  function DecodeCapabilities(x: bv64): (c: Capabilities)
    ensures c.Valid()
    ensures EncodeCapabilities(c) == x & !0x4000
  {
    Capabilities(GetCounterClkPeriod(x), GetVendorId(x), GetLegRtCap(x),
                 GetCountSizeCap(x), GetNumTimCap(x), GetRevId(x))
  }

  /** The six fields sit in disjoint bit ranges: each one comes back unchanged
      whatever the others hold. */
  lemma CapabilitiesRoundTrip(c: Capabilities)
    requires c.Valid()
    ensures DecodeCapabilities(EncodeCapabilities(c)) == c
  {
  }

  /** A register as an Intel chipset reports it: 69841279 fs per tick
      (14.318 MHz), vendor 0x8086, LegacyReplacement capable, 64-bit counter,
      NUM_TIM_CAP 2 (three timers), revision 1. */
  lemma IntelCapabilitiesDecoded()
    ensures DecodeCapabilities(0x0429_B17F_8086_A201)
         == Capabilities(0x0429_B17F, 0x8086, true, true, 2, 1)
  {
  }

  /** The vendor ID is read from bits 31..16, not from the top of the register:
      in 0x8086_0001_0305_1234 the vendor ID is 0x0305 and 0x8086 belongs to the
      tick period. */
  lemma VendorIdFromBits31To16()
    ensures GetVendorId(0x8086_0001_0305_1234) == 0x0305
    ensures GetCounterClkPeriod(0x8086_0001_0305_1234) == 0x8086_0001
    ensures GetRevId(0x8086_0001_0305_1234) == 0x34
  {
  }
}
