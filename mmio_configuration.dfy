/** General Configuration Register (section 2.3.5 of the IA-PC HPET
    Specification rev 1.0a). */
module MmioConfiguration {
  import opened MmioBits

  /** LegacyReplacement route enabled: bit 1. */
  function GetLegacyReplacementCnf(x: bv64): (r: bool)
    ensures r <==> x & 0x2 != 0
  {
    (x << 62) >> 63 != 0
  }

  function SetLegacyReplacementCnf(x: bv64, b: bool): (r: bv64)
    ensures GetLegacyReplacementCnf(r) == b
    ensures r & !0x2 == x & !0x2
  {
    (x & !0x2) | (((if b then 1 else 0) << 1) & 0x2)
  }

  /** Overall enable: bit 0. */
  function GetEnableCnf(x: bv64): (r: bool)
    ensures r <==> x & 0x1 != 0
  {
    (x << 63) >> 63 != 0
  }

  function SetEnableCnf(x: bv64, b: bool): (r: bv64)
    ensures GetEnableCnf(r) == b
    ensures r & !0x1 == x & !0x1
  {
    (x & !0x1) | (((if b then 1 else 0) << 0) & 0x1)
  }

  /** The two configuration bits are independent of each other. */
  lemma ConfigurationBitsIndependent(x: bv64, b: bool)
    ensures GetLegacyReplacementCnf(SetEnableCnf(x, b)) == GetLegacyReplacementCnf(x)
    ensures GetEnableCnf(SetLegacyReplacementCnf(x, b)) == GetEnableCnf(x)
  {
  }
}
