/** Timer N FSB Interrupt Route Register (section 2.3.10 of the IA-PC HPET
    Specification rev 1.0a). */
module MmioFsbRoute {
  import opened MmioBits

  /** Tn_FSB_INT_ADDR, where the message is written: bits 63..32. */
  function FsbIntAddr(x: bv64): (r: u32)
    ensures r == (x & 0xFFFF_FFFF_0000_0000) >> 32
  {
    x >> 32
  }

  function SetFsbIntAddr(x: bv64, a: u32): (r: bv64)
    ensures FsbIntAddr(r) == a
    ensures FsbIntVal(r) == FsbIntVal(x)
  {
    (x & !0xFFFF_FFFF_0000_0000) | ((a << 32) & 0xFFFF_FFFF_0000_0000)
  }

  /** Tn_FSB_INT_VAL, the message data: bits 31..0. */
  function FsbIntVal(x: bv64): (r: u32)
    ensures r == x & 0x0000_0000_FFFF_FFFF
  {
    (x << 32) >> 32
  }

  function SetFsbIntVal(x: bv64, v: u32): (r: bv64)
    ensures FsbIntVal(r) == v
    ensures FsbIntAddr(r) == FsbIntAddr(x)
  {
    (x & !0x0000_0000_FFFF_FFFF) | (v & 0x0000_0000_FFFF_FFFF)
  }

  /** Builds a route register from an (address, value) pair, starting from zero. */
  function EncodeFsbRoute(addr: u32, val: u32): (x: bv64)
    ensures FsbIntAddr(x) == addr && FsbIntVal(x) == val
  {
    SetFsbIntVal(SetFsbIntAddr(0, addr), val)
  }

  /** The two halves cover the whole register: a register is determined by its
      address and value. */
  lemma FsbRouteRoundTrip(x: bv64)
    ensures EncodeFsbRoute(FsbIntAddr(x), FsbIntVal(x)) == x
  {
  }
}
