/** General Interrupt Status Register (section 2.3.6 of the IA-PC HPET
    Specification rev 1.0a). */
module MmioInterruptStatus {
  import opened MmioBits

  /** Tn_INT_STS: an array of 32 one-bit fields starting at bit 0, so entry `n`
      is bit `n`. The field has no type of its own, so it takes the register's
      `u64`: the getter returns 0 or 1. The crate rejects an index at or beyond
      32. */
  function GetTnIntSts(x: bv64, n: bv64): (r: bv64)
    requires n < 32
    ensures r < 2
    ensures r == 1 <==> BitSet(x, n)
  {
    (x << (63 - n)) >> 63
  }

  /** Stores bit 0 of the `u64` value `v` as entry `n`; the other bits of `v` are
      cut off by the field's mask. */
  function SetTnIntSts(x: bv64, n: bv64, v: bv64): (r: bv64)
    requires n < 32
    ensures BitSet(r, n) == (v & 1 == 1)
  {
    (x & !(1 << n)) | ((v << n) & (1 << n))
  }

  /** Storing entry `n` leaves every other bit of the register as it was. */
  lemma StatusSetKeepsOtherBits(x: bv64, n: bv64, v: bv64)
    requires n < 32
    ensures SetTnIntSts(x, n, v) & !(1 << n) == x & !(1 << n)
  {
  }

  /** Entry `n` reads back bit 0 of what was just stored there. */
  lemma StatusSetThenGet(x: bv64, n: bv64, v: bv64)
    requires n < 32
    ensures GetTnIntSts(SetTnIntSts(x, n, v), n) == v & 1
  {
  }

  /** Storing entry `n` does not move any other entry `m`. */
  lemma StatusSetKeepsOtherEntries(x: bv64, n: bv64, m: bv64, v: bv64)
    requires n < 32 && m < 32 && m != n
    ensures GetTnIntSts(SetTnIntSts(x, n, v), m) == GetTnIntSts(x, m)
  {
  }
}
