/** Integer types and the reference bit predicate shared by the HPET register
    codecs. Every getter and setter in the Mmio* modules is written the way the
    `bitfield` crate computes it: a field at bits msb..lsb is read by shifting the
    register left and then right, and written by clearing the field's mask and
    or-ing in the shifted value cut to the mask. */
module MmioBits {

  /** Rust's unsigned integer types, held in a 64-bit vector so that reading a
      field never needs a narrowing conversion. */
  type u8 = x: bv64 | x < 0x100
  type u16 = x: bv64 | x < 0x1_0000
  type u32 = x: bv64 | x < 0x1_0000_0000

  /** Reference meaning of "bit i of x is set", written independently of the
      crate's shift-left-then-right formulation the accessors use. */
  predicate BitSet(x: bv64, i: bv64)
    requires i < 64
  {
    (x >> i) & 1 == 1
  }
}
