/** Memory layout of the HPET register block as the `#[repr(C)]` structs in
    src/mmio.rs lay it out: every field is placed at the first offset after the
    previous field that is a multiple of its alignment, and the struct's size is
    the end of its last field rounded up to the largest alignment. The lemmas tie
    the offsets that this rule produces to the register map of the IA-PC HPET
    Specification rev 1.0a (section 2.3.1). */
module MmioLayout {

  /** A field of a `#[repr(C)]` struct: its size and alignment in bytes. */
  datatype Field = Field(size: nat, align: nat)

  /** The fields of a struct, in declaration order. */
  datatype Fields = Nil | Cons(head: Field, tail: Fields)

  function Length(fs: Fields): nat
  {
    match fs
    case Nil => 0
    case Cons(_, rest) => 1 + Length(rest)
  }

  function FieldAt(fs: Fields, i: nat): Field
    requires i < Length(fs)
  {
    if i == 0 then fs.head else FieldAt(fs.tail, i - 1)
  }

  /** Rust alignments are never zero. */
  predicate Aligned(fs: Fields)
  {
    match fs
    case Nil => true
    case Cons(f, rest) => f.align > 0 && Aligned(rest)
  }

  /** The first multiple of `align` at or after `offset`. */
  function AlignUp(offset: nat, align: nat): (r: nat)
    requires align > 0
    ensures offset <= r < offset + align
    ensures exists k: nat :: r == align * k
    ensures offset % align == 0 ==> r == offset
  {
    assert offset == align * (offset / align) + offset % align;
    assert align * (offset / align) + align == align * (offset / align + 1);
    if offset % align == 0 then offset else offset + (align - offset % align)
  }

  /** Offset of field `i` when the fields are laid out from `start`. */
  function OffsetOf(fs: Fields, start: nat, i: nat): nat
    requires Aligned(fs)
    requires i < Length(fs)
  {
    var o := AlignUp(start, fs.head.align);
    if i == 0 then o else OffsetOf(fs.tail, o + fs.head.size, i - 1)
  }

  /** The first byte after the last field when the fields are laid out from
      `start`. */
  function End(fs: Fields, start: nat): nat
    requires Aligned(fs)
  {
    match fs
    case Nil => start
    case Cons(f, rest) => End(rest, AlignUp(start, f.align) + f.size)
  }

  /** The struct's alignment: the largest alignment of its fields (1 if none). */
  function MaxAlign(fs: Fields): (a: nat)
    requires Aligned(fs)
    ensures a > 0
  {
    match fs
    case Nil => 1
    case Cons(f, rest) =>
      var m := MaxAlign(rest);
      if f.align > m then f.align else m
  }

  /** `size_of` a `#[repr(C)]` struct with these fields. */
  function SizeOf(fs: Fields): nat
    requires Aligned(fs)
  {
    AlignUp(End(fs, 0), MaxAlign(fs))
  }

  /** Every field starts at or after `start`. */
  lemma {:induction false} OffsetAfterStart(fs: Fields, start: nat, i: nat)
    requires Aligned(fs)
    requires i < Length(fs)
    ensures start <= OffsetOf(fs, start, i)
    decreases i
  {
    if i > 0 {
      OffsetAfterStart(fs.tail, AlignUp(start, fs.head.align) + fs.head.size, i - 1);
    }
  }

  /** Laying out fields never ends before it starts. */
  lemma {:induction false} EndAfterStart(fs: Fields, start: nat)
    requires Aligned(fs)
    ensures start <= End(fs, start)
    decreases fs
  {
    if fs.Cons? {
      EndAfterStart(fs.tail, AlignUp(start, fs.head.align) + fs.head.size);
    }
  }

  /** Every field ends at or before the end of the last field. */
  lemma {:induction false} FieldEndsBeforeEnd(fs: Fields, start: nat, i: nat)
    requires Aligned(fs)
    requires i < Length(fs)
    ensures OffsetOf(fs, start, i) + FieldAt(fs, i).size <= End(fs, start)
    decreases fs
  {
    var next := AlignUp(start, fs.head.align) + fs.head.size;
    if i == 0 {
      EndAfterStart(fs.tail, next);
    } else {
      FieldEndsBeforeEnd(fs.tail, next, i - 1);
    }
  }

  /** Fields of a `#[repr(C)]` struct never overlap: a field ends at or before
      any later field starts. */
  lemma {:induction false} FieldsDisjoint(fs: Fields, start: nat, i: nat, j: nat)
    requires Aligned(fs)
    requires i < j < Length(fs)
    ensures OffsetOf(fs, start, i) + FieldAt(fs, i).size <= OffsetOf(fs, start, j)
    decreases i
  {
    var next := AlignUp(start, fs.head.align) + fs.head.size;
    if i == 0 {
      OffsetAfterStart(fs.tail, next, j - 1);
    } else {
      FieldsDisjoint(fs.tail, next, i - 1, j - 1);
    }
  }

  // -------------------------------------------------------------------------
  // The two structs of src/mmio.rs
  // -------------------------------------------------------------------------

  /** A `u64`, or a register wrapping one. */
  const U64: Field := Field(8, 8)

  /** `[MaybeUninit<u8>; n]`, a reserved gap. */
  function Reserved(n: nat): Field
  {
    Field(n, 1)
  }

  /** `HpetTimerMemory`: configuration and capability, comparator, FSB interrupt
      route, and a reserved `u64`. */
  function TimerMemoryFields(): (fs: Fields)
    ensures Aligned(fs) && Length(fs) == 4
  {
    Cons(U64, Cons(U64, Cons(U64, Cons(U64, Nil))))
  }

  /** The number of timer blocks `HpetMemory` reserves room for. */
  const TimerSlots: nat := 32

  /** `[HpetTimerMemory; 32]`: the elements one `size_of` apart, aligned like one
      element. */
  function TimerArray(): Field
  {
    Field(SizeOf(TimerMemoryFields()) * TimerSlots, MaxAlign(TimerMemoryFields()))
  }

  /** `HpetMemory`: the general registers, the gaps between them, and the
      timer blocks. */
  function HpetMemoryFields(): (fs: Fields)
    ensures Aligned(fs) && Length(fs) == 9
  {
    Cons(U64, Cons(Reserved(0x8), Cons(U64, Cons(Reserved(0x8), Cons(U64,
    Cons(Reserved(0xC8), Cons(U64, Cons(Reserved(0x8), Cons(TimerArray(), Nil)))))))))
  }

  /** `HPET_MMIO_SIZE`, the number of bytes to map. */
  function HpetMmioSize(): nat
  {
    SizeOf(HpetMemoryFields())
  }

  /** A timer block is 32 bytes, aligned to 8. */
  lemma TimerMemorySize()
    ensures End(TimerMemoryFields(), 0) == 0x20
    ensures MaxAlign(TimerMemoryFields()) == 8
    ensures SizeOf(TimerMemoryFields()) == 0x20
    ensures TimerArray() == Field(0x400, 8)
  {
    var f3 := Cons(U64, Nil);
    assert End(f3, 0x18) == 0x20;
    var f2 := Cons(U64, f3);
    assert End(f2, 0x10) == 0x20;
    var f1 := Cons(U64, f2);
    assert End(f1, 0x08) == 0x20;
  }

  /** Inside a timer block the configuration, comparator and FSB route registers
      sit at 0x00, 0x08 and 0x10. */
  lemma TimerMemoryOffsets()
    ensures OffsetOf(TimerMemoryFields(), 0, 0) == 0x00
    ensures OffsetOf(TimerMemoryFields(), 0, 1) == 0x08
    ensures OffsetOf(TimerMemoryFields(), 0, 2) == 0x10
  {
    var f2 := Cons(U64, Cons(U64, Nil));
    assert OffsetOf(f2, 0x10, 0) == 0x10;
    var f1 := Cons(U64, f2);
    assert OffsetOf(f1, 0x08, 1) == 0x10;
  }

  /** The last field of `HpetMemory`, the timer blocks, ends at 0x500. */
  lemma HpetMemoryEnd()
    ensures End(HpetMemoryFields(), 0) == 0x500
  {
    TimerMemorySize();
    var f8 := Cons(TimerArray(), Nil);
    assert End(f8, 0x100) == 0x500;
    var f7 := Cons(Reserved(0x8), f8);
    assert End(f7, 0x0F8) == 0x500;
    var f6 := Cons(U64, f7);
    assert End(f6, 0x0F0) == 0x500;
    var f5 := Cons(Reserved(0xC8), f6);
    assert End(f5, 0x028) == 0x500;
    var f4 := Cons(U64, f5);
    assert End(f4, 0x020) == 0x500;
    var f3 := Cons(Reserved(0x8), f4);
    assert End(f3, 0x018) == 0x500;
    var f2 := Cons(U64, f3);
    assert End(f2, 0x010) == 0x500;
    var f1 := Cons(Reserved(0x8), f2);
    assert End(f1, 0x008) == 0x500;
  }

  /** `HPET_MMIO_SIZE` is 0x500: the timer blocks start at 0x100 and take
      32 × 32 bytes, and no padding follows them. */
  lemma HpetMmioSizeIs0x500()
    ensures HpetMmioSize() == 0x500
  {
    TimerMemorySize();
    HpetMemoryEnd();
    var f6 := Cons(U64, Cons(Reserved(0x8), Cons(TimerArray(), Nil)));
    assert MaxAlign(f6.tail.tail) == 8;
    assert MaxAlign(f6) == 8;
    var f2 := Cons(U64, Cons(Reserved(0x8), Cons(U64, Cons(Reserved(0xC8), f6))));
    assert MaxAlign(f2.tail.tail) == 8;
    assert MaxAlign(f2) == 8;
    assert MaxAlign(HpetMemoryFields()) == 8;
  }

  /** The general registers sit at 0x000, 0x010, 0x020 and 0x0F0, and the timer
      blocks start at 0x100. */
  lemma HpetMemoryOffsets()
    ensures OffsetOf(HpetMemoryFields(), 0, 0) == 0x000
    ensures OffsetOf(HpetMemoryFields(), 0, 2) == 0x010
    ensures OffsetOf(HpetMemoryFields(), 0, 4) == 0x020
    ensures OffsetOf(HpetMemoryFields(), 0, 6) == 0x0F0
    ensures OffsetOf(HpetMemoryFields(), 0, 8) == 0x100
  {
    TimerMemorySize();
    var f8 := Cons(TimerArray(), Nil);
    var f7 := Cons(Reserved(0x8), f8);
    var f6 := Cons(U64, f7);
    var f5 := Cons(Reserved(0xC8), f6);
    var f4 := Cons(U64, f5);
    var f3 := Cons(Reserved(0x8), f4);
    var f2 := Cons(U64, f3);
    var f1 := Cons(Reserved(0x8), f2);
    assert OffsetOf(f8, 0x100, 0) == 0x100;
    assert OffsetOf(f7, 0x0F8, 1) == 0x100;
    assert OffsetOf(f6, 0x0F0, 2) == 0x100;
    assert OffsetOf(f6, 0x0F0, 0) == 0x0F0;
    assert OffsetOf(f5, 0x028, 3) == 0x100;
    assert OffsetOf(f5, 0x028, 1) == 0x0F0;
    assert OffsetOf(f4, 0x020, 4) == 0x100;
    assert OffsetOf(f4, 0x020, 2) == 0x0F0;
    assert OffsetOf(f4, 0x020, 0) == 0x020;
    assert OffsetOf(f3, 0x018, 5) == 0x100;
    assert OffsetOf(f3, 0x018, 3) == 0x0F0;
    assert OffsetOf(f3, 0x018, 1) == 0x020;
    assert OffsetOf(f2, 0x010, 6) == 0x100;
    assert OffsetOf(f2, 0x010, 4) == 0x0F0;
    assert OffsetOf(f2, 0x010, 2) == 0x020;
    assert OffsetOf(f2, 0x010, 0) == 0x010;
    assert OffsetOf(f1, 0x008, 7) == 0x100;
    assert OffsetOf(f1, 0x008, 5) == 0x0F0;
    assert OffsetOf(f1, 0x008, 3) == 0x020;
    assert OffsetOf(f1, 0x008, 1) == 0x010;
  }

  /** No two fields of `HpetMemory` overlap, reserved gaps and the timer array
      included. */
  lemma HpetMemoryFieldsDisjoint(i: nat, j: nat)
    requires i < j < 9
    ensures OffsetOf(HpetMemoryFields(), 0, i) + FieldAt(HpetMemoryFields(), i).size
         <= OffsetOf(HpetMemoryFields(), 0, j)
  {
    FieldsDisjoint(HpetMemoryFields(), 0, i, j);
  }

  /** Every field of `HpetMemory` lies inside `HPET_MMIO_SIZE` bytes. */
  lemma HpetMemoryFieldsMapped(i: nat)
    requires i < 9
    ensures OffsetOf(HpetMemoryFields(), 0, i) + FieldAt(HpetMemoryFields(), i).size <= HpetMmioSize()
  {
    FieldEndsBeforeEnd(HpetMemoryFields(), 0, i);
  }

  /** No two fields of a timer block overlap, and each lies inside the block. */
  lemma TimerMemoryFieldsDisjoint(i: nat, j: nat)
    requires i < j < 4
    ensures OffsetOf(TimerMemoryFields(), 0, i) + FieldAt(TimerMemoryFields(), i).size
         <= OffsetOf(TimerMemoryFields(), 0, j)
    ensures OffsetOf(TimerMemoryFields(), 0, j) + FieldAt(TimerMemoryFields(), j).size
         <= SizeOf(TimerMemoryFields())
  {
    FieldsDisjoint(TimerMemoryFields(), 0, i, j);
    FieldEndsBeforeEnd(TimerMemoryFields(), 0, j);
  }

  // -------------------------------------------------------------------------
  // The register map
  // -------------------------------------------------------------------------

  /** The registers `HpetMemory` gives access to; `n` is a timer slot. */
  datatype Register =
    | CapabilitiesAndId
    | Configuration
    | InterruptStatus
    | MainCounterValue
    | TimerConfiguration(n: nat)
    | TimerComparator(n: nat)
    | TimerFsbRoute(n: nat)
  {
    predicate Valid()
    {
      (TimerConfiguration? || TimerComparator? || TimerFsbRoute?) ==> n < TimerSlots
    }
  }

  /** Byte offset of a register, read off the struct layout: the register's field
      in `HpetMemory`, plus for a timer register the slot times the block size and
      the field's offset inside the block. */
  function RegisterOffset(r: Register): nat
  {
    var top := HpetMemoryFields();
    var timer := TimerMemoryFields();
    TimerMemorySize();
    var stride := SizeOf(timer);
    match r
    case CapabilitiesAndId => OffsetOf(top, 0, 0)
    case Configuration => OffsetOf(top, 0, 2)
    case InterruptStatus => OffsetOf(top, 0, 4)
    case MainCounterValue => OffsetOf(top, 0, 6)
    case TimerConfiguration(n) => OffsetOf(top, 0, 8) + n * stride + OffsetOf(timer, 0, 0)
    case TimerComparator(n) => OffsetOf(top, 0, 8) + n * stride + OffsetOf(timer, 0, 1)
    case TimerFsbRoute(n) => OffsetOf(top, 0, 8) + n * stride + OffsetOf(timer, 0, 2)
  }

  /** The offsets of the IA-PC HPET register map, written out independently. */
  function DocumentedOffset(r: Register): nat
  {
    match r
    case CapabilitiesAndId => 0x000
    case Configuration => 0x010
    case InterruptStatus => 0x020
    case MainCounterValue => 0x0F0
    case TimerConfiguration(n) => 0x100 + 0x20 * n
    case TimerComparator(n) => 0x108 + 0x20 * n
    case TimerFsbRoute(n) => 0x110 + 0x20 * n
  }

  /** The struct layout puts every register where the HPET register map says it
      is. */
  lemma RegisterOffsetsAsDocumented(r: Register)
    ensures RegisterOffset(r) == DocumentedOffset(r)
  {
    TimerMemorySize();
    TimerMemoryOffsets();
    HpetMemoryOffsets();
  }

  /** Every register is 8 bytes and lies inside the mapped block, and no two
      registers share a byte. */
  lemma RegistersDisjointAndMapped(r: Register, s: Register)
    requires r.Valid() && s.Valid() && r != s
    ensures RegisterOffset(r) + 8 <= HpetMmioSize()
    ensures RegisterOffset(r) + 8 <= RegisterOffset(s) || RegisterOffset(s) + 8 <= RegisterOffset(r)
  {
    RegisterOffsetsAsDocumented(r);
    RegisterOffsetsAsDocumented(s);
    HpetMmioSizeIs0x500();
  }
}
