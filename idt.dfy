/** The interrupt-gate descriptor and the IDTR pointer record of the kernel's
    interrupt descriptor table, with their packed byte layouts.

    Field widths follow the C++ declarations (uint16_t, uint8_t, uint32_t).
    The packed layouts are those of the Intel 64 and IA-32 Architectures
    Software Developer's Manual, Volume 3A, section 6.10 (the IDTR record:
    a 16-bit limit followed by a 32-bit base) and section 6.11 (the 8-byte
    32-bit interrupt gate), stored little-endian. */
module Idt {

  import opened Words

  /** Number of gates in the table (ENTRYS). */
  const ENTRYS: int := 256

  /** sizeof(IdtEntry) under the packed layout. */
  const ENTRY_SIZE: int := 8

  /** sizeof(IdtPtr) under the packed layout. */
  const PTR_SIZE: int := 6

  /** One interrupt descriptor (IdtEntry), fields in declaration order. */
  datatype IdtEntry = IdtEntry(baseLow: u16, selector: u16, always0: u8, flags: u8, baseHigh: u16)
  {
    /** set_gate: the entry after its five field assignments
        `base_low = base & MASK`, `base_high = (base >> 16) & MASK` with
        MASK = 0xFFFF, selector and flags verbatim, the reserved byte zero.
        For a non-negative 32-bit base, `& 0xFFFF` is `% 0x1_0000` and
        `>> 16` is `/ 0x1_0000`. What it promises is stated by SetGateDecodes. */
    function SetGate(base: u32, selector: u16, flags: u8): IdtEntry {
      IdtEntry(base % 0x1_0000, selector, 0, flags, (base / 0x1_0000) % 0x1_0000)
    }

    /** The handler address the CPU reassembles from the two halves,
        `base_low | base_high << 16`. */
    function Address(): u32 {
      baseLow + baseHigh * 0x1_0000
    }

    /** Bit 7 of the flags byte (the present bit) is set; for a byte that
        is the case exactly when it is at least 0x80. */
    predicate Present() {
      flags >= 0x80
    }

    /** The packed in-memory image: low, selector, reserved byte, flags,
        high, with no padding between them. */
    function Bytes(): (b: seq<u8>)
      ensures |b| == ENTRY_SIZE
      ensures ParseEntry(b) == this
    {
      Le16Inverse(baseLow);
      Le16Inverse(selector);
      Le16Inverse(baseHigh);
      Le16(baseLow) + Le16(selector) + [always0, flags] + Le16(baseHigh)
    }
  }

  /** Reads an entry back from its 8-byte image. */
  function ParseEntry(b: seq<u8>): (e: IdtEntry)
    requires |b| == ENTRY_SIZE
  {
    IdtEntry(FromLe16(b[0], b[1]), FromLe16(b[2], b[3]), b[4], b[5], FromLe16(b[6], b[7]))
  }

  /** Every 8-byte image is the image of exactly one entry: reading it and
      writing it back gives the same bytes (the converse of Bytes' ensures). */
  lemma ParseEntryBytes(b: seq<u8>)
    requires |b| == ENTRY_SIZE
    ensures ParseEntry(b).Bytes() == b
  {
  }

  /** The gate that set_gate(0, 0, 0) leaves behind. */
  const ZeroGate: IdtEntry := IdtEntry(0, 0, 0, 0, 0)

  /** The IDTR pointer record (IdtPtr). */
  datatype IdtPtr = IdtPtr(limit: u16, base: u32)
  {
    /** The packed 6-byte image: limit, then base, with no padding. */
    function Bytes(): (b: seq<u8>)
      ensures |b| == PTR_SIZE
      ensures ParsePtr(b) == this
    {
      Le16Inverse(limit);
      Le32Inverse(base);
      Le16(limit) + Le32(base)
    }
  }

  /** Reads a pointer record back from its 6-byte image. */
  function ParsePtr(b: seq<u8>): (p: IdtPtr)
    requires |b| == PTR_SIZE
  {
    IdtPtr(FromLe16(b[0], b[1]), FromLe32(b[2], b[3], b[4], b[5]))
  }

  /** The converse of IdtPtr.Bytes' round trip. */
  lemma ParsePtrBytes(b: seq<u8>)
    requires |b| == PTR_SIZE
    ensures ParsePtr(b).Bytes() == b
  {
  }

  /** The record the IDT constructor stores: the limit is the byte size of
      the 256-gate table minus one (it fits in 16 bits), the base is the
      table's address. */
  function PointerRecord(tableAddress: u32): (p: IdtPtr)
    ensures p.limit + 1 == ENTRY_SIZE * ENTRYS
    ensures p.limit == 2047 && p.base == tableAddress
  {
    IdtPtr(ENTRY_SIZE * ENTRYS - 1, tableAddress)
  }

  /** After set_gate(base, selector, flags) the low half is base's low 16
      bits, the high half is base's high 16 bits, so low + high * 65536
      reassembles base; selector and flags are stored verbatim and the
      reserved byte is zero, whatever the entry held before. */
  lemma SetGateDecodes(e: IdtEntry, base: u32, selector: u16, flags: u8)
    ensures e.SetGate(base, selector, flags).baseLow == base % 0x1_0000
    ensures e.SetGate(base, selector, flags).baseHigh == base / 0x1_0000
    ensures e.SetGate(base, selector, flags).Address() == base
    ensures e.SetGate(base, selector, flags).selector == selector
    ensures e.SetGate(base, selector, flags).flags == flags
    ensures e.SetGate(base, selector, flags).always0 == 0
  {
  }

  /** set_gate overwrites every field: the result does not depend on the
      entry it is applied to, so applying it twice equals applying it once. */
  lemma SetGateOverwrites(e: IdtEntry, e': IdtEntry, base: u32, selector: u16, flags: u8)
    ensures e.SetGate(base, selector, flags) == e'.SetGate(base, selector, flags)
    ensures e.SetGate(base, selector, flags).SetGate(base, selector, flags) == e.SetGate(base, selector, flags)
  {
  }

  /** Decoding an entry and encoding the decoded triple gives the entry back,
      for every entry whose reserved byte is zero (the converse of SetGate's
      round trip). */
  lemma SetGateOfDecoded(e: IdtEntry)
    requires e.always0 == 0
    ensures ZeroGate.SetGate(e.Address(), e.selector, e.flags) == e
  {
  }

  /** The image of a whole table: the entries' images back to back. */
  function TableBytes(entries: seq<IdtEntry>): (b: seq<u8>)
    ensures |b| == ENTRY_SIZE * |entries|
  {
    if entries == [] then [] else entries[0].Bytes() + TableBytes(entries[1..])
  }

  /** The CPU finds gate n at byte offset n * 8 from the table's base. */
  lemma {:induction false} TableBytesAt(entries: seq<IdtEntry>, n: int)
    requires 0 <= n < |entries|
    ensures TableBytes(entries)[n * ENTRY_SIZE..(n + 1) * ENTRY_SIZE] == entries[n].Bytes()
  {
    if n > 0 {
      TableBytesAt(entries[1..], n - 1);
      var rest := TableBytes(entries[1..]);
      assert TableBytes(entries) == entries[0].Bytes() + rest;
      assert TableBytes(entries)[n * ENTRY_SIZE..(n + 1) * ENTRY_SIZE]
          == rest[(n - 1) * ENTRY_SIZE..n * ENTRY_SIZE];
    }
  }
}
