/** Construction of the kernel's interrupt descriptor table: the fixed
    vector-to-stub mapping and the IDT object, whose constructor stores the
    IDTR record, clears all 256 gates, installs the 32 exception gates and
    finally activates the table.

    The 32 entry stubs isr_0 .. isr_31 are assembly symbols; only their
    addresses matter here, so they are a parameter `isr` of 32 addresses.
    The table's own address (`uint32_t(&idt)`) is a parameter too. */
module IdtTable {

  import opened Words
  import opened Idt

  /** The code-segment selector every installed gate uses. */
  const KERNEL_CODE_SELECTOR: u16 := 0x08

  /** Present, ring 0, 32-bit interrupt gate. */
  const INTERRUPT_GATE_FLAGS: u8 := 0x8E

  /** Number of CPU exception vectors that get a gate. */
  const EXCEPTIONS: int := 32

  /** IdtInitEntry: a vector number and the address of its entry stub. */
  datatype IdtInitEntry = IdtInitEntry(index: int, handler: u32)

  /** idt_init_table: vector i is mapped to stub isr_i. */
  function InitTable(isr: seq<u32>): (t: seq<IdtInitEntry>)
    requires |isr| == EXCEPTIONS
    ensures |t| == EXCEPTIONS
  {
    [ IdtInitEntry(0, isr[0]), IdtInitEntry(1, isr[1]), IdtInitEntry(2, isr[2]), IdtInitEntry(3, isr[3]),
      IdtInitEntry(4, isr[4]), IdtInitEntry(5, isr[5]), IdtInitEntry(6, isr[6]), IdtInitEntry(7, isr[7]),
      IdtInitEntry(8, isr[8]), IdtInitEntry(9, isr[9]), IdtInitEntry(10, isr[10]), IdtInitEntry(11, isr[11]),
      IdtInitEntry(12, isr[12]), IdtInitEntry(13, isr[13]), IdtInitEntry(14, isr[14]), IdtInitEntry(15, isr[15]),
      IdtInitEntry(16, isr[16]), IdtInitEntry(17, isr[17]), IdtInitEntry(18, isr[18]), IdtInitEntry(19, isr[19]),
      IdtInitEntry(20, isr[20]), IdtInitEntry(21, isr[21]), IdtInitEntry(22, isr[22]), IdtInitEntry(23, isr[23]),
      IdtInitEntry(24, isr[24]), IdtInitEntry(25, isr[25]), IdtInitEntry(26, isr[26]), IdtInitEntry(27, isr[27]),
      IdtInitEntry(28, isr[28]), IdtInitEntry(29, isr[29]), IdtInitEntry(30, isr[30]), IdtInitEntry(31, isr[31]) ]
  }

  /** The mapping is well formed: every index is a valid vector, the indices
      are exactly 0..31 in order, so no vector is registered twice and no
      install writes outside the table. */
  lemma {:induction false} InitTableIndices(isr: seq<u32>)
    requires |isr| == EXCEPTIONS
    ensures forall j | 0 <= j < EXCEPTIONS :: 0 <= InitTable(isr)[j].index < ENTRYS
    ensures forall j | 0 <= j < EXCEPTIONS :: InitTable(isr)[j].index == j
    ensures forall j | 0 <= j < EXCEPTIONS :: InitTable(isr)[j].handler == isr[j]
    ensures forall j, k | 0 <= j < k < EXCEPTIONS :: InitTable(isr)[j].index != InitTable(isr)[k].index
  {
  }

  /** The gate installed for an exception vector whose stub is at `handler`. */
  function ExceptionGate(handler: u32): (g: IdtEntry)
    ensures g.Address() == handler && g.selector == KERNEL_CODE_SELECTOR
    ensures g.flags == INTERRUPT_GATE_FLAGS && g.always0 == 0 && g.Present()
  {
    SetGateDecodes(ZeroGate, handler, KERNEL_CODE_SELECTOR, INTERRUPT_GATE_FLAGS);
    ZeroGate.SetGate(handler, KERNEL_CODE_SELECTOR, INTERRUPT_GATE_FLAGS)
  }

  /** The table the constructor is meant to leave: gates 0..31 are the
      exception gates of their stubs, every other gate is the zero gate. */
  function BuiltTable(isr: seq<u32>): (t: seq<IdtEntry>)
    requires |isr| == EXCEPTIONS
    ensures |t| == ENTRYS
    ensures forall k | 0 <= k < EXCEPTIONS :: t[k] == ExceptionGate(isr[k])
    ensures forall k | EXCEPTIONS <= k < ENTRYS :: t[k] == ZeroGate
  {
    seq(ENTRYS, k requires 0 <= k < ENTRYS => if k < EXCEPTIONS then ExceptionGate(isr[k]) else ZeroGate)
  }

  /** What the CPU decodes from gate k of the built table: for an exception
      vector the stub's address, the kernel code selector and the
      interrupt-gate flags, present; for every other vector address 0,
      selector 0, flags 0, not present, so a stray vector raises a fault
      instead of jumping to a residual address. */
  lemma BuiltGate(isr: seq<u32>, k: int)
    requires |isr| == EXCEPTIONS && 0 <= k < ENTRYS
    ensures var g := BuiltTable(isr)[k];
      k < EXCEPTIONS ==>
        g.Address() == isr[k] && g.selector == KERNEL_CODE_SELECTOR &&
        g.flags == INTERRUPT_GATE_FLAGS && g.always0 == 0 && g.Present()
    ensures var g := BuiltTable(isr)[k];
      EXCEPTIONS <= k ==>
        g.Address() == 0 && g.selector == 0 && g.flags == 0 && g.always0 == 0 && !g.Present()
  {
  }

  /** A gate of the built table is present exactly when its vector is one
      of the 32 CPU exceptions. */
  lemma PresentIffException(isr: seq<u32>, k: int)
    requires |isr| == EXCEPTIONS && 0 <= k < ENTRYS
    ensures BuiltTable(isr)[k].Present() <==> k < EXCEPTIONS
  {
    BuiltGate(isr, k);
  }

  /** The interrupt descriptor table object (class IDT). */
  class IDT {
    /** The 256 gates (idt). */
    const idt: array<IdtEntry>
    /** The IDTR record (idt_ptr). */
    var idtPtr: IdtPtr
    /** Whether LoadIDT has handed the record to the CPU. */
    ghost var activated: bool
    /** The record LoadIDT handed to the CPU. The CPU reads the gates
        through its base on every interrupt, so the table itself is not
        handed over; tableAtActivation is a snapshot that shows the table
        was complete at that moment. Later writes through SetGate change
        the live table but not the snapshot. */
    ghost var loadedPtr: IdtPtr
    ghost var tableAtActivation: seq<IdtEntry>

    ghost predicate Valid()
      reads this
    {
      idt.Length == ENTRYS
    }

    /** operator[] (const): the gate of vector `index`; the access is
        unchecked, so the index must be a valid vector. */
    method Get(index: int) returns (e: IdtEntry)
      requires Valid() && 0 <= index < ENTRYS
      ensures e == idt[index]
    {
      e := idt[index];
    }

    /** `operator[](index).set_gate(base, selector, flags)`: overwrites gate
        `index` in place and no other. */
    method SetGate(index: int, base: u32, selector: u16, flags: u8)
      requires Valid() && 0 <= index < ENTRYS
      modifies idt
      ensures idt[index] == old(idt[index]).SetGate(base, selector, flags)
      ensures forall k | 0 <= k < ENTRYS && k != index :: idt[k] == old(idt[k])
    {
      idt[index] := idt[index].SetGate(base, selector, flags);
    }

    /** The constructor's clear loop: set_gate(0, 0, 0) on every gate, so
        that whatever the storage held, every vector is the absent zero
        gate before any exception gate is installed. */
    method ClearAll()
      requires Valid()
      modifies idt
      ensures forall k | 0 <= k < ENTRYS :: idt[k] == ZeroGate
    {
      for i := 0 to ENTRYS
        invariant forall k | 0 <= k < i :: idt[k] == ZeroGate
      {
        SetGate(i, 0, 0, 0);
      }
    }

    /** The constructor's install loop: for each idt_init_table entry,
        set_gate(handler, 0x08, 0x8E) on gate `index`. Starting from the
        cleared table it leaves exactly the built table. */
    method InstallExceptions(isr: seq<u32>)
      requires Valid() && |isr| == EXCEPTIONS
      requires forall k | 0 <= k < ENTRYS :: idt[k] == ZeroGate
      modifies idt
      ensures idt[..] == BuiltTable(isr)
    {
      var table := InitTable(isr);
      InitTableIndices(isr);
      ghost var built := BuiltTable(isr);
      for j := 0 to |table|
        invariant forall k | 0 <= k < j :: idt[k] == built[k]
        invariant forall k | j <= k < ENTRYS :: idt[k] == ZeroGate
      {
        var entry := table[j];
        SetGate(entry.index, entry.handler, KERNEL_CODE_SELECTOR, INTERRUPT_GATE_FLAGS);
      }
    }

    /** IDT(): store the IDTR record, clear every gate, install the 32
        exception gates, then activate the finished table. */
    constructor(tableAddress: u32, isr: seq<u32>)
      requires |isr| == EXCEPTIONS
      ensures Valid() && fresh(idt)
      ensures idtPtr == PointerRecord(tableAddress)
      ensures idtPtr.limit == 2047 && idtPtr.base == tableAddress
      ensures idt[..] == BuiltTable(isr)
      ensures activated && tableAtActivation == idt[..] && loadedPtr == idtPtr
    {
      idt := new IdtEntry[ENTRYS];
      activated := false;
      new;
      idtPtr := PointerRecord(tableAddress);

      ClearAll();
      InstallExceptions(isr);

      // LoadIDT(&idt_ptr): the table is complete before the CPU sees it.
      activated, tableAtActivation, loadedPtr := true, idt[..], idtPtr;
    }
  }

  /** Constructing the table twice from the same inputs gives byte-identical
      tables and pointer records. */
  method ConstructTwice(tableAddress: u32, isr: seq<u32>) returns (first: seq<u8>, second: seq<u8>)
    requires |isr| == EXCEPTIONS
    ensures first == second
    ensures |first| == PointerRecord(tableAddress).limit + 1 + PTR_SIZE
  {
    var a := new IDT(tableAddress, isr);
    var b := new IDT(tableAddress, isr);
    first := TableBytes(a.idt[..]) + a.idtPtr.Bytes();
    second := TableBytes(b.idt[..]) + b.idtPtr.Bytes();
  }
}
