# Verified model of the kernel's IDT, byte primitives, fixed array and VGA driver

This project is a Dafny model of four small, sequential parts of a 32-bit x86
kernel skeleton. It proves what each part promises.

- **Interrupt descriptor table** (`kernel::idt`):
  - The 8-byte interrupt gate `IdtEntry` and its `set_gate`, which splits a
    32-bit handler address into two 16-bit halves.
  - The 6-byte IDTR record `IdtPtr`.
  - The fixed vector-to-stub table `idt_init_table`.
  - The `IDT` object. Its constructor stores the IDTR record, clears all 256
    gates, installs gates 0–31 with selector 0x08 and flags 0x8E, then hands
    the record to the CPU.
  - The packed layouts follow the Intel 64 and IA-32 Architectures Software
    Developer's Manual, Volume 3A: section 6.10 for the IDTR record and
    section 6.11 for the gate. Both are stored little-endian.
- **Byte primitives** (`Atom/C/string.c`): `memcpy`, `memmove`, `memset` and
  `memcmp`.
- **Fixed-capacity array** (`atom::Array<T, S>`): indexing, `size`,
  `begin`/`end`, `front`/`back`, `fill` and the constructor that takes exactly
  `S` values.
- **VGA text driver** (`terminal::drivers::VGA`): colour packing with
  `make_color`, cell packing with `make_entry`, the bounds-guarded
  `put_char_at` and `clear_screen` over the 80 × 25 buffer.

Fixed-width integers are modelled as follows.

- In the IDT, `Atom/C/string.c` and the shared `Words` module they are bounded
  integer subset types: `u8`, `u16`, `u32` and `i32`.
  - For a non-negative 32-bit value, `& 0xFFFF` is `% 0x1_0000` and `>> 16` is
    `/ 0x1_0000`.
  - `(uint8_t)value` on an `int` is `value % 0x100`. Dafny's `%` is Euclidean,
    which matches two's-complement truncation for negative values too.
- The VGA driver uses bit-vectors (`bv8`, `bv16`), because `make_color` ors
  overlapping bits when a value above 15 is passed as a colour.

Some things are parameters rather than fixed values:

- the addresses of the 32 assembly entry stubs `isr_0` … `isr_31`
- the address of the table, `uint32_t(&idt)`
- the memory-mapped text buffer at 0xB8000, modelled as an array of 2000
  16-bit cells

Modules:

- `Words` (`words.dfy`): fixed-width types and little-endian byte images.
- `Idt` (`idt.dfy`): gate and IDTR record values, `set_gate`, byte layouts.
- `IdtTable` (`idt_table.dfy`): `idt_init_table`, the `IDT` class and its
  constructor.
- `CString` (`cstring.dfy`): the four byte primitives.
- `Atom` (`atom_array.dfy`): `atom::Array`.
- `Vga` (`vga.dfy`): the VGA text driver.

## Model

| member | source | states |
|---|---|---|
| Words.FromLe16 | Kernel/include/IDT/IDT.hpp:24-30 | two little-endian bytes are the image of exactly one 16-bit field |
| Words.FromLe32 | Kernel/include/IDT/IDT.hpp:52-56 | four little-endian bytes are the image of exactly one 32-bit field |
| Words.Le32Inverse | Kernel/include/IDT/IDT.hpp:52-56 | reading back the 4-byte image of a 32-bit field gives the field |
| Idt.IdtEntry.SetGate | Kernel/include/IDT/IDT.hpp:33-41 | the five field assignments of set_gate; what they promise is stated by Idt.SetGateDecodes, Idt.SetGateOverwrites and Idt.SetGateOfDecoded |
| Idt.IdtEntry.Address | Kernel/include/IDT/IDT.hpp:26-30 | the handler address the CPU reassembles from base_low and base_high; Idt.SetGateDecodes proves it is the base given to set_gate |
| Idt.IdtEntry.Present | Kernel/include/IDT/IDT.hpp:29 | bit 7 of the flags byte, the present bit; IdtTable.PresentIffException states which gates of the finished table have it |
| Idt.SetGateDecodes | Kernel/include/IDT/IDT.hpp:33-41 | after set_gate, base_low is base & 0xFFFF, base_high is (base >> 16) & 0xFFFF, low + high * 65536 reassembles base, selector and flags are stored verbatim and always_0 is 0 |
| Idt.SetGateOverwrites | Kernel/include/IDT/IDT.hpp:33-41 | set_gate assigns all five fields: the result does not depend on the prior entry, and applying it twice equals applying it once |
| Idt.SetGateOfDecoded | Kernel/include/IDT/IDT.hpp:33-41 | every entry with a zero reserved byte is the set_gate of its own decoded address, selector and flags, so set_gate is onto such entries |
| Idt.IdtEntry.Bytes | Kernel/include/IDT/IDT.hpp:5-12 | the packed gate is exactly 8 bytes: low half, selector, reserved byte, flags, high half, with no padding, and it reads back to the same entry |
| Idt.ParseEntryBytes | Kernel/include/IDT/IDT.hpp:24-42 | every 8-byte image is the image of the entry read from it (the converse round trip) |
| Idt.IdtPtr.Bytes | Kernel/include/IDT/IDT.hpp:52-56 | the packed IDTR record is exactly 6 bytes, a 16-bit limit followed by a 32-bit base, and it reads back to the same record |
| Idt.ParsePtrBytes | Kernel/include/IDT/IDT.hpp:52-56 | every 6-byte image is the image of the record read from it |
| Idt.PointerRecord | Kernel/src/IDT/IDT.cpp:56-57 | limit + 1 is the byte size of the 256-gate table, so limit is 2047 and fits in 16 bits; base is the table address |
| Idt.TableBytes | Kernel/include/IDT/IDT.hpp:61 | the contiguous image of the gate array is 8 bytes per gate; Idt.TableBytesAt locates each gate in it |
| Idt.TableBytesAt | Kernel/include/IDT/IDT.hpp:61 | in the table's image, gate n occupies bytes n * 8 to n * 8 + 8 |
| IdtTable.InitTable | Kernel/src/IDT/IDT.cpp:40-50 | idt_init_table has 32 entries; IdtTable.InitTableIndices states their indices and handlers |
| IdtTable.InitTableIndices | Kernel/src/IDT/IDT.cpp:40-50 | every index of idt_init_table lies in [0, 256); the indices are exactly 0..31 in order, each once; entry j holds stub isr_j |
| IdtTable.ExceptionGate | Kernel/src/IDT/IDT.cpp:64-65 | an installed gate decodes to the stub's address, selector 0x08 and flags 0x8E, and its present bit is set |
| IdtTable.BuiltTable | Kernel/src/IDT/IDT.cpp:60-65 | the finished table has 256 gates: gate k < 32 is the exception gate of isr_k and every other gate is the zero gate |
| IdtTable.BuiltGate | Kernel/src/IDT/IDT.cpp:60-65 | gate k < 32 decodes to (isr_k, 0x08, 0x8E) and is present; gates 32..255 decode to address 0, selector 0, flags 0, always_0 0 and are not present |
| IdtTable.PresentIffException | Kernel/src/IDT/IDT.cpp:60-65 | a gate of the finished table is present exactly when its vector is below 32 |
| IdtTable.IDT.Get | Kernel/include/IDT/IDT.hpp:68-69 | the unchecked const operator[] requires 0 <= index < 256 and returns that gate |
| IdtTable.IDT.SetGate | Kernel/include/IDT/IDT.hpp:65-66 | a set_gate through the mutable operator[] replaces gate index by its set_gate and changes no other gate |
| IdtTable.IDT.ClearAll | Kernel/src/IDT/IDT.cpp:60-61 | whatever the storage held, the clear loop leaves all 256 gates equal to the zero gate, so every vector is absent before any exception gate is installed |
| IdtTable.IDT.InstallExceptions | Kernel/src/IDT/IDT.cpp:64-65 | starting from the cleared table, the install loop leaves exactly the built table |
| IdtTable.IDT.constructor | Kernel/src/IDT/IDT.cpp:53-68 | the constructor stores the record (limit 2047, base = table address), leaves exactly the built table after the clear and install loops, and hands the record to the CPU as its last step, when the table is already complete |
| IdtTable.ConstructTwice | Kernel/src/IDT/IDT.cpp:53-68 | two constructions from the same inputs give byte-identical tables and IDTR records, limit + 1 + 6 bytes in all |
| CString.Memcpy | Atom/C/string.c:3-12 | dest[i] == src[i] for every i < size, bytes of dest from size on are unchanged, and dest is returned |
| CString.Memmove | Atom/C/string.c:14-32 | within one buffer, dest[0..size) afterwards holds the original src[0..size) even when the ranges overlap, with the forward copy when dest < src and the backward copy otherwise; nothing outside dest[0..size) changes, and dest is returned |
| CString.Memset | Atom/C/string.c:34-41 | every byte of dest[0..size) is value mod 256, every other byte is unchanged, and dest is returned |
| CString.Compare | Atom/C/string.c:48-51 | the memcmp result of two equal-length byte strings lies in [-255, 255] |
| CString.CompareZeroIff | Atom/C/string.c:48-51 | the result is 0 exactly when the two strings are equal, including size 0 |
| CString.CompareFirstDifference | Atom/C/string.c:48-50 | at the first index j where the strings differ, the result is a[j] - b[j], so its sign gives the order of the first differing bytes |
| CString.CompareAntisymmetric | Atom/C/string.c:43-52 | swapping the operands negates the result |
| CString.Memcmp | Atom/C/string.c:43-52 | the scan returns 0 iff a[0..size) == b[0..size); otherwise it returns a[j] - b[j] at the first index j where they differ |
| Atom.Array.constructor | Atom/CPP/Array.hpp:48-55 | the constructor takes exactly S > 0 values, and element i is the i-th value |
| Atom.Array.Size | Atom/CPP/Array.hpp:12-24 | size() is S, the number of elements, and S > 0 |
| Atom.Array.Get | Atom/CPP/Array.hpp:20-21 | reading through operator[] requires index < S and returns element index |
| Atom.Array.Set | Atom/CPP/Array.hpp:17-18 | writing through operator[] requires index < S and changes only element index |
| Atom.Array.Front | Atom/CPP/Array.hpp:34-37 | front() is element 0 |
| Atom.Array.Back | Atom/CPP/Array.hpp:35-38 | back() is element S - 1 |
| Atom.Array.Begin | Atom/CPP/Array.hpp:27-30 | begin(), the position of element 0; Atom.Array.Iterate states that the walk from it visits the elements in index order |
| Atom.Array.End | Atom/CPP/Array.hpp:28-31 | end(), the position just past element S - 1; Atom.Array.Iterate states that the walk stops there after end() - begin() = S elements |
| Atom.Array.Fill | Atom/CPP/Array.hpp:41-45 | after fill(v), every one of the S elements is v |
| Atom.Array.Iterate | Atom/CPP/Array.hpp:27-31 | stepping from begin() until end() visits end() - begin() = S elements, the i-th being element begin() + i, so the walk yields the contents in index order |
| Atom.ArrayTest | tests/Atom/test_array.hpp:9-53 | for Array<int, 10>(0, …, 9), the range loop, the index loop and the iterator loop read the same ten elements, and element i is i |
| Vga.VgaColor.Code | Terminal/include/Drivers/VGA.hpp:12-30 | every VGAColors value lies in 0x00..0x0F, so it fits in a nibble |
| Vga.ColorOfCode | Terminal/include/Drivers/VGA.hpp:12-30 | every nibble is the value of exactly one colour |
| Vga.CodeDistinct | Terminal/include/Drivers/VGA.hpp:12-30 | the sixteen colour values are distinct |
| Vga.MakeColor | Terminal/src/Drivers/VGA.cpp:5-6 | make_color's low nibble is the foreground's low nibble, and its high nibble is the background's low nibble or-ed with the foreground's high nibble |
| Vga.MakeColorOfColors | Terminal/include/Drivers/VGA.hpp:36-38 | for two colours, make_color(fg, bg) is (bg * 16 + fg) mod 256; the low nibble decodes to fg and the high nibble to bg |
| Vga.MakeColorOfNibbles | Terminal/src/Drivers/VGA.cpp:5-6 | every attribute byte is the make_color of its own two nibbles |
| Vga.MakeEntry | Terminal/src/Drivers/VGA.cpp:8-9 | make_entry has the symbol as its low byte and the colour as its high byte, and both are recovered exactly |
| Vga.MakeEntryOfBytes | Terminal/include/Drivers/VGA.hpp:40-42 | every cell value is the make_entry of its own two bytes, so the packing is one-to-one and onto |
| Vga.InBounds | Terminal/src/Drivers/VGA.cpp:15 | the coordinate guard, 0 <= x < 80 and 0 <= y < 25; Vga.PutCharAt states what happens on each side of it |
| Vga.CellIndex | Terminal/src/Drivers/VGA.cpp:17 | the cell y * 80 + x of an in-range position lies in [0, 2000), and x and y are recovered from it |
| Vga.CellIndexInjective | Terminal/src/Drivers/VGA.cpp:17 | distinct in-range positions map to distinct cells |
| Vga.PutCharAt | Terminal/src/Drivers/VGA.cpp:11-18 | an x outside [0, 80) or a y outside [0, 25) leaves the buffer unchanged; otherwise only cell y * 80 + x changes, and it becomes make_entry(symbol, color) |
| Vga.PutCharAtUnguarded | Terminal/include/Drivers/VGA.hpp:44-46 | the inline version has no guard, so it requires 0 <= x < 80 and 0 <= y < 25, and it writes only cell y * 80 + x |
| Vga.BlankCell | Terminal/src/Drivers/VGA.cpp:25-28 | the cell clear_screen writes, make_entry(0, make_color(c, c)); Vga.BlankCellOfColor decodes it |
| Vga.ClearScreen | Terminal/src/Drivers/VGA.cpp:20-31 | after clear_screen(c), all 2000 cells are make_entry(0, make_color(c, c)) |
| Vga.BlankCellOfColor | Terminal/src/Drivers/VGA.cpp:20-31 | for a colour c, the cleared cell has a NUL symbol and c as both its foreground and its background |
| Vga.DriverTest | tests/Terminal/terminal_vga_driver.hpp:5-31 | every write of the driver test, through the header's unguarded put_char_at, is inside the 80 × 25 grid; afterwards the 16 × 16 grid holds '0' coloured make_color(x, y), row 18 holds the 23 message bytes in green, and every other cell is black blank |

## Left out

- LoadIDT (the `lidt` in assembly, Kernel/include/IDT/IDT.hpp:21) is not modelled as a CPU effect. It hands the CPU only the 6-byte IDTR record, and the CPU then reads the gates live through its base. The constructor's last step records, in ghost state, the record that was loaded and a snapshot of the table at that moment. The snapshot shows only that the table was complete when LoadIDT ran. A later IdtTable.IDT.SetGate changes the live table but not the snapshot.
- The 32 entry stubs `isr_0` … `isr_31` are assembly symbols. Only their 32-bit addresses appear, as a parameter.
- `isr_common_handler` is not part of this model. It is invoked by the CPU and writes raw video memory, and exception dispatch is not modelled.
- Pointer semantics are abstracted:
  - `uint32_t(&idt)` and `uint32_t(entry.handler)` are 32-bit parameters.
  - `volatile` memory-mapped I/O is an ordinary array.
  - The function-pointer field of IdtInitEntry is its 32-bit address.
- The `IdtEntry` fields are a value (a datatype) inside the gate array. The in-place write `idt[i].set_gate(...)` is the array assignment in `IDT.SetGate`.
- CString.Memmove works on one buffer with two offsets, which is the case where overlap matters. Moving between two distinct buffers is the same as CString.Memcpy and is not repeated.
- CString.Memcpy takes two arrays that may be the same array. Copying at an offset other than 0 inside one array is not modelled.
- CString.Memcpy, CString.Memmove, CString.Memset: a returned pointer is modelled as the same array reference or offset.
- Atom.Array: the default constructor `Array() = default` is not modelled. It leaves the elements uninitialised, which Dafny cannot express for an arbitrary T.
- Atom.Array: the deleted copy constructor and copy assignment (Atom/CPP/Array.hpp:57-58) are compile-time restrictions with no counterpart. A Dafny class is a reference and is never copied implicitly.
- Atom.Array: the `static_cast<T>` of each constructor argument is not modelled. The values are given already of type T.
- Atom.Array: `S` is an unbounded `nat`, not a `uint32_t` template argument.
- Atom.ArrayTest: the test's writes of the decimal digits to video memory are left out. It returns the three element sequences that it reads.
- Vga: a `char` symbol is taken as its byte, and the message of the driver test is a parameter of 23 bytes. The character data of the literal is not spelled out.
- Vga: the header defines put_char_at inline without a guard, while Terminal/src/Drivers/VGA.cpp defines it again with one. In C++ the two definitions would clash. Both are modelled, as Vga.PutCharAtUnguarded and Vga.PutCharAt. clear_screen, defined in VGA.cpp, uses the guarded one. The driver test includes only the header, so it uses the unguarded one.
- Vga: the header's inline make_color and make_entry are the same expressions as the ones in VGA.cpp, so each is defined once.
- Kernel/src/main.cpp, tests/Kernel/idt_errors.hpp and the build scripts are not part of this model. They cover boot sequencing, inline-assembly interrupts and host tooling.
