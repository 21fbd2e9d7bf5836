/**
 * The ELF reader of crates/patcher-core/src/pipeline.rs: program table, address mapping,
 * dynamic table and GNU build id, for ELF32 and ELF64. Arithmetic is on `u64`, so the
 * verifier checks every operation for overflow; a file is any byte string below 2^64.
 */
module Elf {
  import opened Wrappers
  import opened Bits32
  import opened LittleEndian
  import Hex

  type Image = b: Bytes | |b| < 0x1_0000_0000_0000_0000

  datatype Error =
    | Io
    | NotElf
    | BadProgramTable
    | SegmentExceedsFile
    | OverflowingRva
    | OverflowingSegment
    | NotBacked
    | OversizedNote
    | NoBuildId
    | NoDynamic
    | BadDynamic
    | NoStringTable
    | NoStringSize
    | BadStringTable
    | StringsOutsideLoad
    | StringOutOfBounds
    | Unterminated
    | NotUtf8

  datatype Program = Program(kind: u64, flags: u64, offset: u64, virtualAddress: u64, fileSize: u64)

  const MIB4: u64 := 4 * 1024 * 1024

  /** Seek, then read exactly `n` bytes. */
  function ReadExact(image: Image, offset: u64, n: u64): Result<Bytes, Error>
  {
    if offset as int + n as int <= |image| then Ok(image[offset as int..offset as int + n as int]) else Err(Io)
  }

  function CheckedAdd(x: u64, y: u64): (r: Option<u64>)
    ensures r == if x as int + y as int < TWO64 then Some((x as int + y as int) as u64) else None
  {
    if x as int + y as int < TWO64 then Some(x + y) else None
  }

  // ------------------------------------------------------------ program table

  /** What the ELF header says about the program table. */
  datatype Layout = Layout(elf32: bool, tableOffset: u64, entrySize: u64, entryCount: u64)
  {
    function MinimumSize(): u64 { if elf32 then 32 else 56 }
    function At(i: nat): int { tableOffset as int + i * entrySize as int }

    /** Every entry lies inside a file of this size. */
    predicate Fits(size: nat) { entrySize >= MinimumSize() && At(entryCount as int) <= size }
  }

  function HeaderLayout(image: Image): (r: Result<Layout, Error>)
    ensures r.Ok? ==> r.value.Fits(|image|)
  {
    if |image| < 64 then Err(Io)
    else if image[..4] != [0x7F, 0x45, 0x4C, 0x46] || image[4] !in {1, 2} || image[5] != 1 then Err(NotElf)
    else
      var layout :=
        if image[4] == 1 then Layout(true, Read(image, 28, 4), Read(image, 42, 2), Read(image, 44, 2))
        else Layout(false, Read(image, 32, 8), Read(image, 54, 2), Read(image, 56, 2));
      if layout.entrySize < layout.MinimumSize() || layout.entryCount == 0 || layout.entryCount > 256
         || layout.At(layout.entryCount as int) > |image| then Err(BadProgramTable)
      else Ok(layout)
  }

  lemma EntryInTable(layout: Layout, i: nat, size: nat)
    requires i < layout.entryCount as int && layout.At(layout.entryCount as int) <= size
    requires layout.entrySize >= layout.MinimumSize()
    ensures layout.At(i) + layout.MinimumSize() as int <= size
    ensures i * layout.entrySize as int <= layout.At(i)
  {
    EntriesBefore(i, layout.entryCount as int, layout.entrySize as int);
  }

  lemma {:induction false} EntriesBefore(i: nat, count: nat, stride: nat)
    requires i < count
    ensures i * stride + stride <= count * stride
    decreases count
  {
    OneMore(count, stride);
    if i + 1 < count {
      EntriesBefore(i, count - 1, stride);
    }
  }

  lemma OneMore(n: nat, stride: nat)
    requires n > 0
    ensures n * stride == (n - 1) * stride + stride
  {
  }

  function EntryAt(image: Image, elf32: bool, at: nat): Program
    requires at + (if elf32 then 32 else 56) <= |image|
  {
    if elf32 then
      Program(Read(image, at, 4), Read(image, at + 24, 4), Read(image, at + 4, 4), Read(image, at + 8, 4),
              Read(image, at + 16, 4))
    else
      Program(Read(image, at, 4), Read(image, at + 4, 4), Read(image, at + 8, 8), Read(image, at + 16, 8),
              Read(image, at + 32, 8))
  }

  predicate InFile(program: Program, image: Image)
  {
    program.offset as int + program.fileSize as int <= |image|
  }

  function EntryNumber(image: Image, layout: Layout, i: nat): (p: Program)
    requires layout.Fits(|image|) && i < layout.entryCount as int
    ensures layout.At(i) + layout.MinimumSize() as int <= |image|
  {
    EntryInTable(layout, i, |image|);
    EntryAt(image, layout.elf32, layout.At(i))
  }

  /** Entries i and later, in table order. */
  function Entries(image: Image, layout: Layout, i: nat): (r: seq<Program>)
    requires layout.Fits(|image|) && i <= layout.entryCount as int
    ensures |r| == layout.entryCount as int - i
    decreases layout.entryCount as int - i
  {
    if i == layout.entryCount as int then []
    else [EntryNumber(image, layout, i)] + Entries(image, layout, i + 1)
  }

  /** The program table of an image, or the reason it is refused. */
  function ProgramTable(image: Image): Result<seq<Program>, Error>
  {
    var layout :- HeaderLayout(image);
    var all := Entries(image, layout, 0);
    if forall p <- all :: InFile(p, image) then Ok(all) else Err(SegmentExceedsFile)
  }

  lemma {:induction false} EntriesSplit(image: Image, layout: Layout, i: nat)
    requires layout.Fits(|image|) && i <= layout.entryCount as int
    ensures Entries(image, layout, i) == Entries(image, layout, 0)[i..]
    ensures i < layout.entryCount as int ==> Entries(image, layout, 0)[i] == EntryNumber(image, layout, i)
  {
    hide HeaderLayout, EntryNumber;
    if i > 0 {
      EntriesSplit(image, layout, i - 1);
      assert Entries(image, layout, i - 1)[1..] == Entries(image, layout, i);
    }
  }

  lemma {:induction false} ProductMonotone(x: nat, y: nat, z: nat)
    requires y <= z
    ensures x * y <= x * z
  {
    if x > 0 {
      ProductMonotone(x - 1, y, z);
    }
  }

  lemma ProductBound(x: nat, y: nat)
    requires x < 0x1_0000 && y < 0x1_0000
    ensures x * y < 0x1_0000_0000
  {
    ProductMonotone(x, y, 0x1_0000);
  }

  /** The checked multiplication and addition of `elf_programs`: neither 16-bit factor can overflow the product. */
  method TableWithin(layout: Layout, size: nat) returns (within: bool)
    requires layout.entrySize < 0x1_0000 && layout.entryCount < 0x1_0000
    ensures within <==> layout.At(layout.entryCount as int) < TWO64 && layout.At(layout.entryCount as int) <= size
  {
    var x, y := layout.entrySize as int, layout.entryCount as int;
    ProductBound(x, y);
    assert x * y == y * x;
    var tableEnd := CheckedAdd(layout.tableOffset, layout.entrySize * layout.entryCount);
    within := tableEnd.Some? && tableEnd.value as int <= size;
  }

  /** The header part of `elf_programs`, with its checked multiplication and addition. */
  method ReadLayout(image: Image) returns (r: Result<Layout, Error>)
    ensures r == HeaderLayout(image)
  {
    hide Decode, Pow256;
    Powers256();
    var header := ReadExact(image, 0, 64);
    if header.Err? {
      return Err(Io);
    }
    if image[..4] != [0x7F, 0x45, 0x4C, 0x46] || !(image[4] == 1 || image[4] == 2) || image[5] != 1 {
      return Err(NotElf);
    }
    var elf32 := image[4] == 1;
    var programOffset, sizeAt, countAt, minimumSize;
    if elf32 {
      programOffset, sizeAt, countAt, minimumSize := Read(image, 28, 4), 42, 44, 32;
    } else {
      programOffset, sizeAt, countAt, minimumSize := Read(image, 32, 8), 54, 56, 56;
    }
    var entrySize, entryCount := Read(image, sizeAt, 2), Read(image, countAt, 2);
    var layout := Layout(elf32, programOffset, entrySize, entryCount);
    var within := TableWithin(layout, |image|);
    if entrySize < minimumSize || entryCount == 0 || entryCount > 256 || !within {
      return Err(BadProgramTable);
    }
    return Ok(layout);
  }

  /** One pass of the loop: read entry `index` and check its file range. */
  method ReadEntry(image: Image, layout: Layout, index: u64) returns (r: Result<Program, Error>)
    requires HeaderLayout(image) == Ok(layout) && index < layout.entryCount
    ensures var program := Entries(image, layout, 0)[index as int];
            r == if InFile(program, image) then Ok(program) else Err(SegmentExceedsFile)
  {
    hide HeaderLayout, EntryAt;
    LayoutFits(image);
    EntryInTable(layout, index as int, |image|);
    EntriesSplit(image, layout, index as int);
    var at := layout.tableOffset + index * layout.entrySize;
    var raw := ReadExact(image, at, layout.MinimumSize());
    if raw.Err? {
      return Err(Io);
    }
    var program := EntryAt(image, layout.elf32, at as int);
    var end := CheckedAdd(program.offset, program.fileSize);
    if end.None? || end.value as int > |image| {
      return Err(SegmentExceedsFile);
    }
    return Ok(program);
  }

  /** `elf_programs` */
  method ElfPrograms(image: Image) returns (r: Result<seq<Program>, Error>)
    ensures r == ProgramTable(image)
  {
    hide HeaderLayout, EntryAt;
    var layout := ReadLayout(image);
    if layout.Err? {
      return Err(layout.error);
    }
    ghost var all := Entries(image, layout.value, 0);
    var programs := [];
    var index: u64 := 0;
    while index < layout.value.entryCount
      invariant 0 <= index <= layout.value.entryCount
      invariant programs == all[..index]
      invariant forall p <- programs :: InFile(p, image)
    {
      var program := ReadEntry(image, layout.value, index);
      if program.Err? {
        return Err(program.error);
      }
      programs := programs + [program.value];
      index := index + 1;
    }
    assert programs == all;
    return Ok(programs);
  }

  lemma LayoutFits(image: Image)
    requires HeaderLayout(image).Ok?
    ensures var layout := HeaderLayout(image).value;
            && layout.entrySize >= layout.MinimumSize()
            && layout.At(layout.entryCount as int) <= |image|
  {
  }

  // ------------------------------------------------------------ address mapping

  predicate ExecutableLoad(p: Program) { p.kind == 1 && p.flags as int % 2 == 1 }

  predicate Overflows(p: Program) { p.virtualAddress as int + p.fileSize as int >= TWO64 }

  /** The file-backed addresses of a segment. */
  predicate Backs(p: Program, address: int)
  {
    p.virtualAddress as int <= address < p.virtualAddress as int + p.fileSize as int
  }

  predicate Contains(p: Program, rva: u64, size: u64)
  {
    p.virtualAddress <= rva && rva as int + size as int <= p.virtualAddress as int + p.fileSize as int
  }

  /** The segment that decides a lookup: executable, and either containing or malformed. */
  predicate Decides(p: Program, rva: u64, size: u64)
  {
    ExecutableLoad(p) && (Overflows(p) || Contains(p, rva, size))
  }

  /** Segment k is the first that decides the lookup. */
  predicate IsFirst(programs: seq<Program>, k: int, rva: u64, size: u64)
  {
    && 0 <= k < |programs| && Decides(programs[k], rva, size)
    && forall j :: 0 <= j < k ==> !Decides(programs[j], rva, size)
  }

  /** The index of the first segment that decides the lookup. */
  function FirstDecider(programs: seq<Program>, rva: u64, size: u64): (k: Option<nat>)
    ensures k.Some? ==> IsFirst(programs, k.value, rva, size)
    ensures k.None? ==> forall p <- programs :: !Decides(p, rva, size)
  {
    if programs == [] then None
    else
      var n := |programs| - 1;
      var k := FirstDecider(programs[..n], rva, size);
      if k.Some? then k else if Decides(programs[n], rva, size) then Some(n) else None
  }

  lemma FirstIsUnique(programs: seq<Program>, k: nat, rva: u64, size: u64)
    requires IsFirst(programs, k, rva, size)
    ensures FirstDecider(programs, rva, size) == Some(k)
  {
    var found := FirstDecider(programs, rva, size);
    assert programs[k] in programs;
    assert found.Some? && !(found.value < k) && !(k < found.value);
  }

  /** The reference meaning of `elf_rva_to_file_offset`. */
  function FileOffset(image: Image, rva: u64, size: u64): Result<u64, Error>
  {
    var programs :- ProgramTable(image);
    if rva as int + size as int >= TWO64 then Err(OverflowingRva)
    else
      var k := FirstDecider(programs, rva, size);
      if k.None? then Err(NotBacked)
      else
        var p := programs[k.value];
        assert p in programs && InFile(p, image);
        if Overflows(p) then Err(OverflowingSegment) else Ok(p.offset + (rva - p.virtualAddress))
  }

  /** `elf_rva_to_file_offset` */
  method RvaToFileOffset(image: Image, rva: u64, requiredSize: u64) returns (r: Result<u64, Error>)
    ensures r == FileOffset(image, rva, requiredSize)
    ensures ProgramTable(image).Err? ==> r == Err(ProgramTable(image).error)
    ensures ProgramTable(image).Ok? ==>
              var programs := ProgramTable(image).value;
              match r
              case Ok(offset) =>
                && rva as int + requiredSize as int < TWO64
                && (exists k :: IsFirst(programs, k, rva, requiredSize) && !Overflows(programs[k])
                      && offset as int == programs[k].offset as int + (rva as int - programs[k].virtualAddress as int))
                && offset as int + requiredSize as int <= |image|
              case Err(e) =>
                || (e == OverflowingRva && rva as int + requiredSize as int >= TWO64)
                || (e == OverflowingSegment && rva as int + requiredSize as int < TWO64
                    && exists k :: IsFirst(programs, k, rva, requiredSize) && Overflows(programs[k]))
                || (e == NotBacked && rva as int + requiredSize as int < TWO64
                    && forall p <- programs :: !Decides(p, rva, requiredSize))
  {
    hide HeaderLayout, Entries;
    var table := ElfPrograms(image);
    if table.Err? {
      return Err(table.error);
    }
    var programs := table.value;
    var rvaEnd := CheckedAdd(rva, requiredSize);
    if rvaEnd.None? {
      return Err(OverflowingRva);
    }
    var i := 0;
    while i < |programs|
      invariant 0 <= i <= |programs|
      invariant forall j :: 0 <= j < i ==> !Decides(programs[j], rva, requiredSize)
    {
      var p := programs[i];
      if ExecutableLoad(p) {
        var virtualEnd := CheckedAdd(p.virtualAddress, p.fileSize);
        if virtualEnd.None? {
          FirstIsUnique(programs, i, rva, requiredSize);
          return Err(OverflowingSegment);
        }
        if rva >= p.virtualAddress && rvaEnd.value <= virtualEnd.value {
          FirstIsUnique(programs, i, rva, requiredSize);
          assert p in programs;
          return Ok(p.offset + (rva - p.virtualAddress));
        }
      }
      i := i + 1;
    }
    return Err(NotBacked);
  }

  // ------------------------------------------------------------ the loaded image

  /** Memory by address, as far as a file backs it. */
  type Memory = map<int, Byte>

  /** A loadable segment's file bytes at its addresses (gABI chapter 5, "Program Header"). */
  function Placed(image: Image, p: Program): Memory
    requires InFile(p, image)
  {
    var from := p.virtualAddress as int;
    map address: int | from <= address < from + p.fileSize as int && Backs(p, address) ::
      image[p.offset as int + (address - p.virtualAddress as int)]
  }

  /** A loader maps the PT_LOAD segments in table order; a later one replaces what an earlier one placed. */
  function Loaded(image: Image, programs: seq<Program>): Memory
    requires forall p <- programs :: InFile(p, image)
  {
    if programs == [] then map[]
    else
      var last := programs[|programs| - 1];
      var before := Loaded(image, programs[..|programs| - 1]);
      if last.kind == 1 then before + Placed(image, last) else before
  }

  /** Segment i is loadable and its file-backed range covers the address. */
  predicate Writes(programs: seq<Program>, i: int, address: int)
  {
    0 <= i < |programs| && programs[i].kind == 1 && Backs(programs[i], address)
  }

  /** Segment i is the last in the table to write the address. */
  predicate WritesLast(programs: seq<Program>, i: int, address: int)
  {
    Writes(programs, i, address) && forall m :: i < m < |programs| ==> !Writes(programs, m, address)
  }

  /** Memory holds the byte of the last writer, and nothing where there is none. */
  lemma {:induction false} LastWriterWins(image: Image, programs: seq<Program>, address: int)
    requires forall p <- programs :: InFile(p, image)
    ensures address in Loaded(image, programs) <==> exists i :: WritesLast(programs, i, address)
    ensures forall i :: WritesLast(programs, i, address) ==>
              Loaded(image, programs)[address] == Placed(image, programs[i])[address]
    decreases |programs|
  {
    if programs != [] {
      var n := |programs| - 1;
      var front := programs[..n];
      LastWriterWins(image, front, address);
      if Writes(programs, n, address) {
        assert WritesLast(programs, n, address);
      } else {
        assert forall i :: WritesLast(front, i, address) <==> WritesLast(programs, i, address) by {
          assert forall i :: 0 <= i < n ==> (Writes(front, i, address) <==> Writes(programs, i, address));
        }
      }
    }
  }

  /** Some segment writes the address last. */
  lemma {:induction false} SomeWritesLast(programs: seq<Program>, k: int, address: int) returns (last: int)
    requires Writes(programs, k, address)
    ensures k <= last && WritesLast(programs, last, address)
    decreases |programs| - k
  {
    if m :| k < m < |programs| && Writes(programs, m, address) {
      last := SomeWritesLast(programs, m, address);
    } else {
      last := k;
    }
  }

  /** A segment after k replaces `byte` at the address by another one, and is the last to write there. */
  predicate Overwritten(image: Image, programs: seq<Program>, k: int, address: int, byte: Byte)
    requires forall p <- programs :: InFile(p, image)
  {
    exists i | k < i < |programs| :: WritesLast(programs, i, address) && Placed(image, programs[i])[address] != byte
  }

  /** The byte segment k puts at an address is in memory exactly when no later segment replaces it. */
  lemma LoadedExactly(image: Image, programs: seq<Program>, k: nat, address: int)
    requires (forall p <- programs :: InFile(p, image)) && Writes(programs, k, address)
    ensures address in Loaded(image, programs)
    ensures var byte := Placed(image, programs[k])[address];
            Loaded(image, programs)[address] == byte <==> !Overwritten(image, programs, k, address, byte)
  {
    hide Loaded, InFile;
    LastWriterWins(image, programs, address);
    var last := SomeWritesLast(programs, k, address);
    LastIsUnique(programs, last, address);
    assert last < |programs| && programs[last] in programs && address in Placed(image, programs[last]);
    hide Placed, Writes;
    var byte, final := Placed(image, programs[k])[address], Placed(image, programs[last])[address];
    assert Loaded(image, programs)[address] == final;
    hide WritesLast;
    if last == k {
      assert byte == final;
    } else {
      assert Overwritten(image, programs, k, address, byte) <==> final != byte;
    }
  }

  lemma LastIsUnique(programs: seq<Program>, last: int, address: int)
    requires WritesLast(programs, last, address)
    ensures forall i :: WritesLast(programs, i, address) ==> i == last
  {
    hide Backs;
  }

  /** What a successful lookup says about the deciding segment. */
  lemma OffsetIsDecided(image: Image, rva: u64, size: u64, offset: u64, k: nat)
    requires FileOffset(image, rva, size) == Ok(offset) && IsFirst(ProgramTable(image).value, k, rva, size)
    ensures var programs := ProgramTable(image).value;
            && (forall p <- programs :: InFile(p, image)) && InFile(programs[k], image)
            && ExecutableLoad(programs[k]) && Contains(programs[k], rva, size)
            && offset as int == programs[k].offset as int + (rva as int - programs[k].virtualAddress as int)
            && offset as int + size as int <= |image|
  {
    hide HeaderLayout, Entries, FirstDecider;
    FirstIsUnique(ProgramTable(image).value, k, rva, size);
    assert ProgramTable(image).value[k] in ProgramTable(image).value;
  }

  /**
   * For every file image and every range that is mapped: the range lies in the file and in
   * the first executable segment that contains it, and the loaded image holds the byte at
   * each returned offset exactly when no later segment replaces it by a different one.
   */
  lemma MappedBytesAreLoaded(image: Image, rva: u64, size: u64, offset: u64, k: nat, address: int)
    requires FileOffset(image, rva, size) == Ok(offset) && IsFirst(ProgramTable(image).value, k, rva, size)
    requires rva as int <= address < rva as int + size as int
    ensures var programs := ProgramTable(image).value;
            && (forall p <- programs :: InFile(p, image))
            && offset as int + size as int <= |image| && programs[k].kind == 1 && programs[k].flags as int % 2 == 1
            && programs[k].virtualAddress as int <= rva as int
            && rva as int + size as int <= programs[k].virtualAddress as int + programs[k].fileSize as int
            && address in Loaded(image, programs)
            && var byte := image[offset as int + (address - rva as int)];
               (Loaded(image, programs)[address] == byte <==> !Overwritten(image, programs, k, address, byte))
  {
    OffsetIsDecided(image, rva, size, offset, k);
    hide FileOffset, ProgramTable, Loaded, Overwritten, InFile, Decides, ExecutableLoad, Contains;
    SegmentByteIsLoaded(image, ProgramTable(image).value, rva, size, offset, k, address);
  }

  /** The same for any list of segments that lie in the file. */
  lemma SegmentByteIsLoaded(
    image: Image, programs: seq<Program>, rva: u64, size: u64, offset: u64, k: nat, address: int)
    requires (forall p <- programs :: InFile(p, image)) && k < |programs|
    requires ExecutableLoad(programs[k]) && Contains(programs[k], rva, size)
    requires offset as int == programs[k].offset as int + (rva as int - programs[k].virtualAddress as int)
    requires rva as int <= address < rva as int + size as int && offset as int + size as int <= |image|
    ensures address in Loaded(image, programs)
    ensures var byte := image[offset as int + (address - rva as int)];
            Loaded(image, programs)[address] == byte <==> !Overwritten(image, programs, k, address, byte)
  {
    hide Loaded, Overwritten;
    assert Writes(programs, k, address) && InFile(programs[k], image);
    assert Placed(image, programs[k])[address] == image[offset as int + (address - rva as int)];
    hide Placed;
    LoadedExactly(image, programs, k, address);
  }

  /** No other loadable segment's file-backed range covers the address. */
  ghost predicate BackedOnlyBy(programs: seq<Program>, k: int, address: int)
  {
    forall i :: Writes(programs, i, address) ==> i == k
  }

  lemma AloneIsNotOverwritten(image: Image, programs: seq<Program>, k: int, address: int, byte: Byte)
    requires (forall p <- programs :: InFile(p, image)) && BackedOnlyBy(programs, k, address)
    ensures !Overwritten(image, programs, k, address, byte)
  {
    hide Placed, Backs;
  }

  /** Memory holds at the address the byte as far from `offset` in the file as the address is from `rva`. */
  predicate HoldsByte(image: Image, memory: Memory, rva: u64, offset: u64, address: int)
  {
    && 0 <= offset as int + (address - rva as int) < |image| && address in memory
    && memory[address] == image[offset as int + (address - rva as int)]
  }

  /** Memory holds `size` bytes of the file from `offset` on at the addresses from `rva` on. */
  ghost predicate HoldsRange(image: Image, memory: Memory, rva: u64, size: u64, offset: u64)
  {
    forall address | rva as int <= address < rva as int + size as int ::
      HoldsByte(image, memory, rva, offset, address)
  }

  lemma RangeIsLoaded(image: Image, programs: seq<Program>, rva: u64, size: u64, offset: u64, k: nat)
    requires (forall p <- programs :: InFile(p, image)) && k < |programs|
    requires ExecutableLoad(programs[k]) && Contains(programs[k], rva, size)
    requires offset as int == programs[k].offset as int + (rva as int - programs[k].virtualAddress as int)
    requires offset as int + size as int <= |image|
    requires forall address | rva as int <= address < rva as int + size as int :: BackedOnlyBy(programs, k, address)
    ensures HoldsRange(image, Loaded(image, programs), rva, size, offset)
  {
    hide Loaded, Overwritten, BackedOnlyBy, InFile, ExecutableLoad, Contains;
    var memory := Loaded(image, programs);
    forall address | rva as int <= address < rva as int + size as int
      ensures HoldsByte(image, memory, rva, offset, address)
    {
      SegmentByteIsLoaded(image, programs, rva, size, offset, k, address);
      assert BackedOnlyBy(programs, k, address);
      AloneIsNotOverwritten(image, programs, k, address, image[offset as int + (address - rva as int)]);
    }
  }

  /** Where file-backed ranges do not overlap, the returned range of the file is the range of memory. */
  lemma MappedRangeIsLoaded(image: Image, rva: u64, size: u64, offset: u64, k: nat)
    requires FileOffset(image, rva, size) == Ok(offset) && IsFirst(ProgramTable(image).value, k, rva, size)
    requires forall address | rva as int <= address < rva as int + size as int ::
               BackedOnlyBy(ProgramTable(image).value, k, address)
    ensures forall p <- ProgramTable(image).value :: InFile(p, image)
    ensures HoldsRange(image, Loaded(image, ProgramTable(image).value), rva, size, offset)
  {
    OffsetIsDecided(image, rva, size, offset, k);
    hide FileOffset, ProgramTable, Loaded, HoldsRange, BackedOnlyBy, InFile, Decides, ExecutableLoad, Contains;
    RangeIsLoaded(image, ProgramTable(image).value, rva, size, offset, k);
  }

  // ------------------------------------------------------------ dynamic table

  datatype Tag = Tag(tag: int, value: u64)

  datatype DynamicInfo = DynamicInfo(needed: seq<Bytes>, soname: Option<Bytes>)

  /** The values `elf_dynamic` keeps while scanning; a repeated tag overwrites. */
  datatype Scan = Scan(needed: seq<u64>, strings: Option<u64>, stringSize: Option<u64>, soname: Option<u64>)
  {
    function Note(t: Tag): Scan
    {
      if t.tag == 1 then this.(needed := needed + [t.value])
      else if t.tag == 5 then this.(strings := Some(t.value))
      else if t.tag == 10 then this.(stringSize := Some(t.value))
      else if t.tag == 14 then this.(soname := Some(t.value))
      else this
    }
  }

  const EMPTY_SCAN := Scan([], None, None, None)

  function Signed(v: nat, half: nat): int { if v < half then v else v - 2 * half }

  function TagSize(elf32: bool): u64 { if elf32 then 8 else 16 }

  function TagAt(image: Image, elf32: bool, at: nat): Tag
    requires at + TagSize(elf32) as int <= |image|
  {
    if elf32 then Tag(Signed(Read(image, at, 4) as int, 0x8000_0000), Read(image, at + 4, 4))
    else Tag(Signed(Read(image, at, 8) as int, 0x8000_0000_0000_0000), Read(image, at + 8, 8))
  }

  /** Scan `count` entries from `at`, stopping at the first DT_NULL. */
  function ScanTags(image: Image, elf32: bool, at: nat, count: nat, scan: Scan): Scan
    requires at + count * TagSize(elf32) as int <= |image|
    decreases count
  {
    if count == 0 then scan
    else
      var t := TagAt(image, elf32, at);
      if t.tag == 0 then scan
      else ScanTags(image, elf32, at + TagSize(elf32) as int, count - 1, scan.Note(t))
  }

  /** The first PT_LOAD whose file-backed range holds the whole string table. */
  function StringsOffset(programs: seq<Program>, address: u64, size: u64): Option<u64>
  {
    if programs == [] then None
    else
      var p := programs[0];
      if p.kind == 1 && p.virtualAddress <= address
         && address as int - p.virtualAddress as int + size as int <= p.fileSize as int
         && p.offset as int + (address as int - p.virtualAddress as int) < TWO64
      then Some(p.offset + (address - p.virtualAddress))
      else StringsOffset(programs[1..], address, size)
  }

  function LastDynamic(programs: seq<Program>): Option<Program>
  {
    if programs == [] then None
    else if programs[|programs| - 1].kind == 2 then Some(programs[|programs| - 1])
    else LastDynamic(programs[..|programs| - 1])
  }

  function FirstNul(bytes: Bytes): (r: Option<nat>)
    ensures r.Some? ==> r.value < |bytes| && bytes[r.value] == 0 && 0 !in bytes[..r.value]
    ensures r.None? ==> 0 !in bytes
  {
    if bytes == [] then None
    else if bytes[0] == 0 then Some(0)
    else
      match FirstNul(bytes[1..])
      case None => None
      case Some(i) =>
        assert bytes[..i + 1] == [bytes[0]] + bytes[1..][..i];
        Some(i + 1)
  }

  /** `utf8` is the library's UTF-8 validity check. */
  function StringAt(table: Bytes, offset: u64, utf8: Bytes -> bool): (r: Result<Bytes, Error>)
    ensures r.Err? ==> r.error in {StringOutOfBounds, Unterminated, NotUtf8}
  {
    if offset as int > |table| then Err(StringOutOfBounds)
    else
      var tail := table[offset as int..];
      match FirstNul(tail)
      case None => Err(Unterminated)
      case Some(end) => if utf8(tail[..end]) then Ok(tail[..end]) else Err(NotUtf8)
  }

  function StringsAt(table: Bytes, offsets: seq<u64>, utf8: Bytes -> bool): (r: Result<seq<Bytes>, Error>)
    ensures r.Err? ==> r.error in {StringOutOfBounds, Unterminated, NotUtf8}
  {
    if offsets == [] then Ok([])
    else
      var front :- StringsAt(table, offsets[..|offsets| - 1], utf8);
      var last :- StringAt(table, offsets[|offsets| - 1], utf8);
      Ok(front + [last])
  }

  /** The bytes the segments put at a string table's address. */
  function StringTable(image: Image, programs: seq<Program>, address: u64, size: u64): Result<Bytes, Error>
  {
    var at := StringsOffset(programs, address, size);
    if at.None? then Err(StringsOutsideLoad) else ReadExact(image, at.value, size)
  }

  /** What a completed scan means, given what lies at the string table it names. */
  function Interpret(scan: Scan, strings: Result<Bytes, Error>, utf8: Bytes -> bool): Result<DynamicInfo, Error>
  {
    if scan.strings.None? then Err(NoStringTable)
    else if scan.stringSize.None? then Err(NoStringSize)
    else if scan.stringSize.value == 0 || scan.stringSize.value > MIB4 then Err(BadStringTable)
    else
      var table :- strings;
      var needed :- StringsAt(table, scan.needed, utf8);
      match scan.soname
      case None => Ok(DynamicInfo(needed, None))
      case Some(offset) =>
        var soname :- StringAt(table, offset, utf8);
        Ok(DynamicInfo(needed, Some(soname)))
  }

  /** A scan names a string table once it has both its address and its size. */
  predicate NamesStrings(scan: Scan) { scan.strings.Some? && scan.stringSize.Some? }

  function Resolve(image: Image, programs: seq<Program>, scan: Scan, utf8: Bytes -> bool): Result<DynamicInfo, Error>
  {
    var strings :=
      if NamesStrings(scan) then StringTable(image, programs, scan.strings.value, scan.stringSize.value)
      else Err(NoStringTable);
    Interpret(scan, strings, utf8)
  }

  predicate ValidDynamic(p: Program, elf32: bool)
  {
    p.fileSize <= MIB4 && p.fileSize as int % TagSize(elf32) as int == 0
  }

  lemma TableCount(p: Program, elf32: bool, image: Image)
    requires ValidDynamic(p, elf32) && InFile(p, image)
    ensures p.offset as int + p.fileSize as int / TagSize(elf32) as int * TagSize(elf32) as int <= |image|
  {
  }

  /** The reference meaning of `elf_dynamic`. */
  function Dynamic(image: Image, utf8: Bytes -> bool): Result<DynamicInfo, Error>
  {
    var layout :- HeaderLayout(image);
    var programs :- ProgramTable(image);
    var dynamic := LastDynamic(programs);
    if dynamic.None? then Err(NoDynamic)
    else if !ValidDynamic(dynamic.value, layout.elf32) then Err(BadDynamic)
    else
      LastDynamicIsMember(programs);
      TableCount(dynamic.value, layout.elf32, image);
      var scan := ScanTags(image, layout.elf32, dynamic.value.offset as int,
                           dynamic.value.fileSize as int / TagSize(layout.elf32) as int, EMPTY_SCAN);
      Resolve(image, programs, scan, utf8)
  }

  lemma LastDynamicIsMember(programs: seq<Program>)
    ensures var d := LastDynamic(programs); d.Some? ==> d.value in programs && d.value.kind == 2
  {
  }

  function Loads(programs: seq<Program>): seq<Program>
  {
    if programs == [] then []
    else
      var last := programs[|programs| - 1];
      Loads(programs[..|programs| - 1]) + if last.kind == 1 then [last] else []
  }

  lemma {:induction false} StringsOffsetAppend(front: seq<Program>, p: Program, address: u64, size: u64)
    ensures StringsOffset(front + [p], address, size)
            == (if StringsOffset(front, address, size).Some? then StringsOffset(front, address, size)
                else StringsOffset([p], address, size))
  {
    if front == [] {
      assert front + [p] == [p];
    } else {
      assert (front + [p])[1..] == front[1..] + [p];
      StringsOffsetAppend(front[1..], p, address, size);
    }
  }

  lemma {:induction false} StringsOffsetOfLoads(programs: seq<Program>, address: u64, size: u64)
    ensures StringsOffset(Loads(programs), address, size) == StringsOffset(programs, address, size)
  {
    if programs != [] {
      var front, last := programs[..|programs| - 1], programs[|programs| - 1];
      StringsOffsetOfLoads(front, address, size);
      assert programs == front + [last];
      StringsOffsetAppend(front, last, address, size);
      if last.kind == 1 {
        StringsOffsetAppend(Loads(front), last, address, size);
      } else {
        assert [last][1..] == [];
        assert Loads(programs) == Loads(front);
      }
    }
  }

  /** The `find_map` over load segments. */
  method FindStrings(loads: seq<Program>, address: u64, size: u64) returns (r: Option<u64>)
    requires forall p <- loads :: p.kind == 1
    ensures r == StringsOffset(loads, address, size)
  {
    var i := 0;
    while i < |loads|
      invariant 0 <= i <= |loads|
      invariant StringsOffset(loads, address, size) == StringsOffset(loads[i..], address, size)
    {
      var p := loads[i];
      assert loads[i..][0] == p && loads[i..][1..] == loads[i + 1..];
      if address >= p.virtualAddress {
        var relative := address - p.virtualAddress;
        var end := CheckedAdd(relative, size);
        if end.Some? && end.value <= p.fileSize {
          var at := CheckedAdd(p.offset, relative);
          if at.Some? {
            return at;
          }
        }
      }
      i := i + 1;
    }
    return None;
  }

  /** The scan loop: the entries before the first DT_NULL, a later tag overwriting an earlier one. */
  method ReadTags(image: Image, elf32: bool, offset: u64, count: u64) returns (scan: Scan)
    requires offset as int + count as int * TagSize(elf32) as int <= |image|
    ensures scan == ScanTags(image, elf32, offset as int, count as int, EMPTY_SCAN)
  {
    hide TagAt;
    var size := TagSize(elf32);
    scan := EMPTY_SCAN;
    var index: u64 := 0;
    while index < count
      invariant 0 <= index <= count
      invariant ScanTags(image, elf32, offset as int, count as int, EMPTY_SCAN)
             == ScanTags(image, elf32, offset as int + index as int * size as int, (count - index) as int, scan)
    {
      var at := offset + index * size;
      assert ReadExact(image, at, size).Ok?;
      var t := TagAt(image, elf32, at as int);
      if t.tag == 0 {
        break;
      }
      scan := scan.Note(t);
      index := index + 1;
    }
  }

  method ReadStrings(table: Bytes, offsets: seq<u64>, utf8: Bytes -> bool) returns (r: Result<seq<Bytes>, Error>)
    ensures r == StringsAt(table, offsets, utf8)
  {
    var strings := [];
    var i := 0;
    while i < |offsets|
      invariant 0 <= i <= |offsets|
      invariant StringsAt(table, offsets[..i], utf8) == Ok(strings)
    {
      assert offsets[..i + 1][..i] == offsets[..i];
      var s := StringAt(table, offsets[i], utf8);
      if s.Err? {
        StringsAtFails(table, offsets, i + 1, utf8);
        return Err(s.error);
      }
      strings := strings + [s.value];
      i := i + 1;
    }
    assert offsets[..|offsets|] == offsets;
    return Ok(strings);
  }

  lemma StringsAtFails(table: Bytes, offsets: seq<u64>, i: nat, utf8: Bytes -> bool)
    requires i <= |offsets| && StringsAt(table, offsets[..i], utf8).Err?
    ensures StringsAt(table, offsets, utf8) == Err(StringsAt(table, offsets[..i], utf8).error)
    decreases |offsets|
  {
    if i == |offsets| {
      assert offsets[..i] == offsets;
    } else {
      var front := offsets[..|offsets| - 1];
      assert front[..i] == offsets[..i];
      StringsAtFails(table, front, i, utf8);
    }
  }

  /** The part of `elf_dynamic` after the scan. */
  method ResolveStrings(image: Image, programs: seq<Program>, scan: Scan, utf8: Bytes -> bool)
    returns (r: Result<DynamicInfo, Error>)
    ensures r == Resolve(image, programs, scan, utf8)
  {
    if scan.strings.None? {
      return Err(NoStringTable);
    }
    if scan.stringSize.None? {
      return Err(NoStringSize);
    }
    var size := scan.stringSize.value;
    if size == 0 || size > MIB4 {
      return Err(BadStringTable);
    }
    StringsOffsetOfLoads(programs, scan.strings.value, size);
    LoadsAreLoads(programs);
    var at := FindStrings(Loads(programs), scan.strings.value, size);
    if at.None? {
      return Err(StringsOutsideLoad);
    }
    var table :- ReadExact(image, at.value, size);
    var needed :- ReadStrings(table, scan.needed, utf8);
    if scan.soname.None? {
      return Ok(DynamicInfo(needed, None));
    }
    var soname :- StringAt(table, scan.soname.value, utf8);
    return Ok(DynamicInfo(needed, Some(soname)));
  }

  lemma LoadsAreLoads(programs: seq<Program>)
    ensures forall p <- Loads(programs) :: p.kind == 1
  {
  }

  /** `elf_dynamic` */
  method ElfDynamic(image: Image, utf8: Bytes -> bool) returns (r: Result<DynamicInfo, Error>)
    ensures r == Dynamic(image, utf8)
  {
    hide HeaderLayout, Entries, ScanTags, Resolve;
    var programs :- ElfPrograms(image);
    HeaderClass(image);
    var elf32 := image[4] == 1;
    var dynamic: Option<Program> := None;
    var i := 0;
    while i < |programs|
      invariant 0 <= i <= |programs|
      invariant dynamic == LastDynamic(programs[..i])
    {
      assert programs[..i + 1][..i] == programs[..i];
      if programs[i].kind == 2 {
        dynamic := Some(programs[i]);
      }
      i := i + 1;
    }
    assert programs[..|programs|] == programs;
    if dynamic.None? {
      return Err(NoDynamic);
    }
    var size := dynamic.value.fileSize;
    if size > MIB4 || size % TagSize(elf32) != 0 {
      return Err(BadDynamic);
    }
    LastDynamicIsMember(programs);
    TableCount(dynamic.value, elf32, image);
    var scan := ReadTags(image, elf32, dynamic.value.offset, size / TagSize(elf32));
    r := ResolveStrings(image, programs, scan, utf8);
  }

  lemma HeaderClass(image: Image)
    requires HeaderLayout(image).Ok?
    ensures |image| >= 64 && (HeaderLayout(image).value.elf32 <==> image[4] == 1)
  {
  }

  /** Once the program table is accepted, no later read can fall outside the file. */
  lemma {:induction false} StringTableInFile(image: Image, programs: seq<Program>, address: u64, size: u64)
    requires forall p <- programs :: InFile(p, image)
    ensures var at := StringsOffset(programs, address, size);
            at.Some? ==> ReadExact(image, at.value, size).Ok?
  {
    if programs != [] {
      assert programs[0] in programs;
      StringTableInFile(image, programs[1..], address, size);
    }
  }

  lemma DynamicNeverFailsToRead(image: Image, utf8: Bytes -> bool)
    ensures Dynamic(image, utf8) == Err(Io) <==> |image| < 64
  {
    hide Entries, ScanTags;
    if ProgramTable(image).Ok? {
      forall address, size
        ensures StringsOffset(ProgramTable(image).value, address, size).Some? ==>
                  ReadExact(image, StringsOffset(ProgramTable(image).value, address, size).value, size).Ok?
      {
        StringTableInFile(image, ProgramTable(image).value, address, size);
      }
    }
  }

  // ------------------------------------------------------------ GNU build id

  function SaturatingAdd(x: u64, y: u64): (r: u64)
    ensures r as int == if x as int + y as int < TWO64 then x as int + y as int else TWO64 - 1
  {
    if x as int + y as int < TWO64 then x + y else 0xFFFF_FFFF_FFFF_FFFF
  }

  /** `x & !3` */
  function ClearLowTwo(x: u64): u64 { x - x % 4 }

  function Aligned(x: nat): nat { (x + 3) / 4 * 4 }

  /** The parts of the note at the start of `rest`, when it and its padding fit. */
  datatype Note = Note(noteType: u64, name: Bytes, desc: Bytes)

  function NoteLength(nameSize: nat, descSize: nat): nat { 12 + Aligned(nameSize) + Aligned(descSize) }

  const GNU: Bytes := [0x47, 0x4E, 0x55]

  /** The descriptor of the first type-3 note whose name starts with "GNU" (gABI, "Note Section"). */
  function WalkNotes(rest: Bytes): Option<Bytes>
    decreases |rest|
  {
    if |rest| < 12 then None
    else
      var nameSize, descSize := Read(rest, 0, 4) as int, Read(rest, 4, 4) as int;
      var next := NoteLength(nameSize, descSize);
      if next > |rest| then None
      else if Read(rest, 8, 4) == 3 && GNU <= rest[12..12 + nameSize] then
        Some(rest[12 + Aligned(nameSize)..12 + Aligned(nameSize) + descSize])
      else WalkNotes(rest[next..])
  }

  /** The walk at an absolute position of the segment. */
  lemma WalkAt(note: Bytes, cursor: nat)
    requires cursor + 12 <= |note|
    ensures var nameSize, descSize := Read(note, cursor, 4) as int, Read(note, cursor + 4, 4) as int;
            var desc := cursor + 12 + Aligned(nameSize);
            var next := cursor + NoteLength(nameSize, descSize);
            WalkNotes(note[cursor..]) ==
            if next > |note| then None
            else if Read(note, cursor + 8, 4) == 3 && GNU <= note[cursor + 12..cursor + 12 + nameSize] then
              Some(note[desc..desc + descSize])
            else WalkNotes(note[next..])
  {
    hide Read;
    var rest := note[cursor..];
    SameField(note, cursor, 0);
    SameField(note, cursor, 4);
    SameField(note, cursor, 8);
    var nameSize, descSize := Read(note, cursor, 4) as int, Read(note, cursor + 4, 4) as int;
    var next := NoteLength(nameSize, descSize);
    if next <= |rest| {
      assert note[cursor + 12..cursor + 12 + nameSize] == rest[12..12 + nameSize];
      assert note[cursor + 12 + Aligned(nameSize)..cursor + 12 + Aligned(nameSize) + descSize]
             == rest[12 + Aligned(nameSize)..12 + Aligned(nameSize) + descSize];
      assert note[cursor + next..] == rest[next..];
    }
  }

  /** The note loop of `elf_gnu_build_id`, with its saturating padding. */
  method WalkNoteSegment(note: Bytes) returns (r: Option<Bytes>)
    requires |note| <= 0x1_0000
    ensures r == WalkNotes(note)
  {
    hide Decode, Pow256, WalkNotes, SaturatingAdd, ClearLowTwo, Aligned, NoteLength;
    Powers256();
    var length := |note| as u64;
    var cursor: u64 := 0;
    assert note[0..] == note;
    while cursor + 12 <= length
      invariant cursor <= length && cursor % 4 == 0
      invariant WalkNotes(note) == WalkNotes(note[cursor..])
      decreases length - cursor
    {
      WalkAt(note, cursor as int);
      var nameSize := Read(note, cursor as int, 4);
      var descSize := Read(note, cursor as int + 4, 4);
      var noteType := Read(note, cursor as int + 8, 4);
      PaddedEnds(cursor, nameSize, descSize);
      cursor := cursor + 12;
      var nameEnd := SaturatingAdd(cursor, nameSize);
      var namePadded := ClearLowTwo(SaturatingAdd(nameEnd, 3));
      var descEnd := SaturatingAdd(namePadded, descSize);
      var descPadded := ClearLowTwo(SaturatingAdd(descEnd, 3));
      if descPadded > length {
        return None;
      }
      if noteType == 3 && GNU <= note[cursor..nameEnd] {
        return Some(note[namePadded..descEnd]);
      }
      cursor := descPadded;
    }
    ShortWalk(note[cursor..]);
    return None;
  }

  lemma ShortWalk(rest: Bytes)
    requires |rest| < 12
    ensures WalkNotes(rest) == None
  {
  }

  lemma SameField(note: Bytes, cursor: nat, at: nat)
    requires cursor + at + 4 <= |note|
    ensures Read(note, cursor + at, 4) == Read(note[cursor..], at, 4)
  {
    assert note[cursor + at..cursor + at + 4] == note[cursor..][at..at + 4];
  }

  /**
   * From a 4-aligned start in a segment, the saturating padding of 32-bit sizes never
   * saturates, and yields the field positions of the note.
   */
  lemma PaddedEnds(start: u64, nameSize: u64, descSize: u64)
    requires start % 4 == 0 && start <= 0x1_0000
    requires nameSize as int < TWO32 && descSize as int < TWO32
    ensures start as int + 12 < TWO64
    ensures var nameEnd := SaturatingAdd(start + 12, nameSize);
            var namePadded := ClearLowTwo(SaturatingAdd(nameEnd, 3));
            var descEnd := SaturatingAdd(namePadded, descSize);
            var descPadded := ClearLowTwo(SaturatingAdd(descEnd, 3));
            && nameEnd as int == start as int + 12 + nameSize as int
            && namePadded as int == start as int + 12 + Aligned(nameSize as int)
            && descEnd as int == namePadded as int + descSize as int
            && descPadded as int == start as int + NoteLength(nameSize as int, descSize as int)
            && nameEnd <= namePadded && descEnd <= descPadded && descPadded % 4 == 0
  {
    hide SaturatingAdd, ClearLowTwo, Aligned;
    var nameEnd := SaturatingAdd(start + 12, nameSize);
    PadUp(nameEnd);
    AlignedShift(start as int + 12, nameSize as int);
    var descEnd := SaturatingAdd(ClearLowTwo(SaturatingAdd(nameEnd, 3)), descSize);
    PadUp(descEnd);
    AlignedShift(start as int + 12 + Aligned(nameSize as int), descSize as int);
  }

  lemma PadUp(x: u64)
    requires x as int < 0x10_0000_0000
    ensures var padded := ClearLowTwo(SaturatingAdd(x, 3));
            padded as int == Aligned(x as int) && padded >= x && padded % 4 == 0
  {
  }

  lemma AlignedShift(start: nat, n: nat)
    requires start % 4 == 0
    ensures Aligned(start + n) == start + Aligned(n) && Aligned(n) % 4 == 0 && n <= Aligned(n) < n + 4
  {
  }

  /** The note segments in table order; an oversized one stops the search. */
  function SearchNotes(image: Image, programs: seq<Program>): Result<string, Error>
  {
    if programs == [] then Err(NoBuildId)
    else if programs[0].kind != 4 then SearchNotes(image, programs[1..])
    else if programs[0].fileSize > 0x1_0000 then Err(OversizedNote)
    else
      var note :- ReadExact(image, programs[0].offset, programs[0].fileSize);
      match WalkNotes(note)
      case Some(desc) => Ok(Hex.Encode(desc))
      case None => SearchNotes(image, programs[1..])
  }

  /** `elf_gnu_build_id` */
  method ElfGnuBuildId(image: Image) returns (r: Result<string, Error>)
    ensures ProgramTable(image).Err? ==> r == Err(ProgramTable(image).error)
    ensures ProgramTable(image).Ok? ==> r == SearchNotes(image, ProgramTable(image).value)
  {
    hide HeaderLayout, Entries, WalkNotes;
    var programs :- ElfPrograms(image);
    var i := 0;
    while i < |programs|
      invariant 0 <= i <= |programs|
      invariant SearchNotes(image, programs) == SearchNotes(image, programs[i..])
    {
      assert programs[i..][0] == programs[i] && programs[i..][1..] == programs[i + 1..];
      if programs[i].kind == 4 {
        if programs[i].fileSize > 0x1_0000 {
          return Err(OversizedNote);
        }
        assert programs[i] in programs;
        assert ReadExact(image, programs[i].offset, programs[i].fileSize).Ok?;
        var note := image[programs[i].offset as int..programs[i].offset as int + programs[i].fileSize as int];
        var desc := WalkNoteSegment(note);
        if desc.Some? {
          return Ok(Hex.Encode(desc.value));
        }
      }
      i := i + 1;
    }
    return Err(NoBuildId);
  }
}
