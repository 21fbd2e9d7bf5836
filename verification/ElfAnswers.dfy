/**
 * Exactly what the ELF reader accepts and returns, field by field and byte by byte, for
 * arbitrary files: the header and program table, the address lookup, and the dynamic strings.
 */
module ElfAnswers {
  import opened Wrappers
  import opened Bits32
  import opened LittleEndian
  import opened Elf
  import opened ElfEncoding
  import Hex

  // ------------------------------------------------------------ little-endian fields

  function Le16(b: Bytes, at: nat): nat
    requires at + 2 <= |b|
  {
    b[at] as int + 0x100 * b[at + 1] as int
  }

  function Le32(b: Bytes, at: nat): nat
    requires at + 4 <= |b|
  {
    Le16(b, at) + 0x1_0000 * Le16(b, at + 2)
  }

  function Le64(b: Bytes, at: nat): nat
    requires at + 8 <= |b|
  {
    Le32(b, at) + 0x1_0000_0000 * Le32(b, at + 4)
  }

  lemma DecodeTwo(b: Bytes)
    requires |b| >= 2
    ensures Decode(b) == b[0] as int + 0x100 * b[1] as int + 0x1_0000 * Decode(b[2..])
  {
    assert b[1..][1..] == b[2..];
    assert Decode(b) == b[0] as int + 256 * Decode(b[1..]);
    assert Decode(b[1..]) == b[1] as int + 256 * Decode(b[2..]);
  }

  lemma DecodeNothing(b: Bytes)
    requires b == []
    ensures Decode(b) == 0
  {
  }

  lemma Read2(image: Image, at: nat)
    requires at + 2 <= |image|
    ensures Read(image, at, 2) as int == Le16(image, at)
  {
    var b := image[at..at + 2];
    DecodeTwo(b);
    DecodeNothing(b[2..]);
    hide Decode;
  }

  lemma Decode4(b: Bytes)
    requires |b| >= 4
    ensures Decode(b) == Le32(b, 0) + 0x1_0000_0000 * Decode(b[4..])
  {
    hide Decode;
    DecodeTwo(b);
    DecodeTwo(b[2..]);
    assert b[2..][2..] == b[4..];
  }

  lemma Read4(image: Image, at: nat)
    requires at + 4 <= |image|
    ensures Read(image, at, 4) as int == Le32(image, at)
  {
    var b := image[at..at + 4];
    hide Decode;
    Decode4(b);
    DecodeNothing(b[4..]);
    SameLe32(image, at, b, 0);
  }

  lemma SameLe32(image: Bytes, at: nat, b: Bytes, k: nat)
    requires at + k + 4 <= |image| && k + 4 <= |b|
    requires forall i :: k <= i < k + 4 ==> b[i] == image[at + i]
    ensures Le32(b, k) == Le32(image, at + k)
  {
  }

  lemma Read8(image: Image, at: nat)
    requires at + 8 <= |image|
    ensures Read(image, at, 8) as int == Le64(image, at)
  {
    var b := image[at..at + 8];
    hide Decode, Le32;
    Decode4(b);
    Decode4(b[4..]);
    assert b[4..][4..] == [];
    DecodeNothing(b[4..][4..]);
    SameLe32(image, at, b, 0);
    SameLe32(b, 4, b[4..], 0);
    SameLe32(image, at, b, 4);
  }

  // ------------------------------------------------------------ header and program table

  /** The ELF identification of a little-endian file of one of the two classes. */
  predicate IsElf(b: Bytes)
  {
    && |b| >= 64 && b[0] == 0x7F && b[1] == 0x45 && b[2] == 0x4C && b[3] == 0x46
    && (b[4] == 1 || b[4] == 2) && b[5] == 1
  }

  function TableOffset(b: Bytes): nat
    requires IsElf(b)
  {
    if b[4] == 1 then Le32(b, 28) else Le64(b, 32)
  }

  function EntrySize(b: Bytes): nat
    requires IsElf(b)
  {
    if b[4] == 1 then Le16(b, 42) else Le16(b, 54)
  }

  function EntryCount(b: Bytes): nat
    requires IsElf(b)
  {
    if b[4] == 1 then Le16(b, 44) else Le16(b, 56)
  }

  /** At most 256 entries, each at least as large as its class needs, all inside the file. */
  predicate HasTable(b: Bytes)
  {
    && IsElf(b) && (if b[4] == 1 then 32 else 56) <= EntrySize(b) && 1 <= EntryCount(b) <= 256
    && TableOffset(b) + EntryCount(b) * EntrySize(b) <= |b|
  }

  lemma HeaderFields(image: Image)
    requires |image| >= 64
    ensures Read(image, 28, 4) as int == Le32(image, 28) && Read(image, 32, 8) as int == Le64(image, 32)
    ensures Read(image, 42, 2) as int == Le16(image, 42) && Read(image, 44, 2) as int == Le16(image, 44)
    ensures Read(image, 54, 2) as int == Le16(image, 54) && Read(image, 56, 2) as int == Le16(image, 56)
  {
    Read4(image, 28);
    Read8(image, 32);
    Read2(image, 42);
    Read2(image, 44);
    Read2(image, 54);
    Read2(image, 56);
  }

  lemma MagicBytes(image: Image)
    requires |image| >= 64
    ensures image[..4] == [0x7F, 0x45, 0x4C, 0x46]
            <==> image[0] == 0x7F && image[1] == 0x45 && image[2] == 0x4C && image[3] == 0x46
  {
    var magic := image[..4];
    assert magic[0] == image[0] && magic[1] == image[1] && magic[2] == image[2] && magic[3] == image[3];
  }

  /** Exactly which headers are accepted, and what is read from them. */
  lemma HeaderExactly(image: Image)
    ensures HeaderLayout(image) == Err(Io) <==> |image| < 64
    ensures HeaderLayout(image) == Err(NotElf) <==> |image| >= 64 && !IsElf(image)
    ensures HeaderLayout(image) == Err(BadProgramTable) <==> IsElf(image) && !HasTable(image)
    ensures HeaderLayout(image).Ok? <==> HasTable(image)
    ensures HasTable(image) ==>
              var layout := HeaderLayout(image).value;
              && layout.elf32 == (image[4] == 1) && layout.tableOffset as int == TableOffset(image)
              && layout.entrySize as int == EntrySize(image) && layout.entryCount as int == EntryCount(image)
  {
    if |image| >= 64 {
      HeaderFields(image);
      MagicBytes(image);
      hide Read, Le16, Le32, Le64;
      if IsElf(image) {
        Commutes(EntryCount(image), EntrySize(image));
      }
    }
  }

  lemma Commutes(x: nat, y: nat)
    ensures x * y == y * x
  {
  }

  function Times(x: nat, y: nat): nat { x * y }

  function EntryPlace(b: Bytes, i: nat): nat
    requires IsElf(b)
  {
    TableOffset(b) + Times(i, EntrySize(b))
  }

  function Smallest(b: Bytes): nat
    requires IsElf(b)
  {
    if b[4] == 1 then 32 else 56
  }

  /** The fields of an entry, where the two classes have them. */
  predicate IsEntry(p: Program, b: Bytes, at: nat)
    requires IsElf(b) && at + Smallest(b) <= |b|
  {
    && p.kind as int == Le32(b, at)
    && if b[4] == 1 then
         && p.offset as int == Le32(b, at + 4) && p.virtualAddress as int == Le32(b, at + 8)
         && p.fileSize as int == Le32(b, at + 16) && p.flags as int == Le32(b, at + 24)
       else
         && p.flags as int == Le32(b, at + 4) && p.offset as int == Le64(b, at + 8)
         && p.virtualAddress as int == Le64(b, at + 16) && p.fileSize as int == Le64(b, at + 32)
  }

  lemma EntryIsRead(image: Image, at: nat)
    requires IsElf(image) && at + Smallest(image) <= |image|
    ensures IsEntry(EntryAt(image, image[4] == 1, at), image, at)
  {
    hide Read, Le32, Le64;
    Read4(image, at);
    Read4(image, at + 4);
    Read4(image, at + 8);
    Read4(image, at + 16);
    Read4(image, at + 24);
    if image[4] != 1 {
      Read8(image, at + 8);
      Read8(image, at + 16);
      Read8(image, at + 32);
    }
  }

  /** Entry i lies in the file. */
  lemma PlaceInFile(b: Bytes, i: nat)
    requires HasTable(b) && i < EntryCount(b)
    ensures EntryPlace(b, i) + Smallest(b) <= |b|
  {
    EntriesBefore(i, EntryCount(b), EntrySize(b));
    hide TableOffset, EntrySize, EntryCount;
  }

  /** The programs are the entries of the file's table, in order. */
  ghost predicate AreEntries(programs: seq<Program>, b: Bytes)
    requires HasTable(b)
  {
    && |programs| == EntryCount(b)
    && forall i :: 0 <= i < |programs| ==> IsEntryNumber(programs[i], b, i)
  }

  predicate IsEntryNumber(p: Program, b: Bytes, i: nat)
    requires HasTable(b) && i < EntryCount(b)
  {
    PlaceInFile(b, i);
    hide EntryPlace, TableOffset, EntrySize, EntryCount;
    IsEntry(p, b, EntryPlace(b, i))
  }

  lemma EntryNumberIsRead(image: Image, i: nat)
    requires HasTable(image) && i < EntryCount(image) && HeaderLayout(image).Ok?
    ensures var layout := HeaderLayout(image).value;
            && layout.Fits(|image|) && layout.entryCount as int == EntryCount(image)
            && IsEntryNumber(EntryNumber(image, layout, i), image, i)
  {
    HeaderExactly(image);
    LayoutFitsFile(image);
    PlaceInFile(image, i);
    EntryIsRead(image, EntryPlace(image, i));
    hide HeaderLayout, IsEntry, EntryAt, TableOffset, EntrySize, EntryCount, HasTable;
  }

  lemma {:induction false} EntriesAreRead(image: Image)
    requires HasTable(image)
    ensures HeaderLayout(image).Ok? && AreEntries(Entries(image, HeaderLayout(image).value, 0), image)
  {
    HeaderExactly(image);
    LayoutFitsFile(image);
    var layout := HeaderLayout(image).value;
    hide HeaderLayout, IsEntryNumber, EntryNumber, HasTable, TableOffset, EntrySize, EntryCount;
    var all := Entries(image, layout, 0);
    forall i | 0 <= i < |all| ensures IsEntryNumber(all[i], image, i) {
      EntriesSplit(image, layout, i);
      EntryNumberIsRead(image, i);
    }
  }

  lemma LayoutFitsFile(image: Image)
    requires HeaderLayout(image).Ok?
    ensures HeaderLayout(image).value.Fits(|image|)
  {
  }

  /**
   * Exactly which files have a readable program table, which segments it returns, and which
   * error the others get.
   */
  lemma {:induction false} TableExactly(image: Image)
    ensures ProgramTable(image) == Err(Io) <==> |image| < 64
    ensures ProgramTable(image) == Err(NotElf) <==> |image| >= 64 && !IsElf(image)
    ensures ProgramTable(image) == Err(BadProgramTable) <==> IsElf(image) && !HasTable(image)
    ensures HasTable(image) ==>
              exists programs: seq<Program> :: AreEntries(programs, image) &&
                ProgramTable(image) ==
                  if forall i :: 0 <= i < |programs| ==>
                       programs[i].offset as int + programs[i].fileSize as int <= |image|
                  then Ok(programs) else Err(SegmentExceedsFile)
  {
    HeaderExactly(image);
    if HasTable(image) {
      EntriesAreRead(image);
      TableOfEntries(image);
    }
    hide HeaderLayout, AreEntries, HasTable, IsElf, Entries;
  }

  lemma {:induction false} TableOfEntries(image: Image)
    requires HeaderLayout(image).Ok?
    ensures var programs := Entries(image, HeaderLayout(image).value, 0);
            ProgramTable(image) ==
              if forall i :: 0 <= i < |programs| ==> programs[i].offset as int + programs[i].fileSize as int <= |image|
              then Ok(programs) else Err(SegmentExceedsFile)
  {
    hide HeaderLayout, Entries;
    var programs := Entries(image, HeaderLayout(image).value, 0);
    if forall i :: 0 <= i < |programs| ==> programs[i].offset as int + programs[i].fileSize as int <= |image| {
      forall p | p in programs ensures InFile(p, image) {
        var i :| 0 <= i < |programs| && programs[i] == p;
      }
    } else {
      var i :| 0 <= i < |programs| && programs[i].offset as int + programs[i].fileSize as int > |image|;
      assert programs[i] in programs && !InFile(programs[i], image);
    }
  }

  // ------------------------------------------------------------ address lookup

  /** Loadable and executable: PT_LOAD with the lowest flag bit set. */
  predicate IsCode(p: Program) { p.kind as int == 1 && p.flags as int % 2 == 1 }

  /** Its end does not fit 64 bits. */
  predicate Runs(p: Program) { p.virtualAddress as int + p.fileSize as int >= 0x1_0000_0000_0000_0000 }

  predicate Has(p: Program, rva: u64, size: u64)
  {
    && p.virtualAddress as int <= rva as int
    && rva as int + size as int <= p.virtualAddress as int + p.fileSize as int
  }

  /** Segment k is code that has the range or whose end overflows, and no earlier one is. */
  predicate IsFirstFound(programs: seq<Program>, k: nat, rva: u64, size: u64)
  {
    && k < |programs| && IsCode(programs[k]) && (Runs(programs[k]) || Has(programs[k], rva, size))
    && forall j :: 0 <= j < k ==> !(IsCode(programs[j]) && (Runs(programs[j]) || Has(programs[j], rva, size)))
  }

  lemma FoundIsFirst(programs: seq<Program>, k: nat, rva: u64, size: u64)
    ensures IsFirstFound(programs, k, rva, size) <==> IsFirst(programs, k, rva, size)
  {
  }

  /** Exactly what an address lookup answers, for every readable table. */
  lemma LookupExactly(image: Image, rva: u64, size: u64)
    requires ProgramTable(image).Ok?
    ensures var programs := ProgramTable(image).value;
            if rva as int + size as int >= 0x1_0000_0000_0000_0000 then
              FileOffset(image, rva, size) == Err(OverflowingRva)
            else
              && ((forall k: nat :: !IsFirstFound(programs, k, rva, size)) ==>
                    FileOffset(image, rva, size) == Err(NotBacked))
              && forall k: nat :: IsFirstFound(programs, k, rva, size) ==>
                   var p := programs[k];
                   if Runs(p) then FileOffset(image, rva, size) == Err(OverflowingSegment)
                   else
                     && FileOffset(image, rva, size).Ok?
                     && FileOffset(image, rva, size).value as int
                        == p.offset as int + (rva as int - p.virtualAddress as int)
  {
    hide ProgramTable, FirstDecider;
    var programs := ProgramTable(image).value;
    forall k: nat ensures IsFirstFound(programs, k, rva, size) <==> IsFirst(programs, k, rva, size) {
      FoundIsFirst(programs, k, rva, size);
    }
    forall k: nat | IsFirst(programs, k, rva, size) ensures FirstDecider(programs, rva, size) == Some(k) {
      FirstIsUnique(programs, k, rva, size);
    }
    hide IsFirstFound;
    if FirstDecider(programs, rva, size).Some? {
      assert IsFirst(programs, FirstDecider(programs, rva, size).value, rva, size);
    }
    hide IsFirst;
  }

  // ------------------------------------------------------------ GNU build id

  /** What lies in the note segments of a table: notes, and an end after them. */
  ghost predicate Holds(image: Image, programs: seq<Program>, notes: seq<seq<LaidNote>>, tails: seq<Bytes>)
  {
    && |notes| == |tails| == |programs|
    && forall i :: 0 <= i < |programs| && programs[i].kind as int == 4 && programs[i].fileSize as int <= 65536 ==>
         HoldsNotes(image, programs[i], notes[i], tails[i])
  }

  ghost predicate HoldsNotes(image: Image, p: Program, notes: seq<LaidNote>, tail: Bytes)
  {
    && (forall l <- notes :: RepresentableNote(l)) && Ends(tail)
    && p.offset as int + p.fileSize as int <= |image|
    && image[p.offset as int..p.offset as int + p.fileSize as int] == EncodeNotes(notes) + tail
  }

  /** A note segment over 64 KiB, or one with a build id. */
  predicate Settles(p: Program, notes: seq<LaidNote>)
  {
    p.kind as int == 4 && (p.fileSize as int > 65536 || FirstGnu(notes).Some?)
  }

  lemma OneSegment(image: Image, p: Program, notes: seq<LaidNote>, tail: Bytes, rest: seq<Program>)
    requires p.kind as int == 4 && p.fileSize as int <= 65536 ==> HoldsNotes(image, p, notes, tail)
    ensures SearchNotes(image, [p] + rest)
            == if !Settles(p, notes) then SearchNotes(image, rest)
               else if p.fileSize as int > 65536 then Err(OversizedNote)
               else Ok(Hex.Encode(FirstGnu(notes).value))
  {
    hide WalkNotes, FirstGnu, EncodeNotes, Ends, Hex.Encode, RepresentableNote;
    SearchOne(image, p, rest);
    if p.kind as int == 4 && p.fileSize as int <= 65536 {
      NotesRoundTrip(notes, tail);
      hide SearchNotes;
    }
  }

  lemma SearchOne(image: Image, p: Program, rest: seq<Program>)
    ensures SearchNotes(image, [p] + rest)
            == if p.kind != 4 then SearchNotes(image, rest)
               else if p.fileSize > 0x1_0000 then Err(OversizedNote)
               else
                 match ReadExact(image, p.offset, p.fileSize)
                 case Err(error) => Err(error)
                 case Ok(note) =>
                   match WalkNotes(note)
                   case Some(desc) => Ok(Hex.Encode(desc))
                   case None => SearchNotes(image, rest)
  {
    hide WalkNotes, Hex.Encode;
    assert ([p] + rest)[1..] == rest;
  }

  /**
   * For every image, whatever its note segments hold: the first segment in table order that is
   * over 64 KiB, or has a type-3 note named "GNU...", decides, and nothing else does.
   */
  lemma {:induction false} BuildIdExactly(
    image: Image, programs: seq<Program>, notes: seq<seq<LaidNote>>, tails: seq<Bytes>)
    requires Holds(image, programs, notes, tails)
    ensures (forall i :: 0 <= i < |programs| ==> !Settles(programs[i], notes[i])) ==>
              SearchNotes(image, programs) == Err(NoBuildId)
    ensures forall k :: 0 <= k < |programs| && Settles(programs[k], notes[k])
                        && (forall j :: 0 <= j < k ==> !Settles(programs[j], notes[j])) ==>
              SearchNotes(image, programs) == if programs[k].fileSize as int > 65536 then Err(OversizedNote)
                                              else Ok(Hex.Encode(FirstGnu(notes[k]).value))
    decreases |programs|
  {
    hide SearchNotes, Settles, HoldsNotes, FirstGnu, Hex.Encode;
    if programs == [] {
      NothingToSearch(image);
    } else {
      var rest := programs[1..];
      assert programs == [programs[0]] + rest;
      OneSegment(image, programs[0], notes[0], tails[0], rest);
      BuildIdExactly(image, rest, notes[1..], tails[1..]);
      FirstOrLater(programs, notes);
    }
  }

  lemma FirstOrLater(programs: seq<Program>, notes: seq<seq<LaidNote>>)
    requires |notes| == |programs| > 0
    ensures forall k :: 0 < k < |programs| ==>
              Settles(programs[k], notes[k]) == Settles(programs[1..][k - 1], notes[1..][k - 1])
  {
    hide Settles;
  }

  lemma NothingToSearch(image: Image)
    ensures SearchNotes(image, []) == Err(NoBuildId)
  {
  }

  /** Every image holds some notes and ends in its note segments. */
  lemma {:induction false} EveryImageHolds(image: Image, programs: seq<Program>)
    returns (notes: seq<seq<LaidNote>>, tails: seq<Bytes>)
    requires forall p <- programs :: p.offset as int + p.fileSize as int <= |image|
    ensures Holds(image, programs, notes, tails)
    decreases |programs|
  {
    notes, tails := [], [];
    if programs != [] {
      hide HoldsNotes;
      var front, p := programs[..|programs| - 1], programs[|programs| - 1];
      assert p in programs;
      notes, tails := EveryImageHolds(image, front);
      var own, tail := SegmentHolds(image, p);
      notes, tails := notes + [own], tails + [tail];
    }
  }

  lemma SegmentHolds(image: Image, p: Program) returns (notes: seq<LaidNote>, tail: Bytes)
    requires p.offset as int + p.fileSize as int <= |image|
    ensures HoldsNotes(image, p, notes, tail)
  {
    hide Ends, EncodeNotes, RepresentableNote;
    notes, tail := NotesOfAnyBytes(image[p.offset as int..p.offset as int + p.fileSize as int]);
  }

  // ------------------------------------------------------------ dynamic strings

  /** A text that starts at the offset and ends at the first NUL from there on. */
  predicate Starts(table: Bytes, offset: nat, text: Bytes)
  {
    offset <= |table| && 0 !in text && text + [0] <= table[offset..]
  }

  /** Exactly which text a string offset names, and which error the others get. */
  lemma StringExactly(table: Bytes, offset: u64, utf8: Bytes -> bool)
    ensures forall text ::
              StringAt(table, offset, utf8) == Ok(text) <==> Starts(table, offset as int, text) && utf8(text)
    ensures StringAt(table, offset, utf8) == Err(StringOutOfBounds) <==> offset as int > |table|
    ensures StringAt(table, offset, utf8) == Err(Unterminated) <==>
              offset as int <= |table| && 0 !in table[offset as int..]
    ensures StringAt(table, offset, utf8) == Err(NotUtf8) <==>
              exists text :: Starts(table, offset as int, text) && !utf8(text)
  {
    if offset as int <= |table| {
      var tail := table[offset as int..];
      forall text | Starts(table, offset as int, text)
        ensures FirstNul(tail) == Some(|text|) && tail[..|text|] == text
      {
        NulAt(tail, text);
      }
      if FirstNul(tail).Some? {
        var end := FirstNul(tail).value;
        assert tail[..end] + [0] == tail[..end + 1];
        assert Starts(table, offset as int, tail[..end]);
      }
    }
  }

  lemma NulAt(tail: Bytes, text: Bytes)
    requires 0 !in text && text + [0] <= tail
    ensures FirstNul(tail) == Some(|text|) && tail[..|text|] == text
  {
    assert tail[|text|] == (text + [0])[|text|] == 0;
    assert tail[..|text|] == (text + [0])[..|text|] == text;
  }

  /** A list of string offsets is read if every one is, and otherwise fails as the first bad one does. */
  lemma {:induction false} StringsExactly(table: Bytes, offsets: seq<u64>, utf8: Bytes -> bool)
    ensures forall texts :: StringsAt(table, offsets, utf8) == Ok(texts) <==>
              |texts| == |offsets| && forall i :: 0 <= i < |texts| ==> StringAt(table, offsets[i], utf8) == Ok(texts[i])
    ensures forall error :: StringsAt(table, offsets, utf8) == Err(error) <==>
              exists k :: FailsFirst(table, offsets, utf8, k, error)
    decreases |offsets|
  {
    hide StringAt;
    if offsets != [] {
      var n := |offsets| - 1;
      var front := offsets[..n];
      StringsExactly(table, front, utf8);
      assert forall i :: 0 <= i < n ==> front[i] == offsets[i];
      forall error ensures StringsAt(table, offsets, utf8) == Err(error) <==>
                             exists k :: FailsFirst(table, offsets, utf8, k, error) {
        FailsInFrontOrLast(table, offsets, utf8, error);
      }
      forall texts
        ensures StringsAt(table, offsets, utf8) == Ok(texts) <==>
                  |texts| == |offsets|
                  && forall i :: 0 <= i < |texts| ==> StringAt(table, offsets[i], utf8) == Ok(texts[i])
      {
        ReadFrontAndLast(table, offsets, utf8, texts);
      }
    }
  }

  predicate FailsFirst(table: Bytes, offsets: seq<u64>, utf8: Bytes -> bool, k: int, error: Error)
  {
    && 0 <= k < |offsets| && StringAt(table, offsets[k], utf8) == Err(error)
    && forall j :: 0 <= j < k ==> StringAt(table, offsets[j], utf8).Ok?
  }

  lemma ReadFrontAndLast(table: Bytes, offsets: seq<u64>, utf8: Bytes -> bool, texts: seq<Bytes>)
    requires offsets != []
    requires var front := offsets[..|offsets| - 1];
             forall ts :: StringsAt(table, front, utf8) == Ok(ts) <==>
               |ts| == |front| && forall i :: 0 <= i < |ts| ==> StringAt(table, front[i], utf8) == Ok(ts[i])
    ensures StringsAt(table, offsets, utf8) == Ok(texts) <==>
              |texts| == |offsets| && forall i :: 0 <= i < |texts| ==> StringAt(table, offsets[i], utf8) == Ok(texts[i])
  {
    hide StringAt;
    var n := |offsets| - 1;
    var front := offsets[..n];
    if |texts| == |offsets| {
      assert texts == texts[..n] + [texts[n]];
      if forall i :: 0 <= i < |texts| ==> StringAt(table, offsets[i], utf8) == Ok(texts[i]) {
        assert forall i :: 0 <= i < n ==> StringAt(table, front[i], utf8) == Ok(texts[..n][i]);
        assert StringsAt(table, front, utf8) == Ok(texts[..n]);
      }
    }
  }

  lemma FailsInFrontOrLast(table: Bytes, offsets: seq<u64>, utf8: Bytes -> bool, error: Error)
    requires offsets != []
    requires var front := offsets[..|offsets| - 1];
             && (forall e ::
                   StringsAt(table, front, utf8) == Err(e) <==> exists k :: FailsFirst(table, front, utf8, k, e))
             && (StringsAt(table, front, utf8).Ok? ==>
                   forall i :: 0 <= i < |front| ==> StringAt(table, front[i], utf8).Ok?)
    ensures StringsAt(table, offsets, utf8) == Err(error) <==> exists k :: FailsFirst(table, offsets, utf8, k, error)
  {
    hide StringAt;
    var n := |offsets| - 1;
    var front := offsets[..n];
    if k :| FailsFirst(table, front, utf8, k, error) {
      assert FailsFirst(table, offsets, utf8, k, error);
    }
    if k :| FailsFirst(table, offsets, utf8, k, error) {
      if k < n {
        assert FailsFirst(table, front, utf8, k, error);
      } else {
        assert StringsAt(table, front, utf8).Ok?;
      }
    }
    if StringsAt(table, front, utf8).Ok? && StringAt(table, offsets[n], utf8) == Err(error) {
      assert FailsFirst(table, offsets, utf8, n, error);
    }
  }

  /** What a completed scan is answered, given the bytes found at the string table it names. */
  lemma InterpretedExactly(scan: Scan, strings: Result<Bytes, Error>, utf8: Bytes -> bool)
    ensures var r := Interpret(scan, strings, utf8);
            if scan.strings.None? then r == Err(NoStringTable)
            else if scan.stringSize.None? then r == Err(NoStringSize)
            else if !(1 <= scan.stringSize.value as int <= 4194304) then r == Err(BadStringTable)
            else if strings.Err? then r == Err(strings.error)
            else
              var table := strings.value;
              && (forall k, error :: FailsFirst(table, scan.needed, utf8, k, error) ==> r == Err(error))
              && forall texts :: |texts| == |scan.needed|
                                 && (forall i :: 0 <= i < |texts| ==>
                                       StringAt(table, scan.needed[i], utf8) == Ok(texts[i])) ==>
                   if scan.soname.None? then r == Ok(DynamicInfo(texts, None))
                   else
                     var soname := StringAt(table, scan.soname.value, utf8);
                     if soname.Err? then r == Err(soname.error) else r == Ok(DynamicInfo(texts, Some(soname.value)))
  {
    hide StringAt, StringsAt;
    if strings.Ok? {
      StringsExactly(strings.value, scan.needed, utf8);
      hide FailsFirst;
    }
  }

  // ------------------------------------------------------------ dynamic entries

  /** The entries before the first DT_NULL. */
  function Live(tags: seq<Tag>): seq<Tag>
  {
    if tags == [] || tags[0].tag == 0 then [] else [tags[0]] + Live(tags[1..])
  }

  /** The values of the entries with this tag, in order. */
  function ValuesOf(tags: seq<Tag>, tag: int): seq<u64>
  {
    if tags == [] then []
    else (if tags[0].tag == tag then [tags[0].value] else []) + ValuesOf(tags[1..], tag)
  }

  function LastOf(values: seq<u64>, otherwise: Option<u64>): Option<u64>
  {
    if values == [] then otherwise else Some(values[|values| - 1])
  }

  lemma {:induction false} MeaningFrom(tags: seq<Tag>, scan: Scan)
    ensures var live := Live(tags);
            Meaning(tags, scan) == Scan(scan.needed + ValuesOf(live, 1), LastOf(ValuesOf(live, 5), scan.strings),
                                        LastOf(ValuesOf(live, 10), scan.stringSize),
                                        LastOf(ValuesOf(live, 14), scan.soname))
    decreases |tags|
  {
    if tags == [] || tags[0].tag == 0 {
      assert scan.needed + [] == scan.needed;
    } else {
      var next, live := scan.Note(tags[0]), Live(tags[1..]);
      MeaningFrom(tags[1..], next);
      assert Live(tags) == [tags[0]] + live && Live(tags)[1..] == live;
      assert forall tag ::
          ValuesOf(Live(tags), tag) == (if tags[0].tag == tag then [tags[0].value] else []) + ValuesOf(live, tag);
      hide Live, ValuesOf;
      assert scan.needed + ([tags[0].value] + ValuesOf(live, 1)) == (scan.needed + [tags[0].value]) + ValuesOf(live, 1);
      assert [] + ValuesOf(live, 1) == ValuesOf(live, 1);
      assert [] + ValuesOf(live, 5) == ValuesOf(live, 5);
      assert [] + ValuesOf(live, 10) == ValuesOf(live, 10);
      assert [] + ValuesOf(live, 14) == ValuesOf(live, 14);
    }
  }

  /** DT_NEEDED is 1, DT_STRTAB 5, DT_STRSZ 10, DT_SONAME 14: every DT_NEEDED counts, of the others the last. */
  lemma MeaningExactly(tags: seq<Tag>)
    ensures var live := Live(tags);
            Meaning(tags, EMPTY_SCAN) == Scan(ValuesOf(live, 1), LastOf(ValuesOf(live, 5), None),
                                              LastOf(ValuesOf(live, 10), None), LastOf(ValuesOf(live, 14), None))
  {
    MeaningFrom(tags, EMPTY_SCAN);
    assert [] + ValuesOf(Live(tags), 1) == ValuesOf(Live(tags), 1);
  }
}
