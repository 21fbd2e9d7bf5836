/**
 * Writers for the structures `Elf` reads, after the System V gABI ("ELF Header", "Program
 * Header", "Note Section", "Dynamic Section"), and the proof that reading undoes writing.
 */
module ElfEncoding {
  import opened Wrappers
  import opened Bits32
  import opened LittleEndian
  import opened Elf

  // ------------------------------------------------------------ program table

  /** The bytes of a 64-byte header that the reader does not look at. */
  datatype Unread = Unread(h1: Bytes, h2: Bytes, h3: Bytes)

  predicate UnreadFits(u: Unread, elf32: bool)
  {
    if elf32 then |u.h1| == 22 && |u.h2| == 10 && |u.h3| == 18
    else |u.h1| == 26 && |u.h2| == 14 && |u.h3| == 6
  }

  function EncodeHeader(elf32: bool, tableOffset: nat, stride: nat, count: nat, u: Unread): (r: Bytes)
    requires UnreadFits(u, elf32)
    ensures |r| == 64
  {
    [0x7F, 0x45, 0x4C, 0x46, if elf32 then 1 else 2, 1] + u.h1 + Encode(tableOffset, if elf32 then 4 else 8)
    + u.h2 + Encode(stride, 2) + Encode(count, 2) + u.h3
  }

  /** One entry; `paddr`, `memsz` and `align` are the fields the reader ignores. */
  function EncodeProgram(elf32: bool, p: Program, paddr: nat, memsz: nat, align: nat): (r: Bytes)
    ensures |r| == if elf32 then 32 else 56
  {
    if elf32 then
      Encode(p.kind as int, 4) + Encode(p.offset as int, 4) + Encode(p.virtualAddress as int, 4) + Encode(paddr, 4)
      + Encode(p.fileSize as int, 4) + Encode(memsz, 4) + Encode(p.flags as int, 4) + Encode(align, 4)
    else
      Encode(p.kind as int, 4) + Encode(p.flags as int, 4) + Encode(p.offset as int, 8)
      + Encode(p.virtualAddress as int, 8)
      + Encode(paddr, 8) + Encode(p.fileSize as int, 8) + Encode(memsz, 8) + Encode(align, 8)
  }

  /** The field widths of the class hold the entry. */
  predicate Representable(p: Program, elf32: bool)
  {
    && p.kind as int < TWO32 && p.flags as int < TWO32
    && (elf32 ==> p.offset as int < TWO32 && p.virtualAddress as int < TWO32 && p.fileSize as int < TWO32)
  }

  /** The field `k` bytes into a written structure is read back from the image. */
  lemma FieldAt(image: Bytes, at: nat, written: Bytes, k: nat, value: nat, n: nat)
    requires n in {2, 4, 8} && value < Pow256(n)
    requires at + |written| <= |image| && image[at..at + |written|] == written
    requires k + n <= |written| && written[k..k + n] == Encode(value, n)
    ensures Read(image, at + k, n) as int == value
  {
    hide Encode, Decode;
    SubSlice(image, at, at + |written|, k, k + n);
    DecodeEncode(value, n);
  }

  lemma EntryRoundTrip(image: Image, at: nat, elf32: bool, p: Program, paddr: nat, memsz: nat, align: nat)
    requires Representable(p, elf32)
    requires var written := EncodeProgram(elf32, p, paddr, memsz, align);
             at + |written| <= |image| && image[at..at + |written|] == written
    ensures EntryAt(image, elf32, at) == p
  {
    hide Decode, Encode, Read;
    Powers256();
    var written := EncodeProgram(elf32, p, paddr, memsz, align);
    if elf32 {
      FieldAt(image, at, written, 0, p.kind as int, 4);
      FieldAt(image, at, written, 4, p.offset as int, 4);
      FieldAt(image, at, written, 8, p.virtualAddress as int, 4);
      FieldAt(image, at, written, 16, p.fileSize as int, 4);
      FieldAt(image, at, written, 24, p.flags as int, 4);
    } else {
      FieldAt(image, at, written, 0, p.kind as int, 4);
      FieldAt(image, at, written, 4, p.flags as int, 4);
      FieldAt(image, at, written, 8, p.offset as int, 8);
      FieldAt(image, at, written, 16, p.virtualAddress as int, 8);
      FieldAt(image, at, written, 32, p.fileSize as int, 8);
    }
  }

  /** The table: every entry in `stride` bytes, the rest of each filled with `padding`. */
  function EncodeTable(elf32: bool, programs: seq<Program>, padding: Bytes): (r: Bytes)
    ensures |r| == |programs| * ((if elf32 then 32 else 56) + |padding|)
  {
    if programs == [] then []
    else
      OneMore(|programs|, (if elf32 then 32 else 56) + |padding|);
      EncodeTable(elf32, programs[..|programs| - 1], padding)
         + (EncodeProgram(elf32, programs[|programs| - 1], 0, 0, 0) + padding)
  }

  lemma TableEntryAt(elf32: bool, programs: seq<Program>, padding: Bytes, i: nat)
    requires i < |programs|
    ensures var size := if elf32 then 32 else 56;
            var table := EncodeTable(elf32, programs, padding);
            && i * (size + |padding|) + size <= |table|
            && table[i * (size + |padding|)..i * (size + |padding|) + size]
               == EncodeProgram(elf32, programs[i], 0, 0, 0)
    decreases |programs|
  {
    hide EncodeProgram, EncodeTable;
    var size := if elf32 then 32 else 56;
    EntriesBefore(i, |programs|, size + |padding|);
    TableSnoc(elf32, programs, padding);
    var front, last := programs[..|programs| - 1], EncodeProgram(elf32, programs[|programs| - 1], 0, 0, 0);
    var table, at := EncodeTable(elf32, front, padding), i * (size + |padding|);
    OneMore(|programs|, size + |padding|);
    if i < |front| {
      TableEntryAt(elf32, front, padding, i);
      SliceInFront(table, last + padding, at, at + size);
      assert front[i] == programs[i];
    } else {
      SliceAtEnd(table, last, padding);
    }
  }

  lemma TableSnoc(elf32: bool, programs: seq<Program>, padding: Bytes)
    requires programs != []
    ensures EncodeTable(elf32, programs, padding) ==
            EncodeTable(elf32, programs[..|programs| - 1], padding)
            + (EncodeProgram(elf32, programs[|programs| - 1], 0, 0, 0) + padding)
  {
  }

  lemma SliceInFront(table: Bytes, tail: Bytes, from: nat, to: nat)
    requires from <= to <= |table|
    ensures (table + tail)[from..to] == table[from..to]
  {
  }

  lemma SliceAtEnd(table: Bytes, last: Bytes, padding: Bytes)
    ensures (table + (last + padding))[|table|..|table| + |last|] == last
  {
  }

  /** A whole image: header, gap, program table, contents. */
  function EncodeImage(
    elf32: bool, programs: seq<Program>, u: Unread, gap: Bytes, padding: Bytes, contents: Bytes): Bytes
    requires UnreadFits(u, elf32)
  {
    var size := if elf32 then 32 else 56;
    EncodeHeader(elf32, 64 + |gap|, size + |padding|, |programs|, u) + gap
    + EncodeTable(elf32, programs, padding) + contents
  }

  lemma HeaderRoundTrip(image: Image, elf32: bool, tableOffset: nat, stride: nat, count: nat, u: Unread)
    requires UnreadFits(u, elf32) && |image| >= 64
    requires image[..64] == EncodeHeader(elf32, tableOffset, stride, count, u)
    requires tableOffset < (if elf32 then TWO32 else TWO64) && (if elf32 then 32 else 56) <= stride < 0x1_0000
    requires 0 < count <= 256 && tableOffset + count * stride <= |image|
    ensures HeaderLayout(image) == Ok(Layout(elf32, tableOffset as u64, stride as u64, count as u64))
  {
    hide Decode, Encode, Read;
    Powers256();
    var header := EncodeHeader(elf32, tableOffset, stride, count, u);
    assert image[0..0 + |header|] == header;
    assert image[..4] == header[..4] && image[4] == header[4] && image[5] == header[5];
    if elf32 {
      FieldAt(image, 0, header, 28, tableOffset, 4);
      FieldAt(image, 0, header, 42, stride, 2);
      FieldAt(image, 0, header, 44, count, 2);
    } else {
      FieldAt(image, 0, header, 32, tableOffset, 8);
      FieldAt(image, 0, header, 54, stride, 2);
      FieldAt(image, 0, header, 56, count, 2);
    }
  }

  /** Entry i of a table that sits at `tableOffset` is segment i. */
  lemma EntryOfTable(image: Image, layout: Layout, programs: seq<Program>, padding: Bytes, i: nat)
    requires HeaderLayout(image) == Ok(layout) && i < |programs| == layout.entryCount as int
    requires layout.entrySize as int == layout.MinimumSize() as int + |padding|
    requires Representable(programs[i], layout.elf32)
    requires var table := EncodeTable(layout.elf32, programs, padding);
             var from := layout.tableOffset as int;
             from + |table| <= |image| && image[from..from + |table|] == table
    ensures Entries(image, layout, 0)[i] == programs[i]
  {
    hide Decode, Encode, Read, HeaderLayout, EntryAt, EncodeProgram, EncodeTable, Representable, Entries;
    var table := EncodeTable(layout.elf32, programs, padding);
    var from, size := layout.tableOffset as int, layout.MinimumSize() as int;
    var at := i * (size + |padding|);
    TableEntryAt(layout.elf32, programs, padding, i);
    SubSlice(image, from, from + |table|, at, at + size);
    EntriesSplit(image, layout, i);
    assert layout.At(i) == from + at;
    EntryRoundTrip(image, from + at, layout.elf32, programs[i], 0, 0, 0);
  }

  /** Reading a written program table returns the written segments, for any stride at or above the minimum. */
  lemma ProgramTableRoundTrip(
    elf32: bool, programs: seq<Program>, u: Unread, gap: Bytes, padding: Bytes, contents: Bytes)
    requires UnreadFits(u, elf32)
    requires 0 < |programs| <= 256 && (if elf32 then 32 else 56) + |padding| < 0x1_0000
    requires forall p <- programs :: Representable(p, elf32)
    requires |EncodeImage(elf32, programs, u, gap, padding, contents)| < if elf32 then TWO32 else TWO64
    requires forall p <- programs :: InFile(p, EncodeImage(elf32, programs, u, gap, padding, contents))
    ensures ProgramTable(EncodeImage(elf32, programs, u, gap, padding, contents)) == Ok(programs)
  {
    hide Decode, Encode, Read, HeaderLayout, EntryAt, EncodeHeader, EncodeProgram, EncodeTable, Representable;
    var image: Image := EncodeImage(elf32, programs, u, gap, padding, contents);
    var stride := (if elf32 then 32 else 56) + |padding|;
    var header := EncodeHeader(elf32, 64 + |gap|, stride, |programs|, u);
    var table := EncodeTable(elf32, programs, padding);
    assert image[..64] == header;
    assert |image| == 64 + |gap| + |table| + |contents|;
    HeaderRoundTrip(image, elf32, 64 + |gap|, stride, |programs|, u);
    var layout := Layout(elf32, (64 + |gap|) as u64, stride as u64, |programs| as u64);
    assert image[64 + |gap|..64 + |gap| + |table|] == table;
    forall i | 0 <= i < |programs|
      ensures Entries(image, layout, 0)[i] == programs[i]
    {
      assert programs[i] in programs;
      EntryOfTable(image, layout, programs, padding, i);
    }
    assert Entries(image, layout, 0) == programs;
  }

  // ------------------------------------------------------------ dynamic table

  predicate RepresentableTag(t: Tag, elf32: bool)
  {
    if elf32 then -0x8000_0000 <= t.tag < 0x8000_0000 && t.value as int < TWO32
    else -0x8000_0000_0000_0000 <= t.tag < 0x8000_0000_0000_0000
  }

  /** Two's complement in n bytes. */
  function Unsigned(tag: int, modulus: nat): (r: nat)
    requires -(modulus as int) <= tag < modulus
    ensures r < modulus
  {
    if tag < 0 then tag + modulus else tag
  }

  function EncodeTag(elf32: bool, t: Tag): (r: Bytes)
    requires RepresentableTag(t, elf32)
    ensures |r| == TagSize(elf32) as int
  {
    if elf32 then Encode(Unsigned(t.tag, TWO32), 4) + Encode(t.value as int, 4)
    else Encode(Unsigned(t.tag, TWO64), 8) + Encode(t.value as int, 8)
  }

  function EncodeTags(elf32: bool, tags: seq<Tag>): (r: Bytes)
    requires forall t <- tags :: RepresentableTag(t, elf32)
    ensures |r| == |tags| * TagSize(elf32) as int
  {
    if tags == [] then [] else EncodeTag(elf32, tags[0]) + EncodeTags(elf32, tags[1..])
  }

  /** What a list of tags means, whatever class carries them: DT_NULL ends it. */
  function Meaning(tags: seq<Tag>, scan: Scan): Scan
  {
    if tags == [] || tags[0].tag == 0 then scan else Meaning(tags[1..], scan.Note(tags[0]))
  }

  lemma TagRoundTrip(image: Image, at: nat, elf32: bool, t: Tag)
    requires RepresentableTag(t, elf32)
    requires at + TagSize(elf32) as int <= |image|
    requires image[at..at + TagSize(elf32) as int] == EncodeTag(elf32, t)
    ensures TagAt(image, elf32, at) == t
  {
    hide Decode, Encode, Read;
    Powers256();
    var written := EncodeTag(elf32, t);
    if elf32 {
      FieldAt(image, at, written, 0, Unsigned(t.tag, TWO32), 4);
      FieldAt(image, at, written, 4, t.value as int, 4);
    } else {
      FieldAt(image, at, written, 0, Unsigned(t.tag, TWO64), 8);
      FieldAt(image, at, written, 8, t.value as int, 8);
    }
  }

  /** Scanning written tags, of either class, yields their meaning. */
  lemma {:induction false} ScanRoundTrip(image: Image, at: nat, elf32: bool, tags: seq<Tag>, scan: Scan)
    requires forall t <- tags :: RepresentableTag(t, elf32)
    requires var written := EncodeTags(elf32, tags);
             at + |written| <= |image| && image[at..at + |written|] == written
    ensures ScanTags(image, elf32, at, |tags|, scan) == Meaning(tags, scan)
    decreases |tags|
  {
    hide EncodeTag, TagAt;
    if tags != [] {
      var written, size := EncodeTags(elf32, tags), TagSize(elf32) as int;
      var rest := EncodeTags(elf32, tags[1..]);
      assert written[..size] == EncodeTag(elf32, tags[0]) && written[size..] == rest;
      SubSlice(image, at, at + |written|, 0, size);
      SubSlice(image, at, at + |written|, size, |written|);
      TagRoundTrip(image, at, elf32, tags[0]);
      ScanRoundTrip(image, at + size, elf32, tags[1..], scan.Note(tags[0]));
    }
  }

  // ------------------------------------------------------------ notes

  /** A note as it lies in a segment, with whatever bytes its padding holds. */
  datatype LaidNote = LaidNote(note: Note, namePadding: Bytes, descPadding: Bytes)

  /** The bytes that pad a field to a multiple of four. */
  function PadSize(n: nat): nat { (4 - n % 4) % 4 }

  predicate RepresentableNote(l: LaidNote)
  {
    && |l.note.name| < TWO32 && |l.note.desc| < TWO32 && l.note.noteType as int < TWO32
    && |l.namePadding| == PadSize(|l.note.name|) && |l.descPadding| == PadSize(|l.note.desc|)
  }

  function EncodeNote(l: LaidNote): (r: Bytes)
    requires RepresentableNote(l)
    ensures |r| == NoteLength(|l.note.name|, |l.note.desc|)
  {
    PaddedSize(|l.note.name|);
    PaddedSize(|l.note.desc|);
    hide Aligned, PadSize, Encode;
    Encode(|l.note.name|, 4) + Encode(|l.note.desc|, 4) + Encode(l.note.noteType as int, 4)
    + l.note.name + l.namePadding + l.note.desc + l.descPadding
  }

  function EncodeNotes(notes: seq<LaidNote>): Bytes
    requires forall l <- notes :: RepresentableNote(l)
  {
    if notes == [] then [] else EncodeNote(notes[0]) + EncodeNotes(notes[1..])
  }

  /** A type-3 note whose name starts with "GNU". */
  predicate IsBuildId(n: Note) { n.noteType == 3 && [0x47, 0x4E, 0x55] <= n.name }

  /** The descriptor of the first such note. */
  function FirstGnu(notes: seq<LaidNote>): Option<Bytes>
  {
    if notes == [] then None
    else if IsBuildId(notes[0].note) then Some(notes[0].note.desc)
    else FirstGnu(notes[1..])
  }

  /** What follows the notes: too short for another, or announcing one that does not fit. */
  predicate Ends(tail: Bytes)
  {
    || |tail| < 12
    || var nameSize, descSize := Read(tail, 0, 4) as int, Read(tail, 4, 4) as int;
       12 + nameSize + PadSize(nameSize) + descSize + PadSize(descSize) > |tail|
  }

  lemma PaddedSize(n: nat)
    ensures n + PadSize(n) == Aligned(n)
  {
  }

  lemma NoteFields(l: LaidNote, tail: Bytes)
    requires RepresentableNote(l)
    ensures var bytes, n := EncodeNote(l) + tail, l.note;
            && Read(bytes, 0, 4) as int == |n.name| && Read(bytes, 4, 4) as int == |n.desc|
            && Read(bytes, 8, 4) == n.noteType
            && bytes[12..12 + |n.name|] == n.name
            && bytes[12 + Aligned(|n.name|)..12 + Aligned(|n.name|) + |n.desc|] == n.desc
            && bytes[NoteLength(|n.name|, |n.desc|)..] == tail
  {
    PaddedSize(|l.note.name|);
    PaddedSize(|l.note.desc|);
    hide Decode, Encode, Read, Aligned, PadSize;
    Powers256();
    var written := EncodeNote(l);
    var bytes := written + tail;
    assert bytes[0..0 + |written|] == written;
    NoteParts(l);
    hide EncodeNote;
    FieldAt(bytes, 0, written, 0, |l.note.name|, 4);
    FieldAt(bytes, 0, written, 4, |l.note.desc|, 4);
    FieldAt(bytes, 0, written, 8, l.note.noteType as int, 4);
    SliceInFront(written, tail, 12, 12 + |l.note.name|);
    SliceInFront(written, tail, 12 + Aligned(|l.note.name|), 12 + Aligned(|l.note.name|) + |l.note.desc|);
  }

  lemma NoteParts(l: LaidNote)
    requires RepresentableNote(l)
    ensures var written, n := EncodeNote(l), l.note;
            && written[0..4] == Encode(|n.name|, 4) && written[4..8] == Encode(|n.desc|, 4)
            && written[8..12] == Encode(n.noteType as int, 4)
            && Aligned(|n.name|) >= |n.name| && Aligned(|n.desc|) >= |n.desc|
            && written[12..12 + |n.name|] == n.name
            && written[12 + Aligned(|n.name|)..12 + Aligned(|n.name|) + |n.desc|] == n.desc
  {
    PaddedSize(|l.note.name|);
    PaddedSize(|l.note.desc|);
    hide Encode, Aligned, PadSize;
    var n, written := l.note, EncodeNote(l);
    var fields := Encode(|n.name|, 4) + Encode(|n.desc|, 4) + Encode(n.noteType as int, 4);
    assert written == fields + n.name + l.namePadding + n.desc + l.descPadding;
    assert written[0..12] == fields;
  }

  /** Walking notes, with any bytes in their padding and any end after them, finds the first build id. */
  lemma {:induction false} NotesRoundTrip(notes: seq<LaidNote>, tail: Bytes)
    requires (forall l <- notes :: RepresentableNote(l)) && Ends(tail)
    ensures WalkNotes(EncodeNotes(notes) + tail) == FirstGnu(notes)
    decreases |notes|
  {
    if notes == [] {
      assert EncodeNotes(notes) + tail == tail;
      WalkEnds(tail);
    } else {
      hide Read, EncodeNote, Aligned;
      var l := notes[0];
      var rest := EncodeNotes(notes[1..]) + tail;
      assert EncodeNotes(notes) + tail == EncodeNote(l) + rest;
      NoteFields(l, rest);
      NotesRoundTrip(notes[1..], tail);
    }
  }

  lemma WalkEnds(tail: Bytes)
    requires Ends(tail)
    ensures WalkNotes(tail) == None
  {
    hide Read, Aligned, PadSize;
    if |tail| >= 12 {
      PaddedSize(Read(tail, 0, 4) as int);
      PaddedSize(Read(tail, 4, 4) as int);
    }
  }

  /** Every byte string is some notes and an end. */
  lemma {:induction false} NotesOfAnyBytes(bytes: Bytes) returns (notes: seq<LaidNote>, tail: Bytes)
    ensures (forall l <- notes :: RepresentableNote(l)) && Ends(tail) && bytes == EncodeNotes(notes) + tail
    decreases |bytes|
  {
    notes, tail := [], bytes;
    if Ends(bytes) {
      assert EncodeNotes(notes) + tail == bytes;
    } else {
      var l, rest := FirstNoteOf(bytes);
      hide EncodeNote, RepresentableNote, Ends;
      var more, end := NotesOfAnyBytes(rest);
      notes, tail := [l] + more, end;
      NotesAnd(l, more, end);
    }
  }

  lemma NotesAnd(l: LaidNote, more: seq<LaidNote>, end: Bytes)
    requires RepresentableNote(l) && forall m <- more :: RepresentableNote(m)
    ensures forall m <- [l] + more :: RepresentableNote(m)
    ensures EncodeNotes([l] + more) + end == EncodeNote(l) + (EncodeNotes(more) + end)
  {
    hide EncodeNote, RepresentableNote;
    assert ([l] + more)[1..] == more;
  }

  lemma FieldOf(bytes: Bytes, at: nat)
    requires at + 4 <= |bytes|
    ensures Encode(Read(bytes, at, 4) as int, 4) == bytes[at..at + 4] && Read(bytes, at, 4) as int < TWO32
  {
    Powers256();
    EncodeDecode(bytes[at..at + 4]);
  }

  /** The note at the start of bytes that are no end. */
  lemma FirstNoteOf(bytes: Bytes) returns (l: LaidNote, rest: Bytes)
    requires !Ends(bytes)
    ensures RepresentableNote(l) && bytes == EncodeNote(l) + rest && |rest| < |bytes|
  {
    FieldOf(bytes, 0);
    FieldOf(bytes, 4);
    FieldOf(bytes, 8);
    hide Encode, Decode, Read, PadSize, EncodeNote;
    l, rest := NoteOfSizes(bytes, Read(bytes, 0, 4) as int, Read(bytes, 4, 4) as int, Read(bytes, 8, 4));
  }

  lemma NoteOfSizes(bytes: Bytes, nameSize: nat, descSize: nat, noteType: u64) returns (l: LaidNote, rest: Bytes)
    requires nameSize < TWO32 && descSize < TWO32 && noteType as int < TWO32
    requires 12 + nameSize + PadSize(nameSize) + descSize + PadSize(descSize) <= |bytes|
    requires Encode(nameSize, 4) == bytes[0..4] && Encode(descSize, 4) == bytes[4..8]
    requires Encode(noteType as int, 4) == bytes[8..12]
    ensures RepresentableNote(l) && bytes == EncodeNote(l) + rest && |rest| < |bytes|
  {
    hide Encode, PadSize, EncodeNote;
    var nameEnd := 12 + nameSize;
    var descAt := nameEnd + PadSize(nameSize);
    var descEnd := descAt + descSize;
    var next := descEnd + PadSize(descSize);
    l := LaidNote(Note(noteType, bytes[12..nameEnd], bytes[descAt..descEnd]), bytes[nameEnd..descAt],
                  bytes[descEnd..next]);
    rest := bytes[next..];
    Cut(bytes, nameEnd, descAt, descEnd, next);
    EncodedParts(l);
  }

  lemma EncodedParts(l: LaidNote)
    requires RepresentableNote(l)
    ensures EncodeNote(l) == Encode(|l.note.name|, 4) + Encode(|l.note.desc|, 4) + Encode(l.note.noteType as int, 4)
                             + l.note.name + l.namePadding + l.note.desc + l.descPadding
  {
    hide Encode, PadSize;
  }

  lemma Cut(bytes: Bytes, a: nat, b: nat, c: nat, d: nat)
    requires 12 <= a <= b <= c <= d <= |bytes|
    ensures bytes == bytes[0..4] + bytes[4..8] + bytes[8..12] + bytes[12..a] + bytes[a..b] + bytes[b..c] + bytes[c..d]
                     + bytes[d..]
  {
  }
}
