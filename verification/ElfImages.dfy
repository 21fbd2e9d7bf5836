/**
 * Images with a dynamic table, described for both ELF classes at once by abstract segments:
 * what reading any such image yields, and when the class makes no difference.
 */
module ElfImages {
  import opened Wrappers
  import opened Bits32
  import opened LittleEndian
  import opened Elf
  import opened ElfEncoding

  // ------------------------------------------------------------ abstract segments

  /**
   * A stretch of an image: bytes that are the same in both classes, dynamic entries, whose
   * width depends on the class, or any other bytes that do (headers, tables of symbols).
   */
  datatype Piece = Raw(bytes: Bytes) | TagList(tags: seq<Tag>) | PerClass(narrow: Bytes, wide: Bytes)

  datatype Segment = Segment(kind: u64, flags: u64, virtualAddress: u64, contents: seq<Piece>)

  /** The entry widths of the class hold the piece. */
  predicate Fits(elf32: bool, piece: Piece)
  {
    piece.TagList? ==> forall t <- piece.tags :: RepresentableTag(t, elf32)
  }

  predicate AllFit(elf32: bool, pieces: seq<Piece>)
  {
    forall piece <- pieces :: Fits(elf32, piece)
  }

  function PieceBytes(elf32: bool, piece: Piece): Bytes
    requires Fits(elf32, piece)
  {
    match piece
    case Raw(bytes) => bytes
    case TagList(tags) => EncodeTags(elf32, tags)
    case PerClass(narrow, wide) => if elf32 then narrow else wide
  }

  function Written(elf32: bool, pieces: seq<Piece>): Bytes
    requires AllFit(elf32, pieces)
  {
    if pieces == [] then []
    else
      var n := |pieces| - 1;
      Written(elf32, pieces[..n]) + PieceBytes(elf32, pieces[n])
  }

  // ------------------------------------------------------------ images of segments

  /** The program header carries the segment's fields and points at its bytes. */
  predicate PointsAt(elf32: bool, p: Program, s: Segment, image: Bytes)
    requires AllFit(elf32, s.contents)
  {
    && p.kind == s.kind && p.flags == s.flags && p.virtualAddress == s.virtualAddress
    && p.fileSize as int == |Written(elf32, s.contents)|
    && p.offset as int + p.fileSize as int <= |image|
    && image[p.offset as int..p.offset as int + p.fileSize as int] == Written(elf32, s.contents)
  }

  /** The program headers describe these segments one by one; segments may share bytes of the image. */
  predicate Describe(elf32: bool, programs: seq<Program>, segments: seq<Segment>, image: Bytes)
  {
    && |programs| == |segments|
    && forall i :: 0 <= i < |segments| ==>
         AllFit(elf32, segments[i].contents) && PointsAt(elf32, programs[i], segments[i], image)
  }

  /** Any image of the class that consists of these segments, however it is laid out. */
  predicate Carries(elf32: bool, image: Image, segments: seq<Segment>)
  {
    && HeaderLayout(image).Ok? && HeaderLayout(image).value.elf32 == elf32
    && ProgramTable(image).Ok? && Describe(elf32, ProgramTable(image).value, segments, image)
  }

  // ------------------------------------------------------------ their meaning

  /** The contents of the last PT_DYNAMIC segment. */
  function LastDynamicOf(segments: seq<Segment>): Option<seq<Piece>>
  {
    if segments == [] then None
    else
      var n := |segments| - 1;
      if segments[n].kind == 2 then Some(segments[n].contents) else LastDynamicOf(segments[..n])
  }

  /** The last PT_DYNAMIC segment holds dynamic entries. */
  predicate WellFormed(segments: seq<Segment>)
  {
    match LastDynamicOf(segments)
    case Some(contents) => |contents| == 1 && contents[0].TagList?
    case None => false
  }

  function TagsOf(segments: seq<Segment>): seq<Tag>
    requires WellFormed(segments)
  {
    LastDynamicOf(segments).value[0].tags
  }

  predicate SegmentsFit(elf32: bool, segments: seq<Segment>)
  {
    forall s <- segments :: AllFit(elf32, s.contents)
  }

  /** The segment is loadable and its bytes hold the whole range. */
  predicate Holds(elf32: bool, s: Segment, address: u64, size: u64)
    requires AllFit(elf32, s.contents)
  {
    && s.kind == 1 && s.virtualAddress <= address
    && address as int - s.virtualAddress as int + size as int <= |Written(elf32, s.contents)|
  }

  function HeldBytes(elf32: bool, s: Segment, address: u64, size: u64): Option<Bytes>
    requires AllFit(elf32, s.contents)
  {
    var at := address as int - s.virtualAddress as int;
    if Holds(elf32, s, address, size) then Some(Written(elf32, s.contents)[at..at + size as int]) else None
  }

  /** The bytes at an address: those of the first loadable segment that holds the whole range. */
  function BytesAt(elf32: bool, segments: seq<Segment>, address: u64, size: u64): Option<Bytes>
    requires SegmentsFit(elf32, segments)
  {
    if segments == [] then None
    else
      var n := |segments| - 1;
      var front := BytesAt(elf32, segments[..n], address, size);
      if front.Some? then front else HeldBytes(elf32, segments[n], address, size)
  }

  function AsTable(bytes: Option<Bytes>): Result<Bytes, Error>
  {
    if bytes.Some? then Ok(bytes.value) else Err(StringsOutsideLoad)
  }

  /** DT_NEEDED and DT_SONAME of the segments, as the class lays them out. */
  function DynamicMeaning(elf32: bool, segments: seq<Segment>, utf8: Bytes -> bool): Result<DynamicInfo, Error>
    requires WellFormed(segments) && SegmentsFit(elf32, segments)
  {
    var scan := Meaning(TagsOf(segments), EMPTY_SCAN);
    var strings :=
      if !NamesStrings(scan) then Err(NoStringTable)
      else AsTable(BytesAt(elf32, segments, scan.strings.value, scan.stringSize.value));
    Interpret(scan, strings, utf8)
  }

  /** Too many entries for the class: a dynamic table is at most 4 MiB. */
  predicate TooLarge(elf32: bool, tags: seq<Tag>) { |tags| * TagSize(elf32) as int > MIB4 as int }

  /** In entries: more than 524288 in ELF32, more than 262144 in ELF64. */
  lemma TooLargeExactly(elf32: bool, tags: seq<Tag>)
    ensures TooLarge(elf32, tags) <==> |tags| > if elf32 then 524288 else 262144
  {
  }

  // ------------------------------------------------------------ reading any such image

  /** The last PT_DYNAMIC header is that of the last PT_DYNAMIC segment. */
  lemma {:induction false} DynamicOfPrograms(elf32: bool, programs: seq<Program>, segments: seq<Segment>, image: Bytes)
    requires Describe(elf32, programs, segments, image) && LastDynamicOf(segments).Some?
    ensures exists i | 0 <= i < |segments| ::
              LastDynamic(programs) == Some(programs[i]) && LastDynamicOf(segments) == Some(segments[i].contents)
    decreases |segments|
  {
    hide Written, AllFit;
    var n := |segments| - 1;
    if segments[n].kind == 2 {
      assert LastDynamic(programs) == Some(programs[n]);
    } else {
      DynamicOfPrograms(elf32, programs[..n], segments[..n], image);
      var i :| 0 <= i < n && LastDynamic(programs[..n]) == Some(programs[..n][i])
               && LastDynamicOf(segments[..n]) == Some(segments[..n][i].contents);
      assert programs[..n][i] == programs[i] && segments[..n][i] == segments[i];
    }
  }

  lemma DescribedFit(elf32: bool, programs: seq<Program>, segments: seq<Segment>, image: Bytes)
    requires Describe(elf32, programs, segments, image)
    ensures SegmentsFit(elf32, segments)
  {
    hide Written, AllFit;
  }

  /** The string lookup over the headers finds the bytes the segments hold. */
  lemma {:induction false} StringsOfPrograms(
    elf32: bool, programs: seq<Program>, segments: seq<Segment>, image: Image, address: u64, size: u64)
    requires Describe(elf32, programs, segments, image)
    ensures SegmentsFit(elf32, segments)
    ensures StringTable(image, programs, address, size) == AsTable(BytesAt(elf32, segments, address, size))
    decreases |segments|
  {
    hide Written, AllFit;
    DescribedFit(elf32, programs, segments, image);
    if segments != [] {
      var n := |segments| - 1;
      assert programs == programs[..n] + [programs[n]];
      StringsOfPrograms(elf32, programs[..n], segments[..n], image, address, size);
      StringsOffsetAppend(programs[..n], programs[n], address, size);
      StringsOfOne(elf32, programs[n], segments[n], image, address, size);
    }
  }

  lemma StringsOfOne(elf32: bool, p: Program, s: Segment, image: Image, address: u64, size: u64)
    requires AllFit(elf32, s.contents) && PointsAt(elf32, p, s, image)
    ensures StringTable(image, [p], address, size) == AsTable(HeldBytes(elf32, s, address, size))
  {
    hide Written, AllFit;
    assert [p][1..] == [];
    if Holds(elf32, s, address, size) {
      var k := address as int - s.virtualAddress as int;
      SubSlice(image, p.offset as int, p.offset as int + p.fileSize as int, k, k + size as int);
      assert p.offset as int + k < TWO64;
      assert StringsOffset([p], address, size) == Some(p.offset + (address - p.virtualAddress));
    } else {
      assert StringsOffset([p], address, size) == None;
    }
  }

  /** A list of whole entries has the right size for its class, and as many entries as it has. */
  lemma TagListSize(elf32: bool, p: Program, tags: seq<Tag>)
    requires p.fileSize as int == |tags| * TagSize(elf32) as int
    ensures ValidDynamic(p, elf32) <==> !TooLarge(elf32, tags)
    ensures p.fileSize as int / TagSize(elf32) as int == |tags|
  {
  }

  /** `Dynamic` is the scan of the last PT_DYNAMIC, resolved. */
  lemma DynamicOfScan(
    image: Image, elf32: bool, programs: seq<Program>, p: Program, tags: seq<Tag>, utf8: Bytes -> bool)
    requires HeaderLayout(image).Ok? && HeaderLayout(image).value.elf32 == elf32
    requires ProgramTable(image) == Ok(programs) && LastDynamic(programs) == Some(p)
    requires forall t <- tags :: RepresentableTag(t, elf32)
    requires p.offset as int + p.fileSize as int <= |image|
    requires image[p.offset as int..p.offset as int + p.fileSize as int] == EncodeTags(elf32, tags)
    ensures Dynamic(image, utf8) == if TooLarge(elf32, tags) then Err(BadDynamic)
                                    else Resolve(image, programs, Meaning(tags, EMPTY_SCAN), utf8)
  {
    hide HeaderLayout, ProgramTable, ScanTags, Resolve, LastDynamic, EncodeTag;
    assert |EncodeTags(elf32, tags)| == |tags| * TagSize(elf32) as int;
    TagListSize(elf32, p, tags);
    if !TooLarge(elf32, tags) {
      ScanRoundTrip(image, p.offset as int, elf32, tags, EMPTY_SCAN);
    }
  }

  lemma OnePieceWritten(elf32: bool, contents: seq<Piece>)
    requires |contents| == 1 && contents[0].TagList? && AllFit(elf32, contents)
    ensures (forall t <- contents[0].tags :: RepresentableTag(t, elf32))
    ensures Written(elf32, contents) == EncodeTags(elf32, contents[0].tags)
  {
    assert contents[0] in contents && contents[..0] == [];
    assert [] + EncodeTags(elf32, contents[0].tags) == EncodeTags(elf32, contents[0].tags);
  }

  /**
   * Reading any image of the class that consists of the segments, laid out in whatever way
   * and sharing whatever bytes, yields their meaning, or "bad dynamic" when the entries
   * exceed 4 MiB.
   */
  lemma DynamicRoundTrip(elf32: bool, image: Image, segments: seq<Segment>, utf8: Bytes -> bool)
    requires Carries(elf32, image, segments) && WellFormed(segments)
    ensures SegmentsFit(elf32, segments)
    ensures Dynamic(image, utf8)
            == if TooLarge(elf32, TagsOf(segments)) then Err(BadDynamic) else DynamicMeaning(elf32, segments, utf8)
  {
    hide Written, AllFit, StringTable, BytesAt, Interpret, HeaderLayout, ProgramTable, Dynamic, Meaning;
    var programs, tags := ProgramTable(image).value, TagsOf(segments);
    DescribedFit(elf32, programs, segments, image);
    DynamicOfPrograms(elf32, programs, segments, image);
    var i :| 0 <= i < |segments| && LastDynamic(programs) == Some(programs[i])
             && LastDynamicOf(segments) == Some(segments[i].contents);
    hide LastDynamic, LastDynamicOf;
    OnePieceWritten(elf32, segments[i].contents);
    DynamicOfScan(image, elf32, programs, programs[i], tags, utf8);
    var scan := Meaning(tags, EMPTY_SCAN);
    if NamesStrings(scan) {
      StringsOfPrograms(elf32, programs, segments, image, scan.strings.value, scan.stringSize.value);
    }
  }

  // ------------------------------------------------------------ when the class does not matter

  predicate BothFit(segments: seq<Segment>) { SegmentsFit(true, segments) && SegmentsFit(false, segments) }

  /** Piece j is plain bytes, starts at the same place in both classes, and holds the range. */
  predicate InPlaceAt(s: Segment, j: nat, address: u64, size: u64)
    requires AllFit(true, s.contents) && AllFit(false, s.contents)
  {
    && j < |s.contents| && s.contents[j].Raw?
    && var from := |Written(true, s.contents[..j])|;
       && from == |Written(false, s.contents[..j])|
       && from <= address as int - s.virtualAddress as int
       && address as int - s.virtualAddress as int + size as int <= from + |s.contents[j].bytes|
  }

  ghost predicate InPlace(s: Segment, address: u64, size: u64)
    requires AllFit(true, s.contents) && AllFit(false, s.contents)
  {
    s.kind == 1 && exists j: nat :: InPlaceAt(s, j, address, size)
  }

  predicate HeldByNeither(s: Segment, address: u64, size: u64)
    requires AllFit(true, s.contents) && AllFit(false, s.contents)
  {
    !Holds(true, s, address, size) && !Holds(false, s, address, size)
  }

  /**
   * The range is not resolved through bytes that depend on the class: no load segment holds
   * it in either class, or the first that holds it in one of them holds it in both, inside
   * plain bytes that lie at the same place.
   */
  ghost predicate ClassFreeRange(segments: seq<Segment>, address: u64, size: u64)
    requires BothFit(segments)
  {
    segments != [] ==>
      var n := |segments| - 1;
      var front := segments[..n];
      if forall s <- front :: HeldByNeither(s, address, size) then
        HeldByNeither(segments[n], address, size) || InPlace(segments[n], address, size)
      else ClassFreeRange(front, address, size)
  }

  /** A piece's bytes within the segment's. */
  lemma {:induction false} PieceInPlace(elf32: bool, pieces: seq<Piece>, j: nat)
    requires AllFit(elf32, pieces) && j < |pieces|
    ensures Fits(elf32, pieces[j])
    ensures var before, own := Written(elf32, pieces[..j]), PieceBytes(elf32, pieces[j]);
            && |before| + |own| <= |Written(elf32, pieces)|
            && Written(elf32, pieces)[|before|..|before| + |own|] == own
    decreases |pieces|
  {
    hide PieceBytes, Fits;
    assert pieces[j] in pieces;
    var n := |pieces| - 1;
    var front := pieces[..n];
    if j < n {
      PieceInPlace(elf32, front, j);
      assert front[j] == pieces[j] && front[..j] == pieces[..j];
      var before, own := Written(elf32, pieces[..j]), PieceBytes(elf32, pieces[j]);
      SliceInFront(Written(elf32, front), PieceBytes(elf32, pieces[n]), |before|, |before| + |own|);
    } else {
      var before, own := Written(elf32, front), PieceBytes(elf32, pieces[n]);
      assert (before + own)[|before|..] == own;
    }
  }

  /** A range inside one plain piece of a load segment is that stretch of the piece. */
  lemma HeldInPiece(elf32: bool, s: Segment, j: nat, address: u64, size: u64)
    requires AllFit(elf32, s.contents) && s.kind == 1 && j < |s.contents| && s.contents[j].Raw?
    requires var from := |Written(elf32, s.contents[..j])|;
             && from <= address as int - s.virtualAddress as int
             && address as int - s.virtualAddress as int + size as int <= from + |s.contents[j].bytes|
    ensures var k := address as int - s.virtualAddress as int - |Written(elf32, s.contents[..j])|;
            HeldBytes(elf32, s, address, size) == Some(s.contents[j].bytes[k..k + size as int])
  {
    PieceInPlace(elf32, s.contents, j);
    hide Written, AllFit, Fits;
    var whole, from, own := Written(elf32, s.contents), |Written(elf32, s.contents[..j])|, s.contents[j].bytes;
    var k := address as int - s.virtualAddress as int - from;
    StretchOfStretch(whole, from, own, k, size as int);
  }

  lemma StretchOfStretch(whole: Bytes, from: nat, own: Bytes, k: nat, n: nat)
    requires from + |own| <= |whole| && whole[from..from + |own|] == own && k + n <= |own|
    ensures whole[from + k..from + k + n] == own[k..k + n]
  {
    SubSlice(whole, from, from + |own|, k, k + n);
  }

  /** Plain bytes at the same place are the same bytes. */
  lemma InPlaceIsHeldAlike(s: Segment, address: u64, size: u64)
    requires AllFit(true, s.contents) && AllFit(false, s.contents) && InPlace(s, address, size)
    ensures HeldBytes(true, s, address, size).Some?
    ensures HeldBytes(true, s, address, size) == HeldBytes(false, s, address, size)
  {
    hide HeldBytes, Written, Fits;
    var j: nat :| InPlaceAt(s, j, address, size);
    HeldInPiece(true, s, j, address, size);
    HeldInPiece(false, s, j, address, size);
  }

  lemma {:induction false} NoneHolds(elf32: bool, segments: seq<Segment>, address: u64, size: u64)
    requires SegmentsFit(elf32, segments) && forall s <- segments :: !Holds(elf32, s, address, size)
    ensures BytesAt(elf32, segments, address, size) == None
    decreases |segments|
  {
    hide AllFit, Written;
    if segments != [] {
      NoneHolds(elf32, segments[..|segments| - 1], address, size);
    }
  }

  /** A range held somewhere is found. */
  lemma {:induction false} SomeHolds(elf32: bool, segments: seq<Segment>, s: Segment, address: u64, size: u64)
    requires SegmentsFit(elf32, segments) && s in segments && Holds(elf32, s, address, size)
    ensures BytesAt(elf32, segments, address, size).Some?
    decreases |segments|
  {
    hide AllFit, Written;
    var n := |segments| - 1;
    if s != segments[n] {
      assert s in segments[..n];
      SomeHolds(elf32, segments[..n], s, address, size);
    }
  }

  /** A range resolved through no class-dependent bytes is found in both classes, alike, or in neither. */
  lemma {:induction false} ClassFreeBytes(segments: seq<Segment>, address: u64, size: u64)
    requires BothFit(segments) && ClassFreeRange(segments, address, size)
    ensures BytesAt(true, segments, address, size) == BytesAt(false, segments, address, size)
    decreases |segments|
  {
    hide AllFit, Written;
    if segments != [] {
      var n := |segments| - 1;
      var front := segments[..n];
      assert segments[n] in segments;
      if forall s <- front :: HeldByNeither(s, address, size) {
        NoneHolds(true, front, address, size);
        NoneHolds(false, front, address, size);
        if InPlace(segments[n], address, size) {
          InPlaceIsHeldAlike(segments[n], address, size);
        }
      } else {
        ClassFreeBytes(front, address, size);
        var s :| s in front && !HeldByNeither(s, address, size);
        SomeHolds(Holds(true, s, address, size), front, s, address, size);
      }
    }
  }

  /** The string table the entries name, if they name one, is class-free. */
  ghost predicate ClassFreeStrings(segments: seq<Segment>)
    requires WellFormed(segments) && BothFit(segments)
  {
    var scan := Meaning(TagsOf(segments), EMPTY_SCAN);
    NamesStrings(scan) ==> ClassFreeRange(segments, scan.strings.value, scan.stringSize.value)
  }

  lemma MeaningIsNeverBadDynamic(elf32: bool, segments: seq<Segment>, utf8: Bytes -> bool)
    requires WellFormed(segments) && SegmentsFit(elf32, segments)
    ensures DynamicMeaning(elf32, segments, utf8) != Err(BadDynamic)
  {
    hide BytesAt, Meaning, LastDynamicOf, AllFit;
  }

  /**
   * Any ELF32 and any ELF64 image of the same segments give the same DT_NEEDED list and
   * SONAME, or fail alike, when the string table they name is not resolved through
   * class-dependent bytes; then exactly when the entries do not exceed the 4 MiB limit in
   * ELF64 alone.
   */
  lemma ClassDoesNotMatter(image32: Image, image64: Image, segments: seq<Segment>, utf8: Bytes -> bool)
    requires Carries(true, image32, segments) && Carries(false, image64, segments) && WellFormed(segments)
    ensures BothFit(segments)
    ensures ClassFreeStrings(segments) ==>
              (Dynamic(image32, utf8) == Dynamic(image64, utf8)
               <==> (TooLarge(false, TagsOf(segments)) ==> TooLarge(true, TagsOf(segments))))
  {
    DynamicRoundTrip(true, image32, segments, utf8);
    DynamicRoundTrip(false, image64, segments, utf8);
    MeaningIsNeverBadDynamic(true, segments, utf8);
    MeaningIsNeverBadDynamic(false, segments, utf8);
    hide Carries, Dynamic, LastDynamicOf, AllFit, BytesAt, Meaning, Interpret, ClassFreeRange;
    var scan := Meaning(TagsOf(segments), EMPTY_SCAN);
    if ClassFreeStrings(segments) && NamesStrings(scan) {
      ClassFreeBytes(segments, scan.strings.value, scan.stringSize.value);
    }
  }

  // ------------------------------------------------------------ writing images with shared bytes

  /** A segment that covers `count` pieces of the body from `first` on; spans may overlap. */
  datatype Span = Span(kind: u64, flags: u64, virtualAddress: u64, first: nat, count: nat)
  {
    predicate Within(body: seq<Piece>) { first + count <= |body| }

    function Cover(body: seq<Piece>): Segment
      requires Within(body)
    {
      Segment(kind, flags, virtualAddress, body[first..first + count])
    }
  }

  predicate AllWithin(body: seq<Piece>, spans: seq<Span>)
  {
    forall span <- spans :: span.Within(body)
  }

  function SegmentsOf(body: seq<Piece>, spans: seq<Span>): (segments: seq<Segment>)
    requires AllWithin(body, spans)
    ensures |segments| == |spans| && forall i :: 0 <= i < |spans| ==> segments[i] == spans[i].Cover(body)
  {
    seq(|spans|, i requires 0 <= i < |spans| => spans[i].Cover(body))
  }

  /** The body is the pieces before b and those after. */
  lemma {:induction false} WrittenSplit(elf32: bool, pieces: seq<Piece>, b: nat)
    requires AllFit(elf32, pieces) && b <= |pieces|
    ensures Written(elf32, pieces) == Written(elf32, pieces[..b]) + Written(elf32, pieces[b..])
    decreases |pieces|
  {
    hide PieceBytes, Fits;
    var n := |pieces| - 1;
    if b == |pieces| {
      assert pieces[..b] == pieces && pieces[b..] == [];
    } else {
      WrittenSplit(elf32, pieces[..n], b);
      assert pieces[..n][..b] == pieces[..b] && pieces[b..][..n - b] == pieces[..n][b..];
      var before, middle := Written(elf32, pieces[..b]), Written(elf32, pieces[..n][b..]);
      assert Written(elf32, pieces[b..]) == middle + PieceBytes(elf32, pieces[n]);
      assert before + middle + PieceBytes(elf32, pieces[n]) == before + (middle + PieceBytes(elf32, pieces[n]));
    }
  }

  /** The bytes of a stretch of pieces within the body. */
  lemma StretchInBody(elf32: bool, body: seq<Piece>, a: nat, b: nat)
    requires AllFit(elf32, body) && a <= b <= |body|
    ensures var before, own := Written(elf32, body[..a]), Written(elf32, body[a..b]);
            && |before| + |own| <= |Written(elf32, body)|
            && Written(elf32, body)[|before|..|before| + |own|] == own
  {
    WrittenSplit(elf32, body, b);
    WrittenSplit(elf32, body[..b], a);
    assert body[..b][..a] == body[..a] && body[..b][a..] == body[a..b];
    hide Written, AllFit;
    var before, own, after := Written(elf32, body[..a]), Written(elf32, body[a..b]), Written(elf32, body[b..]);
    assert (before + own + after)[|before|..|before| + |own|] == own;
  }

  /** The program header of a span when the body starts at `from`. */
  function HeaderOf(elf32: bool, body: seq<Piece>, span: Span, from: nat): Program
    requires AllFit(elf32, body) && span.Within(body) && from + |Written(elf32, body)| < TWO64
  {
    StretchInBody(elf32, body, span.first, span.first + span.count);
    Program(span.kind, span.flags, (from + |Written(elf32, body[..span.first])|) as u64, span.virtualAddress,
            |Written(elf32, body[span.first..span.first + span.count])| as u64)
  }

  function Table(elf32: bool, body: seq<Piece>, spans: seq<Span>, from: nat): (programs: seq<Program>)
    requires AllFit(elf32, body) && AllWithin(body, spans) && from + |Written(elf32, body)| < TWO64
    ensures |programs| == |spans|
    ensures forall i :: 0 <= i < |spans| ==> programs[i] == HeaderOf(elf32, body, spans[i], from)
  {
    seq(|spans|, i requires 0 <= i < |spans| => HeaderOf(elf32, body, spans[i], from))
  }

  /** How an image is laid out apart from its body; the reader ignores all of it. */
  datatype Style = Style(unread: Unread, gap: Bytes, padding: Bytes)

  function Stride(elf32: bool, style: Style): nat { (if elf32 then 32 else 56) + |style.padding| }

  function BodyStart(elf32: bool, count: nat, style: Style): nat { 64 + |style.gap| + count * Stride(elf32, style) }

  /** The field widths of the class hold the span's header. */
  predicate Writable(elf32: bool, span: Span)
  {
    span.kind as int < TWO32 && span.flags as int < TWO32 && (elf32 ==> span.virtualAddress as int < TWO32)
  }

  predicate Encodable(elf32: bool, body: seq<Piece>, spans: seq<Span>, style: Style)
  {
    && AllFit(elf32, body) && AllWithin(body, spans) && (forall span <- spans :: Writable(elf32, span))
    && 0 < |spans| <= 256 && UnreadFits(style.unread, elf32) && Stride(elf32, style) < 0x1_0000
    && BodyStart(elf32, |spans|, style) + |Written(elf32, body)| < (if elf32 then TWO32 else TWO64)
  }

  /** Header, program table, body. */
  function EncodeSpans(elf32: bool, body: seq<Piece>, spans: seq<Span>, style: Style): (image: Image)
    requires Encodable(elf32, body, spans, style)
    ensures |image| == BodyStart(elf32, |spans|, style) + |Written(elf32, body)|
  {
    var from := BodyStart(elf32, |spans|, style);
    EncodeImage(elf32, Table(elf32, body, spans, from), style.unread, style.gap, style.padding, Written(elf32, body))
  }

  lemma BodyIsAtItsStart(elf32: bool, body: seq<Piece>, spans: seq<Span>, style: Style)
    requires Encodable(elf32, body, spans, style)
    ensures EncodeSpans(elf32, body, spans, style)[BodyStart(elf32, |spans|, style)..] == Written(elf32, body)
  {
    hide Written, Table, EncodeTable, EncodeHeader;
  }

  /** A span's header points at its bytes. */
  lemma SpanPointsAt(elf32: bool, body: seq<Piece>, spans: seq<Span>, style: Style, i: nat)
    requires Encodable(elf32, body, spans, style) && i < |spans|
    ensures AllFit(elf32, spans[i].Cover(body).contents)
    ensures PointsAt(elf32, Table(elf32, body, spans, BodyStart(elf32, |spans|, style))[i], spans[i].Cover(body),
                     EncodeSpans(elf32, body, spans, style))
  {
    hide Written, EncodeSpans, Table, Fits, EncodeImage;
    var span := spans[i];
    assert span in spans;
    var image, from := EncodeSpans(elf32, body, spans, style), BodyStart(elf32, |spans|, style);
    BodyIsAtItsStart(elf32, body, spans, style);
    HeaderPointsAt(elf32, body, span, from, image);
  }

  lemma HeaderPointsAt(elf32: bool, body: seq<Piece>, span: Span, from: nat, image: Image)
    requires AllFit(elf32, body) && span.Within(body) && from + |Written(elf32, body)| < TWO64
    requires from <= |image| && image[from..] == Written(elf32, body)
    ensures AllFit(elf32, span.Cover(body).contents)
    ensures PointsAt(elf32, HeaderOf(elf32, body, span, from), span.Cover(body), image)
  {
    hide Written, Fits;
    StretchInBody(elf32, body, span.first, span.first + span.count);
    assert AllFit(elf32, span.Cover(body).contents);
    hide AllFit;
    var p := HeaderOf(elf32, body, span, from);
    var at, own := |Written(elf32, body[..span.first])|, Written(elf32, span.Cover(body).contents);
    assert p.offset as int == from + at && p.fileSize as int == |own|;
    hide HeaderOf;
    StretchOfImage(image, from, Written(elf32, body), at, own);
  }

  lemma StretchOfImage(image: Bytes, from: nat, body: Bytes, at: nat, own: Bytes)
    requires from <= |image| && image[from..] == body && at + |own| <= |body| && body[at..at + |own|] == own
    ensures from + at + |own| <= |image| && image[from + at..from + at + |own|] == own
  {
    SubSlice(image, from, |image|, at, at + |own|);
  }

  /** The written program table is read back. */
  lemma TableIsRead(elf32: bool, body: seq<Piece>, spans: seq<Span>, style: Style)
    requires Encodable(elf32, body, spans, style)
    ensures ProgramTable(EncodeSpans(elf32, body, spans, style))
            == Ok(Table(elf32, body, spans, BodyStart(elf32, |spans|, style)))
  {
    hide Written, Table, ProgramTable, EncodeImage, EncodeTable;
    var programs := Table(elf32, body, spans, BodyStart(elf32, |spans|, style));
    var image := EncodeSpans(elf32, body, spans, style);
    forall p | p in programs ensures Representable(p, elf32) && InFile(p, image) {
      var i :| 0 <= i < |programs| && programs[i] == p;
      SpanPointsAt(elf32, body, spans, style, i);
      assert spans[i] in spans;
    }
    ProgramTableRoundTrip(elf32, programs, style.unread, style.gap, style.padding, Written(elf32, body));
  }

  lemma ClassIsRead(elf32: bool, body: seq<Piece>, spans: seq<Span>, style: Style)
    requires Encodable(elf32, body, spans, style)
    ensures var image := EncodeSpans(elf32, body, spans, style);
            HeaderLayout(image).Ok? && HeaderLayout(image).value.elf32 == elf32
  {
    var image := EncodeSpans(elf32, body, spans, style);
    TableIsRead(elf32, body, spans, style);
    TableNeedsHeader(image);
    HeaderClass(image);
    hide HeaderLayout, ProgramTable, Written, Table, EncodeTable;
    assert image[4] == if elf32 then 1 else 2;
  }

  lemma TableNeedsHeader(image: Image)
    ensures ProgramTable(image).Ok? ==> HeaderLayout(image).Ok?
  {
    hide HeaderLayout, Elf.Entries;
  }

  /** An image written from spans of a body carries the segments they cover. */
  lemma SpansAreCarried(elf32: bool, body: seq<Piece>, spans: seq<Span>, style: Style)
    requires Encodable(elf32, body, spans, style)
    ensures Carries(elf32, EncodeSpans(elf32, body, spans, style), SegmentsOf(body, spans))
  {
    hide Written, EncodeSpans, Table, HeaderLayout, ProgramTable, PointsAt, AllFit;
    TableIsRead(elf32, body, spans, style);
    ClassIsRead(elf32, body, spans, style);
    forall i | 0 <= i < |spans|
      ensures AllFit(elf32, spans[i].Cover(body).contents)
      ensures PointsAt(elf32, Table(elf32, body, spans, BodyStart(elf32, |spans|, style))[i], spans[i].Cover(body),
                       EncodeSpans(elf32, body, spans, style))
    {
      SpanPointsAt(elf32, body, spans, style, i);
    }
  }

  // ------------------------------------------------------------ a small library

  const STRINGS: Bytes := [0, 0x61, 0x2E, 0x73, 0x6F, 0]

  /** DT_NEEDED 1, DT_STRTAB, DT_STRSZ 6, DT_SONAME 3, DT_NULL. */
  function TagsFor(strings: u64): seq<Tag> { [Tag(1, 1), Tag(5, strings), Tag(10, 6), Tag(14, 3), Tag(0, 0)] }

  const A_SO: Bytes := [0x61, 0x2E, 0x73, 0x6F]
  const SO: Bytes := [0x73, 0x6F]

  /** Strings, then the dynamic table, then bytes that differ by class, all in one load segment. */
  function Library(narrow: Bytes, wide: Bytes): seq<Piece>
  {
    [Raw(STRINGS), TagList(TagsFor(0x1000)), PerClass(narrow, wide)]
  }

  const LIBRARY_SPANS := [Span(1, 5, 0x1000, 0, 3), Span(2, 6, 0x1006, 1, 1)]

  lemma ThreePieces(elf32: bool, a: Piece, b: Piece, c: Piece)
    requires Fits(elf32, a) && Fits(elf32, b) && Fits(elf32, c)
    ensures AllFit(elf32, [a]) && Written(elf32, [a]) == PieceBytes(elf32, a)
    ensures AllFit(elf32, [a, b]) && Written(elf32, [a, b]) == PieceBytes(elf32, a) + PieceBytes(elf32, b)
    ensures AllFit(elf32, [a, b, c])
    ensures Written(elf32, [a, b, c]) == PieceBytes(elf32, a) + PieceBytes(elf32, b) + PieceBytes(elf32, c)
  {
    hide PieceBytes, Fits;
    assert [a][..0] == [] && [a, b][..1] == [a] && [a, b, c][..2] == [a, b];
    assert [] + PieceBytes(elf32, a) == PieceBytes(elf32, a);
  }

  /** The segments of the library: the load segment contains the dynamic one. */
  function LibrarySegments(narrow: Bytes, wide: Bytes): seq<Segment>
  {
    [Segment(1, 5, 0x1000, Library(narrow, wide)), Segment(2, 6, 0x1006, [TagList(TagsFor(0x1000))])]
  }

  lemma LibraryCovers(narrow: Bytes, wide: Bytes)
    ensures AllWithin(Library(narrow, wide), LIBRARY_SPANS)
    ensures SegmentsOf(Library(narrow, wide), LIBRARY_SPANS) == LibrarySegments(narrow, wide)
  {
    var body := Library(narrow, wide);
    assert body[0..3] == body && body[1..2] == [TagList(TagsFor(0x1000))];
  }

  lemma LibraryWellFormed(narrow: Bytes, wide: Bytes, elf32: bool)
    ensures var segments := LibrarySegments(narrow, wide);
            WellFormed(segments) && TagsOf(segments) == TagsFor(0x1000) && SegmentsFit(elf32, segments)
  {
  }

  predicate Modest(elf32: bool, style: Style)
  {
    UnreadFits(style.unread, elf32) && |style.gap| < 0x1_0000 && |style.padding| < 0x8000
  }

  /** A body of two spans that is far below the limits can be written. */
  lemma SmallIsEncodable(elf32: bool, body: seq<Piece>, spans: seq<Span>, style: Style)
    requires AllFit(elf32, body) && AllWithin(body, spans) && |spans| == 2 && Modest(elf32, style)
    requires (forall span <- spans :: Writable(elf32, span)) && |Written(elf32, body)| < 0x2_0000
    ensures Encodable(elf32, body, spans, style)
  {
    hide Written, AllFit, AllWithin, UnreadFits, Writable;
  }

  lemma FiveTags(elf32: bool, strings: u64)
    requires strings as int < TWO32
    ensures Fits(elf32, TagList(TagsFor(strings)))
    ensures |PieceBytes(elf32, TagList(TagsFor(strings)))| == 5 * TagSize(elf32) as int
  {
    hide EncodeTag;
  }

  lemma LibraryPieces(elf32: bool, narrow: Bytes, wide: Bytes)
    ensures Fits(elf32, TagList(TagsFor(0x1000))) && AllFit(elf32, Library(narrow, wide))
    ensures |Written(elf32, Library(narrow, wide))| == 6 + 5 * TagSize(elf32) as int + |if elf32 then narrow else wide|
  {
    FiveTags(elf32, 0x1000);
    var strings, entries, rest := Raw(STRINGS), TagList(TagsFor(0x1000)), PerClass(narrow, wide);
    assert Library(narrow, wide) == [strings, entries, rest];
    assert |PieceBytes(elf32, strings)| == 6 && PieceBytes(elf32, rest) == if elf32 then narrow else wide;
    hide TagsFor, AllFit, Written, TagSize, PieceBytes, Library;
    ThreePieces(elf32, strings, entries, rest);
  }

  lemma LibraryFits(elf32: bool, narrow: Bytes, wide: Bytes, style: Style)
    requires Modest(elf32, style) && |narrow| < 0x1_0000 && |wide| < 0x1_0000
    ensures Encodable(elf32, Library(narrow, wide), LIBRARY_SPANS, style)
  {
    LibraryPieces(elf32, narrow, wide);
    LibraryCovers(narrow, wide);
    hide Encodable, AllWithin, Modest, TagsFor, AllFit, Written, PieceBytes, LibrarySegments, SegmentsOf, Library;
    SmallIsEncodable(elf32, Library(narrow, wide), LIBRARY_SPANS, style);
  }

  lemma {:induction false} FirstNulAfter(text: Bytes)
    requires 0 !in text
    ensures FirstNul(text + [0]) == Some(|text|)
  {
    if text != [] {
      assert (text + [0])[1..] == text[1..] + [0];
      FirstNulAfter(text[1..]);
      assert text[0] in text;
    }
  }

  lemma StringOfTable(table: Bytes, text: Bytes, offset: u64, utf8: Bytes -> bool)
    requires offset as int <= |table| && text + [0] <= table[offset as int..] && 0 !in text && utf8(text)
    ensures StringAt(table, offset, utf8) == Ok(text)
  {
    var tail := table[offset as int..];
    FirstNulAfter(text);
    FirstNulOfPrefix(text + [0], tail);
    assert tail[..|text|] == (text + [0])[..|text|] == text;
  }

  lemma {:induction false} FirstNulOfPrefix(prefix: Bytes, bytes: Bytes)
    requires prefix <= bytes && FirstNul(prefix).Some?
    ensures FirstNul(bytes) == FirstNul(prefix)
  {
    if prefix[0] != 0 {
      FirstNulOfPrefix(prefix[1..], bytes[1..]);
    }
  }

  /** The scan of the library's entries. */
  lemma ScanOfTags(strings: u64)
    ensures Meaning(TagsFor(strings), EMPTY_SCAN) == Scan([1], Some(strings), Some(6), Some(3))
  {
    var tags := TagsFor(strings);
    var s1 := EMPTY_SCAN.Note(tags[0]);
    var s2 := s1.Note(tags[1]);
    var s3 := s2.Note(tags[2]);
    var s4 := s3.Note(tags[3]);
    assert Meaning(tags[4..], s4) == s4;
    assert tags[3..][1..] == tags[4..] && Meaning(tags[3..], s3) == s4;
    assert tags[2..][1..] == tags[3..] && Meaning(tags[2..], s2) == s4;
    assert tags[1..][1..] == tags[2..] && Meaning(tags[1..], s1) == s4;
  }

  /** What the entries mean over a table that holds these two names. */
  lemma NamesOfTable(table: Bytes, strings: u64, needed: Bytes, soname: Bytes, utf8: Bytes -> bool)
    requires |table| == 6 && needed + [0] <= table[1..] && soname + [0] <= table[3..]
    requires 0 !in needed && 0 !in soname && utf8(needed) && utf8(soname)
    ensures Interpret(Meaning(TagsFor(strings), EMPTY_SCAN), Ok(table), utf8) == Ok(DynamicInfo([needed], Some(soname)))
  {
    ScanOfTags(strings);
    StringOfTable(table, needed, 1, utf8);
    StringOfTable(table, soname, 3, utf8);
    var offsets: seq<u64> := [1];
    assert offsets[..0] == [] && StringsAt(table, offsets[..0], utf8) == Ok([]);
    var none: seq<Bytes> := [];
    assert none + [needed] == [needed] && StringAt(table, offsets[0], utf8) == Ok(needed);
    hide StringAt;
    assert StringsAt(table, offsets, utf8) == Ok([needed]);
  }

  lemma LibraryStrings(elf32: bool, narrow: Bytes, wide: Bytes)
    ensures SegmentsFit(elf32, LibrarySegments(narrow, wide))
    ensures BytesAt(elf32, LibrarySegments(narrow, wide), 0x1000, 6) == Some(STRINGS)
  {
    var segments, body := LibrarySegments(narrow, wide), Library(narrow, wide);
    LibraryWellFormed(narrow, wide, elf32);
    assert body[..0] == [] && STRINGS[0..6] == STRINGS;
    HeldInPiece(elf32, segments[0], 0, 0x1000, 6);
    assert segments[..1] == [segments[0]] && segments[..1][..0] == [];
    hide HeldBytes, Written;
    assert BytesAt(elf32, segments[..1][..0], 0x1000, 6) == None;
    assert BytesAt(elf32, segments[..1], 0x1000, 6) == Some(STRINGS);
  }

  /**
   * A library whose load segment contains its string table, its dynamic table and bytes that
   * depend on the class is read, in both classes, to its one needed name and its SONAME.
   */
  lemma LibraryIsRead(elf32: bool, narrow: Bytes, wide: Bytes, style: Style, utf8: Bytes -> bool)
    requires Modest(elf32, style) && |narrow| < 0x1_0000 && |wide| < 0x1_0000 && utf8(A_SO) && utf8(SO)
    ensures Encodable(elf32, Library(narrow, wide), LIBRARY_SPANS, style)
    ensures Dynamic(EncodeSpans(elf32, Library(narrow, wide), LIBRARY_SPANS, style), utf8)
            == Ok(DynamicInfo([A_SO], Some(SO)))
  {
    hide *;
    LibraryMeans(elf32, narrow, wide, style, utf8);
    LibraryStrings(elf32, narrow, wide);
    FoundTable(STRINGS);
    NamesInStrings(0x1000, utf8);
  }

  lemma FoundTable(bytes: Bytes)
    ensures AsTable(Some(bytes)) == Ok(bytes)
  {
  }

  lemma NamesInStrings(strings: u64, utf8: Bytes -> bool)
    requires utf8(A_SO) && utf8(SO)
    ensures Interpret(Meaning(TagsFor(strings), EMPTY_SCAN), Ok(STRINGS), utf8) == Ok(DynamicInfo([A_SO], Some(SO)))
  {
    hide Interpret, Meaning, TagsFor, StringAt;
    NamesOfTable(STRINGS, strings, A_SO, SO, utf8);
  }

  lemma LibraryMeans(elf32: bool, narrow: Bytes, wide: Bytes, style: Style, utf8: Bytes -> bool)
    requires Modest(elf32, style) && |narrow| < 0x1_0000 && |wide| < 0x1_0000
    ensures Encodable(elf32, Library(narrow, wide), LIBRARY_SPANS, style)
    ensures SegmentsFit(elf32, LibrarySegments(narrow, wide))
    ensures Dynamic(EncodeSpans(elf32, Library(narrow, wide), LIBRARY_SPANS, style), utf8)
            == Interpret(Meaning(TagsFor(0x1000), EMPTY_SCAN),
                         AsTable(BytesAt(elf32, LibrarySegments(narrow, wide), 0x1000, 6)), utf8)
  {
    LibraryWellFormed(narrow, wide, elf32);
    LibraryFits(elf32, narrow, wide, style);
    LibraryCovers(narrow, wide);
    hide Encodable, EncodeSpans, Dynamic, BytesAt, Interpret, Meaning, LastDynamicOf, SegmentsOf, Library, TagsFor;
    hide WellFormed, TagsOf, SegmentsFit, LibrarySegments, AllWithin;
    SpansMean(elf32, Library(narrow, wide), LIBRARY_SPANS, style, LibrarySegments(narrow, wide), 0x1000, utf8);
  }

  /** An image of spans that cover these segments, with five entries that name 6 bytes of strings. */
  lemma SpansMean(
    elf32: bool, body: seq<Piece>, spans: seq<Span>, style: Style, segments: seq<Segment>, strings: u64,
    utf8: Bytes -> bool)
    requires Encodable(elf32, body, spans, style) && AllWithin(body, spans) && SegmentsOf(body, spans) == segments
    requires WellFormed(segments) && TagsOf(segments) == TagsFor(strings) && SegmentsFit(elf32, segments)
    ensures Dynamic(EncodeSpans(elf32, body, spans, style), utf8)
            == Interpret(Meaning(TagsFor(strings), EMPTY_SCAN), AsTable(BytesAt(elf32, segments, strings, 6)), utf8)
  {
    ScanOfTags(strings);
    assert |TagsFor(strings)| == 5;
    hide Encodable, EncodeSpans, Dynamic, Carries, BytesAt, Interpret, Meaning, LastDynamicOf, SegmentsOf, TagsFor;
    hide WellFormed, TagsOf, SegmentsFit, AllWithin;
    SpansAreCarried(elf32, body, spans, style);
    DynamicRoundTrip(elf32, EncodeSpans(elf32, body, spans, style), segments, utf8);
  }

  // ------------------------------------------------------------ when the class does matter

  /** Strings placed after the entries, at the address they have in ELF32; all in one load segment. */
  function Shifted(): seq<Piece> { [TagList(TagsFor(0x2028)), Raw(STRINGS)] }

  const SHIFTED_SPANS := [Span(1, 5, 0x2000, 0, 2), Span(2, 6, 0x2000, 0, 1)]

  function ShiftedSegments(): seq<Segment>
  {
    [Segment(1, 5, 0x2000, Shifted()), Segment(2, 6, 0x2000, [TagList(TagsFor(0x2028))])]
  }

  /** Part of the value of the third entry, where ELF64 finds the "strings". */
  const SIZE_FIELD: Bytes := [6, 0, 0, 0, 0, 0]

  lemma ShiftedCovers()
    ensures AllWithin(Shifted(), SHIFTED_SPANS) && SegmentsOf(Shifted(), SHIFTED_SPANS) == ShiftedSegments()
  {
    assert Shifted()[0..2] == Shifted() && Shifted()[0..1] == [TagList(TagsFor(0x2028))];
  }

  lemma ShiftedWellFormed(elf32: bool)
    ensures WellFormed(ShiftedSegments()) && TagsOf(ShiftedSegments()) == TagsFor(0x2028)
    ensures SegmentsFit(elf32, ShiftedSegments())
  {
  }

  lemma ShiftedPieces(elf32: bool)
    ensures Fits(elf32, TagList(TagsFor(0x2028))) && AllFit(elf32, Shifted()) && AllFit(elf32, Shifted()[..1])
    ensures Written(elf32, Shifted()[..1]) == PieceBytes(elf32, TagList(TagsFor(0x2028)))
    ensures Written(elf32, Shifted()) == PieceBytes(elf32, TagList(TagsFor(0x2028))) + STRINGS
    ensures |PieceBytes(elf32, TagList(TagsFor(0x2028)))| == 5 * TagSize(elf32) as int
  {
    FiveTags(elf32, 0x2028);
    var entries, strings := TagList(TagsFor(0x2028)), Raw(STRINGS);
    assert Shifted()[..1] == [entries];
    hide TagsFor, AllFit, Written, TagSize;
    ThreePieces(elf32, entries, strings, strings);
  }

  lemma ShiftedFits(elf32: bool, style: Style)
    requires Modest(elf32, style)
    ensures Encodable(elf32, Shifted(), SHIFTED_SPANS, style)
  {
    ShiftedPieces(elf32);
    ShiftedCovers();
    hide Encodable, AllWithin, Modest, TagsFor, AllFit, Written, PieceBytes, ShiftedSegments, SegmentsOf;
    SmallIsEncodable(elf32, Shifted(), SHIFTED_SPANS, style);
  }

  lemma ShiftedStrings32()
    ensures SegmentsFit(true, ShiftedSegments())
    ensures BytesAt(true, ShiftedSegments(), 0x2028, 6) == Some(STRINGS)
  {
    var s := ShiftedSegments()[0];
    ShiftedWellFormed(true);
    ShiftedPieces(true);
    assert STRINGS[0..6] == STRINGS && s.contents[1] == Raw(STRINGS);
    hide Written, PieceBytes, AllFit, TagsFor, BytesAt, HeldBytes;
    HeldInPiece(true, s, 1, 0x2028, 6);
    FirstHolds(true, ShiftedSegments(), 0x2028, 6);
  }

  /** What the first segment holds is what is found. */
  lemma FirstHolds(elf32: bool, segments: seq<Segment>, address: u64, size: u64)
    requires |segments| == 2 && SegmentsFit(elf32, segments)
    requires HeldBytes(elf32, segments[0], address, size).Some?
    ensures BytesAt(elf32, segments, address, size) == HeldBytes(elf32, segments[0], address, size)
  {
    hide HeldBytes, AllFit;
    assert segments[..1] == [segments[0]] && segments[..1][..0] == [];
    assert BytesAt(elf32, segments[..1][..0], address, size) == None;
    assert BytesAt(elf32, segments[..1], address, size) == HeldBytes(elf32, segments[0], address, size);
  }

  lemma ThirdEntry()
    ensures forall t <- TagsFor(0x2028) :: RepresentableTag(t, false)
    ensures |EncodeTags(false, TagsFor(0x2028))| == 80 && EncodeTags(false, TagsFor(0x2028))[40..46] == SIZE_FIELD
  {
    var tags := TagsFor(0x2028);
    var first, second, third := EncodeTag(false, tags[0]), EncodeTag(false, tags[1]), EncodeTag(false, tags[2]);
    assert third == Encode(10, 8) + Encode(6, 8);
    SixEncoded();
    hide EncodeTag, Encode;
    assert third[8..14] == Encode(6, 8)[..6];
    assert tags[1..][1..] == tags[2..] && tags[2..][1..] == tags[3..];
    var rest := EncodeTags(false, tags[3..]);
    assert EncodeTags(false, tags[2..]) == third + rest;
    assert EncodeTags(false, tags[1..]) == second + (third + rest);
    assert EncodeTags(false, tags) == first + (second + (third + rest));
    hide EncodeTags;
    ThirdOf(first, second, third, rest);
  }

  lemma ThirdOf(first: Bytes, second: Bytes, third: Bytes, rest: Bytes)
    requires |first| == |second| == |third| == 16
    ensures (first + (second + (third + rest)))[40..46] == third[8..14]
  {
  }

  lemma SixEncoded()
    ensures Encode(6, 8)[..6] == SIZE_FIELD
  {
    assert Encode(0, 4) == [0, 0, 0, 0] by {
      assert Encode(0, 2) == [0, 0];
    }
    assert Encode(0, 7) == [0, 0, 0] + Encode(0, 4);
    assert Encode(6, 8) == [6] + Encode(0, 7);
  }

  lemma ShiftedStrings64()
    ensures SegmentsFit(false, ShiftedSegments())
    ensures BytesAt(false, ShiftedSegments(), 0x2028, 6) == Some(SIZE_FIELD)
  {
    var segments, entries := ShiftedSegments(), EncodeTags(false, TagsFor(0x2028));
    ThirdEntry();
    ShiftedWellFormed(false);
    ShiftedPieces(false);
    assert segments[0].contents == Shifted();
    hide EncodeTags, Written, AllFit, TagsFor, BytesAt, Shifted;
    SliceInFront(entries, STRINGS, 40, 46);
    FirstHolds(false, segments, 0x2028, 6);
  }

  lemma ShiftedIsRead32(style: Style, utf8: Bytes -> bool)
    requires Modest(true, style) && utf8(A_SO) && utf8(SO)
    ensures Encodable(true, Shifted(), SHIFTED_SPANS, style)
    ensures Dynamic(EncodeSpans(true, Shifted(), SHIFTED_SPANS, style), utf8) == Ok(DynamicInfo([A_SO], Some(SO)))
  {
    hide *;
    ShiftedStrings32();
    FoundTable(STRINGS);
    NamesInStrings(0x2028, utf8);
    ShiftedMeans(true, style, utf8);
  }

  lemma ShiftedIsRead64(style: Style, utf8: Bytes -> bool)
    requires Modest(false, style) && utf8([])
    ensures Encodable(false, Shifted(), SHIFTED_SPANS, style)
    ensures Dynamic(EncodeSpans(false, Shifted(), SHIFTED_SPANS, style), utf8) == Ok(DynamicInfo([[]], Some([])))
  {
    hide *;
    ShiftedStrings64();
    FoundTable(SIZE_FIELD);
    NamesInSizeField(0x2028, utf8);
    ShiftedMeans(false, style, utf8);
  }

  lemma NamesInSizeField(strings: u64, utf8: Bytes -> bool)
    requires utf8([])
    ensures Interpret(Meaning(TagsFor(strings), EMPTY_SCAN), Ok(SIZE_FIELD), utf8) == Ok(DynamicInfo([[]], Some([])))
  {
    hide Interpret, Meaning, TagsFor, StringAt;
    NamesOfTable(SIZE_FIELD, strings, [], [], utf8);
  }

  lemma ShiftedMeans(elf32: bool, style: Style, utf8: Bytes -> bool)
    requires Modest(elf32, style)
    ensures Encodable(elf32, Shifted(), SHIFTED_SPANS, style) && SegmentsFit(elf32, ShiftedSegments())
    ensures Dynamic(EncodeSpans(elf32, Shifted(), SHIFTED_SPANS, style), utf8)
            == Interpret(Meaning(TagsFor(0x2028), EMPTY_SCAN),
                         AsTable(BytesAt(elf32, ShiftedSegments(), 0x2028, 6)), utf8)
  {
    ShiftedWellFormed(elf32);
    ShiftedFits(elf32, style);
    ShiftedCovers();
    hide Encodable, EncodeSpans, Dynamic, BytesAt, Interpret, Meaning, LastDynamicOf, SegmentsOf, Shifted, TagsFor;
    hide WellFormed, TagsOf, SegmentsFit, ShiftedSegments, AllWithin;
    SpansMean(elf32, Shifted(), SHIFTED_SPANS, style, ShiftedSegments(), 0x2028, utf8);
  }

  /**
   * The condition on the string range is needed: these images of one list of segments, far
   * below the size limit, are read to different names, because in ELF64 the named range lies
   * inside the entries.
   */
  lemma ClassMattersWhenEntriesShift(style32: Style, style64: Style, utf8: Bytes -> bool)
    requires Modest(true, style32) && Modest(false, style64) && utf8(A_SO) && utf8(SO) && utf8([])
    ensures Encodable(true, Shifted(), SHIFTED_SPANS, style32) && Encodable(false, Shifted(), SHIFTED_SPANS, style64)
    ensures Dynamic(EncodeSpans(true, Shifted(), SHIFTED_SPANS, style32), utf8) == Ok(DynamicInfo([A_SO], Some(SO)))
    ensures Dynamic(EncodeSpans(false, Shifted(), SHIFTED_SPANS, style64), utf8) == Ok(DynamicInfo([[]], Some([])))
  {
    hide *;
    ShiftedIsRead32(style32, utf8);
    ShiftedIsRead64(style64, utf8);
  }
}
