// Small artifacts and what the check reads out of them.
//
// An artifact is put together here from the tables of the ELF-64 and GNU symbol
// versioning layouts, with fields the check does not read filled arbitrarily.
// The theorem says that the check finds exactly the names put in.

module ElfArtifacts {
  import opened Bytes
  import opened ElfVersions

  // ---------------------------------------------------------------------
  // Parts of a file

  predicate Holds(data: seq<byte>, offset: nat, part: seq<byte>) {
    offset + |part| <= |data| && data[offset..offset + |part|] == part
  }

  lemma HoldsLast(front: seq<byte>, part: seq<byte>)
    ensures Holds(front + part, |front|, part)
  {
  }

  lemma HoldsLonger(data: seq<byte>, offset: nat, part: seq<byte>, more: seq<byte>)
    requires Holds(data, offset, part)
    ensures Holds(data + more, offset, part)
  {
    assert (data + more)[offset..offset + |part|] == data[offset..offset + |part|];
  }

  lemma HoldsInner(data: seq<byte>, offset: nat, part: seq<byte>, inner: nat, piece: seq<byte>)
    requires Holds(data, offset, part) && Holds(part, inner, piece)
    ensures Holds(data, offset + inner, piece)
  {
    forall k | 0 <= k < |piece| ensures data[offset + inner + k] == piece[k] {
      assert data[offset..offset + |part|][inner + k] == part[inner + k] == part[inner..inner + |piece|][k];
    }
  }

  function U(value: nat, width: nat): (field: seq<byte>)
    requires value < Power256(width)
    ensures |field| == width
  {
    ToLittleEndian(value, width)
  }

  lemma ReadsField(data: seq<byte>, offset: nat, value: nat, width: nat)
    requires value < Power256(width) && Holds(data, offset, U(value, width))
    ensures Field(data, true, offset, width) == Got(value)
  {
    LittleEndianRoundTrip(value, width);
  }

  lemma ReadsInner(data: seq<byte>, offset: nat, part: seq<byte>, inner: nat, value: nat, width: nat)
    requires value < Power256(width) && Holds(data, offset, part) && Holds(part, inner, U(value, width))
    ensures Field(data, true, offset + inner, width) == Got(value)
  {
    HoldsInner(data, offset, part, inner, U(value, width));
    ReadsField(data, offset + inner, value, width);
  }

  function Fill(n: nat, junk: byte): (filling: seq<byte>)
    ensures |filling| == n
  {
    seq(n, _ => junk)
  }

  // ---------------------------------------------------------------------
  // The tables

  function HeaderBytes(junk: byte): (part: seq<byte>)
    ensures |part| == 64
  {
    Powers();
    [0x7f, 69, 76, 70, 2, 1, 1] + Fill(9, junk) + (U(3, 2) + U(62, 2) + U(1, 4) + Fill(8, junk) + U(64, 8))
    + Fill(12, junk) + (U(64, 2) + U(56, 2) + U(2, 2) + Fill(6, junk))
  }

  function SegmentBytes(s: Segment, junk: byte): (part: seq<byte>)
    requires s.kind < Power256(4) && s.offset < Power256(8) && s.address < Power256(8) && s.bytes < Power256(8)
    ensures |part| == 56
  {
    U(s.kind, 4) + Fill(4, junk) + U(s.offset, 8) + U(s.address, 8) + Fill(8, junk) + U(s.bytes, 8) + Fill(16, junk)
  }

  function EntryBytes(tag: nat, value: nat): (part: seq<byte>)
    requires tag < Power256(8) && value < Power256(8)
    ensures |part| == 16
  {
    U(tag, 8) + U(value, 8)
  }

  function RequirementBytes(count: nat, next: nat): (part: seq<byte>)
    requires count < Power256(2) && next < Power256(4)
    ensures |part| == 16
  {
    Powers();
    U(1, 2) + U(count, 2) + U(0, 4) + U(16, 4) + U(next, 4)
  }

  function AuxiliaryBytes(name: nat, next: nat, junk: byte): (part: seq<byte>)
    requires name < Power256(4) && next < Power256(4)
    ensures |part| == 16
  {
    Fill(8, junk) + U(name, 4) + U(next, 4)
  }

  lemma HeaderParts(junk: byte)
    ensures var part := HeaderBytes(junk);
            && Power256(2) == 0x1_0000 && Power256(4) == 0x1_0000_0000 && Power256(8) == 0x1_0000_0000_0000_0000
            && part[..7] == [0x7f, 69, 76, 70, 2, 1, 1]
            && Holds(part, 16, U(3, 2)) && Holds(part, 18, U(62, 2)) && Holds(part, 20, U(1, 4))
            && Holds(part, 32, U(64, 8))
            && Holds(part, 52, U(64, 2)) && Holds(part, 54, U(56, 2)) && Holds(part, 56, U(2, 2))
  {
    Powers();
    hide ToLittleEndian, Power256, Fill;
    var part := HeaderBytes(junk);
    var front := [0x7f, 69, 76, 70, 2, 1, 1] + Fill(9, junk);
    var first := U(3, 2) + U(62, 2) + U(1, 4) + Fill(8, junk) + U(64, 8);
    var last := U(64, 2) + U(56, 2) + U(2, 2) + Fill(6, junk);
    assert part[16..40] == first && part[52..64] == last;
    assert Holds(first, 0, U(3, 2)) && Holds(first, 2, U(62, 2)) && Holds(first, 4, U(1, 4))
        && Holds(first, 16, U(64, 8));
    assert Holds(last, 0, U(64, 2)) && Holds(last, 2, U(56, 2)) && Holds(last, 4, U(2, 2));
    HoldsInner(part, 16, first, 0, U(3, 2));
    HoldsInner(part, 16, first, 2, U(62, 2));
    HoldsInner(part, 16, first, 4, U(1, 4));
    HoldsInner(part, 16, first, 16, U(64, 8));
    HoldsInner(part, 52, last, 0, U(64, 2));
    HoldsInner(part, 52, last, 2, U(56, 2));
    HoldsInner(part, 52, last, 4, U(2, 2));
  }

  lemma SegmentIsRead(data: seq<byte>, offset: nat, s: Segment, junk: byte)
    requires s.kind < Power256(4) && s.offset < Power256(8) && s.address < Power256(8) && s.bytes < Power256(8)
    requires Holds(data, offset, SegmentBytes(s, junk)) && s.offset + s.bytes <= |data|
    ensures ReadSegment(data, true, true, offset) == Got(s)
  {
    hide Field, U, Power256, Fill;
    var part := SegmentBytes(s, junk);
    assert Holds(part, 0, U(s.kind, 4)) && Holds(part, 8, U(s.offset, 8)) && Holds(part, 16, U(s.address, 8));
    assert Holds(part, 32, U(s.bytes, 8));
    ReadsInner(data, offset, part, 0, s.kind, 4);
    ReadsInner(data, offset, part, 8, s.offset, 8);
    ReadsInner(data, offset, part, 16, s.address, 8);
    ReadsInner(data, offset, part, 32, s.bytes, 8);
  }

  lemma EntryIsRead(data: seq<byte>, offset: nat, tag: nat, value: nat)
    requires tag < Power256(8) && value < Power256(8) && Holds(data, offset, EntryBytes(tag, value))
    ensures Field(data, true, offset, 8) == Got(tag) && Field(data, true, offset + 8, 8) == Got(value)
  {
    hide Field, U, Power256;
    var part := EntryBytes(tag, value);
    assert Holds(part, 0, U(tag, 8)) && Holds(part, 8, U(value, 8));
    ReadsInner(data, offset, part, 0, tag, 8);
    ReadsInner(data, offset, part, 8, value, 8);
  }

  lemma RequirementIsRead(data: seq<byte>, offset: nat, count: nat, next: nat)
    requires count < Power256(2) && next < Power256(4) && Holds(data, offset, RequirementBytes(count, next))
    ensures Field(data, true, offset, 2) == Got(1) && Field(data, true, offset + 2, 2) == Got(count)
    ensures Field(data, true, offset + 4, 4) == Got(0) && Field(data, true, offset + 8, 4) == Got(16)
    ensures Field(data, true, offset + 12, 4) == Got(next)
  {
    Powers();
    hide Field, U, Power256;
    var part := RequirementBytes(count, next);
    assert Holds(part, 0, U(1, 2)) && Holds(part, 2, U(count, 2)) && Holds(part, 4, U(0, 4));
    assert Holds(part, 8, U(16, 4)) && Holds(part, 12, U(next, 4));
    ReadsInner(data, offset, part, 0, 1, 2);
    ReadsInner(data, offset, part, 2, count, 2);
    ReadsInner(data, offset, part, 4, 0, 4);
    ReadsInner(data, offset, part, 8, 16, 4);
    ReadsInner(data, offset, part, 12, next, 4);
  }

  lemma AuxiliaryIsRead(data: seq<byte>, offset: nat, name: nat, next: nat, junk: byte)
    requires name < Power256(4) && next < Power256(4) && Holds(data, offset, AuxiliaryBytes(name, next, junk))
    ensures Field(data, true, offset + 8, 4) == Got(name) && Field(data, true, offset + 12, 4) == Got(next)
  {
    hide Field, U, Power256, Fill;
    var part := AuxiliaryBytes(name, next, junk);
    assert Holds(part, 8, U(name, 4)) && Holds(part, 12, U(next, 4));
    ReadsInner(data, offset, part, 8, name, 4);
    ReadsInner(data, offset, part, 12, next, 4);
  }

  // ---------------------------------------------------------------------
  // The artifact: one requirement naming x and y, and one naming z

  const BASE: nat := 0x400000

  // The parts of the file before the strings take 352 bytes.
  const STRINGS_AT: nat := 352

  predicate Name(text: seq<byte>) {
    0 !in text && |text| < 0x1000_0000
  }

  function Strings(x: seq<byte>, y: seq<byte>, z: seq<byte>): seq<byte> {
    [0] + x + [0] + y + [0] + z + [0]
  }

  function DynamicBytes(strings: nat, extra: nat): (part: seq<byte>)
    requires strings < 0x4000_0000 && extra < Power256(8)
    ensures |part| == 96
  {
    Powers();
    EntryBytes(1, extra) + EntryBytes(5, BASE + STRINGS_AT) + EntryBytes(10, strings)
    + EntryBytes(0x6FFFFFFE, BASE + 272) + EntryBytes(0x6FFFFFFF, 2) + EntryBytes(0, 0)
  }

  function VersionBytes(second: nat, third: nat, junk: byte): (part: seq<byte>)
    requires second < 0x4000_0000 && third < 0x4000_0000
    ensures |part| == 80
  {
    Powers();
    RequirementBytes(2, 48) + AuxiliaryBytes(1, 16, junk) + AuxiliaryBytes(second, 0, junk)
    + RequirementBytes(1, 0) + AuxiliaryBytes(third, 0, junk)
  }

  function LoadSegment(strings: nat): Segment {
    Segment(1, 0, BASE, STRINGS_AT + strings)
  }

  const DYNAMIC_SEGMENT: Segment := Segment(2, 176, BASE + 176, 96)

  function Front(strings: nat, second: nat, third: nat, junk: byte): (part: seq<byte>)
    requires strings < 0x4000_0000 && second < 0x4000_0000 && third < 0x4000_0000
    ensures |part| == STRINGS_AT
  {
    Powers();
    HeaderBytes(junk) + SegmentBytes(LoadSegment(strings), junk) + SegmentBytes(DYNAMIC_SEGMENT, junk)
    + DynamicBytes(strings, junk) + VersionBytes(second, third, junk)
  }

  function Artifact(x: seq<byte>, y: seq<byte>, z: seq<byte>, junk: byte): seq<byte>
    requires Name(x) && Name(y) && Name(z)
  {
    Front(|Strings(x, y, z)|, 2 + |x|, 3 + |x| + |y|, junk) + Strings(x, y, z)
  }

  lemma FrontParts(strings: nat, second: nat, third: nat, junk: byte)
    requires strings < 0x4000_0000 && second < 0x4000_0000 && third < 0x4000_0000
    ensures Power256(2) == 0x1_0000 && Power256(4) == 0x1_0000_0000 && Power256(8) == 0x1_0000_0000_0000_0000
    ensures var part := Front(strings, second, third, junk);
            && Holds(part, 0, HeaderBytes(junk))
            && Holds(part, 64, SegmentBytes(LoadSegment(strings), junk))
            && Holds(part, 120, SegmentBytes(DYNAMIC_SEGMENT, junk))
            && Holds(part, 176, DynamicBytes(strings, junk))
            && Holds(part, 272, VersionBytes(second, third, junk))
  {
    Powers();
    hide HeaderBytes, SegmentBytes, DynamicBytes, VersionBytes, Power256;
  }

  lemma DynamicParts(strings: nat, extra: nat)
    requires strings < 0x4000_0000 && extra < Power256(8)
    ensures Power256(8) == 0x1_0000_0000_0000_0000
    ensures var part := DynamicBytes(strings, extra);
            && Holds(part, 0, EntryBytes(1, extra)) && Holds(part, 16, EntryBytes(5, BASE + STRINGS_AT))
            && Holds(part, 32, EntryBytes(10, strings)) && Holds(part, 48, EntryBytes(0x6FFFFFFE, BASE + 272))
            && Holds(part, 64, EntryBytes(0x6FFFFFFF, 2)) && Holds(part, 80, EntryBytes(0, 0))
  {
    Powers();
    hide EntryBytes, Power256;
  }

  lemma VersionParts(second: nat, third: nat, junk: byte)
    requires second < 0x4000_0000 && third < 0x4000_0000
    ensures Power256(2) == 0x1_0000 && Power256(4) == 0x1_0000_0000
    ensures var part := VersionBytes(second, third, junk);
            && Holds(part, 0, RequirementBytes(2, 48)) && Holds(part, 16, AuxiliaryBytes(1, 16, junk))
            && Holds(part, 32, AuxiliaryBytes(second, 0, junk))
            && Holds(part, 48, RequirementBytes(1, 0)) && Holds(part, 64, AuxiliaryBytes(third, 0, junk))
  {
    Powers();
    hide RequirementBytes, AuxiliaryBytes, Power256;
  }

  lemma ArtifactParts(x: seq<byte>, y: seq<byte>, z: seq<byte>, junk: byte)
    requires Name(x) && Name(y) && Name(z)
    ensures Power256(2) == 0x1_0000 && Power256(4) == 0x1_0000_0000 && Power256(8) == 0x1_0000_0000_0000_0000
    ensures var data, strings := Artifact(x, y, z, junk), |Strings(x, y, z)|;
            && |data| == STRINGS_AT + strings && strings == 4 + |x| + |y| + |z|
            && Holds(data, 0, HeaderBytes(junk))
            && Holds(data, 64, SegmentBytes(LoadSegment(strings), junk))
            && Holds(data, 120, SegmentBytes(DYNAMIC_SEGMENT, junk))
            && Holds(data, 176, DynamicBytes(strings, junk))
            && Holds(data, 272, VersionBytes(2 + |x|, 3 + |x| + |y|, junk))
            && Holds(data, STRINGS_AT, Strings(x, y, z))
  {
    hide Front, HeaderBytes, SegmentBytes, DynamicBytes, VersionBytes, Power256, Holds;
    var text := Strings(x, y, z);
    FrontParts(|text|, 2 + |x|, 3 + |x| + |y|, junk);
    var front := Front(|text|, 2 + |x|, 3 + |x| + |y|, junk);
    HoldsLonger(front, 0, HeaderBytes(junk), text);
    HoldsLonger(front, 64, SegmentBytes(LoadSegment(|text|), junk), text);
    HoldsLonger(front, 120, SegmentBytes(DYNAMIC_SEGMENT, junk), text);
    HoldsLonger(front, 176, DynamicBytes(|text|, junk), text);
    HoldsLonger(front, 272, VersionBytes(2 + |x|, 3 + |x| + |y|, junk), text);
    HoldsLast(front, text);
  }

  // ---------------------------------------------------------------------
  // What is read

  function ImageOf(x: seq<byte>, y: seq<byte>, z: seq<byte>, junk: byte): Image
    requires Name(x) && Name(y) && Name(z)
  {
    Image(Artifact(x, y, z, junk), true, true, 62, [LoadSegment(|Strings(x, y, z)|), DYNAMIC_SEGMENT])
  }

  lemma HeaderIsRead(data: seq<byte>, junk: byte)
    requires Holds(data, 0, HeaderBytes(junk)) && |data| >= 176
    ensures data[..7] == [0x7f, 69, 76, 70, 2, 1, 1]
    ensures ReadHeader(data, true, true) == Got(Header(62, 64, 56, 2))
  {
    hide Field, U, Power256, HeaderBytes;
    var part := HeaderBytes(junk);
    HeaderParts(junk);
    assert data[..7] == data[0..64][..7] == part[..7];
    ReadsInner(data, 0, part, 16, 3, 2);
    ReadsInner(data, 0, part, 18, 62, 2);
    ReadsInner(data, 0, part, 20, 1, 4);
    ReadsInner(data, 0, part, 32, 64, 8);
    ReadsInner(data, 0, part, 52, 64, 2);
    ReadsInner(data, 0, part, 54, 56, 2);
    ReadsInner(data, 0, part, 56, 2, 2);
  }

  lemma ArtifactIsParsed(x: seq<byte>, y: seq<byte>, z: seq<byte>, junk: byte)
    requires Name(x) && Name(y) && Name(z)
    ensures Parse(Artifact(x, y, z, junk)) == Got(ImageOf(x, y, z, junk))
  {
    ArtifactParts(x, y, z, junk);
    hide Artifact, Strings, Holds, ReadHeader, ReadSegment, HeaderBytes, SegmentBytes, DynamicBytes, VersionBytes;
    hide Power256;
    var data, strings := Artifact(x, y, z, junk), |Strings(x, y, z)|;
    HeaderIsRead(data, junk);
    assert data[..4] == data[..7][..4] == ELF_MAGIC;
    assert data[4] == data[..7][4] && data[5] == data[..7][5] && data[6] == data[..7][6];
    SegmentIsRead(data, 64, LoadSegment(strings), junk);
    SegmentIsRead(data, 120, DYNAMIC_SEGMENT, junk);
    TwoSegments(data, LoadSegment(strings), DYNAMIC_SEGMENT);
  }

  lemma TwoSegments(data: seq<byte>, first: Segment, second: Segment)
    requires ReadSegment(data, true, true, 64) == Got(first) && ReadSegment(data, true, true, 120) == Got(second)
    ensures ReadSegments(data, true, true, 64, 56, 2) == Got([first, second])
  {
    hide ReadSegment;
    assert [second] + [] == [second] && [first] + [second] == [first, second];
    assert ReadSegments(data, true, true, 176, 56, 0) == Got([]);
    assert ReadSegments(data, true, true, 120, 56, 1) == Got([second] + []);
  }

  // One entry of the dynamic section.
  lemma DynamicStep(image: Image, segment: Segment, relative: nat, values: map<int, nat>, tag: nat, value: nat)
    requires image.wide && image.little && relative + 16 <= segment.bytes
    requires tag < 0x8000_0000_0000_0000 && value < Power256(8) && Power256(8) == 0x1_0000_0000_0000_0000
    requires Holds(image.data, segment.offset + relative, EntryBytes(tag, value))
    ensures DynamicFrom(image, segment, relative, values)
         == if tag == 0 then Got(values)
            else if tag !in {5, 10, 0x6FFFFFFE, 0x6FFFFFFF} then DynamicFrom(image, segment, relative + 16, values)
            else if tag in values && values[tag] != value then Malformed("ELF dynamic metadata conflicts")
            else DynamicFrom(image, segment, relative + 16, values[tag := value])
  {
    hide Field, EntryBytes, Power256, Holds;
    EntryIsRead(image.data, segment.offset + relative, tag, value);
  }

  ghost predicate Entries(data: seq<byte>, strings: nat, extra: nat) {
    && strings < 0x4000_0000 && extra < Power256(8) && Power256(8) == 0x1_0000_0000_0000_0000
    && Holds(data, 176, EntryBytes(1, extra)) && Holds(data, 192, EntryBytes(5, BASE + STRINGS_AT))
    && Holds(data, 208, EntryBytes(10, strings)) && Holds(data, 224, EntryBytes(0x6FFFFFFE, BASE + 272))
    && Holds(data, 240, EntryBytes(0x6FFFFFFF, 2)) && Holds(data, 256, EntryBytes(0, 0))
  }

  function Values(strings: nat): map<int, nat> {
    map[5 := BASE + STRINGS_AT, 10 := strings, 0x6FFFFFFE := BASE + 272, 0x6FFFFFFF := 2]
  }

  lemma SixEntries(image: Image, strings: nat, extra: nat)
    requires image.wide && image.little && Entries(image.data, strings, extra)
    ensures DynamicFrom(image, DYNAMIC_SEGMENT, 0, map[]) == Got(Values(strings))
  {
    hide DynamicFrom, Holds, EntryBytes, Power256;
    var s := DYNAMIC_SEGMENT;
    var v1: map<int, nat> := map[5 := BASE + STRINGS_AT];
    var v2 := v1[10 := strings];
    var v3 := v2[0x6FFFFFFE := BASE + 272];
    var v4 := v3[0x6FFFFFFF := 2];
    DynamicStep(image, s, 0, map[], 1, extra);
    DynamicStep(image, s, 16, map[], 5, BASE + STRINGS_AT);
    DynamicStep(image, s, 32, v1, 10, strings);
    DynamicStep(image, s, 48, v2, 0x6FFFFFFE, BASE + 272);
    DynamicStep(image, s, 64, v3, 0x6FFFFFFF, 2);
    DynamicStep(image, s, 80, v4, 0, 0);
    assert v4 == Values(strings);
  }

  lemma DynamicIsRead(x: seq<byte>, y: seq<byte>, z: seq<byte>, junk: byte)
    requires Name(x) && Name(y) && Name(z)
    ensures DynamicValues(ImageOf(x, y, z, junk)) == Got(Values(|Strings(x, y, z)|))
  {
    var image, strings := ImageOf(x, y, z, junk), |Strings(x, y, z)|;
    ArtifactParts(x, y, z, junk);
    hide Artifact, Strings, Holds, DynamicBytes, EntryBytes, Power256, DynamicFrom, Values;
    EntriesHold(image.data, strings, junk);
    SixEntries(image, strings, junk);
    OneDynamic(LoadSegment(strings));
    LoadedAddress(strings, DYNAMIC_SEGMENT.address, DYNAMIC_SEGMENT.bytes);
  }

  lemma EntriesHold(data: seq<byte>, strings: nat, extra: nat)
    requires strings < 0x4000_0000 && extra < Power256(8) && Power256(8) == 0x1_0000_0000_0000_0000
    requires Holds(data, 176, DynamicBytes(strings, extra))
    ensures Entries(data, strings, extra)
  {
    DynamicParts(strings, extra);
    hide DynamicBytes, EntryBytes, Holds, Power256;
    var part := DynamicBytes(strings, extra);
    HoldsInner(data, 176, part, 0, EntryBytes(1, extra));
    HoldsInner(data, 176, part, 16, EntryBytes(5, BASE + STRINGS_AT));
    HoldsInner(data, 176, part, 32, EntryBytes(10, strings));
    HoldsInner(data, 176, part, 48, EntryBytes(0x6FFFFFFE, BASE + 272));
    HoldsInner(data, 176, part, 64, EntryBytes(0x6FFFFFFF, 2));
    HoldsInner(data, 176, part, 80, EntryBytes(0, 0));
  }

  lemma OneDynamic(load: Segment)
    requires load.kind == 1
    ensures DynamicSegments([load, DYNAMIC_SEGMENT]) == [DYNAMIC_SEGMENT]
  {
    assert [load, DYNAMIC_SEGMENT][1..] == [DYNAMIC_SEGMENT] && [DYNAMIC_SEGMENT][1..] == [];
    assert DynamicSegments([DYNAMIC_SEGMENT]) == [DYNAMIC_SEGMENT];
  }

  lemma LoadedAddress(strings: nat, address: nat, size: nat)
    requires BASE <= address && address + size <= BASE + STRINGS_AT + strings
    ensures VirtualOffset([LoadSegment(strings), DYNAMIC_SEGMENT], address, size) == Got(address - BASE)
  {
  }

  lemma {:induction false} TerminatorIs(data: seq<byte>, begin: nat, end: nat, stop: nat)
    requires begin <= stop < end <= |data| && data[stop] == 0
    requires forall k :: begin <= k < stop ==> data[k] != 0
    ensures Terminator(data, begin, end) == Some(stop)
    decreases stop - begin
  {
    if begin < stop {
      TerminatorIs(data, begin + 1, end, stop);
    }
  }

  // A name that is followed by a zero.
  lemma StringIsRead(data: seq<byte>, table: Table, offset: nat, name: seq<byte>)
    requires 0 !in name && table.offset + table.bytes <= |data|
    requires offset + |name| < table.bytes && Holds(data, table.offset + offset, name + [0])
    ensures StringAt(data, table, offset) == Got(name)
  {
    var begin := table.offset + offset;
    var part := data[begin..begin + |name + [0]|];
    assert part == name + [0] && part[|name|] == data[begin + |name|] == 0;
    assert part[..|name|] == name == data[begin..begin + |name|];
    forall k | begin <= k < begin + |name| ensures data[k] != 0 {
      assert data[k] == part[k - begin] == name[k - begin];
    }
    TerminatorIs(data, begin, table.offset + table.bytes, begin + |name|);
  }

  ghost predicate NamesHold(data: seq<byte>, x: seq<byte>, y: seq<byte>, z: seq<byte>) {
    && |data| == STRINGS_AT + 4 + |x| + |y| + |z|
    && Holds(data, STRINGS_AT, [0]) && Holds(data, STRINGS_AT + 1, x + [0])
    && Holds(data, STRINGS_AT + 2 + |x|, y + [0]) && Holds(data, STRINGS_AT + 3 + |x| + |y|, z + [0])
  }

  lemma StringsParts(data: seq<byte>, x: seq<byte>, y: seq<byte>, z: seq<byte>)
    requires Holds(data, STRINGS_AT, Strings(x, y, z)) && |data| == STRINGS_AT + 4 + |x| + |y| + |z|
    ensures NamesHold(data, x, y, z)
  {
    hide Strings, Holds;
    var text := Strings(x, y, z);
    SameStrings(x, y, z);
    FourSlices([0], x + [0], y + [0], z + [0]);
    HoldsInner(data, STRINGS_AT, text, 0, [0]);
    HoldsInner(data, STRINGS_AT, text, 1, x + [0]);
    HoldsInner(data, STRINGS_AT, text, 2 + |x|, y + [0]);
    HoldsInner(data, STRINGS_AT, text, 3 + |x| + |y|, z + [0]);
  }

  lemma SameStrings(x: seq<byte>, y: seq<byte>, z: seq<byte>)
    ensures Strings(x, y, z) == [0] + (x + [0]) + (y + [0]) + (z + [0])
  {
    var (a, b, c) := ([0] + x, [0] + y, [0] + z);
    assert Strings(x, y, z) == a + b + c + [0];
  }

  lemma FourSlices(a: seq<byte>, b: seq<byte>, c: seq<byte>, d: seq<byte>)
    ensures var s := a + b + c + d;
            Holds(s, 0, a) && Holds(s, |a|, b) && Holds(s, |a| + |b|, c) && Holds(s, |a| + |b| + |c|, d)
  {
  }

  lemma IsLoaded(strings: nat, offset: nat, size: nat)
    requires offset + size <= STRINGS_AT + strings
    ensures Loaded([LoadSegment(strings), DYNAMIC_SEGMENT], offset, size)
  {
    assert LoadSegment(strings) in [LoadSegment(strings), DYNAMIC_SEGMENT];
  }

  // The five entries of the version table.
  ghost predicate VersionsHold(data: seq<byte>, second: nat, third: nat, junk: byte) {
    && second < 0x4000_0000 && third < 0x4000_0000
    && Power256(2) == 0x1_0000 && Power256(4) == 0x1_0000_0000
    && Holds(data, 272, RequirementBytes(2, 48)) && Holds(data, 288, AuxiliaryBytes(1, 16, junk))
    && Holds(data, 304, AuxiliaryBytes(second, 0, junk))
    && Holds(data, 320, RequirementBytes(1, 0)) && Holds(data, 336, AuxiliaryBytes(third, 0, junk))
  }

  lemma VersionsAreHeld(data: seq<byte>, second: nat, third: nat, junk: byte)
    requires second < 0x4000_0000 && third < 0x4000_0000 && Holds(data, 272, VersionBytes(second, third, junk))
    ensures VersionsHold(data, second, third, junk)
  {
    VersionParts(second, third, junk);
    hide VersionBytes, RequirementBytes, AuxiliaryBytes, Holds, Power256;
    var part := VersionBytes(second, third, junk);
    HoldsInner(data, 272, part, 0, RequirementBytes(2, 48));
    HoldsInner(data, 272, part, 16, AuxiliaryBytes(1, 16, junk));
    HoldsInner(data, 272, part, 32, AuxiliaryBytes(second, 0, junk));
    HoldsInner(data, 272, part, 48, RequirementBytes(1, 0));
    HoldsInner(data, 272, part, 64, AuxiliaryBytes(third, 0, junk));
  }

  // An auxiliary that names `name`.
  lemma AuxiliaryLink(image: Image, table: Table, offset: nat, at: nat, next: nat, name: seq<byte>, junk: byte)
    requires image.little && Loaded(image.segments, offset, 16)
    requires at < Power256(4) && next < Power256(4) && Holds(image.data, offset, AuxiliaryBytes(at, next, junk))
    requires StringAt(image.data, table, at) == Got(name)
    ensures ReadAuxiliary(image, table, offset)
         == if VersionOf(name).Got? then Got(Link(VersionOf(name).value, next)) else TooManyDigits
  {
    hide Field, AuxiliaryBytes, Holds, Power256, StringAt, VersionOf, Loaded;
    AuxiliaryIsRead(image.data, offset, at, next, junk);
    VersionOrTooMany(name);
  }

  lemma VersionOrTooMany(name: seq<byte>)
    ensures VersionOf(name).Got? || VersionOf(name).TooManyDigits?
  {
  }

  lemma RequirementEntry(image: Image, table: Table, offset: nat, count: nat, next: nat)
    requires image.little && Loaded(image.segments, offset, 16)
    requires 0 < count < Power256(2) && next < Power256(4) && Holds(image.data, offset, RequirementBytes(count, next))
    requires StringAt(image.data, table, 0).Got?
    ensures ReadRequirement(image, table, offset) == Got(Requirement(count, 16, next))
  {
    hide Field, RequirementBytes, Holds, Power256, StringAt, Loaded;
    RequirementIsRead(image.data, offset, count, next);
  }

  // Two results, of which the first failure decides.
  function Both(a: Read<set<Version>>, b: Read<set<Version>>): Read<set<Version>> {
    if !a.Got? then a else if !b.Got? then b else Got(a.value + b.value)
  }

  lemma ChainOfTwo(read: Reader, offset: nat, next: nat, a: Read<set<Version>>, b: Read<set<Version>>)
    requires next >= 16 && (a.Got? || a.TooManyDigits?) && (b.Got? || b.TooManyDigits?)
    requires read(offset) == if a.Got? then Got(Link(a.value, next)) else TooManyDigits
    requires Chain(read, offset + next, 1) == b
    ensures Chain(read, offset, 2) == Both(a, b)
  {
  }

  lemma ChainOfOne(read: Reader, offset: nat, next: nat, a: Read<set<Version>>)
    requires a.Got? || a.TooManyDigits?
    requires read(offset) == if a.Got? then Got(Link(a.value, next)) else TooManyDigits
    ensures Chain(read, offset, 1) == a
  {
  }

  lemma LinkOf(image: Image, table: Table, offset: nat, count: nat, next: nat, a: Read<set<Version>>)
    requires count > 0 && (a.Got? || a.TooManyDigits?)
    requires ReadRequirement(image, table, offset) == Got(Requirement(count, 16, next))
    requires Chain(Auxiliaries(image, table), offset + 16, count) == a
    ensures RequirementsOf(image, table)(offset) == if a.Got? then Got(Link(a.value, next)) else TooManyDigits
  {
    hide ReadRequirement, Chain;
  }

  lemma WalkIsFound(x: seq<byte>, y: seq<byte>, z: seq<byte>, junk: byte)
    requires Name(x) && Name(y) && Name(z)
    ensures var image := ImageOf(x, y, z, junk);
            && InFile(image.segments, |image.data|)
            && WalkOf(image) == Got(Requirements(Table(STRINGS_AT, |Strings(x, y, z)|), 272, 2))
  {
    var strings := |Strings(x, y, z)|;
    ArtifactParts(x, y, z, junk);
    hide Artifact, Strings, Holds, DynamicValues;
    DynamicIsRead(x, y, z, junk);
    LoadedAddress(strings, BASE + STRINGS_AT, strings);
    LoadedAddress(strings, BASE + 272, 16);
  }

  lemma TablesHold(x: seq<byte>, y: seq<byte>, z: seq<byte>, junk: byte)
    requires Name(x) && Name(y) && Name(z)
    ensures NamesHold(Artifact(x, y, z, junk), x, y, z)
    ensures VersionsHold(Artifact(x, y, z, junk), 2 + |x|, 3 + |x| + |y|, junk)
  {
    var data := Artifact(x, y, z, junk);
    assert Holds(data, STRINGS_AT, Strings(x, y, z)) && |data| == STRINGS_AT + 4 + |x| + |y| + |z|
           && Holds(data, 272, VersionBytes(2 + |x|, 3 + |x| + |y|, junk)) by {
      ArtifactParts(x, y, z, junk);
    }
    hide *;
    StringsParts(data, x, y, z);
    VersionsAreHeld(data, 2 + |x|, 3 + |x| + |y|, junk);
  }

  // The names are found, whatever they are and whatever fills the rest.
  lemma NamesAreFound(x: seq<byte>, y: seq<byte>, z: seq<byte>, junk: byte)
    requires Name(x) && Name(y) && Name(z)
    ensures Inspected(Artifact(x, y, z, junk))
    ensures RequiredVersions(Parse(Artifact(x, y, z, junk)).value)
         == Both(Both(VersionOf(x), VersionOf(y)), VersionOf(z))
  {
    hide Parse, WalkOf, Chain, VersionOf, Artifact, NamesHold, VersionsHold;
    ArtifactIsParsed(x, y, z, junk);
    WalkIsFound(x, y, z, junk);
    TablesHold(x, y, z, junk);
    ChainIsRead(ImageOf(x, y, z, junk), Table(STRINGS_AT, |Strings(x, y, z)|), x, y, z, junk);
  }

  lemma ChainIsRead(image: Image, table: Table, x: seq<byte>, y: seq<byte>, z: seq<byte>, junk: byte)
    requires Name(x) && Name(y) && Name(z) && image.little
    requires table == Table(STRINGS_AT, 4 + |x| + |y| + |z|)
    requires image.segments == [LoadSegment(table.bytes), DYNAMIC_SEGMENT]
    requires NamesHold(image.data, x, y, z) && VersionsHold(image.data, 2 + |x|, 3 + |x| + |y|, junk)
    ensures Chain(RequirementsOf(image, table), 272, 2) == Both(Both(VersionOf(x), VersionOf(y)), VersionOf(z))
  {
    hide Chain, VersionOf, Holds, RequirementBytes, AuxiliaryBytes, Power256, StringAt, ReadAuxiliary;
    hide ReadRequirement, Loaded;
    VersionOrTooMany(x);
    VersionOrTooMany(y);
    VersionOrTooMany(z);
    FirstRequirement(image, table, x, y, z, junk);
    SecondRequirement(image, table, x, y, z, junk);
    ChainOfOne(RequirementsOf(image, table), 320, 0, VersionOf(z));
    ChainOfTwo(RequirementsOf(image, table), 272, 48, Both(VersionOf(x), VersionOf(y)), VersionOf(z));
  }

  lemma FirstRequirement(image: Image, table: Table, x: seq<byte>, y: seq<byte>, z: seq<byte>, junk: byte)
    requires Name(x) && Name(y) && Name(z) && image.little
    requires table == Table(STRINGS_AT, 4 + |x| + |y| + |z|)
    requires image.segments == [LoadSegment(table.bytes), DYNAMIC_SEGMENT]
    requires NamesHold(image.data, x, y, z) && VersionsHold(image.data, 2 + |x|, 3 + |x| + |y|, junk)
    ensures var a := Both(VersionOf(x), VersionOf(y));
            RequirementsOf(image, table)(272) == if a.Got? then Got(Link(a.value, 48)) else TooManyDigits
  {
    hide Chain, VersionOf, Holds, RequirementBytes, AuxiliaryBytes, Power256, StringAt, ReadAuxiliary;
    hide ReadRequirement, Loaded;
    VersionOrTooMany(x);
    VersionOrTooMany(y);
    IsLoaded(table.bytes, 272, 16);
    IsLoaded(table.bytes, 288, 16);
    IsLoaded(table.bytes, 304, 16);
    EmptyString(image.data, table);
    StringIsRead(image.data, table, 1, x);
    StringIsRead(image.data, table, 2 + |x|, y);
    RequirementEntry(image, table, 272, 2, 48);
    AuxiliaryLink(image, table, 288, 1, 16, x, junk);
    AuxiliaryLink(image, table, 304, 2 + |x|, 0, y, junk);
    var read := Auxiliaries(image, table);
    assert read(288) == ReadAuxiliary(image, table, 288) && read(304) == ReadAuxiliary(image, table, 304);
    ChainOfOne(read, 304, 0, VersionOf(y));
    ChainOfTwo(read, 288, 16, VersionOf(x), VersionOf(y));
    LinkOf(image, table, 272, 2, 48, Both(VersionOf(x), VersionOf(y)));
  }

  lemma SecondRequirement(image: Image, table: Table, x: seq<byte>, y: seq<byte>, z: seq<byte>, junk: byte)
    requires Name(x) && Name(y) && Name(z) && image.little
    requires table == Table(STRINGS_AT, 4 + |x| + |y| + |z|)
    requires image.segments == [LoadSegment(table.bytes), DYNAMIC_SEGMENT]
    requires NamesHold(image.data, x, y, z) && VersionsHold(image.data, 2 + |x|, 3 + |x| + |y|, junk)
    ensures var a := VersionOf(z);
            RequirementsOf(image, table)(320) == if a.Got? then Got(Link(a.value, 0)) else TooManyDigits
  {
    hide Chain, VersionOf, Holds, RequirementBytes, AuxiliaryBytes, Power256, StringAt, ReadAuxiliary;
    hide ReadRequirement, Loaded;
    VersionOrTooMany(z);
    IsLoaded(table.bytes, 320, 16);
    IsLoaded(table.bytes, 336, 16);
    EmptyString(image.data, table);
    StringIsRead(image.data, table, 3 + |x| + |y|, z);
    RequirementEntry(image, table, 320, 1, 0);
    AuxiliaryLink(image, table, 336, 3 + |x| + |y|, 0, z, junk);
    var read := Auxiliaries(image, table);
    assert read(336) == ReadAuxiliary(image, table, 336);
    ChainOfOne(read, 336, 0, VersionOf(z));
    LinkOf(image, table, 320, 1, 0, VersionOf(z));
  }

  lemma EmptyString(data: seq<byte>, table: Table)
    requires table.bytes > 0 && table.offset + table.bytes <= |data| && Holds(data, table.offset, [0])
    ensures StringAt(data, table, 0) == Got([])
  {
    assert [] + [0] == [0];
    StringIsRead(data, table, 0, []);
  }

  // An artifact that names GLIBC_a.b requires exactly the version a.b.
  lemma VersionIsFound(a: nat, b: nat, junk: byte)
    requires ShortEnough(DigitsOf(a)) && ShortEnough(DigitsOf(b))
    ensures Name(TwoParts(DigitsOf(a), DigitsOf(b)))
    ensures var data := Artifact(TwoParts(DigitsOf(a), DigitsOf(b)), [], [], junk);
            WellFormed(data) && RequiredVersions(Parse(data).value) == Got({Version(a, b, 0)})
  {
    hide Artifact, DigitsOf, Decimal, VersionOf, TwoParts, Parse, RequiredVersions, AllDigits;
    DecimalReads(a);
    DecimalReads(b);
    var name := TwoParts(DigitsOf(a), DigitsOf(b));
    NameOfDigits(DigitsOf(a), DigitsOf(b));
    TwoPartName(DigitsOf(a), DigitsOf(b));
    EmptyName();
    NamesAreFound(name, [], [], junk);
    assert {Version(a, b, 0)} + {} + {} == {Version(a, b, 0)};
  }

  lemma NameOfDigits(a: seq<byte>, b: seq<byte>)
    requires Component(a) && Component(b) && ShortEnough(a) && ShortEnough(b)
    ensures Name(TwoParts(a, b))
  {
  }

  lemma EmptyName()
    ensures VersionOf([]) == Got({})
  {
  }
}
