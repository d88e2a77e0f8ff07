// Mach-O images written from their parts, with anything at all in the fields
// that the parser of scripts/package_xemu_macos_runtime.py does not read, and
// what the parser finds in them.

module MachOImages {
  import opened Bytes
  import opened MachO

  // ---------------------------------------------------------------------
  // Load commands

  datatype Command = Uuid(payload: seq<byte>) | Other(kind: nat, body: seq<byte>)

  predicate Encodable(c: Command) {
    match c
    case Uuid(payload) => |payload| == 16
    case Other(kind, body) => kind != 0x1B && kind < 0x1_0000_0000 && |body| < 0x1000_0000
  }

  function KindOf(c: Command): nat {
    if c.Uuid? then 0x1B else c.kind
  }

  function BodyOf(c: Command): seq<byte> {
    if c.Uuid? then c.payload else c.body
  }

  function Little32(value: nat): (field: seq<byte>)
    requires value < 0x1_0000_0000
    ensures |field| == 4
  {
    Powers();
    ToLittleEndian(value, 4)
  }

  function BigField(value: nat, width: nat): (field: seq<byte>)
    requires width == 4 || width == 8
    requires value < if width == 4 then 0x1_0000_0000 else 0x1_0000_0000_0000_0000
    ensures |field| == width
  {
    Powers();
    ToBigEndian(value, width)
  }

  // The command, its size and its body.
  function CommandBytes(c: Command): (bytes: seq<byte>)
    requires Encodable(c)
    ensures |bytes| == 8 + |BodyOf(c)|
  {
    Little32(KindOf(c)) + Little32(8 + |BodyOf(c)|) + BodyOf(c)
  }

  function AllBytes(commands: seq<Command>): seq<byte>
    requires forall i :: 0 <= i < |commands| ==> Encodable(commands[i])
  {
    if commands == [] then [] else CommandBytes(commands[0]) + AllBytes(commands[1..])
  }

  // Where the payloads of the UUID commands are, when the commands begin at
  // `position`.
  function Places(commands: seq<Command>, position: nat): seq<nat> {
    if commands == [] then []
    else (if commands[0].Uuid? then [position + 8] else [])
         + Places(commands[1..], position + 8 + |BodyOf(commands[0])|)
  }

  lemma Little32Reads(data: seq<byte>, before: seq<byte>, value: nat, after: seq<byte>)
    requires value < 0x1_0000_0000 && data == before + Little32(value) + after
    ensures Little(data, |before|) == Ok(value)
  {
    Powers();
    LittleEndianRoundTrip(value, 4);
    assert data[|before|..|before| + 4] == Little32(value);
  }

  lemma BigReads(data: seq<byte>, before: seq<byte>, value: nat, width: nat, after: seq<byte>)
    requires width == 4 || width == 8
    requires value < if width == 4 then 0x1_0000_0000 else 0x1_0000_0000_0000_0000
    requires data == before + BigField(value, width) + after
    ensures Big(data, |before|, width) == Ok(value)
  {
    Powers();
    BigEndianRoundTrip(value, width);
    assert data[|before|..|before| + width] == BigField(value, width);
  }

  lemma CommandHeaderReads(data: seq<byte>, before: seq<byte>, c: Command, after: seq<byte>)
    requires Encodable(c) && data == before + CommandBytes(c) + after
    ensures Little(data, |before|) == Ok(KindOf(c)) && Little(data, |before| + 4) == Ok(8 + |BodyOf(c)|)
  {
    hide Little, Little32;
    var kind, size := Little32(KindOf(c)), Little32(8 + |BodyOf(c)|);
    assert data == before + kind + (size + BodyOf(c) + after);
    Little32Reads(data, before, KindOf(c), size + BodyOf(c) + after);
    assert data == (before + kind) + size + (BodyOf(c) + after);
    Little32Reads(data, before + kind, 8 + |BodyOf(c)|, BodyOf(c) + after);
  }

  // The walk finds exactly the UUID payloads.
  lemma {:induction false} PayloadsAreFound(data: seq<byte>, before: seq<byte>, commands: seq<Command>,
                                            after: seq<byte>)
    requires forall i :: 0 <= i < |commands| ==> Encodable(commands[i])
    requires data == before + AllBytes(commands) + after
    ensures Commands(data, |before|, |before| + |AllBytes(commands)|, |commands|) == Ok(Places(commands, |before|))
    decreases |commands|
  {
    hide Little, CommandBytes;
    if commands != [] {
      var first, rest := CommandBytes(commands[0]), AllBytes(commands[1..]);
      assert data == before + first + (rest + after);
      CommandHeaderReads(data, before, commands[0], rest + after);
      assert data == (before + first) + rest + after;
      PayloadsAreFound(data, before + first, commands[1..], after);
      assert |AllBytes(commands)| == |first| + |rest|;
      CommandIsWalked(data, |before|, |before| + |AllBytes(commands)|, commands[0], |commands| - 1,
                      Places(commands[1..], |before + first|));
    }
  }

  lemma CommandIsWalked(data: seq<byte>, position: nat, end: nat, c: Command, others: nat, found: seq<nat>)
    requires Encodable(c) && position + 8 + |BodyOf(c)| <= end
    requires Little(data, position) == Ok(KindOf(c)) && Little(data, position + 4) == Ok(8 + |BodyOf(c)|)
    requires Commands(data, position + 8 + |BodyOf(c)|, end, others) == Ok(found)
    ensures Commands(data, position, end, others + 1) == Ok((if c.Uuid? then [position + 8] else []) + found)
  {
    hide Little;
    assert [] + found == found;
  }

  // A UUID command of another size, a command shorter than its own header and
  // one that leaves the area are refused.
  lemma BadCommandIsRefused(data: seq<byte>, before: seq<byte>, kind: nat, size: nat, after: seq<byte>, end: nat,
                            count: nat)
    requires kind < 0x1_0000_0000 && size < 0x1_0000_0000 && count > 0
    requires data == before + Little32(kind) + Little32(size) + after
    requires (kind == 0x1B && size != 24) || size < 8 || |before| + size > end
    ensures Commands(data, |before|, end, count).Error?
  {
    hide Little, Little32;
    assert data == before + Little32(kind) + (Little32(size) + after);
    Little32Reads(data, before, kind, Little32(size) + after);
    Little32Reads(data, before + Little32(kind), size, after);
  }

  // ---------------------------------------------------------------------
  // One image

  datatype Image = Image(cpu: nat, kinds: seq<byte>, flags: seq<byte>, commands: seq<Command>, contents: seq<byte>)

  predicate Writable(m: Image) {
    && m.cpu < 0x1_0000_0000 && |m.kinds| == 8 && |m.flags| == 8 && |m.commands| < 0x1_0000_0000
    && (forall i :: 0 <= i < |m.commands| ==> Encodable(m.commands[i]))
    && |AllBytes(m.commands)| < 0x1_0000_0000
  }

  function Header(m: Image): (bytes: seq<byte>)
    requires Writable(m)
    ensures |bytes| == 32
  {
    Little32(0xFEEDFACF) + Little32(m.cpu) + m.kinds + Little32(|m.commands|) + Little32(|AllBytes(m.commands)|)
    + m.flags
  }

  function ImageBytes(m: Image): (bytes: seq<byte>)
    requires Writable(m)
    ensures |bytes| == 32 + |AllBytes(m.commands)| + |m.contents|
  {
    Header(m) + AllBytes(m.commands) + m.contents
  }

  lemma HeaderReads(data: seq<byte>, before: seq<byte>, m: Image, after: seq<byte>)
    requires Writable(m) && data == before + Header(m) + after
    ensures Little(data, |before|) == Ok(0xFEEDFACF) && Little(data, |before| + 4) == Ok(m.cpu)
    ensures Little(data, |before| + 16) == Ok(|m.commands|)
    ensures Little(data, |before| + 20) == Ok(|AllBytes(m.commands)|)
  {
    hide Little, Little32, AllBytes;
    var magic, cpu, count := Little32(0xFEEDFACF), Little32(m.cpu), Little32(|m.commands|);
    var size := Little32(|AllBytes(m.commands)|);
    HeaderField(data, before, m, after, [], 0xFEEDFACF, cpu + m.kinds + count + size + m.flags);
    HeaderField(data, before, m, after, magic, m.cpu, m.kinds + count + size + m.flags);
    HeaderField(data, before, m, after, magic + cpu + m.kinds, |m.commands|, size + m.flags);
    HeaderField(data, before, m, after, magic + cpu + m.kinds + count, |AllBytes(m.commands)|, m.flags);
  }

  lemma HeaderField(data: seq<byte>, before: seq<byte>, m: Image, after: seq<byte>, front: seq<byte>, value: nat,
                    back: seq<byte>)
    requires Writable(m) && data == before + Header(m) + after
    requires value < 0x1_0000_0000 && Header(m) == front + Little32(value) + back
    ensures Little(data, |before| + |front|) == Ok(value)
  {
    hide Little, Little32, Header, AllBytes;
    assert data == (before + front) + Little32(value) + (back + after);
    Little32Reads(data, before + front, value, back + after);
  }

  // In a slice that holds an image, the UUID is found exactly when there is
  // just one command for it.
  lemma SliceUuidIsFound(data: seq<byte>, before: seq<byte>, m: Image, after: seq<byte>, architecture: Architecture)
    requires Writable(m) && data == before + ImageBytes(m) + after
    ensures var found := SliceUuid(data, Slice(architecture, |before|, |ImageBytes(m)|));
            var places := Places(m.commands, |before| + 32);
            if |places| == 1 then found == Ok(places[0]) else found.Error?
  {
    hide Little, Header, AllBytes, Commands, Places;
    var rest := AllBytes(m.commands) + m.contents + after;
    assert data == before + Header(m) + rest;
    HeaderReads(data, before, m, rest);
    assert data == (before + Header(m)) + AllBytes(m.commands) + (m.contents + after);
    PayloadsAreFound(data, before + Header(m), m.commands, m.contents + after);
  }

  lemma {:induction false} PlacesHold(data: seq<byte>, before: seq<byte>, commands: seq<Command>, after: seq<byte>,
                                      k: nat)
    requires forall i :: 0 <= i < |commands| ==> Encodable(commands[i])
    requires data == before + AllBytes(commands) + after && k < |commands| && commands[k].Uuid?
    requires forall i :: 0 <= i < |commands| && i != k ==> !commands[i].Uuid?
    ensures |Places(commands, |before|)| == 1
    ensures var at := Places(commands, |before|)[0];
            at + 16 <= |before| + |AllBytes(commands)| <= |data| && data[at..at + 16] == commands[k].payload
    decreases |commands|
  {
    hide CommandBytes;
    var first, rest := CommandBytes(commands[0]), AllBytes(commands[1..]);
    assert data == before + first + (rest + after);
    assert |AllBytes(commands)| == |first| + |rest|;
    var others := Places(commands[1..], |before + first|);
    assert Places(commands, |before|) == (if commands[0].Uuid? then [|before| + 8] else []) + others;
    if k > 0 {
      assert data == (before + first) + rest + after;
      PlacesHold(data, before + first, commands[1..], after, k - 1);
      assert [] + others == others;
    } else {
      NoPlaces(commands[1..], |before + first|);
      PayloadBehindHeader(data, before, commands[0], rest + after);
    }
  }

  lemma PayloadBehindHeader(data: seq<byte>, before: seq<byte>, c: Command, after: seq<byte>)
    requires Encodable(c) && c.Uuid? && data == before + CommandBytes(c) + after
    ensures data[|before| + 8..|before| + 24] == c.payload
  {
    hide Little32;
    var header := Little32(0x1B) + Little32(24);
    assert data == (before + header) + c.payload + after;
  }

  lemma {:induction false} NoPlaces(commands: seq<Command>, position: nat)
    requires forall i :: 0 <= i < |commands| ==> !commands[i].Uuid?
    ensures Places(commands, position) == []
  {
    if commands != [] {
      NoPlaces(commands[1..], position + 8 + |BodyOf(commands[0])|);
    }
  }

  // A thin image of either architecture with one UUID command: that UUID, and
  // nothing else, is found. Any other processor is refused.
  lemma ThinImageIsRead(m: Image, k: nat)
    requires Writable(m) && k < |m.commands| && m.commands[k].Uuid?
    requires forall i :: 0 <= i < |m.commands| && i != k ==> !m.commands[i].Uuid?
    ensures m.cpu == 0x0100000C ==> Uuids(ImageBytes(m)) == Ok([(Arm64, m.commands[k].payload)])
    ensures m.cpu == 0x01000007 ==> Uuids(ImageBytes(m)) == Ok([(X86, m.commands[k].payload)])
    ensures m.cpu != 0x0100000C && m.cpu != 0x01000007 ==> Uuids(ImageBytes(m)).Error?
  {
    hide Header, AllBytes, Commands, Places, SliceUuid;
    var data := ImageBytes(m);
    ThinSlice(m);
    if m.cpu == 0x0100000C || m.cpu == 0x01000007 {
      var architecture := if m.cpu == 0x0100000C then Arm64 else X86;
      assert data == [] + ImageBytes(m) + [];
      SliceUuidIsFound(data, [], m, [], architecture);
      assert data == Header(m) + AllBytes(m.commands) + m.contents;
      PlacesHold(data, Header(m), m.commands, m.contents, k);
      OneSlice(data, architecture, Places(m.commands, 32)[0]);
    }
  }

  lemma ThinSlice(m: Image)
    requires Writable(m)
    ensures Slices(ImageBytes(m))
         == if m.cpu == 0x0100000C then Ok([Slice(Arm64, 0, |ImageBytes(m)|)])
            else if m.cpu == 0x01000007 then Ok([Slice(X86, 0, |ImageBytes(m)|)])
            else Error("CPU type differs")
  {
    hide Header, AllBytes;
    var data := ImageBytes(m);
    assert data == [] + Header(m) + (AllBytes(m.commands) + m.contents);
    HeaderReads(data, [], m, AllBytes(m.commands) + m.contents);
  }

  lemma OneSlice(data: seq<byte>, architecture: Architecture, at: nat)
    requires Slices(data) == Ok([Slice(architecture, 0, |data|)]) && at + 16 <= |data|
    requires SliceUuid(data, Slice(architecture, 0, |data|)) == Ok(at)
    ensures Uuids(data) == Ok([(architecture, data[at..at + 16])])
  {
    hide Slices, SliceUuid;
    var slices := [Slice(architecture, 0, |data|)];
    assert slices[1..] == [] && SliceUuids(data, []) == Ok([]);
    assert [Located(architecture, at)] + [] == [Located(architecture, at)];
    assert SliceUuids(data, slices) == Ok([Located(architecture, at)]);
    assert UuidOffsets(data) == Ok([Located(architecture, at)]);
    assert Uuids(data).value == [(architecture, data[at..at + 16])];
  }

  // ---------------------------------------------------------------------
  // Universal files

  datatype Entry = Entry(cpu: nat, subtype: seq<byte>, offset: nat, size: nat, align: seq<byte>)

  predicate FitsTable(e: Entry, wide: bool) {
    && e.cpu < 0x1_0000_0000 && |e.subtype| == 4
    && e.offset < (if wide then 0x1_0000_0000_0000_0000 else 0x1_0000_0000)
    && e.size < (if wide then 0x1_0000_0000_0000_0000 else 0x1_0000_0000)
    && |e.align| == (if wide then 8 else 4)
  }

  function EntryBytes(e: Entry, wide: bool): (bytes: seq<byte>)
    requires FitsTable(e, wide)
    ensures |bytes| == if wide then 32 else 20
  {
    var width := if wide then 8 else 4;
    BigField(e.cpu, 4) + e.subtype + BigField(e.offset, width) + BigField(e.size, width) + e.align
  }

  function TableBytes(entries: seq<Entry>, wide: bool): (bytes: seq<byte>)
    requires forall i :: 0 <= i < |entries| ==> FitsTable(entries[i], wide)
    ensures |bytes| == |entries| * (if wide then 32 else 20)
  {
    if entries == [] then [] else EntryBytes(entries[0], wide) + TableBytes(entries[1..], wide)
  }

  // The entry names a known processor, and its slice lies behind the table
  // and inside the file and has room for a header.
  predicate GoodEntry(e: Entry, tableEnd: nat, length: nat) {
    && (e.cpu == 0x0100000C || e.cpu == 0x01000007)
    && tableEnd <= e.offset && 32 <= e.size && e.offset + e.size <= length
  }

  function SliceOf(e: Entry): Slice {
    Slice(if e.cpu == 0x0100000C then Arm64 else X86, e.offset, e.size)
  }

  function SlicesOf(entries: seq<Entry>): (slices: seq<Slice>)
    ensures |slices| == |entries|
    ensures forall i :: 0 <= i < |entries| ==> slices[i] == SliceOf(entries[i])
  {
    if entries == [] then [] else [SliceOf(entries[0])] + SlicesOf(entries[1..])
  }

  lemma EntryIsRead(data: seq<byte>, before: seq<byte>, e: Entry, wide: bool, after: seq<byte>, tableEnd: nat)
    requires FitsTable(e, wide) && data == before + EntryBytes(e, wide) + after
    ensures var read := FatEntry(data, wide, tableEnd, |before|);
            if GoodEntry(e, tableEnd, |data|) then read == Ok(SliceOf(e)) else read.Error?
  {
    hide Big, BigField;
    var width := if wide then 8 else 4;
    var cpu, offset, size := BigField(e.cpu, 4), BigField(e.offset, width), BigField(e.size, width);
    assert data == before + cpu + (e.subtype + offset + size + e.align + after);
    BigReads(data, before, e.cpu, 4, e.subtype + offset + size + e.align + after);
    assert data == (before + cpu + e.subtype) + offset + (size + e.align + after);
    BigReads(data, before + cpu + e.subtype, e.offset, width, size + e.align + after);
    assert data == (before + cpu + e.subtype + offset) + size + (e.align + after);
    BigReads(data, before + cpu + e.subtype + offset, e.size, width, e.align + after);
  }

  lemma {:induction false} TableIsRead(data: seq<byte>, before: seq<byte>, entries: seq<Entry>, wide: bool,
                                       after: seq<byte>, tableEnd: nat)
    requires forall i :: 0 <= i < |entries| ==> FitsTable(entries[i], wide)
    requires data == before + TableBytes(entries, wide) + after
    ensures var read := FatEntries(data, wide, tableEnd, |before|, |entries|);
            if forall i :: 0 <= i < |entries| ==> GoodEntry(entries[i], tableEnd, |data|)
            then read == Ok(SlicesOf(entries))
            else read.Error?
    decreases |entries|
  {
    hide FatEntry, EntryBytes, GoodEntry;
    if entries != [] {
      var first, rest := EntryBytes(entries[0], wide), TableBytes(entries[1..], wide);
      assert data == before + first + (rest + after);
      EntryIsRead(data, before, entries[0], wide, rest + after, tableEnd);
      assert data == (before + first) + rest + after;
      TableIsRead(data, before + first, entries[1..], wide, after, tableEnd);
      assert forall i :: 1 <= i < |entries| ==> entries[i] == entries[1..][i - 1];
      assert forall i :: 0 <= i < |entries[1..]| ==> entries[1..][i] == entries[i + 1];
    }
  }

  function FatBytes(entries: seq<Entry>, wide: bool, contents: seq<byte>): seq<byte>
    requires |entries| < 0x1_0000_0000 && forall i :: 0 <= i < |entries| ==> FitsTable(entries[i], wide)
  {
    BigField(if wide then 0xCAFEBABF else 0xCAFEBABE, 4) + BigField(|entries|, 4) + TableBytes(entries, wide)
    + contents
  }

  predicate KnownApart(entries: seq<Entry>) {
    forall i, j :: 0 <= i < j < |entries| ==> SliceOf(entries[i]).architecture != SliceOf(entries[j]).architecture
  }

  // The slices of a universal file of either width are the entries of its
  // table, if there is one, all are good and no architecture comes twice.
  // Anything else is refused.
  lemma FatFileIsRead(entries: seq<Entry>, wide: bool, contents: seq<byte>)
    requires |entries| < 0x1_0000_0000 && forall i :: 0 <= i < |entries| ==> FitsTable(entries[i], wide)
    ensures var data := FatBytes(entries, wide, contents);
            var tableEnd := 8 + |entries| * (if wide then 32 else 20);
            if && entries != [] && KnownApart(entries)
               && forall i :: 0 <= i < |entries| ==> GoodEntry(entries[i], tableEnd, |data|)
            then Slices(data) == Ok(SlicesOf(entries))
            else Slices(data).Error?
  {
    hide FatEntries, GoodEntry, TableBytes;
    var data := FatBytes(entries, wide, contents);
    var tableEnd := 8 + |entries| * (if wide then 32 else 20);
    FatHeaderIsRead(entries, wide, contents);
    var magic, count := BigField(if wide then 0xCAFEBABF else 0xCAFEBABE, 4), BigField(|entries|, 4);
    assert data == (magic + count) + TableBytes(entries, wide) + contents;
    TableIsRead(data, magic + count, entries, wide, contents, tableEnd);
  }

  lemma FatHeaderIsRead(entries: seq<Entry>, wide: bool, contents: seq<byte>)
    requires |entries| < 0x1_0000_0000 && forall i :: 0 <= i < |entries| ==> FitsTable(entries[i], wide)
    ensures var data := FatBytes(entries, wide, contents);
            && |data| >= 8 + |entries| * (if wide then 32 else 20)
            && BigEndian(data[0..4]) == (if wide then 0xCAFEBABF else 0xCAFEBABE)
            && BigEndian(data[4..8]) == |entries| && LittleEndian(data[0..4]) != 0xFEEDFACF
  {
    hide TableBytes, BigField;
    var data := FatBytes(entries, wide, contents);
    var first := if wide then 0xCAFEBABF else 0xCAFEBABE;
    var magic, count, rest := BigField(first, 4), BigField(|entries|, 4), TableBytes(entries, wide) + contents;
    assert data == [] + magic + (count + rest);
    BigReads(data, [], first, 4, count + rest);
    assert data == magic + count + rest;
    BigReads(data, magic, |entries|, 4, rest);
    assert data[0] == 0xCA by {
      MagicBegins(first);
      assert data[0] == magic[0];
    }
    assert LittleEndian(data[0..4]) % 256 == 0xCA by {
      assert data[0..4][0] == 0xCA;
    }
  }

  lemma MagicBegins(value: nat)
    requires value == 0xCAFEBABF || value == 0xCAFEBABE
    ensures BigField(value, 4)[0] == 0xCA
  {
    var field := BigField(value, 4);
    Powers();
    assert field == ToBigEndian(value, 4);
    assert ToBigEndian(value, 4) == ToBigEndian(value / 256, 3) + [value % 256];
    assert ToBigEndian(value / 256, 3) == ToBigEndian(value / 256 / 256, 2) + [value / 256 % 256];
    var top := value / 256 / 256;
    assert top == 0xCAFE;
    assert ToBigEndian(top, 2) == ToBigEndian(0xCA, 1) + [0xFE];
    assert ToBigEndian(0xCA, 1) == ToBigEndian(0, 0) + [0xCA];
  }
}
