// The glibc requirement check of scripts/elf_compatibility.py.
//
// The recursive functions are the specification; the methods follow the loops
// of the original, including its visited sets, and are proved equal to them.
// Every ElfFormatError is an `Malformed`. Python refuses to convert more than 4300
// digits to a number; that ValueError is `TooManyDigits`, and nothing catches it.

module ElfVersions {
  import opened Bytes

  datatype Read<+T> = Got(value: T) | Malformed(message: string) | TooManyDigits
  {
    predicate IsFailure() { !Got? }

    // Used on failures only.
    function PropagateFailure<U>(): (r: Read<U>)
    {
      if Malformed? then Read<U>.Malformed(message) else Read<U>.TooManyDigits
    }

    function Extract(): T
      requires Got?
    {
      value
    }
  }

  // A loop ends as its specification says; format errors may be worded otherwise.
  predicate Agrees<T(==)>(r: Read<T>, expected: Read<T>) {
    && (r.Got? <==> expected.Got?) && (r.Got? ==> r == expected)
    && (r.TooManyDigits? <==> expected.TooManyDigits?)
  }

  const PT_LOAD: nat := 1
  const PT_DYNAMIC: nat := 2
  const DT_NULL: nat := 0
  const DT_STRTAB: nat := 5
  const DT_STRSZ: nat := 10
  const DT_VERNEED: nat := 0x6FFFFFFE
  const DT_VERNEEDNUM: nat := 0x6FFFFFFF
  const EM_X86_64: nat := 62

  datatype Segment = Segment(kind: nat, offset: nat, address: nat, bytes: nat)

  datatype Image = Image(data: seq<byte>, wide: bool, little: bool, machine: nat, segments: seq<Segment>)

  datatype Version = Version(major: nat, minor: nat, patch: nat)

  // Python's order on version triples.
  predicate AtMost(a: Version, b: Version) {
    || a.major < b.major
    || (a.major == b.major && (a.minor < b.minor || (a.minor == b.minor && a.patch <= b.patch)))
  }

  const CEILING: Version := Version(2, 38, 0)

  // An unsigned field, in the byte order of the file.
  function Field(data: seq<byte>, little: bool, offset: nat, width: nat): (r: Read<nat>)
    ensures !r.TooManyDigits?
  {
    if offset + width > |data| then Malformed("field is outside the ELF file")
    else
      var bytes := data[offset..offset + width];
      Got(if little then LittleEndian(bytes) else BigEndian(bytes))
  }

  // ---------------------------------------------------------------------
  // Headers and segments

  datatype Header = Header(machine: nat, programOffset: nat, entryBytes: nat, entryCount: nat)

  function ReadHeader(data: seq<byte>, wide: bool, little: bool): (r: Read<Header>)
    ensures !r.TooManyDigits?
  {
    if |data| < (if wide then 64 else 52) then Malformed("ELF header is outside the ELF file")
    else
      var word := if wide then 8 else 4;
      var kind :- Field(data, little, 16, 2);
      var machine :- Field(data, little, 18, 2);
      var version :- Field(data, little, 20, 4);
      var programOffset :- Field(data, little, 24 + word, word);
      var tail := 28 + 3 * word; // behind entry, both table offsets and the flags
      var headerBytes :- Field(data, little, tail, 2);
      var entryBytes :- Field(data, little, tail + 2, 2);
      var entryCount :- Field(data, little, tail + 4, 2);
      if (kind != 2 && kind != 3) || version != 1 then Malformed("ELF executable type or version is invalid")
      else if headerBytes < (if wide then 64 else 52) then Malformed("ELF header size is invalid")
      else if entryCount == 0 || entryCount == 0xFFFF then Malformed("ELF program-header count is unsupported")
      else if entryBytes < (if wide then 56 else 32) then Malformed("ELF program-header size is invalid")
      else if programOffset + entryBytes * entryCount > |data| then Malformed("ELF program-header table is truncated")
      else Got(Header(machine, programOffset, entryBytes, entryCount))
  }

  function ReadSegment(data: seq<byte>, wide: bool, little: bool, offset: nat): (r: Read<Segment>)
    ensures !r.TooManyDigits?
  {
    if offset + (if wide then 56 else 32) > |data| then Malformed("ELF program header is outside the ELF file")
    else
      var kind :- Field(data, little, offset, 4);
      var fileOffset :- if wide then Field(data, little, offset + 8, 8) else Field(data, little, offset + 4, 4);
      var address :- if wide then Field(data, little, offset + 16, 8) else Field(data, little, offset + 8, 4);
      var bytes :- if wide then Field(data, little, offset + 32, 8) else Field(data, little, offset + 16, 4);
      if fileOffset + bytes > |data| then Malformed("ELF program segment is truncated")
      else Got(Segment(kind, fileOffset, address, bytes))
  }

  function ReadSegments(data: seq<byte>, wide: bool, little: bool, offset: nat, entryBytes: nat, count: nat)
    : (r: Read<seq<Segment>>)
    ensures r.Got? ==> |r.value| == count && InFile(r.value, |data|)
    ensures !r.TooManyDigits?
    decreases count
  {
    if count == 0 then Got([])
    else
      var first :- ReadSegment(data, wide, little, offset);
      var rest :- ReadSegments(data, wide, little, offset + entryBytes, entryBytes, count - 1);
      Got([first] + rest)
  }

  predicate InFile(segments: seq<Segment>, length: nat) {
    forall s :: s in segments ==> s.offset + s.bytes <= length
  }

  const ELF_MAGIC: seq<byte> := [0x7f, 69, 76, 70]

  function Parse(data: seq<byte>): (r: Read<Image>)
    ensures r.Got? ==> r.value.data == data && InFile(r.value.segments, |data|)
    ensures !r.TooManyDigits?
  {
    if |data| < 16 || data[..4] != ELF_MAGIC then Malformed("artifact is not an ELF executable")
    else if data[4] != 1 && data[4] != 2 then Malformed("ELF class is unsupported")
    else if data[5] != 1 && data[5] != 2 then Malformed("ELF byte order is unsupported")
    else if data[6] != 1 then Malformed("ELF identification version is invalid")
    else
      var wide, little := data[4] == 2, data[5] == 1;
      var header :- ReadHeader(data, wide, little);
      var segments :- ReadSegments(data, wide, little, header.programOffset, header.entryBytes, header.entryCount);
      Got(Image(data, wide, little, header.machine, segments))
  }

  // ---------------------------------------------------------------------
  // Addresses

  // The file offset of a loaded address range: the first load segment that
  // holds it decides.
  function VirtualOffset(segments: seq<Segment>, address: nat, size: nat): (r: Read<nat>)
    ensures !r.TooManyDigits?
    ensures forall length: nat :: r.Got? && InFile(segments, length) ==> r.value + size <= length
  {
    if segments == [] then Read<nat>.Malformed("range is not backed by an ELF load segment")
    else
      assert forall length: nat :: InFile(segments, length) ==> InFile(segments[1..], length);
      var s := segments[0];
      if s.kind == PT_LOAD && s.address <= address && address - s.address <= s.bytes
         && size <= s.bytes - (address - s.address)
      then Read<nat>.Got(s.offset + (address - s.address))
      else VirtualOffset(segments[1..], address, size)
  }

  predicate Loaded(segments: seq<Segment>, offset: nat, size: nat) {
    exists s :: s in segments && s.kind == PT_LOAD && s.offset <= offset && offset + size <= s.offset + s.bytes
  }

  // ---------------------------------------------------------------------
  // The dynamic section

  predicate Relevant(tag: int) {
    tag == DT_STRTAB || tag == DT_STRSZ || tag == DT_VERNEED || tag == DT_VERNEEDNUM
  }

  // A two's-complement tag.
  function Signed(value: nat, width: nat): int {
    if 2 * value >= Power256(width) then value - Power256(width) else value
  }

  // The relevant entries between `relative` and the terminator; a repeated tag
  // must repeat its value.
  function DynamicFrom(image: Image, segment: Segment, relative: nat, values: map<int, nat>)
    : (r: Read<map<int, nat>>)
    ensures !r.TooManyDigits?
    decreases segment.bytes - relative
  {
    var word := if image.wide then 8 else 4;
    if relative + 2 * word > segment.bytes then Malformed("ELF dynamic segment is not terminated")
    else
      var rawTag :- Field(image.data, image.little, segment.offset + relative, word);
      var value :- Field(image.data, image.little, segment.offset + relative + word, word);
      var tag := Signed(rawTag, word);
      if tag == DT_NULL then Got(values)
      else if !Relevant(tag) then DynamicFrom(image, segment, relative + 2 * word, values)
      else if tag in values && values[tag] != value then Malformed("ELF dynamic metadata conflicts")
      else DynamicFrom(image, segment, relative + 2 * word, values[tag := value])
  }

  function DynamicSegments(segments: seq<Segment>): (r: seq<Segment>)
    ensures forall s :: s in r ==> s in segments
  {
    if segments == [] then []
    else if segments[0].kind == PT_DYNAMIC then [segments[0]] + DynamicSegments(segments[1..])
    else DynamicSegments(segments[1..])
  }

  function DynamicValues(image: Image): (r: Read<map<int, nat>>)
    ensures !r.TooManyDigits?
  {
    var dynamic := DynamicSegments(image.segments);
    if |dynamic| != 1 then Malformed("ELF must contain one dynamic segment")
    else
      var mapped :- VirtualOffset(image.segments, dynamic[0].address, dynamic[0].bytes);
      if mapped != dynamic[0].offset then Malformed("ELF dynamic segment mapping is inconsistent")
      else DynamicFrom(image, dynamic[0], 0, map[])
  }

  method ReadDynamicValues(image: Image) returns (r: Read<map<int, nat>>)
    ensures Agrees(r, DynamicValues(image))
  {
    var dynamic := DynamicSegments(image.segments);
    if |dynamic| != 1 {
      return Malformed("ELF must contain one dynamic segment");
    }
    var segment := dynamic[0];
    var mapped := VirtualOffset(image.segments, segment.address, segment.bytes);
    if !mapped.Got? || mapped.value != segment.offset {
      return Malformed("ELF dynamic segment mapping is inconsistent");
    }
    r := WalkDynamic(image, segment);
  }

  method WalkDynamic(image: Image, segment: Segment) returns (r: Read<map<int, nat>>)
    ensures Agrees(r, DynamicFrom(image, segment, 0, map[]))
  {
    hide Field, Signed;
    var word: nat := if image.wide then 8 else 4;
    var values: map<int, nat> := map[];
    var relative: nat := 0;
    ghost var all := DynamicFrom(image, segment, 0, map[]);
    while relative + 2 * word <= segment.bytes
      invariant all == DynamicFrom(image, segment, relative, values)
      decreases segment.bytes - relative
    {
      var rawTag := Field(image.data, image.little, segment.offset + relative, word);
      var value := Field(image.data, image.little, segment.offset + relative + word, word);
      if !rawTag.Got? || !value.Got? {
        return Malformed("ELF dynamic entry is outside the ELF file");
      }
      var tag := Signed(rawTag.value, word);
      if tag == DT_NULL {
        return Got(values);
      }
      if Relevant(tag) {
        if tag in values && values[tag] != value.value {
          return Malformed("ELF dynamic metadata conflicts");
        }
        values := values[tag := value.value];
      }
      relative := relative + 2 * word;
    }
    return Malformed("ELF dynamic segment is not terminated");
  }

  // ---------------------------------------------------------------------
  // Strings and version names

  datatype Table = Table(offset: nat, bytes: nat)

  // The length of the zero-terminated string at `begin`, or none before `end`.
  function Terminator(data: seq<byte>, begin: nat, end: nat): (r: Option<nat>)
    requires begin <= end <= |data|
    ensures r.Some? ==> begin <= r.value < end && data[r.value] == 0 && 0 !in data[begin..r.value]
    ensures r.None? ==> 0 !in data[begin..end]
    decreases end - begin
  {
    if begin == end then None
    else if data[begin] == 0 then Some(begin)
    else
      var rest := Terminator(data, begin + 1, end);
      assert data[begin..end] == [data[begin]] + data[begin + 1..end];
      assert rest.Some? ==> data[begin..rest.value] == [data[begin]] + data[begin + 1..rest.value];
      rest
  }

  // Python's bytes.find clamps its end to the data.
  function StringAt(data: seq<byte>, table: Table, offset: nat): (r: Read<seq<byte>>)
    ensures !r.TooManyDigits?
  {
    var begin := table.offset + offset;
    var end := if table.offset + table.bytes <= |data| then table.offset + table.bytes else |data|;
    if offset >= table.bytes then Malformed("ELF version string offset is invalid")
    else if begin > end then Malformed("ELF version string is not terminated")
    else
      var terminator := Terminator(data, begin, end);
      if terminator.None? then Malformed("ELF version string is not terminated")
      else Got(data[begin..terminator.value])
  }

  const GLIBC_PREFIX: seq<byte> := [71, 76, 73, 66, 67, 95]
  const PERIOD: byte := 46

  predicate IsDigit(b: byte) {
    48 <= b <= 57
  }

  function LeadingDigits(text: seq<byte>): (n: nat)
    ensures n <= |text|
    ensures forall i :: 0 <= i < n ==> IsDigit(text[i])
    ensures n < |text| ==> !IsDigit(text[n])
  {
    if text == [] || !IsDigit(text[0]) then 0 else 1 + LeadingDigits(text[1..])
  }

  function Decimal(digits: seq<byte>): nat
    requires AllDigits(digits)
  {
    if digits == [] then 0
    else
      var last := |digits| - 1;
      assert IsDigit(digits[last]);
      Decimal(digits[..last]) * 10 + (digits[last] - 48)
  }

  datatype Digits = Digits(major: seq<byte>, minor: seq<byte>, patch: seq<byte>)

  predicate AllDigits(text: seq<byte>) {
    forall i :: 0 <= i < |text| ==> IsDigit(text[i])
  }

  const NO_PATCH: seq<byte> := [48]

  // GLIBC_major.minor or GLIBC_major.minor.patch, and nothing else.
  function GlibcDigits(symbol: seq<byte>): (r: Option<Digits>)
    ensures r.Some? ==> AllDigits(r.value.major) && AllDigits(r.value.minor) && AllDigits(r.value.patch)
  {
    if !(GLIBC_PREFIX <= symbol) then None
    else
      var text := symbol[6..];
      var a := LeadingDigits(text);
      if a == 0 || a == |text| || text[a] != PERIOD then None
      else
        var rest := text[a + 1..];
        var b := LeadingDigits(rest);
        if b == 0 then None
        else if b == |rest| then Some(Digits(text[..a], rest, NO_PATCH))
        else if rest[b] != PERIOD then None
        else
          var last := rest[b + 1..];
          if last == [] || LeadingDigits(last) != |last| then None
          else Some(Digits(text[..a], rest[..b], last))
  }

  const DIGIT_LIMIT: nat := 4300

  // Some component is too long for Python's int().
  predicate Overlong(d: Digits) {
    |d.major| > DIGIT_LIMIT || |d.minor| > DIGIT_LIMIT || |d.patch| > DIGIT_LIMIT
  }

  // A name of a glibc version with such a component.
  predicate OverlongName(symbol: seq<byte>) {
    GlibcDigits(symbol).Some? && Overlong(GlibcDigits(symbol).value)
  }

  // ---------------------------------------------------------------------
  // Chains of entries that give the distance to their successor

  datatype Link = Link(versions: set<Version>, next: nat)

  type Reader = nat -> Read<Link>

  // The versions of `count` entries, the first at `offset`.
  function Chain(read: Reader, offset: nat, count: nat): Read<set<Version>>
    requires count > 0
    decreases count
  {
    var link :- read(offset);
    if count == 1 then Got(link.versions)
    else if link.next < 16 then Malformed("chain is truncated")
    else
      var rest :- Chain(read, offset + link.next, count - 1);
      Got(link.versions + rest)
  }

  // The offset of the entry `i` places behind the one at `offset`.
  function At(read: Reader, offset: nat, i: nat): Option<nat>
    decreases i
  {
    if i == 0 then Some(offset)
    else
      var link := read(offset);
      if !link.Got? then None else At(read, offset + link.value.next, i - 1)
  }

  ghost predicate Contributes(read: Reader, offset: nat, i: nat, version: Version) {
    var at := At(read, offset, i);
    at.Some? && read(at.value).Got? && version in read(at.value).value.versions
  }

  ghost predicate SomeContributes(read: Reader, offset: nat, count: nat, version: Version) {
    exists i :: 0 <= i < count && Contributes(read, offset, i, version)
  }

  // Every entry of an accepted chain can be read, and lies at least sixteen
  // bytes behind its predecessor.
  lemma {:induction false} ChainOffsetsIncrease(read: Reader, offset: nat, count: nat, i: nat, j: nat)
    requires i <= j < count && Chain(read, offset, count).Got?
    ensures At(read, offset, i).Some? && At(read, offset, j).Some?
    ensures read(At(read, offset, j).value).Got?
    ensures At(read, offset, j).value >= At(read, offset, i).value + 16 * (j - i)
    ensures At(read, offset, i).value >= offset
    decreases count
  {
    if j > 0 {
      var next := offset + read(offset).value.next;
      ChainOffsetsIncrease(read, next, count - 1, if i > 0 then i - 1 else 0, j - 1);
    }
  }

  // The result is exactly what the entries contribute.
  lemma {:induction false} ChainIsExact(read: Reader, offset: nat, count: nat, version: Version)
    requires count > 0 && Chain(read, offset, count).Got?
    ensures version in Chain(read, offset, count).value <==> SomeContributes(read, offset, count, version)
    decreases count
  {
    var link := read(offset).value;
    assert version in link.versions <==> Contributes(read, offset, 0, version);
    if count > 1 {
      var next := offset + link.next;
      ChainIsExact(read, next, count - 1, version);
      forall i: nat ensures Contributes(read, offset, i + 1, version) == Contributes(read, next, i, version) {}
      if SomeContributes(read, next, count - 1, version) {
        var i: nat :| i < count - 1 && Contributes(read, next, i, version);
        assert Contributes(read, offset, i + 1, version);
      }
      if i: nat :| 1 <= i < count && Contributes(read, offset, i, version) {
        assert Contributes(read, offset, i - 1 + 1, version) == Contributes(read, next, i - 1, version);
      }
    }
  }

  // The loop of the original. Its visited set never holds the offset it is
  // asked about, because offsets only grow.
  method WalkChain(read: Reader, start: nat, count: nat) returns (r: Read<set<Version>>)
    requires count > 0
    ensures Agrees(r, Chain(read, start, count))
  {
    var found: set<Version> := {};
    var offset: nat := start;
    var visited: set<nat> := {};
    var index: nat := 0;
    ghost var all := Chain(read, start, count);
    while index < count
      invariant 0 <= index <= count
      invariant index < count ==> forall v :: v in visited ==> v < offset
      invariant index < count ==>
                  var rest := Chain(read, offset, count - index);
                  && (all.Got? <==> rest.Got?) && (all.Got? ==> all.value == found + rest.value)
                  && (all.TooManyDigits? <==> rest.TooManyDigits?)
      invariant index == count ==> all == Got(found)
    {
      if offset in visited {
        return Malformed("chain contains a loop");
      }
      visited := visited + {offset};
      var link := read(offset);
      if !link.Got? {
        return link.PropagateFailure();
      }
      found := found + link.value.versions;
      if index + 1 < count {
        if link.value.next < 16 {
          return Malformed("chain is truncated");
        }
        offset := offset + link.value.next;
      }
      index := index + 1;
    }
    return Got(found);
  }

  // ---------------------------------------------------------------------
  // The requirements and their auxiliaries

  function VersionOf(symbol: seq<byte>): Read<set<Version>> {
    match GlibcDigits(symbol)
    case None => Got({})
    case Some(d) =>
      if Overlong(d) then TooManyDigits else Got({Version(Decimal(d.major), Decimal(d.minor), Decimal(d.patch))})
  }

  function ReadAuxiliary(image: Image, table: Table, offset: nat): Read<Link> {
    if !Loaded(image.segments, offset, 16) then Malformed("ELF version auxiliary is not loaded")
    else
      var name :- Field(image.data, image.little, offset + 8, 4);
      var next :- Field(image.data, image.little, offset + 12, 4);
      var symbol :- StringAt(image.data, table, name);
      var versions :- VersionOf(symbol);
      Got(Link(versions, next))
  }

  function Auxiliaries(image: Image, table: Table): Reader {
    (offset: nat) => ReadAuxiliary(image, table, offset)
  }

  datatype Requirement = Requirement(auxiliaryCount: nat, auxiliary: nat, next: nat)

  function ReadRequirement(image: Image, table: Table, offset: nat): (r: Read<Requirement>)
    ensures r.Got? ==> r.value.auxiliaryCount > 0 && r.value.auxiliary >= 16
    ensures !r.TooManyDigits?
  {
    if !Loaded(image.segments, offset, 16) then Malformed("ELF version requirement is not loaded")
    else
      var version :- Field(image.data, image.little, offset, 2);
      var count :- Field(image.data, image.little, offset + 2, 2);
      var fileName :- Field(image.data, image.little, offset + 4, 4);
      var auxiliary :- Field(image.data, image.little, offset + 8, 4);
      var next :- Field(image.data, image.little, offset + 12, 4);
      if version != 1 || count == 0 || auxiliary < 16 then Malformed("ELF version requirement is invalid")
      else
        var _ :- StringAt(image.data, table, fileName);
        Got(Requirement(count, auxiliary, next))
  }

  // A requirement together with everything its auxiliaries name.
  function RequirementLink(image: Image, table: Table, offset: nat): Read<Link> {
    var entry :- ReadRequirement(image, table, offset);
    var versions :- Chain(Auxiliaries(image, table), offset + entry.auxiliary, entry.auxiliaryCount);
    Got(Link(versions, entry.next))
  }

  function RequirementsOf(image: Image, table: Table): Reader {
    (offset: nat) => RequirementLink(image, table, offset)
  }

  // Some auxiliary of the requirement at `offset` names the version.
  ghost predicate Requires(image: Image, table: Table, offset: nat, version: Version) {
    var entry := ReadRequirement(image, table, offset);
    && entry.Got?
    && SomeContributes(Auxiliaries(image, table), offset + entry.value.auxiliary, entry.value.auxiliaryCount, version)
  }

  // Some auxiliary of requirement `i` in the chain at `start` names the version.
  ghost predicate RequiredBy(image: Image, table: Table, start: nat, i: nat, version: Version) {
    var at := At(RequirementsOf(image, table), start, i);
    at.Some? && Requires(image, table, at.value, version)
  }

  // Both loops together: the versions found are exactly those that some
  // auxiliary of some requirement in the chain names.
  lemma WalkIsExact(image: Image, table: Table, start: nat, count: nat, version: Version)
    requires count > 0
    ensures Chain(RequirementsOf(image, table), start, count).Got? ==>
              (version in Chain(RequirementsOf(image, table), start, count).value
               <==> exists i: nat :: i < count && RequiredBy(image, table, start, i, version))
  {
    hide ReadRequirement, ReadAuxiliary, Chain;
    if !Chain(RequirementsOf(image, table), start, count).Got? {
      return;
    }
    var read := RequirementsOf(image, table);
    ChainIsExact(read, start, count, version);
    forall i: nat | i < count
      ensures Contributes(read, start, i, version) <==> RequiredBy(image, table, start, i, version)
    {
      ChainOffsetsIncrease(read, start, count, i, i);
      var at := At(read, start, i).value;
      assert read(at) == RequirementLink(image, table, at);
      var entry := ReadRequirement(image, table, at).value;
      ChainIsExact(Auxiliaries(image, table), at + entry.auxiliary, entry.auxiliaryCount, version);
    }
    if SomeContributes(read, start, count, version) {
      var i: nat :| i < count && Contributes(read, start, i, version);
      assert RequiredBy(image, table, start, i, version);
    }
    if i: nat :| i < count && RequiredBy(image, table, start, i, version) {
      assert Contributes(read, start, i, version);
    }
  }

  // Requirement `i` of the chain, and its auxiliary `j` if it has that many,
  // lie in the file, each entry behind the ones read before it.
  ghost predicate EntriesInFile(image: Image, table: Table, start: nat, i: nat, j: nat) {
    var at := At(RequirementsOf(image, table), start, i);
    && at.Some?
    && start + 16 * i <= at.value && at.value + 16 <= |image.data|
    && var entry := ReadRequirement(image, table, at.value);
       && entry.Got?
       && (j < entry.value.auxiliaryCount ==>
             var aux := At(Auxiliaries(image, table), at.value + entry.value.auxiliary, j);
             aux.Some? && at.value + 16 * (j + 1) <= aux.value && aux.value + 16 <= |image.data|)
  }

  // Everything a successful walk reads lies in the file, requirement headers
  // and auxiliaries alike.
  lemma WalkStaysInFile(image: Image, table: Table, start: nat, count: nat, i: nat, j: nat)
    requires InFile(image.segments, |image.data|) && i < count
    ensures Chain(RequirementsOf(image, table), start, count).Got? ==> EntriesInFile(image, table, start, i, j)
  {
    hide EntriesInFile, RequirementLink, Chain;
    if Chain(RequirementsOf(image, table), start, count).Got? {
      ReadEntriesAreInFile(image, table, start, count, i, j);
    }
  }

  lemma ReadEntriesAreInFile(image: Image, table: Table, start: nat, count: nat, i: nat, j: nat)
    requires InFile(image.segments, |image.data|) && i < count
    requires Chain(RequirementsOf(image, table), start, count).Got?
    ensures EntriesInFile(image, table, start, i, j)
  {
    hide Field, StringAt, Chain, At, ReadRequirement, ReadAuxiliary, Loaded, InFile;
    var read := RequirementsOf(image, table);
    ChainOffsetsIncrease(read, start, count, 0, i);
    AtStart(read, start);
    var at := At(read, start, i).value;
    assert read(at) == RequirementLink(image, table, at);
    RequirementIsInFile(image, table, at);
    var entry := ReadRequirement(image, table, at).value;
    if j < entry.auxiliaryCount {
      AuxiliariesAreInFile(image, table, at + entry.auxiliary, entry.auxiliaryCount, j);
    }
  }

  lemma AtStart(read: Reader, offset: nat)
    ensures At(read, offset, 0) == Some(offset)
  {
  }

  lemma RequirementIsInFile(image: Image, table: Table, offset: nat)
    requires InFile(image.segments, |image.data|) && RequirementLink(image, table, offset).Got?
    ensures ReadRequirement(image, table, offset).Got? && offset + 16 <= |image.data|
  {
    hide Field, StringAt, Chain;
  }

  lemma AuxiliariesAreInFile(image: Image, table: Table, start: nat, count: nat, j: nat)
    requires InFile(image.segments, |image.data|) && j < count
    requires Chain(Auxiliaries(image, table), start, count).Got?
    ensures At(Auxiliaries(image, table), start, j).Some?
    ensures start + 16 * j <= At(Auxiliaries(image, table), start, j).value
    ensures At(Auxiliaries(image, table), start, j).value + 16 <= |image.data|
  {
    hide Field, StringAt, Chain, At;
    var read := Auxiliaries(image, table);
    ChainOffsetsIncrease(read, start, count, 0, j);
    AtStart(read, start);
    var at := At(read, start, j).value;
    assert read(at) == ReadAuxiliary(image, table, at);
  }

  datatype Walk = NoRequirements | Requirements(table: Table, start: nat, count: nat)

  // Where the walk starts, from the dynamic section.
  function WalkOf(image: Image): (r: Read<Walk>)
    requires InFile(image.segments, |image.data|)
    ensures !r.TooManyDigits?
    ensures r.Got? && r.value.Requirements? ==>
              && r.value.count > 0
              && r.value.table.offset + r.value.table.bytes <= |image.data|
              && r.value.start + 16 <= |image.data|
  {
    var dynamic :- DynamicValues(image);
    if DT_VERNEED !in dynamic && DT_VERNEEDNUM !in dynamic then Got(NoRequirements)
    else if DT_VERNEED !in dynamic || DT_VERNEEDNUM !in dynamic || DT_STRTAB !in dynamic || DT_STRSZ !in dynamic
    then Malformed("ELF version requirements are incomplete")
    else
      var count := dynamic[DT_VERNEEDNUM];
      var bytes := dynamic[DT_STRSZ];
      if count == 0 || count > 65535 then Malformed("ELF version-requirement count is invalid")
      else if bytes == 0 then Malformed("ELF dynamic string table is empty")
      else
        var strings :- VirtualOffset(image.segments, dynamic[DT_STRTAB], bytes);
        var start :- VirtualOffset(image.segments, dynamic[DT_VERNEED], 16);
        Got(Requirements(Table(strings, bytes), start, count))
  }

  function RequiredVersions(image: Image): Read<set<Version>>
    requires InFile(image.segments, |image.data|)
  {
    var walk :- WalkOf(image);
    match walk
    case NoRequirements => Got({})
    case Requirements(table, start, count) => Chain(RequirementsOf(image, table), start, count)
  }

  // The outer loop, with the auxiliaries of each requirement walked inside it.
  method WalkRequirements(image: Image, table: Table, start: nat, count: nat) returns (r: Read<set<Version>>)
    requires count > 0
    ensures Agrees(r, Chain(RequirementsOf(image, table), start, count))
  {
    hide RequirementLink;
    ghost var read := RequirementsOf(image, table);
    ghost var all := Chain(read, start, count);
    var found: set<Version> := {};
    var offset: nat := start;
    var visited: set<nat> := {};
    var index: nat := 0;
    while index < count
      invariant 0 <= index <= count
      invariant index < count ==> forall v :: v in visited ==> v < offset
      invariant index < count ==>
                  var rest := Chain(read, offset, count - index);
                  && (all.Got? <==> rest.Got?) && (all.Got? ==> all.value == found + rest.value)
                  && (all.TooManyDigits? <==> rest.TooManyDigits?)
      invariant index == count ==> all == Got(found)
    {
      if offset in visited {
        return Malformed("ELF version requirements contain a loop");
      }
      visited := visited + {offset};
      var link := WalkRequirement(image, table, offset);
      assert read(offset) == RequirementLink(image, table, offset);
      if !link.Got? {
        return link.PropagateFailure();
      }
      found := found + link.value.versions;
      if index + 1 < count {
        if link.value.next < 16 {
          return Malformed("ELF version-requirement chain is truncated");
        }
        offset := offset + link.value.next;
      }
      index := index + 1;
    }
    return Got(found);
  }

  method WalkRequirement(image: Image, table: Table, offset: nat) returns (r: Read<Link>)
    ensures Agrees(r, RequirementLink(image, table, offset))
  {
    hide ReadRequirement, Chain;
    var entry := ReadRequirement(image, table, offset);
    if !entry.Got? {
      return entry.PropagateFailure();
    }
    var versions := WalkChain(Auxiliaries(image, table), offset + entry.value.auxiliary, entry.value.auxiliaryCount);
    if !versions.Got? {
      return versions.PropagateFailure();
    }
    return Got(Link(versions.value, entry.value.next));
  }

  // ---------------------------------------------------------------------
  // Names that Python cannot convert

  // The offset of entry `i`, if every entry before it can be read and leads on.
  function Reach(read: Reader, offset: nat, i: nat): Option<nat>
    decreases i
  {
    if i == 0 then Some(offset)
    else
      var link := read(offset);
      if !link.Got? || link.value.next < 16 then None else Reach(read, offset + link.value.next, i - 1)
  }

  ghost predicate OverflowsAt(read: Reader, offset: nat, i: nat) {
    Reach(read, offset, i).Some? && read(Reach(read, offset, i).value).TooManyDigits?
  }

  // A chain breaks off with the conversion error exactly when it reaches an
  // entry that does.
  lemma {:induction false} ChainOverflows(read: Reader, offset: nat, count: nat)
    requires count > 0
    ensures Chain(read, offset, count).TooManyDigits? <==> exists i: nat :: i < count && OverflowsAt(read, offset, i)
    decreases count
  {
    var link := read(offset);
    assert OverflowsAt(read, offset, 0) <==> link.TooManyDigits?;
    if link.Got? && count > 1 && link.value.next >= 16 {
      var next := offset + link.value.next;
      ChainOverflows(read, next, count - 1);
      forall i: nat ensures OverflowsAt(read, offset, i + 1) == OverflowsAt(read, next, i) {}
      if i: nat :| i < count && OverflowsAt(read, offset, i) {
        assert OverflowsAt(read, offset, i - 1 + 1) == OverflowsAt(read, next, i - 1);
      }
    } else {
      assert forall i: nat :: 0 < i < count ==> Reach(read, offset, i).None?;
    }
  }

  // The auxiliary at `offset` can be read, and its name is a glibc version
  // with a component of more than 4300 digits.
  ghost predicate OverlongAuxiliary(image: Image, table: Table, offset: nat) {
    && Loaded(image.segments, offset, 16)
    && Field(image.data, image.little, offset + 12, 4).Got?
    && var name := Field(image.data, image.little, offset + 8, 4);
       && name.Got? && StringAt(image.data, table, name.value).Got?
       && OverlongName(StringAt(image.data, table, name.value).value)
  }

  lemma AuxiliaryOverflows(image: Image, table: Table, offset: nat)
    ensures ReadAuxiliary(image, table, offset).TooManyDigits? <==> OverlongAuxiliary(image, table, offset)
  {
    hide Field, StringAt, Loaded, GlibcDigits;
  }

  // The walk reaches auxiliary `j` of requirement `i`, whose name is overlong.
  ghost predicate OverlongAt(image: Image, table: Table, start: nat, i: nat, j: nat) {
    var at := Reach(RequirementsOf(image, table), start, i);
    && at.Some?
    && var entry := ReadRequirement(image, table, at.value);
       && entry.Got? && j < entry.value.auxiliaryCount
       && var aux := Reach(Auxiliaries(image, table), at.value + entry.value.auxiliary, j);
          aux.Some? && OverlongAuxiliary(image, table, aux.value)
  }

  // A requirement breaks off exactly when one of its auxiliaries does.
  lemma RequirementOverflows(image: Image, table: Table, start: nat, i: nat)
    ensures OverflowsAt(RequirementsOf(image, table), start, i) <==> exists j :: OverlongAt(image, table, start, i, j)
  {
    hide ReadRequirement, ReadAuxiliary, OverlongAuxiliary, Chain, Reach;
    var at := Reach(RequirementsOf(image, table), start, i);
    if at.Some? && ReadRequirement(image, table, at.value).Got? {
      var entry := ReadRequirement(image, table, at.value).value;
      var read, first := Auxiliaries(image, table), at.value + entry.auxiliary;
      assert RequirementsOf(image, table)(at.value) == RequirementLink(image, table, at.value);
      ChainOverflows(read, first, entry.auxiliaryCount);
      forall j: nat | j < entry.auxiliaryCount
        ensures OverflowsAt(read, first, j) <==> OverlongAt(image, table, start, i, j)
      {
        if Reach(read, first, j).Some? {
          AuxiliaryOverflows(image, table, Reach(read, first, j).value);
        }
      }
    }
  }

  // The exact condition, for both loops together.
  lemma WalkOverflows(image: Image, table: Table, start: nat, count: nat)
    requires count > 0
    ensures Chain(RequirementsOf(image, table), start, count).TooManyDigits?
       <==> exists i: nat, j :: i < count && OverlongAt(image, table, start, i, j)
  {
    hide RequirementLink, Chain, OverlongAt, OverflowsAt;
    var read := RequirementsOf(image, table);
    ChainOverflows(read, start, count);
    forall i: nat ensures OverflowsAt(read, start, i) <==> exists j :: OverlongAt(image, table, start, i, j) {
      RequirementOverflows(image, table, start, i);
    }
    if i: nat :| i < count && OverflowsAt(read, start, i) {
      var j :| OverlongAt(image, table, start, i, j);
      assert i < count && OverlongAt(image, table, start, i, j);
    }
    if i: nat, j :| i < count && OverlongAt(image, table, start, i, j) {
      assert OverflowsAt(read, start, i);
    }
  }

  // Such a name need not be a large version: 4300 zeros in front of 2.1 do.
  lemma SmallVersionCanBeOverlong()
    ensures var d := Digits(seq(4300, _ => 48) + [50], [49], NO_PATCH);
            && GlibcDigits(GLIBC_PREFIX + d.major + [PERIOD] + d.minor) == Some(d) && Overlong(d)
            && AtMost(Version(Decimal(d.major), Decimal(d.minor), Decimal(d.patch)), CEILING)
  {
    var zeros: seq<byte> := seq(4300, _ => 48);
    var major := zeros + [50];
    var symbol := GLIBC_PREFIX + major + [PERIOD] + [49];
    assert symbol[6..] == major + [PERIOD] + [49];
    DigitsThenPeriod(major, [PERIOD] + [49]);
    assert symbol[6..] == major + ([PERIOD] + [49]);
    assert symbol[6..][|major| + 1..] == [49];
    assert LeadingDigits([49]) == 1 + LeadingDigits([49][1..]);
    LeadingZeros(zeros, 2);
    SingleDigit(49);
    SingleDigit(48);
  }

  lemma {:induction false} DigitsThenPeriod(digits: seq<byte>, rest: seq<byte>)
    requires AllDigits(digits) && rest != [] && rest[0] == PERIOD
    ensures LeadingDigits(digits + rest) == |digits|
  {
    if digits == [] {
      assert digits + rest == rest;
    } else {
      assert (digits + rest)[1..] == digits[1..] + rest;
      DigitsThenPeriod(digits[1..], rest);
    }
  }

  lemma SingleDigit(d: byte)
    requires IsDigit(d)
    ensures Decimal([d]) == d - 48
  {
    assert [d][..0] == [];
  }

  lemma {:induction false} AllZeros(zeros: seq<byte>)
    requires forall i :: 0 <= i < |zeros| ==> zeros[i] == 48
    ensures Decimal(zeros) == 0
  {
    if zeros != [] {
      AllZeros(zeros[..|zeros| - 1]);
    }
  }

  lemma LeadingZeros(zeros: seq<byte>, digit: nat)
    requires digit < 10 && forall i :: 0 <= i < |zeros| ==> zeros[i] == 48
    ensures AllDigits(zeros + [48 + digit]) && Decimal(zeros + [48 + digit]) == digit
  {
    AllZeros(zeros);
    assert (zeros + [48 + digit])[..|zeros|] == zeros;
  }

  // ---------------------------------------------------------------------
  // What a name stands for, and how versions are ordered

  // A component as it is written in a name, and as Python can convert it.
  predicate Component(text: seq<byte>) {
    text != [] && AllDigits(text)
  }

  predicate ShortEnough(text: seq<byte>) {
    |text| <= DIGIT_LIMIT
  }

  function TwoParts(major: seq<byte>, minor: seq<byte>): seq<byte> {
    [71, 76, 73, 66, 67, 95] + major + [46] + minor
  }

  function ThreeParts(major: seq<byte>, minor: seq<byte>, patch: seq<byte>): seq<byte> {
    TwoParts(major, minor) + [46] + patch
  }

  lemma {:induction false} DigitsOnly(digits: seq<byte>)
    requires AllDigits(digits)
    ensures LeadingDigits(digits) == |digits|
  {
    if digits != [] {
      DigitsOnly(digits[1..]);
    }
  }

  // GLIBC_a.b stands for the version a.b.0, whatever the digits.
  lemma TwoPartName(major: seq<byte>, minor: seq<byte>)
    requires Component(major) && Component(minor)
    ensures VersionOf(TwoParts(major, minor))
         == if ShortEnough(major) && ShortEnough(minor)
            then Got({Version(Decimal(major), Decimal(minor), 0)}) else TooManyDigits
  {
    hide Decimal, GlibcDigits, LeadingDigits, TwoParts;
    TwoPartDigits(major, minor);
    SingleDigit(48);
  }

  lemma TwoPartDigits(major: seq<byte>, minor: seq<byte>)
    requires Component(major) && Component(minor)
    ensures GlibcDigits(TwoParts(major, minor)) == Some(Digits(major, minor, NO_PATCH))
  {
    hide LeadingDigits;
    var symbol := TwoParts(major, minor);
    var text := symbol[6..];
    assert symbol[..6] == GLIBC_PREFIX;
    assert text == major + ([PERIOD] + minor);
    DigitsThenPeriod(major, [PERIOD] + minor);
    hide AllDigits, TwoParts;
    assert text[..|major|] == major && text[|major|] == PERIOD && text[|major| + 1..] == minor;
    DigitsOnly(minor);
  }

  // GLIBC_a.b.c stands for the version a.b.c.
  lemma ThreePartName(major: seq<byte>, minor: seq<byte>, patch: seq<byte>)
    requires Component(major) && Component(minor) && Component(patch)
    ensures VersionOf(ThreeParts(major, minor, patch))
         == if ShortEnough(major) && ShortEnough(minor) && ShortEnough(patch)
            then Got({Version(Decimal(major), Decimal(minor), Decimal(patch))}) else TooManyDigits
  {
    hide Decimal, GlibcDigits, LeadingDigits;
    ThreePartDigits(major, minor, patch);
  }

  lemma ThreePartDigits(major: seq<byte>, minor: seq<byte>, patch: seq<byte>)
    requires Component(major) && Component(minor) && Component(patch)
    ensures GlibcDigits(ThreeParts(major, minor, patch)) == Some(Digits(major, minor, patch))
  {
    hide LeadingDigits;
    var symbol := ThreeParts(major, minor, patch);
    var text := symbol[6..];
    var rest := minor + ([PERIOD] + patch);
    assert symbol[..6] == GLIBC_PREFIX;
    assert text == major + ([PERIOD] + rest);
    DigitsThenPeriod(major, [PERIOD] + rest);
    hide AllDigits, ThreeParts, TwoParts;
    assert text[..|major|] == major && text[|major|] == PERIOD && text[|major| + 1..] == rest;
    SecondAndThird(minor, patch);
  }

  lemma SecondAndThird(minor: seq<byte>, patch: seq<byte>)
    requires Component(minor) && Component(patch)
    ensures var rest := minor + ([PERIOD] + patch);
            && LeadingDigits(rest) == |minor| && rest[|minor|] == PERIOD
            && rest[..|minor|] == minor && rest[|minor| + 1..] == patch
    ensures LeadingDigits(patch) == |patch|
  {
    hide LeadingDigits;
    DigitsThenPeriod(minor, [PERIOD] + patch);
    DigitsOnly(patch);
  }

  lemma CutAt(text: seq<byte>, a: nat)
    requires a < |text| && text[a] == 46
    ensures text == text[..a] + [46] + text[a + 1..]
  {
  }

  lemma TwoPartsOf(symbol: seq<byte>, a: seq<byte>, b: seq<byte>)
    requires GLIBC_PREFIX <= symbol && symbol[6..] == a + [46] + b
    ensures symbol == TwoParts(a, b)
  {
    assert symbol == GLIBC_PREFIX + symbol[6..];
  }

  lemma ThreePartsOf(symbol: seq<byte>, a: seq<byte>, b: seq<byte>, c: seq<byte>)
    requires GLIBC_PREFIX <= symbol && symbol[6..] == a + [46] + (b + [46] + c)
    ensures symbol == ThreeParts(a, b, c)
  {
    TwoPartsOf(symbol, a, b + [46] + c);
  }

  // A name with digits is one of the two forms.
  lemma DigitsForm(symbol: seq<byte>)
    ensures GlibcDigits(symbol).Some? ==>
              var d := GlibcDigits(symbol).value;
              && Component(d.major) && Component(d.minor) && Component(d.patch)
              && (symbol == TwoParts(d.major, d.minor) || symbol == ThreeParts(d.major, d.minor, d.patch))
  {
    hide LeadingDigits, TwoParts, ThreeParts;
    if GlibcDigits(symbol).Some? {
      var text := symbol[6..];
      var a := LeadingDigits(text);
      var rest := text[a + 1..];
      var b := LeadingDigits(rest);
      CutAt(text, a);
      if b == |rest| {
        TwoPartsOf(symbol, text[..a], rest);
      } else {
        CutAt(rest, b);
        ThreePartsOf(symbol, text[..a], rest[..b], rest[b + 1..]);
      }
    }
  }

  // No other name stands for a version.
  lemma OtherName(symbol: seq<byte>)
    requires forall a, b :: Component(a) && Component(b) ==> symbol != TwoParts(a, b)
    requires forall a, b, c :: Component(a) && Component(b) && Component(c) ==> symbol != ThreeParts(a, b, c)
    ensures VersionOf(symbol) == Got({})
  {
    hide Decimal, GlibcDigits, Component, TwoParts, ThreeParts;
    DigitsForm(symbol);
  }

  // The digits of a number, the most significant first.
  function DigitsOf(n: nat): seq<byte> {
    if n < 10 then [48 + n] else DigitsOf(n / 10) + [48 + n % 10]
  }

  lemma {:induction false} DecimalReads(n: nat)
    ensures Component(DigitsOf(n)) && Decimal(DigitsOf(n)) == n
  {
    if n < 10 {
      SingleDigit(48 + n);
    } else {
      DecimalReads(n / 10);
      assert DigitsOf(n)[..|DigitsOf(n)| - 1] == DigitsOf(n / 10);
    }
  }

  // The number that `high` and `low` spell in a base.
  function Pair(high: nat, low: nat, base: nat): nat {
    high * base + low
  }

  // In any base above the components the order is that of the numbers they
  // spell.
  lemma AtMostIsNumeric(a: Version, b: Version, base: nat)
    requires a.major < base && a.minor < base && a.patch < base && b.major < base && b.minor < base && b.patch < base
    ensures AtMost(a, b) <==>
              Pair(Pair(a.major, a.minor, base), a.patch, base) <= Pair(Pair(b.major, b.minor, base), b.patch, base)
  {
    hide Pair;
    Lexicographic(a.major, a.minor, b.major, b.minor, base);
    Lexicographic(b.major, b.minor, a.major, a.minor, base);
    Lexicographic(Pair(a.major, a.minor, base), a.patch, Pair(b.major, b.minor, base), b.patch, base);
  }

  lemma Lexicographic(p: nat, q: nat, r: nat, s: nat, base: nat)
    requires q < base && s < base
    ensures Pair(p, q, base) <= Pair(r, s, base) <==> p < r || (p == r && q <= s)
  {
    if p < r {
      Multiples(p + 1, r, base);
      assert (p + 1) * base == p * base + base;
    } else if r < p {
      Multiples(r + 1, p, base);
      assert (r + 1) * base == r * base + base;
    }
  }

  lemma {:induction false} Multiples(p: nat, r: nat, base: nat)
    requires p <= r
    ensures p * base <= r * base
    decreases r - p
  {
    if p < r {
      Multiples(p + 1, r, base);
      assert (p + 1) * base == p * base + base;
    }
  }

  // ---------------------------------------------------------------------
  // The release check

  method Maximum(versions: set<Version>) returns (maximum: Version)
    requires versions != {}
    ensures maximum in versions && forall v :: v in versions ==> AtMost(v, maximum)
  {
    maximum :| maximum in versions;
    var rest := versions - {maximum};
    while rest != {}
      invariant maximum in versions && rest <= versions
      invariant forall v :: v in versions && v !in rest ==> AtMost(v, maximum)
      decreases rest
    {
      var v :| v in rest;
      if !AtMost(v, maximum) {
        maximum := v;
      }
      rest := rest - {v};
    }
  }

  // `Escapes` is the ValueError of int(): the check only catches format and
  // system errors, so it leaves the check and is no verdict.
  datatype Verdict = NotTargeted | Incompatible | Compatible(maximum: Version) | Escapes

  predicate Targeted(target: string) {
    target == "x86_64-unknown-linux-gnu" || target == "x86_64-steamdeck-linux-gnu"
  }

  // The artifact is an x86-64 ELF64 little-endian image.
  ghost predicate Inspected(data: seq<byte>) {
    var image := Parse(data);
    image.Got? && image.value.wide && image.value.little && image.value.machine == 62
  }

  // Its walk succeeds.
  ghost predicate WellFormed(data: seq<byte>) {
    Inspected(data) && RequiredVersions(Parse(data).value).Got?
  }

  // Its walk reaches an overlong name.
  ghost predicate WalksIntoOverlongName(data: seq<byte>) {
    && Inspected(data)
    && var image := Parse(data).value;
       var walk := WalkOf(image);
       && walk.Got? && walk.value.Requirements?
       && exists i: nat, j :: i < walk.value.count && OverlongAt(image, walk.value.table, walk.value.start, i, j)
  }

  // For every byte string the check ends. It accepts exactly the well-formed
  // images that require some glibc version and none above 2.38, and it ends
  // without a verdict exactly when its walk reaches a name with a component of
  // more than 4300 digits.
  method ValidateReleaseArtifact(target: string, data: seq<byte>) returns (verdict: Verdict)
    ensures verdict.NotTargeted? <==>
              target != "x86_64-unknown-linux-gnu" && target != "x86_64-steamdeck-linux-gnu"
    ensures verdict.Escapes? <==> Targeted(target) && WalksIntoOverlongName(data)
    ensures verdict.Compatible? <==>
              && Targeted(target) && WellFormed(data)
              && RequiredVersions(Parse(data).value).value != {}
              && forall v :: v in RequiredVersions(Parse(data).value).value ==> AtMost(v, Version(2, 38, 0))
    ensures verdict.Compatible? ==>
              && verdict.maximum in RequiredVersions(Parse(data).value).value
              && forall v :: v in RequiredVersions(Parse(data).value).value ==> AtMost(v, verdict.maximum)
  {
    hide OverlongAt, Chain, AtMost;
    if !Targeted(target) {
      return NotTargeted;
    }
    var parsed := Parse(data);
    if !parsed.Got? {
      return Incompatible;
    }
    var image := parsed.value;
    if !image.wide || !image.little || image.machine != EM_X86_64 {
      return Incompatible;
    }
    var walk := WalkOf(image);
    if !walk.Got? || walk.value.NoRequirements? {
      return Incompatible;
    }
    WalkOverflows(image, walk.value.table, walk.value.start, walk.value.count);
    var versions := WalkRequirements(image, walk.value.table, walk.value.start, walk.value.count);
    if versions.TooManyDigits? {
      return Escapes;
    }
    if versions.Malformed? || versions.value == {} {
      return Incompatible;
    }
    verdict := JudgeVersions(versions.value);
  }

  method JudgeVersions(versions: set<Version>) returns (verdict: Verdict)
    requires versions != {}
    ensures verdict.Compatible? || verdict.Incompatible?
    ensures verdict.Compatible? <==> forall v :: v in versions ==> AtMost(v, CEILING)
    ensures verdict.Compatible? ==>
              verdict.maximum in versions && forall v :: v in versions ==> AtMost(v, verdict.maximum)
  {
    var maximum := Maximum(versions);
    if !AtMost(maximum, CEILING) {
      return Incompatible;
    }
    return Compatible(maximum);
  }

  // What acceptance means for the entries in the file: no auxiliary of any
  // requirement names a glibc version above the ceiling.
  lemma AcceptedNamesAreBelowCeiling(image: Image, walk: Walk, i: nat, version: Version)
    requires InFile(image.segments, |image.data|)
    ensures && WalkOf(image) == Got(walk) && walk.Requirements? && i < walk.count
            && RequiredVersions(image).Got?
            && (forall v :: v in RequiredVersions(image).value ==> AtMost(v, CEILING))
            && RequiredBy(image, walk.table, walk.start, i, version)
            ==> AtMost(version, CEILING)
  {
    hide RequiredBy, Chain, WalkOf;
    if WalkOf(image) != Got(walk) || !walk.Requirements? || walk.count == 0 {
      return;
    }
    WalkIsExact(image, walk.table, walk.start, walk.count, version);
  }
}
