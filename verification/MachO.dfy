// Mach-O UUID location and patching, scripts/package_xemu_macos_runtime.py.
//
// Every Python exception (an explicit RuntimeError as well as the one `struct`
// raises when a field does not fit the data) is an `Error`.

module MachO {
  import opened Bytes

  const MH_MAGIC_64: nat := 0xFEEDFACF
  const FAT_MAGIC: nat := 0xCAFEBABE
  const FAT_MAGIC_64: nat := 0xCAFEBABF
  const LC_UUID: nat := 0x1B
  const CPU_ARM64: nat := 0x0100000C
  const CPU_X86_64: nat := 0x01000007

  datatype Architecture = Arm64 | X86

  datatype Slice = Slice(architecture: Architecture, offset: nat, size: nat)

  datatype Located = Located(architecture: Architecture, offset: nat)

  function Cpu(cpuType: nat): Result<Architecture> {
    if cpuType == CPU_ARM64 then Ok(Arm64)
    else if cpuType == CPU_X86_64 then Ok(X86)
    else Error("CPU type differs")
  }

  function Little(data: seq<byte>, offset: nat): Result<nat> {
    if offset + 4 <= |data| then Ok(LittleEndian(data[offset..offset + 4])) else Error("field does not fit")
  }

  function Big(data: seq<byte>, offset: nat, width: nat): Result<nat> {
    if offset + width <= |data| then Ok(BigEndian(data[offset..offset + width])) else Error("field does not fit")
  }

  // ---------------------------------------------------------------------
  // Slices

  // One entry of the universal header.
  function FatEntry(data: seq<byte>, wide: bool, tableEnd: nat, position: nat): Result<Slice> {
    var cpuType :- Big(data, position, 4);
    var architecture :- Cpu(cpuType);
    var width := if wide then 8 else 4;
    var offset :- Big(data, position + 8, width);
    var size :- Big(data, position + 8 + width, width);
    if offset < tableEnd || size < 32 || offset + size > |data| then Error("slice is invalid")
    else Ok(Slice(architecture, offset, size))
  }

  function FatEntries(data: seq<byte>, wide: bool, tableEnd: nat, position: nat, count: nat): (r: Result<seq<Slice>>)
    ensures r.Ok? ==> |r.value| == count
    decreases count
  {
    if count == 0 then Ok([])
    else
      var first :- FatEntry(data, wide, tableEnd, position);
      var rest :- FatEntries(data, wide, tableEnd, position + (if wide then 32 else 20), count - 1);
      Ok([first] + rest)
  }

  predicate DistinctArchitectures(slices: seq<Slice>) {
    forall i, j :: 0 <= i < j < |slices| ==> slices[i].architecture != slices[j].architecture
  }

  function Slices(data: seq<byte>): Result<seq<Slice>> {
    if |data| < 8 then Error("header is truncated")
    else if LittleEndian(data[0..4]) == MH_MAGIC_64 then
      var architecture :- Cpu(LittleEndian(data[4..8]));
      Ok([Slice(architecture, 0, |data|)])
    else
      var magic, count := BigEndian(data[0..4]), BigEndian(data[4..8]);
      if (magic != FAT_MAGIC && magic != FAT_MAGIC_64) || count < 1 then Error("unsupported header")
      else
        var wide := magic == FAT_MAGIC_64;
        var tableEnd := 8 + count * (if wide then 32 else 20);
        if tableEnd > |data| then Error("universal header is truncated")
        else
          var slices :- FatEntries(data, wide, tableEnd, 8, count);
          if DistinctArchitectures(slices) then Ok(slices) else Error("duplicate architectures")
  }

  // ---------------------------------------------------------------------
  // Load commands

  // The payload offsets of the LC_UUID commands among `count` load commands
  // that start at `position` and must end exactly at `end`.
  function Commands(data: seq<byte>, position: nat, end: nat, count: nat): Result<seq<nat>>
    decreases count
  {
    if count == 0 then if position == end then Ok([]) else Error("load commands do not fill their area")
    else if position + 8 > end then Error("load command is truncated")
    else
      var command :- Little(data, position);
      var size :- Little(data, position + 4);
      if size < 8 || position + size > end then Error("load command is invalid")
      else if command == LC_UUID && size != 24 then Error("LC_UUID is invalid")
      else
        var rest :- Commands(data, position + size, end, count - 1);
        Ok(if command == LC_UUID then [position + 8] + rest else rest)
  }

  function SliceUuid(data: seq<byte>, slice: Slice): Result<nat> {
    var magic :- Little(data, slice.offset);
    if magic != MH_MAGIC_64 then Error("slice is not 64-bit Mach-O")
    else
      var count :- Little(data, slice.offset + 16);
      var bytes :- Little(data, slice.offset + 20);
      var begin := slice.offset + 32;
      if begin + bytes > slice.offset + slice.size then Error("load commands are invalid")
      else
        var offsets :- Commands(data, begin, begin + bytes, count);
        if |offsets| == 1 then Ok(offsets[0]) else Error("there must be exactly one LC_UUID")
  }

  function SliceUuids(data: seq<byte>, slices: seq<Slice>): (r: Result<seq<Located>>)
    ensures r.Ok? ==> |r.value| == |slices|
  {
    if slices == [] then Ok([])
    else
      var offset :- SliceUuid(data, slices[0]);
      var rest :- SliceUuids(data, slices[1..]);
      Ok([Located(slices[0].architecture, offset)] + rest)
  }

  // Where each architecture keeps its UUID, in the order of the slices.
  function UuidOffsets(data: seq<byte>): Result<seq<Located>> {
    var slices :- Slices(data);
    SliceUuids(data, slices)
  }

  function Uuids(data: seq<byte>): Result<seq<(Architecture, seq<byte>)>> {
    var located :- UuidOffsets(data);
    if forall i :: 0 <= i < |located| ==> located[i].offset + 16 <= |data| then
      Ok(seq(|located|, i requires 0 <= i < |located| =>
               (located[i].architecture, data[located[i].offset..located[i].offset + 16])))
    else Error("UUID does not fit")
  }

  // ---------------------------------------------------------------------
  // The loops of the parser, proved against the recursive functions

  method ParseSlice(data: seq<byte>, slice: Slice) returns (r: Result<nat>)
    ensures r.Ok? <==> SliceUuid(data, slice).Ok?
    ensures r.Ok? ==> r == SliceUuid(data, slice)
  {
    hide Little;
    var magic := Little(data, slice.offset);
    if magic.Error? || magic.value != MH_MAGIC_64 {
      return Error("slice is not 64-bit Mach-O");
    }
    var count, bytes := Little(data, slice.offset + 16), Little(data, slice.offset + 20);
    if count.Error? || bytes.Error? {
      return Error("field does not fit");
    }
    var position: nat := slice.offset + 32;
    var end: nat := position + bytes.value;
    if end > slice.offset + slice.size {
      return Error("load commands are invalid");
    }
    ghost var all := Commands(data, position, end, count.value);
    var offsets: seq<nat> := [];
    var remaining: nat := count.value;
    while remaining > 0
      invariant 0 <= remaining <= count.value
      invariant all.Ok? <==> Commands(data, position, end, remaining).Ok?
      invariant all.Ok? ==> all.value == offsets + Commands(data, position, end, remaining).value
    {
      if position + 8 > end {
        return Error("load command is truncated");
      }
      var command, size := Little(data, position), Little(data, position + 4);
      if command.Error? || size.Error? || size.value < 8 || position + size.value > end {
        return Error("load command is invalid");
      }
      if command.value == LC_UUID {
        if size.value != 24 {
          return Error("LC_UUID is invalid");
        }
        offsets := offsets + [position + 8];
      }
      position := position + size.value;
      remaining := remaining - 1;
    }
    if position != end || |offsets| != 1 {
      return Error("there must be exactly one LC_UUID");
    }
    return Ok(offsets[0]);
  }

  method ParseUuids(data: seq<byte>) returns (r: Result<seq<Located>>)
    ensures r.Ok? <==> UuidOffsets(data).Ok?
    ensures r.Ok? ==> r == UuidOffsets(data)
  {
    var slices := Slices(data);
    if slices.Error? {
      return Error(slices.message);
    }
    var located: seq<Located> := [];
    var i := 0;
    assert slices.value[0..] == slices.value;
    while i < |slices.value|
      invariant 0 <= i <= |slices.value|
      invariant UuidOffsets(data).Ok? <==> SliceUuids(data, slices.value[i..]).Ok?
      invariant UuidOffsets(data).Ok? ==>
                  UuidOffsets(data).value == located + SliceUuids(data, slices.value[i..]).value
    {
      var offset := ParseSlice(data, slices.value[i]);
      if offset.Error? {
        return Error(offset.message);
      }
      located := located + [Located(slices.value[i].architecture, offset.value)];
      assert slices.value[i..][1..] == slices.value[i + 1..];
      i := i + 1;
    }
    assert slices.value[i..] == [];
    assert located + [] == located;
    return Ok(located);
  }

  // ---------------------------------------------------------------------
  // Patching

  function Patched(data: seq<byte>, offset: nat, payload: seq<byte>): (r: seq<byte>)
    requires offset + |payload| <= |data|
    ensures |r| == |data|
    ensures r[offset..offset + |payload|] == payload
    ensures forall i :: 0 <= i < |data| && !(offset <= i < offset + |payload|) ==> r[i] == data[i]
  {
    data[..offset] + payload + data[offset + |payload|..]
  }

  // Every located payload lies inside its load-command area, behind the eight
  // header bytes of its command.
  lemma {:induction false} PayloadsAreInside(data: seq<byte>, position: nat, end: nat, count: nat)
    requires Commands(data, position, end, count).Ok?
    ensures forall u :: u in Commands(data, position, end, count).value ==> position + 8 <= u && u + 16 <= end
    decreases count
  {
    if count > 0 {
      var size := Little(data, position + 4).value;
      PayloadsAreInside(data, position + size, end, count - 1);
    }
  }

  // Overwriting a located payload leaves every load-command header alone, so
  // the walk over the commands is unchanged.
  lemma {:induction false} PatchKeepsCommands(
    data: seq<byte>, position: nat, end: nat, count: nat, offset: nat, payload: seq<byte>)
    requires Commands(data, position, end, count).Ok? && end <= |data|
    requires |payload| == 16 && offset + 16 <= end
    requires offset in Commands(data, position, end, count).value || offset + 16 <= position
    ensures Commands(Patched(data, offset, payload), position, end, count) == Commands(data, position, end, count)
    decreases count
  {
    var after := Patched(data, offset, payload);
    PayloadsAreInside(data, position, end, count);
    if count > 0 {
      var size := Little(data, position + 4).value;
      assert after[position..position + 4] == data[position..position + 4];
      assert after[position + 4..position + 8] == data[position + 4..position + 8];
      PatchKeepsCommands(data, position + size, end, count - 1, offset, payload);
    }
  }

  lemma PatchKeepsSlice(data: seq<byte>, slice: Slice, payload: seq<byte>)
    requires |payload| == 16 && slice.offset + slice.size <= |data|
    requires SliceUuid(data, slice).Ok?
    ensures var offset := SliceUuid(data, slice).value;
            && slice.offset + 40 <= offset && offset + 16 <= slice.offset + slice.size
            && SliceUuid(Patched(data, offset, payload), slice) == SliceUuid(data, slice)
  {
    var offset := SliceUuid(data, slice).value;
    var begin := slice.offset + 32;
    var count, bytes := Little(data, slice.offset + 16).value, Little(data, slice.offset + 20).value;
    assert offset in Commands(data, begin, begin + bytes, count).value;
    PayloadsAreInside(data, begin, begin + bytes, count);
    var after := Patched(data, offset, payload);
    assert after[slice.offset..slice.offset + 4] == data[slice.offset..slice.offset + 4];
    assert after[slice.offset + 16..slice.offset + 20] == data[slice.offset + 16..slice.offset + 20];
    assert after[slice.offset + 20..slice.offset + 24] == data[slice.offset + 20..slice.offset + 24];
    PatchKeepsCommands(data, begin, begin + bytes, count, offset, payload);
  }

  // The universal header is read only in front of `tableEnd`.
  lemma {:induction false} HeaderDecidesEntries(
    data: seq<byte>, after: seq<byte>, wide: bool, tableEnd: nat, position: nat, count: nat)
    requires |after| == |data| && tableEnd <= |data|
    requires position + count * (if wide then 32 else 20) <= tableEnd
    requires after[..tableEnd] == data[..tableEnd]
    ensures FatEntries(after, wide, tableEnd, position, count) == FatEntries(data, wide, tableEnd, position, count)
    ensures FatEntries(data, wide, tableEnd, position, count).Ok? ==>
              forall s :: s in FatEntries(data, wide, tableEnd, position, count).value ==>
                tableEnd <= s.offset && s.offset + s.size <= |data|
    decreases count
  {
    hide Big;
    if count > 0 {
      var width := if wide then 8 else 4;
      SameField(data, after, tableEnd, position, 4);
      SameField(data, after, tableEnd, position + 8, width);
      SameField(data, after, tableEnd, position + 8 + width, width);
      HeaderDecidesEntries(data, after, wide, tableEnd, position + (if wide then 32 else 20), count - 1);
    }
  }

  lemma SameField(data: seq<byte>, after: seq<byte>, limit: nat, offset: nat, width: nat)
    requires offset + width <= limit <= |data| == |after|
    requires after[..limit] == data[..limit]
    ensures after[offset..offset + width] == data[offset..offset + width]
    ensures Big(after, offset, width) == Big(data, offset, width)
  {
    assert after[offset..offset + width] == after[..limit][offset..offset + width];
    assert data[offset..offset + width] == data[..limit][offset..offset + width];
  }

  // A patch inside the one slice of an image, behind its header, is not seen
  // by the slice table.
  lemma PatchKeepsSlices(data: seq<byte>, offset: nat, payload: seq<byte>)
    requires Slices(data).Ok? && |Slices(data).value| == 1
    requires |payload| == 16 && offset + 16 <= |data|
    requires Slices(data).value[0].offset + 8 <= offset
    ensures Slices(Patched(data, offset, payload)) == Slices(data)
    ensures Slices(data).value[0].offset + Slices(data).value[0].size <= |data|
  {
    var after := Patched(data, offset, payload);
    assert after[0..4] == data[0..4] && after[4..8] == data[4..8];
    if LittleEndian(data[0..4]) != MH_MAGIC_64 {
      var wide := BigEndian(data[0..4]) == FAT_MAGIC_64;
      var count := BigEndian(data[4..8]);
      var tableEnd := 8 + count * (if wide then 32 else 20);
      HeaderDecidesEntries(data, data, wide, tableEnd, 8, count);
      assert after[..tableEnd] == data[..tableEnd];
      HeaderDecidesEntries(data, after, wide, tableEnd, 8, count);
    }
  }

  // The lens law. For any image with one architecture that the parser accepts:
  // the located UUID is 16 bytes of the file; overwriting it changes nothing
  // else; the patched image has the same slices and offsets; and reading the
  // UUID back gives what was written.
  lemma PutThenGet(data: seq<byte>, payload: seq<byte>)
    requires UuidOffsets(data).Ok? && |UuidOffsets(data).value| == 1
    requires |payload| == 16
    ensures var located := UuidOffsets(data).value[0];
            && located.offset + 16 <= |data|
            && var after := Patched(data, located.offset, payload);
               && Slices(after) == Slices(data)
               && UuidOffsets(after) == UuidOffsets(data)
               && Uuids(after) == Ok([(located.architecture, payload)])
  {
    var slice := Slices(data).value[0];
    SingleSlice(data);
    PatchKeepsSlice(data, slice, payload);
    var located := UuidOffsets(data).value[0];
    PatchKeepsSlices(data, located.offset, payload);
    var after := Patched(data, located.offset, payload);
    assert SliceUuids(after, [slice][1..]) == Ok([]);
    assert UuidOffsets(after).value == UuidOffsets(data).value == [located];
    assert Uuids(after).value == [(located.architecture, payload)];
  }

  lemma SingleSlice(data: seq<byte>)
    requires UuidOffsets(data).Ok? && |UuidOffsets(data).value| == 1
    ensures Slices(data).Ok? && |Slices(data).value| == 1
    ensures var slice := Slices(data).value[0];
            && slice.offset + slice.size <= |data|
            && SliceUuid(data, slice).Ok?
            && UuidOffsets(data).value == [Located(slice.architecture, SliceUuid(data, slice).value)]
  {
  }

  // The other two lens laws: writing back what is there changes nothing, and
  // of two writes the second alone is visible.
  lemma GetThenPut(data: seq<byte>)
    requires UuidOffsets(data).Ok? && |UuidOffsets(data).value| == 1
    ensures Uuids(data).Ok? && |Uuids(data).value| == 1
    ensures UuidOffsets(data).value[0].offset + 16 <= |data|
    ensures |Uuids(data).value[0].1| == 16
    ensures Patched(data, UuidOffsets(data).value[0].offset, Uuids(data).value[0].1) == data
  {
    PutThenGet(data, seq(16, _ => 0));
  }

  lemma PutTwice(data: seq<byte>, first: seq<byte>, second: seq<byte>)
    requires UuidOffsets(data).Ok? && |UuidOffsets(data).value| == 1
    requires |first| == |second| == 16
    ensures var offset := UuidOffsets(data).value[0].offset;
            && offset + 16 <= |data|
            && Patched(Patched(data, offset, first), offset, second) == Patched(data, offset, second)
  {
    PutThenGet(data, first);
  }

  // `normalize_macho_uuid`: the image must hold just the given architecture.
  // The final read-back comparison of the original never fails.
  method Normalize(data: array<byte>, architecture: Architecture, expected: seq<byte>) returns (normalized: bool)
    requires |expected| == 16
    modifies data
    ensures normalized <==>
              var located := UuidOffsets(old(data[..]));
              located.Ok? && |located.value| == 1 && located.value[0].architecture == architecture
    ensures !normalized ==> data[..] == old(data[..])
    ensures normalized ==>
              var offset := UuidOffsets(old(data[..])).value[0].offset;
              && offset + 16 <= |old(data[..])|
              && data[..] == Patched(old(data[..]), offset, expected)
              && Uuids(data[..]) == Ok([(architecture, expected)])
  {
    hide UuidOffsets, Uuids;
    var located := ParseUuids(data[..]);
    if located.Error? || |located.value| != 1 || located.value[0].architecture != architecture {
      return false;
    }
    var offset := located.value[0].offset;
    ghost var before := data[..];
    PutThenGet(before, expected);
    forall i | 0 <= i < 16 {
      data[offset + i] := expected[i];
    }
    assert data[..] == Patched(before, offset, expected);
    var readBack := Uuids(data[..]);
    normalized := readBack == Ok([(architecture, expected)]);
  }
}
