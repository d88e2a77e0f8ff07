// The canonical byte stream of a source tree, scripts/android_source_provenance.py.
//
// The original feeds the stream to SHA-256 piece by piece; the stream itself is
// modelled here. Text is given as its UTF-8 bytes, and every Python exception
// is an `Error`.

module SourceTree {
  import opened Bytes
  import opened Multisets
  import opened Separators

  type Text = seq<byte>

  datatype Kind = File | Symlink | Unsupported

  datatype Entry = Entry(path: Text, kind: Kind, mode: nat, size: int, contentSha256: string, symlinkTarget: Text)

  // What the stream binds for a path.
  datatype Identity = FileIdentity(mode: nat, size: nat, content: seq<byte>) | LinkIdentity(target: Text)

  datatype Prepared = Prepared(path: Text, identity: Identity)

  // ---------------------------------------------------------------------
  // Normalisation

  const MODE_EXECUTABLE: nat := 493 // 0o755
  const MODE_PLAIN: nat := 420 // 0o644
  const MODE_LINK: nat := 511 // 0o777

  // Some execute bit is set.
  predicate Executable(mode: nat) {
    mode % 2 == 1 || (mode / 8) % 2 == 1 || (mode / 64) % 2 == 1
  }

  const SLASH: byte := 47
  const DOT: byte := 46
  const BACKSLASH: byte := 92

  // PurePosixPath: a leading slash makes the path absolute; empty parts and
  // single dots are dropped; what is left is joined again, or is ".".
  predicate Absolute(path: Text) {
    path != [] && path[0] == SLASH
  }

  predicate Named(part: Text) {
    part != [] && part != [DOT]
  }

  function Kept(parts: seq<Text>): (kept: seq<Text>)
    ensures forall part :: part in kept ==> part in parts && Named(part)
  {
    if parts == [] then []
    else if Named(parts[0]) then [parts[0]] + Kept(parts[1..])
    else Kept(parts[1..])
  }

  function Parts(path: Text): seq<Text>
    requires !Absolute(path)
  {
    Kept(Split(path, SLASH))
  }

  function AsPosix(path: Text): Text
    requires !Absolute(path)
  {
    if Parts(path) == [] then [DOT] else Join(Parts(path), SLASH)
  }

  // The check of every path.
  predicate ValidPath(path: Text) {
    && path != [] && BACKSLASH !in path && !Absolute(path)
    && AsPosix(path) == path
    && forall part :: part in Parts(path) ==> part != [] && part != [DOT] && part != [DOT, DOT]
  }

  // Relative, normal and free of dot parts, read off the path itself.
  predicate NormalPath(path: Text) {
    BACKSLASH !in path && forall part :: part in Split(path, SLASH) ==> Named(part) && part != [DOT, DOT]
  }

  lemma {:induction false} KeptAll(parts: seq<Text>)
    requires forall part :: part in parts ==> Named(part)
    ensures Kept(parts) == parts
  {
    if parts != [] {
      KeptAll(parts[1..]);
      assert parts == [parts[0]] + parts[1..];
    }
  }

  // The check is meant to accept the normal paths only, and accepts one more:
  // the path "." has no parts to reject.
  lemma AcceptedPaths(path: Text)
    ensures ValidPath(path) <==> NormalPath(path) || path == [DOT]
  {
    JoinSplit(path, SLASH);
    if path == [DOT] {
      SplitAtom(path, SLASH);
      assert Kept([[DOT]]) == Kept([[DOT]][1..]) == [];
    }
    if NormalPath(path) {
      KeptAll(Split(path, SLASH));
      FirstPart(path);
    }
    if ValidPath(path) && path != [DOT] {
      SplitJoin(Parts(path), SLASH);
    }
  }

  lemma FirstPart(path: Text)
    ensures path == [] || Absolute(path) ==> [] in Split(path, SLASH)
  {
    assert path == [] || Absolute(path) ==> Split(path, SLASH)[0] == [];
  }

  // So an accepted path is relative, normal and free of dot parts exactly
  // when it is not ".".
  lemma DotIsTheOnlyException(path: Text)
    ensures ValidPath(path) ==> (NormalPath(path) <==> path != [DOT])
    ensures ValidPath([DOT])
  {
    AcceptedPaths(path);
    AcceptedPaths([DOT]);
    SplitAtom([DOT], SLASH);
  }

  predicate HexDigit(c: char) {
    '0' <= c <= '9' || 'a' <= c <= 'f'
  }

  function HexValue(c: char): (v: nat)
    requires HexDigit(c)
    ensures v < 16
  {
    if c <= '9' then c as int - '0' as int else c as int - 'a' as int + 10
  }

  predicate HexText(text: string) {
    |text| % 2 == 0 && forall c :: c in text ==> HexDigit(c)
  }

  function FromHex(text: string): (content: seq<byte>)
    requires HexText(text)
    ensures |content| * 2 == |text|
  {
    if text == [] then []
    else
      assert forall c :: c in text[2..] ==> c in text;
      [HexValue(text[0]) * 16 + HexValue(text[1])] + FromHex(text[2..])
  }

  function Prepare(entry: Entry): Result<Prepared> {
    if !ValidPath(entry.path) then Error("invalid component source path")
    else if entry.kind.Unsupported? then Error("unsupported member type")
    else if entry.kind.File? then
      if entry.size < 0 || |entry.contentSha256| != 64 || !HexText(entry.contentSha256)
         || entry.symlinkTarget != []
      then Error("invalid regular-file identity")
      else
        Ok(Prepared(entry.path, FileIdentity(
          if Executable(entry.mode) then MODE_EXECUTABLE else MODE_PLAIN,
          entry.size, FromHex(entry.contentSha256))))
    else if entry.size != 0 || entry.contentSha256 != "" || entry.symlinkTarget == []
            || 0 in entry.symlinkTarget
    then Error("invalid symlink identity")
    else Ok(Prepared(entry.path, LinkIdentity(entry.symlinkTarget)))
  }

  function PrepareAll(entries: seq<Entry>): Result<seq<Prepared>> {
    if entries == [] then Ok([])
    else
      var first :- Prepare(entries[0]);
      var rest :- PrepareAll(entries[1..]);
      Ok([first] + rest)
  }

  // ---------------------------------------------------------------------
  // Order

  // Python's order on byte strings.
  predicate Before(a: Text, b: Text) {
    if b == [] then false
    else if a == [] then true
    else a[0] < b[0] || (a[0] == b[0] && Before(a[1..], b[1..]))
  }

  lemma {:induction false} BeforeIsTotal(a: Text, b: Text)
    ensures a == b || Before(a, b) || Before(b, a)
    ensures !(Before(a, b) && Before(b, a)) && !Before(a, a)
  {
    if a != [] && b != [] {
      BeforeIsTotal(a[1..], b[1..]);
      assert a == [a[0]] + a[1..] && b == [b[0]] + b[1..];
    }
    if a != [] { BeforeIrreflexive(a); }
  }

  lemma {:induction false} BeforeIrreflexive(a: Text)
    ensures !Before(a, a)
  {
    if a != [] {
      BeforeIrreflexive(a[1..]);
    }
  }

  lemma {:induction false} BeforeIsTransitive(a: Text, b: Text, c: Text)
    requires Before(a, b) && Before(b, c)
    ensures Before(a, c)
  {
    if a != [] && a[0] == b[0] == c[0] {
      BeforeIsTransitive(a[1..], b[1..], c[1..]);
    }
  }

  function Insert(item: Prepared, sorted: seq<Prepared>): seq<Prepared> {
    if sorted == [] || !Before(sorted[0].path, item.path) then [item] + sorted
    else [sorted[0]] + Insert(item, sorted[1..])
  }

  function SortByPath(items: seq<Prepared>): seq<Prepared> {
    if items == [] then [] else Insert(items[0], SortByPath(items[1..]))
  }

  predicate Sorted(items: seq<Prepared>) {
    forall i :: 0 <= i < |items| - 1 ==> !Before(items[i + 1].path, items[i].path)
  }

  predicate StrictlySorted(items: seq<Prepared>) {
    forall i :: 0 <= i < |items| - 1 ==> Before(items[i].path, items[i + 1].path)
  }

  lemma {:induction false} InsertSorts(item: Prepared, sorted: seq<Prepared>)
    requires Sorted(sorted)
    ensures Sorted(Insert(item, sorted))
    ensures multiset(Insert(item, sorted)) == multiset(sorted) + multiset{item}
    ensures Insert(item, sorted) != []
    ensures Insert(item, sorted)[0] == item || (sorted != [] && Insert(item, sorted)[0] == sorted[0])
  {
    if sorted == [] || !Before(sorted[0].path, item.path) {
    } else {
      var rest := Insert(item, sorted[1..]);
      InsertSorts(item, sorted[1..]);
      BeforeIsTotal(sorted[0].path, item.path);
      assert sorted == [sorted[0]] + sorted[1..];
      forall i | 0 <= i < |rest| ensures !Before(([sorted[0]] + rest)[i + 1].path, ([sorted[0]] + rest)[i].path) {
        if i > 0 {
          assert !Before(rest[i - 1 + 1].path, rest[i - 1].path);
        }
      }
    }
  }

  lemma {:induction false} SortSorts(items: seq<Prepared>)
    ensures Sorted(SortByPath(items))
    ensures multiset(SortByPath(items)) == multiset(items)
  {
    hide Before, Insert;
    if items != [] {
      SortSorts(items[1..]);
      InsertSorts(items[0], SortByPath(items[1..]));
      assert items == [items[0]] + items[1..];
    }
  }

  lemma {:induction false} StrictlySortedApart(items: seq<Prepared>, i: nat, j: nat)
    requires StrictlySorted(items) && i < j < |items|
    ensures Before(items[i].path, items[j].path)
  {
    if i + 1 < j {
      StrictlySortedApart(items, i, j - 1);
      BeforeIsTransitive(items[i].path, items[j - 1].path, items[j].path);
    }
  }

  // ---------------------------------------------------------------------
  // The stream

  const HEADER: Text := // "GDOX Android source tree v1" and a zero byte
    [71, 68, 79, 88, 32, 65, 110, 100, 114, 111, 105, 100, 32, 115, 111, 117, 114, 99, 101, 32,
     116, 114, 101, 101, 32, 118, 49, 0]

  const LENGTH_LIMIT: nat := Power256(8)

  // A length-framed field.
  function Frame(value: Text): seq<byte>
    requires |value| < LENGTH_LIMIT
  {
    ToBigEndian(|value|, 8) + value
  }

  // Lengths and sizes must fit their eight-byte fields.
  predicate Fits(item: Prepared) {
    && |item.path| < LENGTH_LIMIT
    && match item.identity
       case FileIdentity(mode, size, content) => mode < Power256(2) && size < LENGTH_LIMIT && |content| == 32
       case LinkIdentity(target) => |target| < LENGTH_LIMIT
  }

  const TAG_FILE: byte := 70
  const TAG_LINK: byte := 76

  function IdentityBytes(identity: Identity): seq<byte>
    requires identity.FileIdentity? ==> identity.mode < Power256(2) && identity.size < LENGTH_LIMIT
    requires identity.LinkIdentity? ==> |identity.target| < LENGTH_LIMIT
  {
    match identity
    case FileIdentity(mode, size, content) =>
      [TAG_FILE] + ToBigEndian(mode, 2) + ToBigEndian(size, 8) + content
    case LinkIdentity(target) =>
      Mode511Fits();
      [TAG_LINK] + ToBigEndian(MODE_LINK, 2) + Frame(target)
  }

  lemma Mode511Fits()
    ensures MODE_LINK < Power256(2) && MODE_PLAIN < Power256(2) && MODE_EXECUTABLE < Power256(2)
  {
  }

  function Record(item: Prepared): (r: seq<byte>)
    requires Fits(item)
    ensures |r| >= 8
  {
    Frame(item.path) + IdentityBytes(item.identity)
  }

  // The records of sorted items; a path equal to its predecessor is refused.
  function RecordsAfter(previous: Option<Text>, items: seq<Prepared>): Result<seq<byte>>
    decreases |items|
  {
    if items == [] then Ok([])
    else if previous == Some(items[0].path) then Error("duplicate component path")
    else if !Fits(items[0]) then Error("length does not fit eight bytes")
    else
      var rest :- RecordsAfter(Some(items[0].path), items[1..]);
      Ok(Record(items[0]) + rest)
  }

  function Records(items: seq<Prepared>): Result<seq<byte>> {
    RecordsAfter(None, items)
  }

  function Stream(entries: seq<Entry>): Result<seq<byte>> {
    var prepared :- PrepareAll(entries);
    var records :- Records(SortByPath(prepared));
    Ok(HEADER + records)
  }

  method CanonicalStream(entries: seq<Entry>) returns (r: Result<seq<byte>>)
    ensures r.Ok? <==> Stream(entries).Ok?
    ensures r.Ok? ==> r == Stream(entries)
  {
    var prepared: seq<Prepared> := [];
    var i := 0;
    assert entries[0..] == entries;
    while i < |entries|
      invariant 0 <= i <= |entries|
      invariant PrepareAll(entries).Ok? <==> PrepareAll(entries[i..]).Ok?
      invariant PrepareAll(entries).Ok? ==> PrepareAll(entries).value == prepared + PrepareAll(entries[i..]).value
    {
      var item := Prepare(entries[i]);
      if item.Error? {
        return Error(item.message);
      }
      prepared := prepared + [item.value];
      assert entries[i..][1..] == entries[i + 1..];
      i := i + 1;
    }
    assert entries[i..] == [];
    assert prepared + [] == prepared;

    r := FeedRecords(SortByPath(prepared));
  }

  method FeedRecords(items: seq<Prepared>) returns (r: Result<seq<byte>>)
    ensures r.Ok? <==> Records(items).Ok?
    ensures r.Ok? ==> r.value == HEADER + Records(items).value
  {
    var digest := HEADER;
    var previous: Option<Text> := None;
    assert items[0..] == items;
    for i := 0 to |items|
      invariant Records(items).Ok? <==> RecordsAfter(previous, items[i..]).Ok?
      invariant Records(items).Ok? ==>
                  HEADER + Records(items).value == digest + RecordsAfter(previous, items[i..]).value
    {
      var item := items[i];
      assert items[i..][0] == item && items[i..][1..] == items[i + 1..];
      if previous == Some(item.path) {
        return Error("duplicate component path");
      }
      if !Fits(item) {
        return Error("length does not fit eight bytes");
      }
      previous := Some(item.path);
      Associative(digest, Frame(item.path), IdentityBytes(item.identity));
      if Records(items).Ok? {
        Associative(digest, Record(item), RecordsAfter(previous, items[i + 1..]).value);
      }
      digest := digest + Frame(item.path) + IdentityBytes(item.identity);
    }
    assert items[|items|..] == [];
    return Ok(digest);
  }

  // ---------------------------------------------------------------------
  // The stream is defined exactly for valid entries with distinct paths

  ghost predicate DistinctPaths(items: seq<Prepared>) {
    forall i, j :: 0 <= i < j < |items| ==> items[i].path != items[j].path
  }

  predicate AdjacentDiffer(items: seq<Prepared>) {
    forall i :: 0 <= i < |items| - 1 ==> items[i].path != items[i + 1].path
  }

  predicate AllFit(items: seq<Prepared>) {
    forall i :: 0 <= i < |items| ==> Fits(items[i])
  }

  lemma {:induction false} RecordsDefined(previous: Option<Text>, items: seq<Prepared>)
    ensures RecordsAfter(previous, items).Ok? <==>
              && AllFit(items) && AdjacentDiffer(items)
              && (items != [] ==> previous != Some(items[0].path))
    decreases |items|
  {
    if items != [] {
      var rest := items[1..];
      RecordsDefined(Some(items[0].path), rest);
      assert AllFit(items) <==> Fits(items[0]) && AllFit(rest) by {
        assert forall i :: 1 <= i < |items| ==> items[i] == rest[i - 1];
        assert forall i :: 0 <= i < |rest| ==> rest[i] == items[i + 1];
      }
      assert AdjacentDiffer(items) <==> AdjacentDiffer(rest) && (rest != [] ==> items[0].path != rest[0].path) by {
        assert forall i :: 1 <= i < |items| ==> items[i] == rest[i - 1];
        assert forall i :: 0 <= i < |rest| ==> rest[i] == items[i + 1];
      }
    }
  }

  // Comparing each path with its predecessor after sorting finds every
  // duplicate, wherever the two entries stood.
  lemma AdjacentCheckFindsDuplicates(items: seq<Prepared>)
    ensures Records(SortByPath(items)).Ok? <==> DistinctPaths(items) && AllFit(items)
    ensures Records(SortByPath(items)).Ok? ==> StrictlySorted(SortByPath(items))
  {
    var sorted := SortByPath(items);
    SortSorts(items);
    RecordsDefined(None, sorted);
    if AllFit(items) { AllFitTransfers(items, sorted); }
    if AllFit(sorted) { AllFitTransfers(sorted, items); }
    if AdjacentDiffer(sorted) {
      SortedAndDifferent(sorted);
      DistinctTransfers(sorted, items);
    } else {
      if DistinctPaths(items) {
        DistinctTransfers(items, sorted);
      }
    }
  }

  lemma SortedAndDifferent(sorted: seq<Prepared>)
    requires Sorted(sorted) && AdjacentDiffer(sorted)
    ensures StrictlySorted(sorted) && DistinctPaths(sorted)
  {
    forall i | 0 <= i < |sorted| - 1 ensures Before(sorted[i].path, sorted[i + 1].path) {
      BeforeIsTotal(sorted[i].path, sorted[i + 1].path);
    }
    forall i, j | 0 <= i < j < |sorted| ensures sorted[i].path != sorted[j].path {
      StrictlySortedApart(sorted, i, j);
      BeforeIrreflexive(sorted[i].path);
    }
  }

  lemma AllFitTransfers(a: seq<Prepared>, b: seq<Prepared>)
    requires multiset(a) == multiset(b) && AllFit(a)
    ensures AllFit(b)
  {
    SameElements(a, b);
    forall i | 0 <= i < |b| ensures Fits(b[i]) {
      assert b[i] in a;
    }
  }

  lemma SomeElement(items: seq<Prepared>)
    requires items != []
    ensures exists x :: x in items
  {
    assert items[0] in items;
  }

  // A rearrangement of items with distinct paths has distinct paths.
  lemma DistinctTransfers(a: seq<Prepared>, b: seq<Prepared>)
    requires multiset(a) == multiset(b) && DistinctPaths(a)
    ensures DistinctPaths(b)
  {
    SameElements(a, b);
    forall i, j | 0 <= i < j < |b| ensures b[i].path != b[j].path {
      if b[i].path == b[j].path {
        assert b[i] in a && b[j] in a;
        var k :| 0 <= k < |a| && a[k] == b[i];
        var l :| 0 <= l < |a| && a[l] == b[j];
        assert k == l;
        CountTwice(b, i, j);
        CountOnce(a, k);
      }
    }
  }

  // ---------------------------------------------------------------------
  // The stream is a function of the set of normalised entries

  // The first element of a strictly sorted list does not come again.
  lemma InTail(a: seq<Prepared>)
    requires a != [] && StrictlySorted(a)
    ensures forall x :: x in a[1..] <==> x in a && x != a[0]
  {
    hide Before;
    forall x ensures x in a[1..] <==> x in a && x != a[0] {
      assert a == [a[0]] + a[1..];
      if x in a[1..] {
        var k :| 1 <= k < |a| && a[k] == x;
        StrictlySortedApart(a, 0, k);
        BeforeIrreflexive(a[0].path);
      }
    }
  }

  lemma {:induction false} StrictlySortedIsCanonical(a: seq<Prepared>, b: seq<Prepared>)
    requires StrictlySorted(a) && StrictlySorted(b)
    requires forall x :: x in a <==> x in b
    ensures a == b
  {
    hide Before;
    if a == [] {
      if b != [] { SomeElement(b); }
    } else {
      assert a[0] in b;
      assert b != [] && b[0] in a;
      var i :| 0 <= i < |b| && b[i] == a[0];
      var j :| 0 <= j < |a| && a[j] == b[0];
      if i > 0 && j > 0 {
        StrictlySortedApart(b, 0, i);
        StrictlySortedApart(a, 0, j);
        BeforeIsTotal(a[0].path, b[0].path);
      }
      assert a[0] == b[0];
      InTail(a);
      InTail(b);
      StrictlySortedIsCanonical(a[1..], b[1..]);
      assert a == [a[0]] + a[1..] && b == [b[0]] + b[1..];
    }
  }

  // Two trees whose normalised entries form the same set have the same stream,
  // in whatever order and with whatever modes they were listed.
  lemma StreamDependsOnSet(a: seq<Entry>, b: seq<Entry>)
    requires Stream(a).Ok? && Stream(b).Ok?
    requires forall x :: x in PrepareAll(a).value <==> x in PrepareAll(b).value
    ensures Stream(a) == Stream(b)
  {
    var left, right := PrepareAll(a).value, PrepareAll(b).value;
    AdjacentCheckFindsDuplicates(left);
    AdjacentCheckFindsDuplicates(right);
    SortSorts(left);
    SortSorts(right);
    SameElements(left, SortByPath(left));
    SameElements(right, SortByPath(right));
    StrictlySortedIsCanonical(SortByPath(left), SortByPath(right));
  }

  lemma {:induction false} PreparedEntries(entries: seq<Entry>)
    ensures PrepareAll(entries).Ok? <==> forall i :: 0 <= i < |entries| ==> Prepare(entries[i]).Ok?
    ensures PrepareAll(entries).Ok? ==>
              && |PrepareAll(entries).value| == |entries|
              && forall i :: 0 <= i < |entries| ==> Prepare(entries[i]) == Ok(PrepareAll(entries).value[i])
  {
    hide Prepare;
    if entries != [] {
      PreparedEntries(entries[1..]);
      assert forall i :: 1 <= i < |entries| ==> entries[i] == entries[1..][i - 1];
      if PrepareAll(entries).Error? && Prepare(entries[0]).Ok? {
        var i :| 0 <= i < |entries[1..]| && Prepare(entries[1..][i]).Error?;
        assert Prepare(entries[i + 1]).Error?;
      }
    }
  }

  // Reordering a tree never changes its stream, nor whether it has one.
  lemma PermutationInvariance(a: seq<Entry>, b: seq<Entry>)
    requires multiset(a) == multiset(b)
    ensures Stream(a).Ok? <==> Stream(b).Ok?
    ensures Stream(a).Ok? ==> Stream(a) == Stream(b)
  {
    if Stream(a).Ok? {
      PermutedTree(a, b);
    } else if Stream(b).Ok? {
      PermutedTree(b, a);
    }
  }

  lemma PermutedTree(a: seq<Entry>, b: seq<Entry>)
    requires multiset(a) == multiset(b)
    requires Stream(a).Ok?
    ensures Stream(b) == Stream(a)
  {
    var left := PrepareAll(a).value;
    PreparedEntries(a);
    PreparedEntries(b);
    AdjacentCheckFindsDuplicates(left);
    SameElements(a, b);
    forall i | 0 <= i < |b| ensures Prepare(b[i]).Ok? {
      assert b[i] in a;
    }
    var right := PrepareAll(b).value;
    PermutedDistinct(a, b, left, right);
    forall i | 0 <= i < |right| ensures Fits(right[i]) {
      assert b[i] in a;
    }
    AdjacentCheckFindsDuplicates(right);
    PreparedOfSameEntries(a, b, left, right);
    StreamDependsOnSet(a, b);
  }

  lemma PermutedDistinct(a: seq<Entry>, b: seq<Entry>, left: seq<Prepared>, right: seq<Prepared>)
    requires multiset(a) == multiset(b) && |a| == |left| && |b| == |right|
    requires forall i :: 0 <= i < |a| ==> Prepare(a[i]) == Ok(left[i])
    requires forall i :: 0 <= i < |b| ==> Prepare(b[i]) == Ok(right[i])
    requires DistinctPaths(left)
    ensures DistinctPaths(right)
  {
    SameElements(a, b);
    forall i, j | 0 <= i < j < |right| ensures right[i].path != right[j].path {
      if right[i].path == right[j].path {
        assert b[i] in a && b[j] in a;
        var k :| 0 <= k < |a| && a[k] == b[i];
        var l :| 0 <= l < |a| && a[l] == b[j];
        assert left[k].path == right[i].path && left[l].path == right[j].path;
        assert k == l;
        CountTwice(b, i, j);
        CountOnce(a, k);
      }
    }
  }

  lemma PreparedOfSameEntries(a: seq<Entry>, b: seq<Entry>, left: seq<Prepared>, right: seq<Prepared>)
    requires multiset(a) == multiset(b) && |a| == |left| && |b| == |right|
    requires forall i :: 0 <= i < |a| ==> Prepare(a[i]) == Ok(left[i])
    requires forall i :: 0 <= i < |b| ==> Prepare(b[i]) == Ok(right[i])
    ensures forall x :: x in left <==> x in right
  {
    SameElements(a, b);
    forall x ensures x in left <==> x in right {
      if x in left {
        var i :| 0 <= i < |left| && left[i] == x;
        assert a[i] in b;
      }
      if x in right {
        var i :| 0 <= i < |right| && right[i] == x;
        assert b[i] in a;
      }
    }
  }

  // ---------------------------------------------------------------------
  // The stream is uniquely decodable

  lemma Associative(a: seq<byte>, b: seq<byte>, c: seq<byte>)
    ensures (a + b) + c == a + (b + c)
  {
  }

  lemma FrameDecodes(a: Text, b: Text, x: seq<byte>, y: seq<byte>)
    requires |a| < LENGTH_LIMIT && |b| < LENGTH_LIMIT
    requires Frame(a) + x == Frame(b) + y
    ensures a == b && x == y
  {
    var left, right := Frame(a) + x, Frame(b) + y;
    assert left[..8] == ToBigEndian(|a|, 8) && right[..8] == ToBigEndian(|b|, 8);
    BigEndianRoundTrip(|a|, 8);
    BigEndianRoundTrip(|b|, 8);
    assert left[8..8 + |a|] == a && right[8..8 + |b|] == b;
    assert left[8 + |a|..] == x && right[8 + |b|..] == y;
  }

  lemma IdentityDecodes(a: Identity, b: Identity, x: seq<byte>, y: seq<byte>)
    requires a.FileIdentity? ==> a.mode < Power256(2) && a.size < LENGTH_LIMIT && |a.content| == 32
    requires b.FileIdentity? ==> b.mode < Power256(2) && b.size < LENGTH_LIMIT && |b.content| == 32
    requires a.LinkIdentity? ==> |a.target| < LENGTH_LIMIT
    requires b.LinkIdentity? ==> |b.target| < LENGTH_LIMIT
    requires IdentityBytes(a) + x == IdentityBytes(b) + y
    ensures a == b && x == y
  {
    var left, right := IdentityBytes(a) + x, IdentityBytes(b) + y;
    assert left[0] == IdentityBytes(a)[0] && right[0] == IdentityBytes(b)[0];
    if a.FileIdentity? {
      assert b.FileIdentity?;
      FileBytes(a, x);
      FileBytes(b, y);
    } else {
      assert b.LinkIdentity?;
      LinkBytes(a, x);
      LinkBytes(b, y);
      FrameDecodes(a.target, b.target, x, y);
    }
  }

  lemma FiveParts(a: seq<byte>, b: seq<byte>, c: seq<byte>, d: seq<byte>, e: seq<byte>)
    ensures var s := a + b + c + d + e;
            var m, n := |a| + |b|, |a| + |b| + |c|;
            s[|a|..m] == b && s[m..n] == c && s[n..n + |d|] == d && s[n + |d|..] == e
  {
  }

  lemma FileBytes(a: Identity, x: seq<byte>)
    requires a.FileIdentity? && a.mode < Power256(2) && a.size < LENGTH_LIMIT && |a.content| == 32
    ensures var s := IdentityBytes(a) + x;
            && |s| >= 43 && BigEndian(s[1..3]) == a.mode && BigEndian(s[3..11]) == a.size
            && s[11..43] == a.content && s[43..] == x
  {
    var s := IdentityBytes(a) + x;
    BigEndianRoundTrip(a.mode, 2);
    BigEndianRoundTrip(a.size, 8);
    FiveParts([TAG_FILE], ToBigEndian(a.mode, 2), ToBigEndian(a.size, 8), a.content, x);
  }

  lemma LinkBytes(a: Identity, x: seq<byte>)
    requires a.LinkIdentity? && |a.target| < LENGTH_LIMIT
    ensures var s := IdentityBytes(a) + x; |s| >= 3 && s[3..] == Frame(a.target) + x
  {
  }

  lemma RecordDecodes(a: Prepared, b: Prepared, x: seq<byte>, y: seq<byte>)
    requires Fits(a) && Fits(b) && Record(a) + x == Record(b) + y
    ensures a == b && x == y
  {
    var left, right := IdentityBytes(a.identity) + x, IdentityBytes(b.identity) + y;
    Associative(Frame(a.path), IdentityBytes(a.identity), x);
    Associative(Frame(b.path), IdentityBytes(b.identity), y);
    FrameDecodes(a.path, b.path, left, right);
    IdentityDecodes(a.identity, b.identity, x, y);
  }

  lemma {:induction false} RecordsDecode(p: Option<Text>, a: seq<Prepared>, q: Option<Text>, b: seq<Prepared>)
    requires RecordsAfter(p, a).Ok? && RecordsAfter(q, b).Ok?
    requires RecordsAfter(p, a).value == RecordsAfter(q, b).value
    ensures a == b
    decreases |a|
  {
    hide Record, Frame, IdentityBytes, Fits;
    if a != [] && b != [] {
      var x := RecordsAfter(Some(a[0].path), a[1..]).value;
      var y := RecordsAfter(Some(b[0].path), b[1..]).value;
      RecordDecodes(a[0], b[0], x, y);
      RecordsDecode(Some(a[0].path), a[1..], Some(b[0].path), b[1..]);
      assert a == [a[0]] + a[1..] && b == [b[0]] + b[1..];
    }
  }

  // Trees with equal streams bind the same identity to every path: the
  // normalised entries of one are exactly those of the other.
  lemma StreamIsInjective(a: seq<Entry>, b: seq<Entry>)
    requires Stream(a).Ok? && Stream(b).Ok? && Stream(a) == Stream(b)
    ensures forall x :: x in PrepareAll(a).value <==> x in PrepareAll(b).value
    ensures |a| == |b|
  {
    var left, right := PrepareAll(a).value, PrepareAll(b).value;
    var l, r := Records(SortByPath(left)).value, Records(SortByPath(right)).value;
    assert (HEADER + l)[|HEADER|..] == l && (HEADER + r)[|HEADER|..] == r;
    RecordsDecode(None, SortByPath(left), None, SortByPath(right));
    SortSorts(left);
    SortSorts(right);
    SameElements(left, SortByPath(left));
    SameElements(right, SortByPath(right));
    PreparedEntries(a);
    PreparedEntries(b);
    assert |multiset(left)| == |left| && |multiset(right)| == |right|;
  }

  // Which trees have a stream at all.
  lemma StreamDefined(entries: seq<Entry>)
    ensures Stream(entries).Ok? <==>
              && (forall i :: 0 <= i < |entries| ==>
                    Prepare(entries[i]).Ok? && Fits(Prepare(entries[i]).value))
              && (forall i, j :: 0 <= i < j < |entries| ==> entries[i].path != entries[j].path)
  {
    hide ValidPath, HexText, Fits, Prepare;
    PreparedEntries(entries);
    if PrepareAll(entries).Ok? {
      AdjacentCheckFindsDuplicates(PrepareAll(entries).value);
      forall i | 0 <= i < |entries| ensures PrepareAll(entries).value[i].path == entries[i].path {
        PreparedPath(entries[i]);
      }
    }
  }

  lemma PreparedPath(entry: Entry)
    ensures Prepare(entry).Ok? ==> Prepare(entry).value.path == entry.path
  {
    hide ValidPath, HexText;
  }

  // A tree whose one file is called "." has a stream.
  lemma DotTreeHasAStream(mode: nat, size: nat, digest: string)
    requires |digest| == 64 && HexText(digest) && size < LENGTH_LIMIT
    ensures Stream([Entry([DOT], File, mode, size, digest, [])]).Ok? && !NormalPath([DOT])
  {
    var entries := [Entry([DOT], File, mode, size, digest, [])];
    DotIsTheOnlyException([DOT]);
    StreamDefined(entries);
    assert Prepare(entries[0]).Ok? && Fits(Prepare(entries[0]).value);
  }

  // ---------------------------------------------------------------------
  // The bytes themselves

  const HEX_DIGITS: string := "0123456789abcdef"

  function HexChar(value: nat): char
    requires value < 16
  {
    HEX_DIGITS[value]
  }

  // Which entries have an identity at all.
  lemma AcceptedEntries(entry: Entry)
    ensures Prepare(entry).Ok? <==>
              && (NormalPath(entry.path) || entry.path == [46])
              && (|| (&& entry.kind.File? && entry.size >= 0 && entry.symlinkTarget == []
                      && |entry.contentSha256| == 64 && forall c :: c in entry.contentSha256 ==> c in HEX_DIGITS)
                  || (&& entry.kind.Symlink? && entry.size == 0 && entry.contentSha256 == ""
                      && entry.symlinkTarget != [] && 0 !in entry.symlinkTarget))
  {
    AcceptedPaths(entry.path);
    hide ValidPath, NormalPath, FromHex;
    forall c: char ensures HexDigit(c) <==> c in HEX_DIGITS {
      HexDigits(c);
    }
  }

  lemma HexDigits(c: char)
    ensures HexDigit(c) <==> c in HEX_DIGITS
    ensures HexDigit(c) ==> HexChar(HexValue(c)) == c
  {
    if '0' <= c <= '9' {
      assert HEX_DIGITS[c as int - '0' as int] == c;
    } else if 'a' <= c <= 'f' {
      assert HEX_DIGITS[c as int - 'a' as int + 10] == c;
    }
  }

  lemma Nibbles(high: nat, low: nat)
    requires high < 16 && low < 16
    ensures (high * 16 + low) / 16 == high && (high * 16 + low) % 16 == low
  {
  }

  // Each byte is spelt by its two digits.
  lemma {:induction false} HexBytes(text: string, k: nat)
    requires HexText(text) && 2 * k < |text|
    ensures HexChar(FromHex(text)[k] / 16) == text[2 * k] && HexChar(FromHex(text)[k] % 16) == text[2 * k + 1]
    decreases k
  {
    hide HexValue, HexDigit, HexChar;
    assert forall c :: c in text[2..] ==> c in text;
    if k == 0 {
      assert FromHex(text)[0] == HexValue(text[0]) * 16 + HexValue(text[1]);
      Nibbles(HexValue(text[0]), HexValue(text[1]));
      HexDigits(text[0]);
      HexDigits(text[1]);
    } else {
      assert FromHex(text)[k] == FromHex(text[2..])[k - 1];
      HexBytes(text[2..], k - 1);
    }
  }

  lemma OneRecord(entry: Entry)
    requires Stream([entry]).Ok?
    ensures Prepare(entry).Ok? && Fits(Prepare(entry).value) && Prepare(entry).value.path == entry.path
    ensures Stream([entry]).value == HEADER + (Frame(entry.path) + IdentityBytes(Prepare(entry).value.identity))
  {
    hide Prepare, Fits, Frame, IdentityBytes;
    PreparedPath(entry);
    assert [entry][1..] == [];
    var item := Prepare(entry).value;
    assert PrepareAll([]) == Ok([]);
    assert [item] + [] == [item];
    assert PrepareAll([entry]) == Ok([item]);
    OneSorted(item);
  }

  lemma OneSorted(item: Prepared)
    ensures SortByPath([item]) == [item]
    ensures Records([item]).Ok? ==> Fits(item) && Records([item]).value == Record(item)
  {
    hide Fits, Record;
    assert [item][1..] == [];
    assert SortByPath([]) == [];
    assert RecordsAfter(Some(item.path), []) == Ok([]);
    assert Fits(item) ==> Record(item) + [] == Record(item);
  }

  // What every stream of one entry begins with.
  ghost predicate Begins(s: seq<byte>, path: Text) {
    && |s| >= 36 + |path|
    && (forall i :: 0 <= i < 27 ==> s[i] == "GDOX Android source tree v1"[i] as int) && s[27] == 0
    && BigEndian(s[28..36]) == |path| && s[36..36 + |path|] == path
  }

  lemma HeaderText()
    ensures |HEADER| == 28 && HEADER[27] == 0
    ensures forall i :: 0 <= i < 27 ==> HEADER[i] == "GDOX Android source tree v1"[i] as int
  {
  }

  lemma FrontSlices(head: seq<byte>, size: seq<byte>, path: Text, rest: seq<byte>)
    requires |head| == 28 && |size| == 8
    ensures var s := head + ((size + path) + rest);
            && s[..28] == head && s[28..36] == size && s[36..36 + |path|] == path && s[36 + |path|..] == rest
  {
  }

  lemma Beginning(path: Text, rest: seq<byte>)
    requires |path| < LENGTH_LIMIT
    ensures var s := HEADER + (Frame(path) + rest);
            Begins(s, path) && s[36 + |path|..] == rest
  {
    HeaderText();
    FrontSlices(HEADER, ToBigEndian(|path|, 8), path, rest);
    BigEndianRoundTrip(|path|, 8);
    var s := HEADER + (Frame(path) + rest);
    hide BigEndian, ToBigEndian;
    assert forall i :: 0 <= i < 28 ==> s[i] == s[..28][i];
  }

  lemma ModeBytes()
    ensures ToBigEndian(493, 2) == [1, 237] && ToBigEndian(420, 2) == [1, 164] && ToBigEndian(511, 2) == [1, 255]
  {
    assert ToBigEndian(1, 1) == [] + [1];
  }

  // A regular file: the tag, the mode, the size and the digest, byte for byte.
  lemma FileStream(entry: Entry)
    requires entry.kind.File? && Stream([entry]).Ok?
    ensures var s, at := Stream([entry]).value, 36 + |entry.path|;
            && Begins(s, entry.path) && |s| == at + 43 && |entry.contentSha256| == 64
            && s[at] == 'F' as int
            && s[at + 1..at + 3]
               == (if (entry.mode / 64) % 2 + (entry.mode / 8) % 2 + entry.mode % 2 > 0 then [1, 237] else [1, 164])
            && BigEndian(s[at + 3..at + 11]) == entry.size
            && forall k :: 0 <= k < 32 ==>
                 && HexChar(s[at + 11..][k] / 16) == entry.contentSha256[2 * k]
                 && HexChar(s[at + 11..][k] % 16) == entry.contentSha256[2 * k + 1]
  {
    hide Stream, Prepare, ValidPath, IdentityBytes, FromHex, Frame, HexChar, HexText, BigEndian, ToBigEndian;
    OneRecord(entry);
    var item := Prepare(entry).value;
    var rest := IdentityBytes(item.identity);
    FileIdentityOf(entry);
    FileParts(item.identity);
    Beginning(entry.path, rest);
    var s, at := Stream([entry]).value, 36 + |entry.path|;
    Inside(s, at, rest);
    ModeBytes();
    forall k | 0 <= k < 32
      ensures HexChar(s[at + 11..][k] / 16) == entry.contentSha256[2 * k]
      ensures HexChar(s[at + 11..][k] % 16) == entry.contentSha256[2 * k + 1]
    {
      HexBytes(entry.contentSha256, k);
    }
  }

  lemma FileIdentityOf(entry: Entry)
    requires entry.kind.File? && Prepare(entry).Ok?
    ensures entry.size >= 0 && |entry.contentSha256| == 64 && HexText(entry.contentSha256)
    ensures Prepare(entry).value.identity == FileIdentity(
              if (entry.mode / 64) % 2 + (entry.mode / 8) % 2 + entry.mode % 2 > 0 then 493 else 420,
              entry.size, FromHex(entry.contentSha256))
  {
    hide ValidPath, FromHex;
  }

  lemma FileParts(identity: Identity)
    requires identity.FileIdentity? && identity.mode < Power256(2) && identity.size < LENGTH_LIMIT
    requires |identity.content| == 32
    ensures var rest := IdentityBytes(identity);
            && |rest| == 43 && rest[0] == 'F' as int && rest[1..3] == ToBigEndian(identity.mode, 2)
            && BigEndian(rest[3..11]) == identity.size && rest[11..] == identity.content
  {
    BigEndianRoundTrip(identity.size, 8);
    var rest := IdentityBytes(identity);
    FiveParts([TAG_FILE], ToBigEndian(identity.mode, 2), ToBigEndian(identity.size, 8), identity.content, []);
    assert rest + [] == rest;
  }

  // The parts of what lies behind `at`.
  lemma Inside(s: seq<byte>, at: nat, rest: seq<byte>)
    requires at <= |s| && s[at..] == rest && |rest| >= 11
    ensures s[at] == rest[0] && s[at + 1..at + 3] == rest[1..3] && s[at + 3..at + 11] == rest[3..11]
    ensures s[at + 11..] == rest[11..]
  {
  }

  // A symbolic link: the tag, the mode, and the target with its length.
  lemma LinkStream(entry: Entry)
    requires entry.kind.Symlink? && Stream([entry]).Ok?
    ensures var s, at := Stream([entry]).value, 36 + |entry.path|;
            && Begins(s, entry.path) && |s| == at + 11 + |entry.symlinkTarget|
            && s[at] == 'L' as int && s[at + 1..at + 3] == [1, 255]
            && BigEndian(s[at + 3..at + 11]) == |entry.symlinkTarget| && s[at + 11..] == entry.symlinkTarget
  {
    OneRecord(entry);
    var item := Prepare(entry).value;
    assert item.identity == LinkIdentity(entry.symlinkTarget) by { hide ValidPath; }
    var rest := IdentityBytes(item.identity);
    LinkParts(entry.symlinkTarget);
    hide Stream, Prepare, IdentityBytes, Frame;
    Beginning(entry.path, rest);
    Inside(Stream([entry]).value, 36 + |entry.path|, rest);
  }

  lemma LinkParts(target: Text)
    requires |target| < LENGTH_LIMIT
    ensures var rest := IdentityBytes(LinkIdentity(target));
            && |rest| == 11 + |target| && rest[0] == 'L' as int && rest[1..3] == [1, 255]
            && BigEndian(rest[3..11]) == |target| && rest[11..] == target
  {
    hide BigEndian, ToBigEndian;
    Mode511Fits();
    ModeBytes();
    BigEndianRoundTrip(|target|, 8);
    FiveParts([TAG_LINK], ToBigEndian(MODE_LINK, 2), ToBigEndian(|target|, 8), target, []);
    LinkFields(target);
  }

  lemma LinkFields(target: Text)
    requires |target| < LENGTH_LIMIT
    ensures MODE_LINK < Power256(2) && |target| < Power256(8)
    ensures IdentityBytes(LinkIdentity(target))
         == [TAG_LINK] + ToBigEndian(MODE_LINK, 2) + ToBigEndian(|target|, 8) + target + []
  {
    hide BigEndian, ToBigEndian;
    Mode511Fits();
  }

  // The order of the paths: a proper prefix comes first, and otherwise the
  // smaller byte at the first difference.
  lemma {:induction false} BeforeIsLexicographic(a: Text, b: Text)
    ensures Before(a, b) <==>
              a < b || exists i :: 0 <= i < |a| && i < |b| && a[..i] == b[..i] && a[i] < b[i]
  {
    if a != [] && b != [] {
      BeforeIsLexicographic(a[1..], b[1..]);
      assert a == [a[0]] + a[1..] && b == [b[0]] + b[1..];
      forall i | 0 < i <= |a| && i <= |b| && a[..i] == b[..i] ensures a[0] == b[0] {
        assert a[..i][0] == b[..i][0];
      }
      if a[0] == b[0] {
        if i :| 0 <= i < |a[1..]| && i < |b[1..]| && a[1..][..i] == b[1..][..i] && a[1..][i] < b[1..][i] {
          assert a[..i + 1] == [a[0]] + a[1..][..i] && b[..i + 1] == [b[0]] + b[1..][..i];
          assert a[i + 1] < b[i + 1];
        }
        if i :| 0 <= i < |a| && i < |b| && a[..i] == b[..i] && a[i] < b[i] {
          assert i > 0;
          assert a[1..][..i - 1] == a[..i][1..] && b[1..][..i - 1] == b[..i][1..];
          assert a[1..][i - 1] < b[1..][i - 1];
        }
      } else {
        assert a[..0] == b[..0];
      }
    }
  }
}
