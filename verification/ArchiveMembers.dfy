// The archive member tracker of scripts/release_archive_audit.py.
//
// The portable key of a member (Unicode normalisation and case folding of its
// path) is an unspecified function `keyOf` from names to key strings.

module ArchiveMembers {
  import opened Multisets
  import opened Separators

  datatype Finding = DuplicateName | KeyCollision | FileAncestor | FileDescendants

  datatype Member = Member(name: string, isDirectory: bool)

  // ---------------------------------------------------------------------
  // Keys and their components

  function Components(key: string): seq<string> {
    Split(key, '/')
  }

  predicate ProperPrefix(a: seq<string>, b: seq<string>) {
    |a| < |b| && b[..|a|] == a
  }

  // `a` names a directory that `b` lies under.
  predicate Under(a: string, b: string) {
    ProperPrefix(Components(a), Components(b))
  }

  // Starting with `key` and a slash is the same as lying under it.
  lemma StartsWithIsUnder(key: string, known: string)
    ensures key + "/" <= known <==> Under(key, known)
  {
    if key + "/" <= known {
      var rest := known[|key| + 1..];
      assert known == key + ['/'] + rest;
      SplitConcat(key, '/', rest);
    }
    if Under(key, known) {
      var n := |Components(key)|;
      var rest := Components(known)[n..];
      assert Components(known) == Components(key) + rest;
      SplitJoin(rest, '/');
      SplitConcat(key, '/', Join(rest, '/'));
      JoinSplit(known, '/');
      JoinSplit(key + ['/'] + Join(rest, '/'), '/');
      assert known == key + ['/'] + Join(rest, '/');
    }
  }

  // ---------------------------------------------------------------------
  // One inspection

  datatype State = State(exact: set<string>, portable: map<string, Member>)

  const EMPTY: State := State({}, map[])

  predicate HasFileAncestor(portable: map<string, Member>, key: string) {
    exists ancestor :: ancestor in portable && Under(ancestor, key) && !portable[ancestor].isDirectory
  }

  predicate HasDescendant(portable: map<string, Member>, key: string) {
    exists known :: known in portable && Under(key, known)
  }

  function Collides(s: State, key: string, member: Member): bool {
    key in s.portable && s.portable[key] != member
  }

  function After(s: State, key: string, member: Member): State {
    State(s.exact + {member.name},
          if Collides(s, key, member) then s.portable else s.portable[key := member])
  }

  function Findings(s: State, key: string, member: Member): seq<Finding> {
    var after := After(s, key, member);
    (if member.name in s.exact then [DuplicateName] else [])
    + (if Collides(s, key, member) then [KeyCollision] else [])
    + (if HasFileAncestor(after.portable, key) then [FileAncestor] else [])
    + (if !member.isDirectory && HasDescendant(after.portable, key) then [FileDescendants] else [])
  }

  class ArchiveMemberTracker {
    const keyOf: string -> string
    var exactNames: set<string>
    var portableNames: map<string, Member>

    function Value(): State
      reads this
    {
      State(exactNames, portableNames)
    }

    constructor (keyOf: string -> string)
      ensures Value() == EMPTY && this.keyOf == keyOf
    {
      this.keyOf := keyOf;
      exactNames, portableNames := {}, map[];
    }

    method Inspect(name: string, isDirectory: bool, findings: seq<Finding>) returns (extended: seq<Finding>)
      modifies this
      ensures Value() == After(old(Value()), keyOf(name), Member(name, isDirectory))
      ensures extended == findings + Findings(old(Value()), keyOf(name), Member(name, isDirectory))
    {
      var key := keyOf(name);
      extended := RecordNames(name, key, isDirectory, findings);
      var blocked := FindFileAncestor(key);
      if blocked {
        extended := extended + [FileAncestor];
      }
      if !isDirectory {
        var occupied := FindDescendant(key);
        if occupied {
          extended := extended + [FileDescendants];
        }
      }
    }

    method RecordNames(name: string, key: string, isDirectory: bool, findings: seq<Finding>)
      returns (extended: seq<Finding>)
      modifies this
      ensures Value() == After(old(Value()), key, Member(name, isDirectory))
      ensures extended == findings
                + (if name in old(exactNames) then [DuplicateName] else [])
                + (if Collides(old(Value()), key, Member(name, isDirectory)) then [KeyCollision] else [])
    {
      extended := findings;
      if name in exactNames {
        extended := extended + [DuplicateName];
      } else {
        exactNames := exactNames + {name};
      }
      assert exactNames == old(exactNames) + {name};
      if key in portableNames && portableNames[key] != Member(name, isDirectory) {
        extended := extended + [KeyCollision];
      } else {
        portableNames := portableNames[key := Member(name, isDirectory)];
      }
    }

    method FindDescendant(key: string) returns (found: bool)
      ensures found == HasDescendant(portableNames, key)
    {
      forall known | known in portableNames
        ensures known != key && key + "/" <= known <==> Under(key, known)
      {
        StartsWithIsUnder(key, known);
      }
      found := exists known :: known in portableNames && known != key && key + "/" <= known;
    }

    // The loop over the proper ancestors of `key`, nearest the root first.
    method FindFileAncestor(key: string) returns (found: bool)
      ensures found == HasFileAncestor(portableNames, key)
    {
      var parts := if key == "" then [] else Components(key);
      var depth := 1;
      while depth < |parts|
        invariant 1 <= depth
        invariant forall d :: 1 <= d < depth && d < |parts| ==>
                    !(Join(parts[..d], '/') in portableNames && !portableNames[Join(parts[..d], '/')].isDirectory)
      {
        var ancestor := Join(parts[..depth], '/');
        if ancestor in portableNames && !portableNames[ancestor].isDirectory {
          SplitJoin(parts[..depth], '/');
          assert Under(ancestor, key);
          return true;
        }
        depth := depth + 1;
      }
      forall ancestor | ancestor in portableNames && Under(ancestor, key)
        ensures portableNames[ancestor].isDirectory
      {
        JoinSplit(ancestor, '/');
        assert parts[..|Components(ancestor)|] == Components(ancestor);
      }
      return false;
    }
  }

  // ---------------------------------------------------------------------
  // A whole archive

  function Run(keyOf: string -> string, members: seq<Member>): (r: (State, seq<Finding>)) {
    if members == [] then (EMPTY, [])
    else
      var before := Run(keyOf, members[..|members| - 1]);
      var last := members[|members| - 1];
      (After(before.0, keyOf(last.name), last),
       before.1 + Findings(before.0, keyOf(last.name), last))
  }

  method InspectAll(keyOf: string -> string, members: seq<Member>) returns (findings: seq<Finding>)
    ensures findings == Run(keyOf, members).1
  {
    var tracker := new ArchiveMemberTracker(keyOf);
    findings := [];
    for i := 0 to |members|
      invariant tracker.keyOf == keyOf
      invariant (tracker.Value(), findings) == Run(keyOf, members[..i])
    {
      assert members[..i + 1][..i] == members[..i];
      findings := tracker.Inspect(members[i].name, members[i].isDirectory, findings);
    }
    assert members[..|members|] == members;
  }

  // What a clean archive is, without reference to any order.
  ghost predicate Clean(keyOf: string -> string, members: seq<Member>) {
    && (forall i, j :: 0 <= i < j < |members| ==> members[i].name != members[j].name)
    && (forall i, j :: 0 <= i < j < |members| ==> keyOf(members[i].name) != keyOf(members[j].name))
    && (forall i, j :: 0 <= i < |members| && 0 <= j < |members| && !members[i].isDirectory ==>
          !Under(keyOf(members[i].name), keyOf(members[j].name)))
  }

  // What the tracker holds after a clean list.
  ghost predicate Holds(keyOf: string -> string, members: seq<Member>, s: State) {
    && (forall name :: name in s.exact <==> exists i :: 0 <= i < |members| && members[i].name == name)
    && (forall key :: key in s.portable ==>
          exists i :: 0 <= i < |members| && keyOf(members[i].name) == key && s.portable[key] == members[i])
    && (forall i :: 0 <= i < |members| ==>
          keyOf(members[i].name) in s.portable && s.portable[keyOf(members[i].name)] == members[i])
  }

  lemma CleanStep(keyOf: string -> string, members: seq<Member>, last: Member, s: State)
    requires Clean(keyOf, members) && Holds(keyOf, members, s)
    ensures Findings(s, keyOf(last.name), last) == [] <==> Clean(keyOf, members + [last])
    ensures Clean(keyOf, members + [last]) ==> Holds(keyOf, members + [last], After(s, keyOf(last.name), last))
  {
    if Clean(keyOf, members + [last]) {
      CleanLastIsNew(keyOf, members, last, s);
      HoldsStep(keyOf, members, last, s);
      NoFindings(keyOf, members, last, s);
    } else if Findings(s, keyOf(last.name), last) == [] {
      FindingsCatch(keyOf, members, last, s);
    }
  }

  lemma CleanLastIsNew(keyOf: string -> string, members: seq<Member>, last: Member, s: State)
    requires Clean(keyOf, members + [last]) && Holds(keyOf, members, s)
    ensures last.name !in s.exact && keyOf(last.name) !in s.portable
  {
    var all := members + [last];
    assert all[|members|] == last;
    assert forall i :: 0 <= i < |members| ==> all[i] == members[i];
  }

  lemma HoldsStep(keyOf: string -> string, members: seq<Member>, last: Member, s: State)
    requires Holds(keyOf, members, s)
    requires keyOf(last.name) !in s.portable
    ensures Holds(keyOf, members + [last], After(s, keyOf(last.name), last))
  {
    var key := keyOf(last.name);
    var all := members + [last];
    var after := After(s, key, last);
    assert all[|members|] == last;
    assert after.portable == s.portable[key := last];
    forall known | known in after.portable
      ensures exists i :: 0 <= i < |all| && keyOf(all[i].name) == known && after.portable[known] == all[i]
    {
      if known == key {
        assert keyOf(all[|members|].name) == known;
      } else {
        var i :| 0 <= i < |members| && keyOf(members[i].name) == known && s.portable[known] == members[i];
        assert keyOf(all[i].name) == known;
      }
    }
    forall name ensures name in after.exact <==> exists i :: 0 <= i < |all| && all[i].name == name {
      if name in s.exact {
        var i :| 0 <= i < |members| && members[i].name == name;
        assert all[i].name == name;
      }
      if name == last.name { assert all[|members|].name == name; }
    }
  }

  lemma NoFindings(keyOf: string -> string, members: seq<Member>, last: Member, s: State)
    requires Clean(keyOf, members + [last]) && Holds(keyOf, members, s)
    requires last.name !in s.exact && keyOf(last.name) !in s.portable
    ensures Findings(s, keyOf(last.name), last) == []
  {
    var key := keyOf(last.name);
    var all := members + [last];
    var after := After(s, key, last);
    HoldsStep(keyOf, members, last, s);
    assert all[|members|] == last;
    forall known | known in after.portable
      ensures Under(known, key) ==> after.portable[known].isDirectory
      ensures Under(key, known) ==> last.isDirectory
    {
      var i :| 0 <= i < |all| && keyOf(all[i].name) == known && after.portable[known] == all[i];
    }
  }

  lemma FindingsCatch(keyOf: string -> string, members: seq<Member>, last: Member, s: State)
    requires Clean(keyOf, members) && Holds(keyOf, members, s)
    requires Findings(s, keyOf(last.name), last) == []
    ensures Clean(keyOf, members + [last])
  {
    var key := keyOf(last.name);
    var all := members + [last];
    var after := After(s, key, last);
    assert last.name !in s.exact;
    assert !Collides(s, key, last);
    forall i | 0 <= i < |members|
      ensures members[i].name != last.name && keyOf(members[i].name) != key
      ensures !members[i].isDirectory ==> !Under(keyOf(members[i].name), key)
      ensures !last.isDirectory ==> !Under(key, keyOf(members[i].name))
    {
      assert keyOf(members[i].name) in s.portable && s.portable[keyOf(members[i].name)] == members[i];
      assert keyOf(members[i].name) in after.portable;
      assert after.portable[keyOf(members[i].name)] == members[i];
    }
    forall i, j | 0 <= i < j < |all|
      ensures all[i].name != all[j].name && keyOf(all[i].name) != keyOf(all[j].name)
    {
    }
    forall i, j | 0 <= i < |all| && 0 <= j < |all| && !all[i].isDirectory
      ensures !Under(keyOf(all[i].name), keyOf(all[j].name))
    {
    }
  }

  lemma CleanPrefix(keyOf: string -> string, members: seq<Member>)
    requires members != [] && Clean(keyOf, members)
    ensures Clean(keyOf, members[..|members| - 1])
  {
  }

  lemma {:induction false} TrackerState(keyOf: string -> string, members: seq<Member>)
    ensures Run(keyOf, members).1 == [] <==> Clean(keyOf, members)
    ensures Clean(keyOf, members) ==> Holds(keyOf, members, Run(keyOf, members).0)
  {
    if members != [] {
      var before, last := members[..|members| - 1], members[|members| - 1];
      assert members == before + [last];
      TrackerState(keyOf, before);
      if Clean(keyOf, before) {
        CleanStep(keyOf, before, last, Run(keyOf, before).0);
      } else if Clean(keyOf, members) {
        CleanPrefix(keyOf, members);
      }
    }
  }

  // Inspecting a whole member list gives no finding exactly when names are
  // distinct, portable keys are distinct, and no key lies under the key of a
  // member that is not a directory.
  lemma NoFindingsMeansClean(keyOf: string -> string, members: seq<Member>)
    ensures Run(keyOf, members).1 == [] <==> Clean(keyOf, members)
  {
    TrackerState(keyOf, members);
  }

  // Hence the clean verdict does not depend on the order of the members.
  lemma VerdictIgnoresOrder(keyOf: string -> string, a: seq<Member>, b: seq<Member>)
    requires multiset(a) == multiset(b)
    ensures Run(keyOf, a).1 == [] <==> Run(keyOf, b).1 == []
  {
    NoFindingsMeansClean(keyOf, a);
    NoFindingsMeansClean(keyOf, b);
    if Clean(keyOf, a) { CleanTransfers(keyOf, a, b); }
    if Clean(keyOf, b) { CleanTransfers(keyOf, b, a); }
  }

  lemma CleanTransfers(keyOf: string -> string, a: seq<Member>, b: seq<Member>)
    requires multiset(a) == multiset(b) && Clean(keyOf, a)
    ensures Clean(keyOf, b)
  {
    forall i | 0 <= i < |b| ensures b[i] in a {
      assert b[i] in multiset(b);
    }
    forall i, j | 0 <= i < j < |b|
      ensures b[i].name != b[j].name && keyOf(b[i].name) != keyOf(b[j].name)
    {
      var k :| 0 <= k < |a| && a[k] == b[i];
      var l :| 0 <= l < |a| && a[l] == b[j];
      if k == l {
        CountTwice(b, i, j);
        CountOnce(a, k);
      }
    }
    forall i, j | 0 <= i < |b| && 0 <= j < |b| && !b[i].isDirectory
      ensures !Under(keyOf(b[i].name), keyOf(b[j].name))
    {
      var k :| 0 <= k < |a| && a[k] == b[i];
      var l :| 0 <= l < |a| && a[l] == b[j];
    }
  }
}
