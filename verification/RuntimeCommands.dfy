// The request queue and the action planner of src/app/runtime_commands.c, and
// the removal of a setup request from the middle of the queue that
// src/app/runtime_setup.c performs.
//
// `RequestQueue` is the fixed ring; `Enqueued`, `Taken` and `SetupTaken` are
// the operations on a plain sequence that it refines.

module RuntimeCommands {

  const CAPACITY: nat := 16

  datatype Kind =
    | NoRequest | Start | Restart | Close | Eject | Preserve | ApplyDisplay
    | OpenImage | UsePhysical | SetXemu | ImportFirmware | ImportMcpx | ImportBios

  datatype Request = Request(kind: Kind, path: string, redump: bool, verify: bool)

  const NOTHING: Request := Request(NoRequest, "", false, false)

  predicate IsImport(kind: Kind) {
    kind.ImportFirmware? || kind.ImportMcpx? || kind.ImportBios?
  }

  predicate IsSetup(kind: Kind) {
    kind.SetXemu? || IsImport(kind)
  }

  // ---------------------------------------------------------------------
  // The planner

  datatype Action =
    | NoAction | StartEmulator | RestartEmulator | StopEmulator | EjectPhysical | PreservePhysical
    | ApplyDisplaySettings | OpenDiscImage | ReopenImage | DiscoverPhysical | SelectPhysical

  datatype CommandState = CommandState(
    imageSource: bool, hasSession: bool, emulatorRunning: bool, hasSavedImage: bool)

  function PlanRequest(kind: Kind, state: CommandState): Action {
    match kind
    case Start =>
      if state.hasSession then (if state.emulatorRunning then NoAction else StartEmulator)
      else if state.imageSource then (if state.hasSavedImage then ReopenImage else NoAction)
      else DiscoverPhysical
    case Restart => if state.hasSession then RestartEmulator else NoAction
    case Close => if state.emulatorRunning then StopEmulator else NoAction
    case Eject => if state.imageSource then NoAction else EjectPhysical
    case Preserve => if !state.imageSource && state.hasSession then PreservePhysical else NoAction
    case ApplyDisplay =>
      if state.hasSession && state.emulatorRunning then ApplyDisplaySettings else NoAction
    case OpenImage => OpenDiscImage
    case UsePhysical => SelectPhysical
    case _ => NoAction
  }

  // ---------------------------------------------------------------------
  // The sequence the ring stands for

  predicate Accepts(queue: seq<Request>, request: Request) {
    && request.kind != NoRequest
    && (Coalesces(queue, request) || |queue| < CAPACITY)
  }

  // The newest entry is replaced by a request of its own kind, imports aside.
  predicate Coalesces(queue: seq<Request>, request: Request) {
    queue != [] && queue[|queue| - 1].kind == request.kind && !IsImport(request.kind)
  }

  function Enqueued(queue: seq<Request>, request: Request): seq<Request> {
    if !Accepts(queue, request) then queue
    else if Coalesces(queue, request) then queue[|queue| - 1 := request]
    else queue + [request]
  }

  // The position of the first setup request, or the length of the queue.
  function FirstSetup(queue: seq<Request>): (i: nat)
    ensures i <= |queue|
    ensures forall j :: 0 <= j < i ==> !IsSetup(queue[j].kind)
    ensures i < |queue| ==> IsSetup(queue[i].kind)
  {
    if queue == [] || IsSetup(queue[0].kind) then 0 else 1 + FirstSetup(queue[1..])
  }

  predicate HasSetup(queue: seq<Request>) {
    exists i :: 0 <= i < |queue| && IsSetup(queue[i].kind)
  }

  function Without(queue: seq<Request>, i: nat): (r: seq<Request>)
    requires i < |queue|
    ensures |r| == |queue| - 1
  {
    queue[..i] + queue[i + 1..]
  }

  // The queue while the entries from `offset` to `next` are being shifted.
  function Shifted(queue: seq<Request>, offset: nat, next: nat): (r: seq<Request>)
    requires offset < next <= |queue|
    ensures |r| == |queue|
    ensures next < |queue| ==> r[next] == queue[next]
  {
    queue[..offset] + queue[offset + 1..next] + queue[next - 1..]
  }

  lemma ShiftedStep(queue: seq<Request>, offset: nat, next: nat)
    requires offset < next < |queue|
    ensures Shifted(queue, offset, next)[next - 1 := queue[next]] == Shifted(queue, offset, next + 1)
  {
  }

  lemma ShiftedEnds(queue: seq<Request>, offset: nat)
    requires offset < |queue|
    ensures Shifted(queue, offset, offset + 1) == queue
    ensures Shifted(queue, offset, |queue|)[..|queue| - 1] == Without(queue, offset)
  {
  }

  class RequestQueue {
    const entries: array<Request>
    var head: nat
    var count: nat

    ghost predicate Valid()
      reads this
    {
      entries.Length == CAPACITY && head < CAPACITY && count <= CAPACITY
    }

    // The slot of the entry at position `i`.
    function Slot(i: nat): (index: nat)
      requires Valid() && i <= CAPACITY
      reads this
      ensures index < entries.Length
      ensures index == (head + i) % CAPACITY
    {
      if head + i < CAPACITY then head + i else head + i - CAPACITY
    }

    ghost function Contents(): (queue: seq<Request>)
      requires Valid()
      reads this, entries
      ensures |queue| == count
      ensures forall i :: 0 <= i < count ==> queue[i] == entries[Slot(i)]
    {
      seq(count, i requires 0 <= i < count && Valid() reads this, entries => entries[Slot(i)])
    }

    constructor ()
      ensures Valid() && fresh(entries) && Contents() == []
    {
      entries := new Request[CAPACITY](_ => NOTHING);
      head, count := 0, 0;
    }

    method Enqueue(request: Request) returns (accepted: bool)
      requires Valid()
      modifies this`count, entries
      ensures Valid()
      ensures accepted == Accepts(old(Contents()), request)
      ensures accepted
           == (&& request.kind != NoRequest
               && (|| |old(Contents())| < 16
                   || (&& old(Contents())[|old(Contents())| - 1].kind == request.kind
                       && request.kind !in {ImportFirmware, ImportMcpx, ImportBios})))
      ensures Contents() == Enqueued(old(Contents()), request)
    {
      if request.kind == NoRequest {
        return false;
      }
      ghost var before := Contents();
      var insertion := (head + count) % CAPACITY;
      assert insertion == Slot(count);
      if count > 0 {
        var tail := if insertion == 0 then CAPACITY - 1 else insertion - 1;
        assert tail == Slot(count - 1);
        if entries[tail].kind == request.kind && !IsImport(request.kind) {
          entries[tail] := request;
          assert Contents() == before[count - 1 := request];
          return true;
        }
      }
      if count >= CAPACITY {
        return false;
      }
      entries[insertion] := request;
      count := count + 1;
      assert Contents() == before + [request];
      return true;
    }

    method Dequeue() returns (available: bool, request: Request)
      requires Valid()
      modifies this`head, this`count
      ensures Valid()
      ensures available == (old(Contents()) != [])
      ensures available ==> request == old(Contents())[0] && Contents() == old(Contents())[1..]
      ensures !available ==> request == NOTHING && Contents() == old(Contents())
      ensures count == 0 && available ==> head == 0
    {
      if count == 0 {
        return false, NOTHING;
      }
      request := entries[head];
      assert request == Contents()[0];
      head := (head + 1) % CAPACITY;
      count := count - 1;
      if count == 0 {
        head := 0;
      }
      assert count > 0 ==> forall i :: 0 <= i < count ==> Slot(i) == old((head + (i + 1)) % CAPACITY);
      assert Contents() == old(Contents())[1..];
      return true, request;
    }

    lemma SlotsDiffer(i: nat, j: nat)
      requires Valid() && i < CAPACITY && j < CAPACITY && i != j
      ensures Slot(i) != Slot(j)
    {
    }

    method Overwrite(i: nat, request: Request)
      requires Valid() && i < count
      modifies entries
      ensures Valid() && Contents() == old(Contents())[i := request]
    {
      hide Slot;
      forall j | 0 <= j < count && j != i ensures Slot(j) != Slot(i) {
        SlotsDiffer(j, i);
      }
      entries[Slot(i)] := request;
    }

    // Shifts the entries behind `offset` one place forward and drops one.
    method CloseGap(offset: nat)
      requires Valid() && offset < count
      modifies this`head, this`count, entries
      ensures Valid()
      ensures Contents() == Without(old(Contents()), offset)
    {
      hide Slot, Contents, Shifted, Without;
      ghost var before := Contents();
      ShiftedEnds(before, offset);
      var next := offset + 1;
      while next < count
        invariant offset + 1 <= next <= count && Valid() && count == old(count) && head == old(head)
        invariant Contents() == Shifted(before, offset, next)
      {
        ShiftedStep(before, offset, next);
        Overwrite(next - 1, entries[Slot(next)]);
        next := next + 1;
      }
      DropLast();
      if count == 0 {
        head := 0;
      }
    }

    method DropLast()
      requires Valid() && count > 0
      modifies this`count
      ensures Valid() && count == old(count) - 1 && Contents() == old(Contents())[..count]
    {
      count := count - 1;
    }

    // Removes the first setup request, leaving the other entries in order.
    method TakeSetup() returns (found: bool, request: Request)
      requires Valid()
      modifies this`head, this`count, entries
      ensures Valid()
      ensures found == HasSetup(old(Contents()))
      ensures found ==> var i := FirstSetup(old(Contents()));
                        request == old(Contents())[i] && Contents() == Without(old(Contents()), i)
      ensures !found ==> request == NOTHING && Contents() == old(Contents())
    {
      ghost var before := Contents();
      var offset := 0;
      while offset < count
        invariant 0 <= offset <= count == old(count) && Valid() && Contents() == before
        invariant forall j :: 0 <= j < offset ==> !IsSetup(before[j].kind)
      {
        assert entries[Slot(offset)] == before[offset];
        if IsSetup(entries[Slot(offset)].kind) {
          request := entries[Slot(offset)];
          FirstSetupIs(before, offset);
          CloseGap(offset);
          return true, request;
        }
        offset := offset + 1;
      }
      return false, NOTHING;
    }
  }

  lemma {:induction false} FirstSetupIs(queue: seq<Request>, i: nat)
    requires i < |queue| && IsSetup(queue[i].kind)
    requires forall j :: 0 <= j < i ==> !IsSetup(queue[j].kind)
    ensures FirstSetup(queue) == i
  {
  }

  // ---------------------------------------------------------------------
  // Histories of the queue

  datatype Operation = Submit(request: Request) | Take | TakeFirstSetup

  // What has been accepted, what has been handed to the worker, what waits.
  datatype History = History(accepted: seq<Request>, delivered: seq<Request>, waiting: seq<Request>)

  function After(h: History, operation: Operation): History {
    match operation
    case Submit(request) =>
      if Accepts(h.waiting, request)
      then h.(accepted := h.accepted + [request], waiting := Enqueued(h.waiting, request))
      else h
    case Take =>
      if h.waiting == [] then h
      else h.(delivered := h.delivered + [h.waiting[0]], waiting := h.waiting[1..])
    case TakeFirstSetup =>
      var i := FirstSetup(h.waiting);
      if i == |h.waiting| then h
      else h.(delivered := h.delivered + [h.waiting[i]], waiting := Without(h.waiting, i))
  }

  function RunQueue(operations: seq<Operation>): History {
    if operations == [] then History([], [], [])
    else After(RunQueue(operations[..|operations| - 1]), operations[|operations| - 1])
  }

  // The requests of `queue` whose kind is in `kinds`, in order.
  function Select(queue: seq<Request>, kinds: set<Kind>): (r: seq<Request>)
    ensures |r| <= |queue|
  {
    if queue == [] then []
    else if queue[0].kind in kinds then [queue[0]] + Select(queue[1..], kinds)
    else Select(queue[1..], kinds)
  }

  const IMPORTS: set<Kind> := {ImportFirmware, ImportMcpx, ImportBios}

  lemma {:induction false} SelectAppend(left: seq<Request>, right: seq<Request>, kinds: set<Kind>)
    ensures Select(left + right, kinds) == Select(left, kinds) + Select(right, kinds)
  {
    if left == [] {
      assert left + right == right;
    } else {
      assert (left + right)[1..] == left[1..] + right;
      SelectAppend(left[1..], right, kinds);
    }
  }

  lemma {:induction false} SelectNone(queue: seq<Request>, kinds: set<Kind>)
    requires forall i :: 0 <= i < |queue| ==> queue[i].kind !in kinds
    ensures Select(queue, kinds) == []
  {
    if queue != [] {
      SelectNone(queue[1..], kinds);
    }
  }

  // Taking entry `i` out of a queue whose earlier entries are of other kinds
  // moves it from the front of the selection.
  lemma SelectTaken(queue: seq<Request>, i: nat, kinds: set<Kind>)
    requires i < |queue|
    requires forall j :: 0 <= j < i ==> queue[j].kind !in kinds || queue[i].kind !in kinds
    ensures Select(queue, kinds) == Select([queue[i]], kinds) + Select(Without(queue, i), kinds)
  {
    assert queue == queue[..i] + ([queue[i]] + queue[i + 1..]);
    SelectAppend(queue[..i], [queue[i]] + queue[i + 1..], kinds);
    SelectAppend([queue[i]], queue[i + 1..], kinds);
    SelectAppend(queue[..i], queue[i + 1..], kinds);
    if queue[i].kind in kinds {
      SelectNone(queue[..i], kinds);
    } else {
      assert Select([queue[i]], kinds) == [];
    }
  }

  // Accepting a request appends it to the selection, in place of the newest
  // entry when it coalesces with that one.
  lemma AcceptedSelect(queue: seq<Request>, request: Request, kinds: set<Kind>)
    requires Accepts(queue, request)
    ensures var kept := if Coalesces(queue, request) then queue[..|queue| - 1] else queue;
            && Select(Enqueued(queue, request), kinds) == Select(kept, kinds) + Select([request], kinds)
            && Select(queue, kinds) == Select(kept, kinds)
                 + (if Coalesces(queue, request) then Select([queue[|queue| - 1]], kinds) else [])
  {
    if Coalesces(queue, request) {
      var last := |queue| - 1;
      assert queue == queue[..last] + [queue[last]];
      assert Enqueued(queue, request) == queue[..last] + [request];
      SelectAppend(queue[..last], [queue[last]], kinds);
      SelectAppend(queue[..last], [request], kinds);
    } else {
      SelectAppend(queue, [request], kinds);
    }
  }

  // Handing an entry to the worker keeps delivered-then-waiting the same.
  lemma HandedOver(delivered: seq<Request>, waiting: seq<Request>, i: nat, kinds: set<Kind>)
    requires i < |waiting|
    requires forall j :: 0 <= j < i ==> waiting[j].kind !in kinds || waiting[i].kind !in kinds
    ensures Select(delivered + [waiting[i]], kinds) + Select(Without(waiting, i), kinds)
         == Select(delivered, kinds) + Select(waiting, kinds)
  {
    hide Select, Without;
    SelectAppend(delivered, [waiting[i]], kinds);
    SelectTaken(waiting, i, kinds);
  }

  lemma TakenSelect(h: History, operation: Operation, kind: Kind, kinds: set<Kind>)
    requires operation.Take? || operation.TakeFirstSetup?
    requires kinds == IMPORTS || kinds == {kind}
    ensures var h' := After(h, operation);
            && h'.accepted == h.accepted
            && |h'.waiting| <= |h.waiting|
            && Select(h'.delivered, kinds) + Select(h'.waiting, kinds)
               == Select(h.delivered, kinds) + Select(h.waiting, kinds)
  {
    hide Select;
    var i := if operation.Take? then 0 else FirstSetup(h.waiting);
    if i < |h.waiting| {
      HandedOver(h.delivered, h.waiting, i, kinds);
      assert Without(h.waiting, 0) == h.waiting[1..];
    }
  }

  // Every accepted import is delivered exactly once, and imports are
  // delivered in the order in which they were accepted, however single
  // requests and first-setup requests are taken in between.
  lemma {:induction false} ImportsAreDeliveredInOrder(operations: seq<Operation>)
    ensures var h := RunQueue(operations);
            && Select(h.accepted, IMPORTS) == Select(h.delivered, IMPORTS) + Select(h.waiting, IMPORTS)
            && |h.waiting| <= CAPACITY
  {
    if operations != [] {
      var shorter, last := operations[..|operations| - 1], operations[|operations| - 1];
      ImportsAreDeliveredInOrder(shorter);
      var h := RunQueue(shorter);
      if !last.Submit? {
        TakenSelect(h, last, NoRequest, IMPORTS);
      } else if Accepts(h.waiting, last.request) {
        SelectAppend(h.accepted, [last.request], IMPORTS);
        AcceptedSelect(h.waiting, last.request, IMPORTS);
      }
    }
  }

  // `mine` has lost entries of `all`, but not its last one.
  predicate KeepsNewest(mine: seq<Request>, all: seq<Request>) {
    |mine| <= |all| && (all != [] ==> mine != [] && mine[|mine| - 1] == all[|all| - 1])
  }

  // Coalescing never loses the newest request of a kind: for every kind, the
  // last one accepted is the last one delivered or still waiting, and no more
  // are delivered or waiting than were accepted.
  lemma {:induction false} NewestOfEachKindSurvives(operations: seq<Operation>, kind: Kind)
    ensures var h := RunQueue(operations);
            KeepsNewest(Select(h.delivered, {kind}) + Select(h.waiting, {kind}), Select(h.accepted, {kind}))
  {
    if operations != [] {
      var shorter, last := operations[..|operations| - 1], operations[|operations| - 1];
      NewestOfEachKindSurvives(shorter, kind);
      var h := RunQueue(shorter);
      if !last.Submit? {
        TakenSelect(h, last, kind, {kind});
      } else if Accepts(h.waiting, last.request) {
        AcceptedKeepsNewest(h, last.request, kind);
      }
    }
  }

  lemma AcceptedKeepsNewest(h: History, request: Request, kind: Kind)
    requires Accepts(h.waiting, request)
    requires KeepsNewest(Select(h.delivered, {kind}) + Select(h.waiting, {kind}), Select(h.accepted, {kind}))
    ensures KeepsNewest(Select(h.delivered, {kind}) + Select(Enqueued(h.waiting, request), {kind}),
                        Select(h.accepted + [request], {kind}))
  {
    hide Select, KeepsNewest, Accepts, Enqueued;
    var done, all := Select(h.delivered, {kind}), Select(h.accepted, {kind});
    var replaced := if Coalesces(h.waiting, request) then Select([h.waiting[|h.waiting| - 1]], {kind}) else [];
    var kept := Select(if Coalesces(h.waiting, request) then h.waiting[..|h.waiting| - 1] else h.waiting, {kind});
    SelectAppend(h.accepted, [request], {kind});
    AcceptedSelect(h.waiting, request, {kind});
    SelectOne(request, {kind});
    if Coalesces(h.waiting, request) {
      SelectOne(h.waiting[|h.waiting| - 1], {kind});
    }
    if request.kind == kind {
      NewestReplaced(done, kept, replaced, all, request);
    } else {
      assert replaced == [] && kept + [] == kept && all + [] == all;
    }
  }

  lemma SelectOne(request: Request, kinds: set<Kind>)
    ensures Select([request], kinds) == if request.kind in kinds then [request] else []
  {
  }

  lemma NewestReplaced(
    done: seq<Request>, kept: seq<Request>, replaced: seq<Request>, all: seq<Request>, request: Request)
    requires KeepsNewest(done + (kept + replaced), all)
    ensures KeepsNewest(done + (kept + [request]), all + [request])
  {
  }

  // ---------------------------------------------------------------------
  // When neighbours differ

  // Two neighbours of the same kind are imports, which never coalesce.
  predicate NeighboursDiffer(queue: seq<Request>) {
    forall i :: 0 <= i < |queue| - 1 && queue[i].kind == queue[i + 1].kind ==> IsImport(queue[i].kind)
  }

  // Taking the first setup request brings two requests of one kind together.
  predicate Joins(queue: seq<Request>, operation: Operation) {
    var i := FirstSetup(queue);
    operation.TakeFirstSetup? && 0 < i < |queue| - 1 && queue[i - 1].kind == queue[i + 1].kind
  }

  // Neighbours stay different exactly as long as no setup request is taken
  // from between two requests of the same kind.
  lemma NeighboursStep(h: History, operation: Operation)
    requires NeighboursDiffer(h.waiting)
    ensures NeighboursDiffer(After(h, operation).waiting) <==> !Joins(h.waiting, operation)
  {
    var queue, after := h.waiting, After(h, operation).waiting;
    match operation {
      case Submit(request) => EnqueuedNeighbours(queue, request);
      case Take =>
        assert forall i :: 0 <= i < |after| ==> after[i] == queue[i + 1];
      case TakeFirstSetup =>
        var i := FirstSetup(queue);
        if i < |queue| {
          GapNeighbours(queue, i);
        }
    }
  }

  lemma EnqueuedNeighbours(queue: seq<Request>, request: Request)
    requires NeighboursDiffer(queue)
    ensures NeighboursDiffer(Enqueued(queue, request))
  {
    var after := Enqueued(queue, request);
    assert forall i :: 0 <= i < |queue| - 1 ==> after[i] == queue[i];
    assert queue != [] && Accepts(queue, request) ==> after[|queue| - 1].kind == queue[|queue| - 1].kind;
  }

  lemma GapNeighbours(queue: seq<Request>, i: nat)
    requires NeighboursDiffer(queue) && i < |queue|
    requires i > 0 ==> !IsImport(queue[i - 1].kind)
    ensures NeighboursDiffer(Without(queue, i)) <==> !(0 < i < |queue| - 1 && queue[i - 1].kind == queue[i + 1].kind)
  {
    var after := Without(queue, i);
    assert forall j :: 0 <= j < |after| ==> after[j] == queue[if j < i then j else j + 1];
    if 0 < i < |queue| - 1 && queue[i - 1].kind == queue[i + 1].kind {
      assert after[i - 1].kind == after[i - 1 + 1].kind;
    }
  }

  // Every queue of the run has different neighbours.
  predicate AlwaysDiffer(operations: seq<Operation>) {
    && NeighboursDiffer(RunQueue(operations).waiting)
    && (operations == [] || AlwaysDiffer(operations[..|operations| - 1]))
  }

  // No operation of the run joins two requests.
  predicate NeverJoins(operations: seq<Operation>) {
    operations == [] ||
    (var before, last := operations[..|operations| - 1], operations[|operations| - 1];
     NeverJoins(before) && !Joins(RunQueue(before).waiting, last))
  }

  // Over whole runs: neighbours always differ exactly when nothing is joined.
  lemma {:induction false} NeighboursDifferUnlessJoined(operations: seq<Operation>)
    ensures AlwaysDiffer(operations) <==> NeverJoins(operations)
  {
    hide NeighboursDiffer, Joins, After;
    if operations == [] {
      NothingDiffers();
    } else {
      var before, last := operations[..|operations| - 1], operations[|operations| - 1];
      NeighboursDifferUnlessJoined(before);
      if AlwaysDiffer(before) {
        NeighboursStep(RunQueue(before), last);
      }
    }
  }

  lemma NothingDiffers()
    ensures NeighboursDiffer([])
  {
  }

  // Such a join happens: a setup request between two start requests.
  lemma EqualNeighboursCanRemain()
    ensures exists operations :: var h := RunQueue(operations);
              |h.waiting| == 2 && h.waiting[0].kind == h.waiting[1].kind == Start && !NeighboursDiffer(h.waiting)
  {
    var start, setup := Request(Start, "", false, false), Request(SetXemu, "", false, false);
    var s1 := [Submit(start)];
    var s2 := s1 + [Submit(setup)];
    var s3 := s2 + [Submit(start)];
    var s4 := s3 + [TakeFirstSetup];
    assert s1[..0] == [] && s2[..1] == s1 && s3[..2] == s2 && s4[..3] == s3;
    assert RunQueue(s1).waiting == [start];
    assert RunQueue(s2).waiting == [start, setup];
    assert RunQueue(s3).waiting == [start, setup, start];
    FirstSetupIs([start, setup, start], 1);
    assert RunQueue(s4).waiting == [start, start];
  }
}
