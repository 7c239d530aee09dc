/**
 * On-chain workspace bookings and their id lists, from contracts/workspace_booking/src/lib.rs.
 */
module WorkspaceBooking {
  import opened Common
  import opened Intervals

  type Address = nat

  const MAX_BATCH_SIZE: nat := 20

  datatype Availability = Open | Closed

  datatype Condition = Available | Unavailable(reason: nat) | Maintenance(scheduledReturn: nat)

  datatype Workspace = Workspace(typeId: nat, pricePerHour: int, availability: Availability, condition: Condition)

  /** The statuses some call assigns; Completed and Waitlisted are never set. */
  datatype Status = Pending | Confirmed | Cancelled

  datatype Booking = Booking(member: Address, workspace: nat, start: nat, end: nat, amount: int, status: Status, escrowId: nat)

  /** The two kinds of id list in storage: one per workspace and one per member. */
  datatype Owner = OfWorkspace(workspace: nat) | OfMember(member: Address)

  datatype Error =
    | Trap | AdminNotSet | Unauthorized | UnknownWorkspaceType | WorkspaceNotFound | WorkspaceUnavailable
    | InvalidTimeRange | InsufficientPayment | OverlappingBooking | BookingNotFound | BookingAlreadyConfirmed
    | AlreadyCancelled | BatchTooLarge

  type Bookings = map<nat, Booking>

  type Lists = map<Owner, seq<nat>>

  datatype Ledger = Ledger(count: nat, bookings: Bookings, lists: Lists)

  datatype Premises = Premises(types: set<nat>, count: nat, workspaces: map<nat, Workspace>)

  datatype State = State(admin: Option<Address>, premises: Premises, ledger: Ledger)

  type Outcome = Result<State, Error>

  function Listed(lists: Lists, owner: Owner): seq<nat> { if owner in lists then lists[owner] else [] }

  function Push(lists: Lists, owner: Owner, id: nat): Lists { lists[owner := Listed(lists, owner) + [id]] }

  predicate Live(b: Booking) { b.status != Cancelled }

  predicate Overlaps(b: Booking, start: nat, end: nat) { !(end <= b.start || start >= b.end) }

  predicate Belongs(b: Booking, owner: Owner) {
    match owner
    case OfWorkspace(w) => b.workspace == w
    case OfMember(m) => b.member == m
  }

  /** A listed, live booking of the workspace meets the slot. */
  predicate Taken(l: Ledger, workspace: nat, start: nat, end: nat) {
    var ids := Listed(l.lists, OfWorkspace(workspace));
    exists k :: 0 <= k < |ids| && ids[k] in l.bookings && Live(l.bookings[ids[k]]) && Overlaps(l.bookings[ids[k]], start, end)
  }

  // ---------------------------------------------------------------- one call

  function DoInitialize(s: State, admin: Address): Outcome {
    Success(s.(admin := Some(admin), premises := s.premises.(types := {1, 2, 3, 4})))
  }

  function DoRegister(s: State, caller: Address, typeId: nat, price: int): Outcome {
    if s.admin != Some(caller) then Failure(Trap)
    else if typeId !in s.premises.types then Failure(UnknownWorkspaceType)
    else
      var id := s.premises.count + 1;
      var w := Workspace(typeId, price, Open, Available);
      Success(s.(premises := s.premises.(count := id, workspaces := s.premises.workspaces[id := w])))
  }

  function DoSetAvailability(s: State, caller: Address, id: nat, availability: Availability): Outcome {
    if s.admin != Some(caller) then Failure(Trap)
    else if id !in s.premises.workspaces then Failure(WorkspaceNotFound)
    else
      var w := s.premises.workspaces[id].(availability := availability);
      Success(s.(premises := s.premises.(workspaces := s.premises.workspaces[id := w])))
  }

  function DoTransition(s: State, now: nat, caller: Address, id: nat, to: Condition): Outcome {
    if s.admin != Some(caller) then Failure(Trap)
    else if id !in s.premises.workspaces then Failure(WorkspaceNotFound)
    else
      var from := s.premises.workspaces[id].condition;
      var changed := Success(s.(premises := s.premises.(workspaces := s.premises.workspaces[id := s.premises.workspaces[id].(condition := to)])));
      if from.Available? && !to.Available? then changed
      else if from.Unavailable? && to.Available? then changed
      else if from.Maintenance? && to.Available? then (if now < from.scheduledReturn then Failure(Trap) else changed)
      else if from.Maintenance? && to.Unavailable? then changed
      else if from == to then Success(s)
      else Failure(Trap)
  }

  /** Started hours: the least number of hours that covers the slot. */
  function BilledHours(start: nat, end: nat): (hours: nat)
    requires start <= end
    ensures 3600 * hours - 3600 < end - start <= 3600 * hours
  {
    (end - start + 3599) / 3600
  }

  function DoBook(s: State, member: Address, workspace: nat, start: nat, end: nat, amount: int): Outcome {
    if start >= end then Failure(InvalidTimeRange)
    else if workspace !in s.premises.workspaces then Failure(WorkspaceNotFound)
    else
      var w := s.premises.workspaces[workspace];
      if !w.condition.Available? || w.availability != Open then Failure(WorkspaceUnavailable)
      else if amount < w.pricePerHour * BilledHours(start, end) then Failure(InsufficientPayment)
      else if Taken(s.ledger, workspace, start, end) then Failure(OverlappingBooking)
      else Success(s.(ledger := Booked(s.ledger, Booking(member, workspace, start, end, amount, Pending, 0))))
  }

  function Booked(l: Ledger, b: Booking): Ledger {
    var id := l.count + 1;
    Ledger(id, l.bookings[id := b], Push(Push(l.lists, OfWorkspace(b.workspace), id), OfMember(b.member), id))
  }

  function WithStatus(bookings: Bookings, id: nat, status: Status): Bookings
    requires id in bookings
  {
    bookings[id := bookings[id].(status := status)]
  }

  /** confirm_booking, which looks for Confirmed but not for Cancelled. */
  function DoConfirm(s: State, caller: Address, id: nat): Outcome {
    if s.admin.None? then Failure(AdminNotSet)
    else if caller != s.admin.value then Failure(Trap)
    else if id !in s.ledger.bookings then Failure(BookingNotFound)
    else if s.ledger.bookings[id].status.Confirmed? then Failure(BookingAlreadyConfirmed)
    else Success(s.(ledger := s.ledger.(bookings := WithStatus(s.ledger.bookings, id, Confirmed))))
  }

  function Confirmable(s: State, id: nat): Option<Error> {
    if id !in s.ledger.bookings then Some(BookingNotFound)
    else if s.ledger.bookings[id].status.Confirmed? then Some(BookingAlreadyConfirmed)
    else if s.ledger.bookings[id].workspace !in s.premises.workspaces then Some(WorkspaceNotFound)
    else if s.premises.workspaces[s.ledger.bookings[id].workspace].availability != Open then Some(WorkspaceUnavailable)
    else None
  }

  function FirstRefusal(s: State, ids: seq<nat>): Option<Error> {
    if ids == [] then None
    else
      var front := FirstRefusal(s, ids[..|ids| - 1]);
      if front.Some? then front else Confirmable(s, ids[|ids| - 1])
  }

  function AllConfirmed(bookings: Bookings, ids: seq<nat>): Bookings {
    map id | id in bookings :: if id in ids then bookings[id].(status := Confirmed) else bookings[id]
  }

  function DoBatchConfirm(s: State, caller: Address, ids: seq<nat>): Outcome {
    if s.admin != Some(caller) then Failure(Trap)
    else if |ids| > MAX_BATCH_SIZE then Failure(BatchTooLarge)
    else if FirstRefusal(s, ids).Some? then Failure(FirstRefusal(s, ids).value)
    else Success(s.(ledger := s.ledger.(bookings := AllConfirmed(s.ledger.bookings, ids))))
  }

  function DoCancel(s: State, caller: Address, id: nat): Outcome {
    if id !in s.ledger.bookings then Failure(BookingNotFound)
    else
      var b := s.ledger.bookings[id];
      if b.status.Cancelled? then Failure(AlreadyCancelled)
      else if s.admin.None? then Failure(AdminNotSet)
      else if caller != b.member && caller != s.admin.value then Failure(Unauthorized)
      else Success(s.(ledger := s.ledger.(bookings := WithStatus(s.ledger.bookings, id, Cancelled))))
  }

  function DoSetEscrow(s: State, caller: Address, id: nat, escrowId: nat): Outcome {
    if id !in s.ledger.bookings then Failure(BookingNotFound)
    else if s.admin.None? then Failure(AdminNotSet)
    else if caller != s.admin.value then Failure(Unauthorized)
    else
      var b := s.ledger.bookings[id].(escrowId := escrowId);
      Success(s.(ledger := s.ledger.(bookings := s.ledger.bookings[id := b])))
  }

  // ---------------------------------------------------------------- runs

  datatype Call =
    | CallInitialize
    | CallRegister(typeId: nat, price: int)
    | CallSetAvailability(workspace: nat, availability: Availability)
    | CallTransition(workspace: nat, now: nat, to: Condition)
    | CallBook(workspace: nat, start: nat, end: nat, amount: int)
    | CallConfirm(id: nat)
    | CallBatchConfirm(ids: seq<nat>)
    | CallCancel(id: nat)
    | CallSetEscrow(id: nat, escrowId: nat)

  datatype Step = Step(caller: Address, call: Call)

  function Do(s: State, e: Step): Outcome {
    match e.call
    case CallInitialize => DoInitialize(s, e.caller)
    case CallRegister(typeId, price) => DoRegister(s, e.caller, typeId, price)
    case CallSetAvailability(workspace, availability) => DoSetAvailability(s, e.caller, workspace, availability)
    case CallTransition(workspace, now, to) => DoTransition(s, now, e.caller, workspace, to)
    case CallBook(workspace, start, end, amount) => DoBook(s, e.caller, workspace, start, end, amount)
    case CallConfirm(id) => DoConfirm(s, e.caller, id)
    case CallBatchConfirm(ids) => DoBatchConfirm(s, e.caller, ids)
    case CallCancel(id) => DoCancel(s, e.caller, id)
    case CallSetEscrow(id, escrowId) => DoSetEscrow(s, e.caller, id, escrowId)
  }

  function After(s: State, o: Outcome): State { if o.Success? then o.value else s }

  const DEPLOYED: State := State(None, Premises({}, 0, map[]), Ledger(0, map[], map[]))

  function Run(steps: seq<Step>): State {
    if steps == [] then DEPLOYED
    else
      var s := Run(steps[..|steps| - 1]);
      After(s, Do(s, steps[|steps| - 1]))
  }

  // ---------------------------------------------------------------- the lists are exact

  /** The owner's bookings among ids 1 to n, in id order. */
  function IdsOf(bookings: Bookings, n: nat, owner: Owner): seq<nat> {
    if n == 0 then []
    else IdsOf(bookings, n - 1, owner) + (if n in bookings && Belongs(bookings[n], owner) then [n] else [])
  }

  /** Ids are handed out in order. */
  ghost predicate Numbered(l: Ledger) { forall id :: id in l.bookings <==> 0 < id <= l.count }

  ghost predicate ListExact(l: Ledger, owner: Owner) {
    && Numbered(l)
    && Listed(l.lists, owner) == IdsOf(l.bookings, l.count, owner)
  }

  /** Same ids, same workspaces, same members, same times. */
  ghost predicate SameSlots(before: Bookings, after: Bookings) {
    && before.Keys == after.Keys
    && forall id :: id in before ==>
         && after[id].workspace == before[id].workspace && after[id].member == before[id].member
         && after[id].start == before[id].start && after[id].end == before[id].end
  }

  lemma {:induction false} SameSlotsSameIds(before: Bookings, after: Bookings, n: nat, owner: Owner)
    requires SameSlots(before, after)
    ensures IdsOf(after, n, owner) == IdsOf(before, n, owner)
  {
    if n > 0 { SameSlotsSameIds(before, after, n - 1, owner); }
  }

  lemma {:induction false} NewIdNotYetListed(bookings: Bookings, id: nat, b: Booking, n: nat, owner: Owner)
    requires n < id
    ensures IdsOf(bookings[id := b], n, owner) == IdsOf(bookings, n, owner)
  {
    if n > 0 { NewIdNotYetListed(bookings, id, b, n - 1, owner); }
  }

  lemma BookedListsExact(l: Ledger, b: Booking, owner: Owner)
    requires ListExact(l, owner)
    ensures ListExact(Booked(l, b), owner)
  {
    NewIdNotYetListed(l.bookings, l.count + 1, b, l.count, owner);
  }

  /** Every other call leaves slots and lists alone. */
  lemma OthersKeepSlots(s: State, e: Step)
    requires !e.call.CallBook?
    ensures var l, l' := s.ledger, After(s, Do(s, e)).ledger;
            l'.count == l.count && l'.lists == l.lists && SameSlots(l.bookings, l'.bookings)
  {
  }

  /** Main result: in every run each list holds exactly its owner's bookings, once each, in id order. */
  lemma {:induction false} RunListsExact(steps: seq<Step>, owner: Owner)
    ensures ListExact(Run(steps).ledger, owner)
  {
    if steps != [] {
      var s, e := Run(steps[..|steps| - 1]), steps[|steps| - 1];
      RunListsExact(steps[..|steps| - 1], owner);
      if e.call.CallBook? {
        if Do(s, e).Success? {
          BookedListsExact(s.ledger, Booking(e.caller, e.call.workspace, e.call.start, e.call.end, e.call.amount, Pending, 0), owner);
        }
      } else {
        OthersKeepSlots(s, e);
        SameSlotsSameIds(s.ledger.bookings, After(s, Do(s, e)).ledger.bookings, s.ledger.count, owner);
      }
    }
  }

  lemma {:induction false} IdsOfHas(bookings: Bookings, n: nat, owner: Owner, id: nat)
    ensures id in IdsOf(bookings, n, owner) <==> 0 < id <= n && id in bookings && Belongs(bookings[id], owner)
  {
    if n > 0 { IdsOfHas(bookings, n - 1, owner, id); }
  }

  /** So the overlap scan of `book` misses no live booking. */
  lemma ScanMissesNothing(l: Ledger, workspace: nat, start: nat, end: nat, id: nat)
    requires ListExact(l, OfWorkspace(workspace)) && !Taken(l, workspace, start, end)
    requires id in l.bookings && l.bookings[id].workspace == workspace && Live(l.bookings[id])
    ensures !Overlaps(l.bookings[id], start, end)
  {
    IdsOfHas(l.bookings, l.count, OfWorkspace(workspace), id);
    var ids := Listed(l.lists, OfWorkspace(workspace));
    var k :| 0 <= k < |ids| && ids[k] == id;
  }

  // ---------------------------------------------------------------- no double booking

  /** Two live bookings of one workspace do not meet. */
  ghost predicate Apart(l: Ledger, i: nat, j: nat) {
    i in l.bookings && j in l.bookings && i != j && l.bookings[i].workspace == l.bookings[j].workspace
    && Live(l.bookings[i]) && Live(l.bookings[j]) ==>
      !Overlaps(l.bookings[i], l.bookings[j].start, l.bookings[j].end)
  }

  /** This step confirms nothing that is cancelled. */
  predicate Orderly(s: State, e: Step) {
    match e.call
    case CallConfirm(id) => id in s.ledger.bookings ==> Live(s.ledger.bookings[id])
    case CallBatchConfirm(ids) => forall k :: 0 <= k < |ids| && ids[k] in s.ledger.bookings ==> Live(s.ledger.bookings[ids[k]])
    case _ => true
  }

  predicate OrderlyRun(steps: seq<Step>) {
    steps == [] || (OrderlyRun(steps[..|steps| - 1]) && Orderly(Run(steps[..|steps| - 1]), steps[|steps| - 1]))
  }

  /** No orderly call brings a booking back to life. */
  lemma OrderlyRevivesNothing(s: State, e: Step, id: nat)
    requires Orderly(s, e) && !e.call.CallBook?
    ensures var after := After(s, Do(s, e)).ledger.bookings;
            id in after ==> id in s.ledger.bookings && (Live(after[id]) ==> Live(s.ledger.bookings[id]))
  {
  }

  lemma BookingKeepsApart(s: State, e: Step, i: nat, j: nat)
    requires e.call.CallBook? && ListExact(s.ledger, OfWorkspace(e.call.workspace))
    requires Apart(s.ledger, i, j)
    ensures Apart(After(s, Do(s, e)).ledger, i, j)
  {
    if Do(s, e).Success? {
      var l, c := s.ledger, e.call;
      forall id | id in l.bookings && l.bookings[id].workspace == c.workspace && Live(l.bookings[id])
        ensures !Overlaps(l.bookings[id], c.start, c.end)
      {
        ScanMissesNothing(l, c.workspace, c.start, c.end, id);
      }
    }
  }

  /** A booking once made keeps its slot; its status is moved by its member or the admin only, and only so. */
  lemma StatusChangesOnlyTheseWays(s: State, e: Step, id: nat)
    requires id in s.ledger.bookings && Numbered(s.ledger)
    ensures var b, after := s.ledger.bookings[id], After(s, Do(s, e)).ledger.bookings;
            && id in after
            && after[id] == b.(status := after[id].status, escrowId := after[id].escrowId)
            && (after[id].status != b.status ==>
                  || (e.call == CallCancel(id) && Live(b) && after[id].status.Cancelled? && (e.caller == b.member || s.admin == Some(e.caller)))
                  || (s.admin == Some(e.caller) && after[id].status.Confirmed?
                      && (e.call == CallConfirm(id) || (e.call.CallBatchConfirm? && id in e.call.ids))))
  {
  }

  /** Main result: while no confirmation hits a cancelled booking, live bookings of a workspace are pairwise disjoint. */
  lemma {:induction false} NoDoubleBooking(steps: seq<Step>, i: nat, j: nat)
    requires OrderlyRun(steps)
    ensures Apart(Run(steps).ledger, i, j)
  {
    if steps != [] {
      var front, e := steps[..|steps| - 1], steps[|steps| - 1];
      var s := Run(front);
      NoDoubleBooking(front, i, j);
      if e.call.CallBook? {
        RunListsExact(front, OfWorkspace(e.call.workspace));
        BookingKeepsApart(s, e, i, j);
      } else {
        OthersKeepSlots(s, e);
        OrderlyRevivesNothing(s, e, i);
        OrderlyRevivesNothing(s, e, j);
      }
    }
  }

  // ---------------------------------------------------------------- the same, instant by instant

  /** Pending or confirmed. */
  predicate Stands(b: Booking) { b.status == Pending || b.status == Confirmed }

  /** Every booking in storage lasts some time. */
  ghost predicate ProperSlots(l: Ledger) { forall id :: id in l.bookings ==> l.bookings[id].start < l.bookings[id].end }

  lemma {:induction false} RunSlotsAreProper(steps: seq<Step>)
    ensures ProperSlots(Run(steps).ledger)
  {
    if steps != [] {
      var s, e := Run(steps[..|steps| - 1]), steps[|steps| - 1];
      RunSlotsAreProper(steps[..|steps| - 1]);
      hide Run;
      if !e.call.CallBook? { OthersKeepSlots(s, e); }
    }
  }

  lemma OverlapsIffMeet(b: Booking, start: nat, end: nat)
    requires b.start < b.end && start < end
    ensures Overlaps(b, start, end) <==> Meet(start, end, b.start, b.end)
    ensures Live(b) <==> Stands(b)
  {
    MeetIff(start, end, b.start, b.end);
  }

  /** Main result: in every orderly run no instant belongs to two standing bookings of one workspace. */
  lemma NoInstantBookedTwice(steps: seq<Step>, i: nat, j: nat, t: int)
    requires OrderlyRun(steps)
    ensures var bookings := Run(steps).ledger.bookings;
            i in bookings && j in bookings && i != j && bookings[i].workspace == bookings[j].workspace
            && Stands(bookings[i]) && Stands(bookings[j])
            ==> !(During(t, bookings[i].start, bookings[i].end) && During(t, bookings[j].start, bookings[j].end))
  {
    NoDoubleBooking(steps, i, j);
    RunSlotsAreProper(steps);
    var bookings := Run(steps).ledger.bookings;
    if i in bookings && j in bookings { OverlapsIffMeet(bookings[i], bookings[j].start, bookings[j].end); }
  }

  /** Some standing booking of the workspace shares an instant with the slot. */
  ghost predicate Occupied(bookings: Bookings, workspace: nat, start: nat, end: nat) {
    exists id :: id in bookings && bookings[id].workspace == workspace && Stands(bookings[id])
                 && Meet(start, end, bookings[id].start, bookings[id].end)
  }

  lemma TakenIffOccupied(steps: seq<Step>, workspace: nat, start: nat, end: nat)
    requires start < end
    ensures Taken(Run(steps).ledger, workspace, start, end) <==> Occupied(Run(steps).ledger.bookings, workspace, start, end)
  {
    RunSlotsAreProper(steps);
    RunListsExact(steps, OfWorkspace(workspace));
    var l := Run(steps).ledger;
    hide Run;
    var ids := Listed(l.lists, OfWorkspace(workspace));
    forall id: nat
      ensures id in ids <==> 0 < id <= l.count && id in l.bookings && l.bookings[id].workspace == workspace
      ensures id in l.bookings ==> (Overlaps(l.bookings[id], start, end) <==> Meet(start, end, l.bookings[id].start, l.bookings[id].end))
      ensures id in l.bookings ==> (Live(l.bookings[id]) <==> Stands(l.bookings[id]))
    {
      IdsOfHas(l.bookings, l.count, OfWorkspace(workspace), id);
      if id in l.bookings { OverlapsIffMeet(l.bookings[id], start, end); }
    }
    hide Overlaps, Meet, Live, Stands, IdsOf;
    if Occupied(l.bookings, workspace, start, end) {
      var id :| id in l.bookings && l.bookings[id].workspace == workspace && Stands(l.bookings[id])
                && Meet(start, end, l.bookings[id].start, l.bookings[id].end);
      assert id in ids;
    }
  }

  // ---------------------------------------------------------------- what each call does, written out

  /** The least whole number of hours covering a slot, times the price, is covered by the amount. */
  ghost predicate Pays(amount: int, price: int, start: nat, end: nat) {
    forall hours: nat :: 3600 * hours - 3600 < end - start <= 3600 * hours ==> amount >= price * hours
  }

  lemma PaysIff(amount: int, price: int, start: nat, end: nat)
    requires start <= end
    ensures Pays(amount, price, start, end) <==> amount >= price * BilledHours(start, end)
  {
    var hours := BilledHours(start, end);
    assert 3600 * hours - 3600 < end - start <= 3600 * hours;
  }

  /** book: a slot in order, in an open and available workspace, paid for and not occupied. */
  lemma BookDoes(steps: seq<Step>, member: Address, workspace: nat, start: nat, end: nat, amount: int)
    ensures var s := Run(steps);
            var o := DoBook(s, member, workspace, start, end, amount);
            var fits := start < end && workspace in s.premises.workspaces
                        && var w := s.premises.workspaces[workspace];
                           w.condition == Available && w.availability == Open && Pays(amount, w.pricePerHour, start, end);
            && (o == Failure(OverlappingBooking) <==> fits && Occupied(s.ledger.bookings, workspace, start, end))
            && (o.Success? <==> fits && !Occupied(s.ledger.bookings, workspace, start, end))
            && (o.Success? ==>
                  var id, l := s.ledger.count + 1, o.value.ledger;
                  && o.value == s.(ledger := l) && l.count == id
                  && l.bookings == s.ledger.bookings[id := Booking(member, workspace, start, end, amount, Pending, 0)]
                  && (forall owner :: Listed(l.lists, owner) ==
                        if owner == OfWorkspace(workspace) || owner == OfMember(member)
                        then Listed(s.ledger.lists, owner) + [id] else Listed(s.ledger.lists, owner)))
  {
    if start < end {
      TakenIffOccupied(steps, workspace, start, end);
      var w := Run(steps).premises.workspaces;
      if workspace in w { PaysIff(amount, w[workspace].pricePerHour, start, end); }
    }
    hide Run, Taken, Occupied, Pays, BilledHours;
  }

  /** confirm_booking: by the admin, for any booking that is not confirmed, cancelled ones included. */
  lemma ConfirmDoes(s: State, caller: Address, id: nat)
    ensures var o := DoConfirm(s, caller, id);
            && (o.Success? <==> s.admin == Some(caller) && id in s.ledger.bookings && s.ledger.bookings[id].status != Confirmed)
            && (o.Success? ==> o.value == s.(ledger := s.ledger.(bookings := s.ledger.bookings[id := s.ledger.bookings[id].(status := Confirmed)])))
  {
  }

  lemma {:induction false} NoRefusalIff(s: State, ids: seq<nat>)
    ensures FirstRefusal(s, ids).None? <==> forall k :: 0 <= k < |ids| ==> Confirmable(s, ids[k]).None?
  {
    if ids != [] { NoRefusalIff(s, ids[..|ids| - 1]); }
  }

  /** batch_confirm: at most twenty, each not confirmed and in an open workspace; all are confirmed or none. */
  lemma BatchConfirmDoes(s: State, caller: Address, ids: seq<nat>)
    ensures var o, bookings := DoBatchConfirm(s, caller, ids), s.ledger.bookings;
            && (o.Success? <==>
                  && s.admin == Some(caller) && |ids| <= 20
                  && forall k :: 0 <= k < |ids| ==>
                       && ids[k] in bookings && bookings[ids[k]].status != Confirmed
                       && bookings[ids[k]].workspace in s.premises.workspaces
                       && s.premises.workspaces[bookings[ids[k]].workspace].availability == Open)
            && (o.Success? ==>
                  var after := o.value.ledger.bookings;
                  && o.value == s.(ledger := s.ledger.(bookings := after)) && after.Keys == bookings.Keys
                  && forall id :: id in bookings ==> after[id] == if id in ids then bookings[id].(status := Confirmed) else bookings[id])
  {
    NoRefusalIff(s, ids);
    hide FirstRefusal;
  }

  /** cancel: by the member or the admin, unless it is cancelled already. */
  lemma CancelDoes(s: State, caller: Address, id: nat)
    ensures var o := DoCancel(s, caller, id);
            && (o.Success? <==> id in s.ledger.bookings && s.ledger.bookings[id].status != Cancelled && s.admin.Some?
                                && (caller == s.ledger.bookings[id].member || caller == s.admin.value))
            && (o.Success? ==> o.value == s.(ledger := s.ledger.(bookings := s.ledger.bookings[id := s.ledger.bookings[id].(status := Cancelled)])))
  {
  }

  lemma SetEscrowDoes(s: State, caller: Address, id: nat, escrowId: nat)
    ensures var o := DoSetEscrow(s, caller, id, escrowId);
            && (o.Success? <==> id in s.ledger.bookings && s.admin == Some(caller))
            && (o.Success? ==> o.value == s.(ledger := s.ledger.(bookings := s.ledger.bookings[id := s.ledger.bookings[id].(escrowId := escrowId)])))
  {
  }

  /** initialize: sets the admin and the four built-in workspace types. */
  lemma InitializeDoes(s: State, admin: Address)
    ensures var o := DoInitialize(s, admin);
            && o.Success? && o.value == State(Some(admin), s.premises.(types := o.value.premises.types), s.ledger)
            && forall t :: t in o.value.premises.types <==> 1 <= t <= 4
  {
  }

  lemma RegisterDoes(s: State, caller: Address, typeId: nat, price: int)
    ensures var o := DoRegister(s, caller, typeId, price);
            && (o.Success? <==> s.admin == Some(caller) && typeId in s.premises.types)
            && (o.Success? ==>
                  var id := s.premises.count + 1;
                  o.value == s.(premises := Premises(s.premises.types, id, s.premises.workspaces[id := Workspace(typeId, price, Open, Available)])))
  {
  }

  lemma SetAvailabilityDoes(s: State, caller: Address, id: nat, availability: Availability)
    ensures var o := DoSetAvailability(s, caller, id, availability);
            && (o.Success? <==> s.admin == Some(caller) && id in s.premises.workspaces)
            && (o.Success? ==>
                  var w := s.premises.workspaces[id].(availability := availability);
                  o.value == s.(premises := s.premises.(workspaces := s.premises.workspaces[id := w])))
  {
  }

  /** The state machine of a workspace's condition, and the same condition again as a call without effect. */
  lemma TransitionDoes(s: State, now: nat, caller: Address, id: nat, to: Condition)
    ensures var o := DoTransition(s, now, caller, id, to);
            && (o.Success? ==> s.admin == Some(caller) && id in s.premises.workspaces)
            && (s.admin == Some(caller) && id in s.premises.workspaces ==>
                  var from := s.premises.workspaces[id].condition;
                  && (o.Success? <==>
                        match (from, to)
                        case (Available, _) => true
                        case (Unavailable(_), Available) => true
                        case (Unavailable(_), _) => to == from
                        case (Maintenance(scheduledReturn), Available) => scheduledReturn <= now
                        case (Maintenance(_), Unavailable(_)) => true
                        case (Maintenance(_), Maintenance(_)) => to == from)
                  && (o.Success? ==>
                        var w := s.premises.workspaces[id].(condition := to);
                        o.value == s.(premises := s.premises.(workspaces := s.premises.workspaces[id := w]))))
  {
    if id in s.premises.workspaces {
      var w := s.premises.workspaces[id];
      assert s.premises.workspaces[id := w.(condition := w.condition)] == s.premises.workspaces;
    }
  }

  /** What each error code says about the call that got it, in a state a run reaches. */
  ghost predicate Explains(s: State, e: Step, error: Error) {
    var id := match e.call case CallConfirm(id) => Some(id) case CallCancel(id) => Some(id) case CallSetEscrow(id, _) => Some(id) case _ => None;
    var workspace := match e.call
                     case CallBook(w, _, _, _) => Some(w) case CallSetAvailability(w, _) => Some(w) case CallTransition(w, _, _) => Some(w) case _ => None;
    match error
    case Trap =>
      || s.admin != Some(e.caller)
      || (e.call.CallTransition? && e.call.workspace in s.premises.workspaces && s.premises.workspaces[e.call.workspace].condition != e.call.to)
    case AdminNotSet => s.admin == None
    case Unauthorized => s.admin != Some(e.caller) && (e.call.CallCancel? && e.call.id in s.ledger.bookings ==> s.ledger.bookings[e.call.id].member != e.caller)
    case UnknownWorkspaceType => e.call.CallRegister? && e.call.typeId !in s.premises.types
    case WorkspaceNotFound => (workspace.Some? && workspace.value !in s.premises.workspaces) || e.call.CallBatchConfirm?
    case WorkspaceUnavailable =>
      || e.call.CallBatchConfirm?
      || (workspace.Some? && workspace.value in s.premises.workspaces
          && (s.premises.workspaces[workspace.value].condition != Available || s.premises.workspaces[workspace.value].availability == Closed))
    case InvalidTimeRange => e.call.CallBook? && e.call.end <= e.call.start
    case InsufficientPayment =>
      e.call.CallBook? && e.call.workspace in s.premises.workspaces
      && !Pays(e.call.amount, s.premises.workspaces[e.call.workspace].pricePerHour, e.call.start, e.call.end)
    case OverlappingBooking => e.call.CallBook? && Occupied(s.ledger.bookings, e.call.workspace, e.call.start, e.call.end)
    case BookingNotFound => (id.Some? && id.value !in s.ledger.bookings) || (e.call.CallBatchConfirm? && exists k :: k in e.call.ids && k !in s.ledger.bookings)
    case BookingAlreadyConfirmed =>
      || (id.Some? && id.value in s.ledger.bookings && s.ledger.bookings[id.value].status == Confirmed)
      || (e.call.CallBatchConfirm? && exists k :: k in e.call.ids && k in s.ledger.bookings && s.ledger.bookings[k].status == Confirmed)
    case AlreadyCancelled => id.Some? && id.value in s.ledger.bookings && s.ledger.bookings[id.value].status == Cancelled
    case BatchTooLarge => e.call.CallBatchConfirm? && |e.call.ids| > 20
  }

  lemma {:induction false} RefusalIsOfSome(s: State, ids: seq<nat>) returns (k: nat)
    requires FirstRefusal(s, ids).Some?
    ensures k < |ids| && FirstRefusal(s, ids) == Confirmable(s, ids[k])
  {
    var n := |ids| - 1;
    if FirstRefusal(s, ids[..n]).Some? { k := RefusalIsOfSome(s, ids[..n]); } else { k := n; }
  }

  lemma BookErrorsExplain(steps: seq<Step>, e: Step)
    requires Do(Run(steps), e).Failure? && e.call.CallBook?
    ensures Explains(Run(steps), e, Do(Run(steps), e).error)
  {
    var s, c := Run(steps), e.call;
    if c.start < c.end {
      TakenIffOccupied(steps, c.workspace, c.start, c.end);
      if c.workspace in s.premises.workspaces { PaysIff(c.amount, s.premises.workspaces[c.workspace].pricePerHour, c.start, c.end); }
    }
    hide Run, Taken, Occupied, Pays, BilledHours;
  }

  lemma BatchErrorsExplain(s: State, e: Step)
    requires Do(s, e).Failure? && e.call.CallBatchConfirm?
    ensures Explains(s, e, Do(s, e).error)
  {
    if FirstRefusal(s, e.call.ids).Some? {
      var k := RefusalIsOfSome(s, e.call.ids);
      assert e.call.ids[k] in e.call.ids;
    }
    hide FirstRefusal, Occupied, Pays;
  }

  /** Every error answered in a state of a run is true of the call. */
  lemma ErrorsExplain(steps: seq<Step>, e: Step)
    requires Do(Run(steps), e).Failure?
    ensures Explains(Run(steps), e, Do(Run(steps), e).error)
  {
    hide Run, Occupied, Pays, Taken;
    if e.call.CallBook? {
      BookErrorsExplain(steps, e);
    } else if e.call.CallBatchConfirm? {
      BatchErrorsExplain(Run(steps), e);
    }
  }

  // ---------------------------------------------------------------- confirmations that are safe

  ghost predicate AllApart(l: Ledger) { forall i, j :: Apart(l, i, j) }

  /** Confirming a booking is safe exactly when it is not cancelled or its slot was not taken since. */
  lemma ConfirmSafeIff(s: State, caller: Address, id: nat)
    requires DoConfirm(s, caller, id).Success?
    requires AllApart(s.ledger)
    ensures var l := s.ledger;
            AllApart(DoConfirm(s, caller, id).value.ledger) <==>
            || Live(l.bookings[id])
            || (forall j :: j in l.bookings && j != id && l.bookings[j].workspace == l.bookings[id].workspace && Live(l.bookings[j])
                            ==> !Overlaps(l.bookings[j], l.bookings[id].start, l.bookings[id].end))
  {
    var l, after := s.ledger, DoConfirm(s, caller, id).value.ledger;
    if Live(l.bookings[id]) {
      forall i, j ensures Apart(after, i, j) { assert Apart(l, i, j); }
    } else if j :| j in l.bookings && j != id && l.bookings[j].workspace == l.bookings[id].workspace && Live(l.bookings[j])
                   && Overlaps(l.bookings[j], l.bookings[id].start, l.bookings[id].end) {
      assert !Apart(after, j, id);
    } else {
      forall i, j ensures Apart(after, i, j) { assert Apart(l, i, j); }
    }
  }

  /** Admin 9 opens workspace 1; member 5 books it and cancels. */
  lemma CancelledBooking() returns (steps: seq<Step>)
    ensures var s := Run(steps);
            && s.admin == Some(9) && s.premises.workspaces == map[1 := Workspace(1, 0, Open, Available)]
            && s.ledger.count == 1 && s.ledger.bookings == map[1 := Booking(5, 1, 0, 10, 0, Cancelled, 0)]
            && Listed(s.ledger.lists, OfWorkspace(1)) == [1]
  {
    assert Run([]) == DEPLOYED;
    hide Run;
    steps := [] + [Step(9, CallInitialize)];
    Extend([], Step(9, CallInitialize));
    Extend(steps, Step(9, CallRegister(1, 0)));
    steps := steps + [Step(9, CallRegister(1, 0))];
    Extend(steps, Step(5, CallBook(1, 0, 10, 0)));
    steps := steps + [Step(5, CallBook(1, 0, 10, 0))];
    Extend(steps, Step(5, CallCancel(1)));
    steps := steps + [Step(5, CallCancel(1))];
  }

  /** And the unsafe case is reachable: cancel, rebook the slot, confirm the cancelled booking. */
  lemma DoubleBookingIsReachable()
    ensures exists steps: seq<Step>, i: nat, j: nat :: !Apart(Run(steps).ledger, i, j)
  {
    var steps := CancelledBooking();
    hide Run;
    Extend(steps, Step(6, CallBook(1, 5, 15, 0)));
    steps := steps + [Step(6, CallBook(1, 5, 15, 0))];
    assert Run(steps).ledger.bookings == map[1 := Booking(5, 1, 0, 10, 0, Cancelled, 0), 2 := Booking(6, 1, 5, 15, 0, Pending, 0)];
    Extend(steps, Step(9, CallConfirm(1)));
    steps := steps + [Step(9, CallConfirm(1))];
    assert !Apart(Run(steps).ledger, 1, 2);
  }

  /** A batch brings this cancelled booking back. */
  predicate Revived(l: Ledger, ids: seq<nat>, i: nat) { i in ids && i in l.bookings && !Live(l.bookings[i]) }

  /** Every revived slot misses every other booking of its workspace that is live or revived with it. */
  ghost predicate RevivedSlotsFree(l: Ledger, ids: seq<nat>) {
    forall i, j :: Revived(l, ids, i) && j in l.bookings && j != i && l.bookings[j].workspace == l.bookings[i].workspace
                   && (Live(l.bookings[j]) || Revived(l, ids, j)) ==>
                     !Overlaps(l.bookings[i], l.bookings[j].start, l.bookings[j].end)
  }

  /** Confirming a batch is safe exactly when the slots it brings back are free of the live bookings and of each other. */
  lemma BatchConfirmSafeIff(s: State, caller: Address, ids: seq<nat>)
    requires DoBatchConfirm(s, caller, ids).Success? && AllApart(s.ledger)
    ensures AllApart(DoBatchConfirm(s, caller, ids).value.ledger) <==> RevivedSlotsFree(s.ledger, ids)
  {
    var l, after := s.ledger, DoBatchConfirm(s, caller, ids).value.ledger;
    forall i | i in l.bookings
      ensures Live(after.bookings[i]) <==> Live(l.bookings[i]) || Revived(l, ids, i)
    {
    }
    if RevivedSlotsFree(l, ids) {
      forall i, j ensures Apart(after, i, j) {
        assert Apart(l, i, j);
        if i in l.bookings && j in l.bookings {
          var a, b := l.bookings[i], l.bookings[j];
          assert Overlaps(a, b.start, b.end) <==> Overlaps(b, a.start, a.end);
        }
      }
    } else {
      var i, j :| Revived(l, ids, i) && j in l.bookings && j != i && l.bookings[j].workspace == l.bookings[i].workspace
                  && (Live(l.bookings[j]) || Revived(l, ids, j)) && Overlaps(l.bookings[i], l.bookings[j].start, l.bookings[j].end);
      assert !Apart(after, i, j);
    }
  }

  /** Two cancelled bookings whose slots meet, each of which could be confirmed alone. */
  lemma TwoCancelled() returns (steps: seq<Step>)
    ensures var s := Run(steps);
            && s.admin == Some(9) && s.premises.workspaces == map[1 := Workspace(1, 0, Open, Available)]
            && s.ledger.bookings == map[1 := Booking(5, 1, 0, 10, 0, Cancelled, 0), 2 := Booking(6, 1, 5, 15, 0, Cancelled, 0)]
  {
    steps := CancelledBooking();
    hide Run;
    Extend(steps, Step(6, CallBook(1, 5, 15, 0)));
    steps := steps + [Step(6, CallBook(1, 5, 15, 0))];
    assert Run(steps).ledger.bookings == map[1 := Booking(5, 1, 0, 10, 0, Cancelled, 0), 2 := Booking(6, 1, 5, 15, 0, Pending, 0)];
    Extend(steps, Step(6, CallCancel(2)));
    steps := steps + [Step(6, CallCancel(2))];
  }

  /** One by one either is safe to confirm, together they double-book, and a run gets there. */
  lemma BatchDoubleBookingIsReachable()
    ensures exists steps: seq<Step> ::
              var s := Run(steps);
              && AllApart(s.ledger)
              && DoConfirm(s, 9, 1).Success? && AllApart(DoConfirm(s, 9, 1).value.ledger)
              && DoConfirm(s, 9, 2).Success? && AllApart(DoConfirm(s, 9, 2).value.ledger)
              && DoBatchConfirm(s, 9, [1, 2]).Success? && !AllApart(DoBatchConfirm(s, 9, [1, 2]).value.ledger)
  {
    var steps := TwoCancelled();
    hide Run;
    var s := Run(steps);
    var after := s.ledger.(bookings := AllConfirmed(s.ledger.bookings, [1, 2]));
    NoRefusalIff(s, [1, 2]);
    hide FirstRefusal;
    assert DoBatchConfirm(s, 9, [1, 2]) == Success(s.(ledger := after));
    assert after.bookings[1].status.Confirmed? && after.bookings[2].status.Confirmed?;
    assert !Apart(after, 1, 2);
  }

  lemma Extend(steps: seq<Step>, e: Step)
    ensures Run(steps + [e]) == After(Run(steps), Do(Run(steps), e))
  {
    assert (steps + [e])[..|steps|] == steps;
  }

  // ---------------------------------------------------------------- the contract

  ghost predicate Answered(before: State, o: Outcome, after: State, r: Result<(), Error>) {
    && after == After(before, o)
    && (o.Success? ==> r == Success(()))
    && (o.Failure? ==> r == Failure(o.error))
  }

  lemma {:induction false} FirstRefusalWins(s: State, ids: seq<nat>, k: nat)
    requires k <= |ids| && FirstRefusal(s, ids[..k]).Some?
    ensures FirstRefusal(s, ids) == FirstRefusal(s, ids[..k])
    decreases |ids|
  {
    if k < |ids| {
      assert ids[..|ids| - 1][..k] == ids[..k];
      FirstRefusalWins(s, ids[..|ids| - 1], k);
    } else {
      assert ids[..k] == ids;
    }
  }

  lemma {:induction false} NoRefusalAllKnown(s: State, ids: seq<nat>, k: nat)
    requires FirstRefusal(s, ids).None? && k < |ids|
    ensures Confirmable(s, ids[k]).None?
    decreases |ids|
  {
    if k < |ids| - 1 { NoRefusalAllKnown(s, ids[..|ids| - 1], k); }
  }

  class Contract {
    var admin: Option<Address>
    var types: set<nat>
    var workspaceCount: nat
    var workspaces: map<nat, Workspace>
    var bookingCount: nat
    var bookings: Bookings
    var lists: Lists

    ghost function Abs(): State
      reads this
    {
      State(admin, Premises(types, workspaceCount, workspaces), Ledger(bookingCount, bookings, lists))
    }

    constructor ()
      ensures Abs() == DEPLOYED
    {
      admin, types, workspaceCount, workspaces := None, {}, 0, map[];
      bookingCount, bookings, lists := 0, map[], map[];
    }

    method Initialize(newAdmin: Address)
      modifies this
      ensures Abs() == After(old(Abs()), DoInitialize(old(Abs()), newAdmin))
    {
      admin, types := Some(newAdmin), {1, 2, 3, 4};
    }

    method RegisterWorkspace(caller: Address, typeId: nat, price: int) returns (r: Result<(), Error>)
      modifies this
      ensures Answered(old(Abs()), DoRegister(old(Abs()), caller, typeId, price), Abs(), r)
    {
      if admin != Some(caller) { return Failure(Trap); }
      if typeId !in types { return Failure(UnknownWorkspaceType); }
      workspaceCount := workspaceCount + 1;
      workspaces := workspaces[workspaceCount := Workspace(typeId, price, Open, Available)];
      r := Success(());
    }

    method UpdateAvailability(caller: Address, id: nat, availability: Availability) returns (r: Result<(), Error>)
      modifies this
      ensures Answered(old(Abs()), DoSetAvailability(old(Abs()), caller, id, availability), Abs(), r)
    {
      if admin != Some(caller) { return Failure(Trap); }
      if id !in workspaces { return Failure(WorkspaceNotFound); }
      workspaces := workspaces[id := workspaces[id].(availability := availability)];
      r := Success(());
    }

    method TransitionState(now: nat, caller: Address, id: nat, to: Condition) returns (r: Result<(), Error>)
      modifies this
      ensures Answered(old(Abs()), DoTransition(old(Abs()), now, caller, id, to), Abs(), r)
    {
      if admin != Some(caller) { return Failure(Trap); }
      if id !in workspaces { return Failure(WorkspaceNotFound); }
      var from := workspaces[id].condition;
      match (from, to) {
        case (Available, Unavailable(_)) =>
        case (Available, Maintenance(_)) =>
        case (Unavailable(_), Available) =>
        case (Maintenance(scheduledReturn), Available) =>
          if now < scheduledReturn { return Failure(Trap); }
        case (Maintenance(_), Unavailable(_)) =>
        case _ =>
          if from == to { return Success(()); }
          return Failure(Trap);
      }
      workspaces := workspaces[id := workspaces[id].(condition := to)];
      r := Success(());
    }

    method PushId(owner: Owner, id: nat)
      modifies `lists
      ensures lists == Push(old(lists), owner, id)
    {
      var ids := if owner in lists then lists[owner] else [];
      lists := lists[owner := ids + [id]];
    }

    method Book(member: Address, workspace: nat, start: nat, end: nat, amount: int) returns (r: Result<(), Error>, id: nat)
      modifies this
      ensures Answered(old(Abs()), DoBook(old(Abs()), member, workspace, start, end, amount), Abs(), r)
      ensures r.Success? ==> id == bookingCount == old(bookingCount) + 1
    {
      id := 0;
      if start >= end { return Failure(InvalidTimeRange), id; }
      if workspace !in workspaces { return Failure(WorkspaceNotFound), id; }
      var w := workspaces[workspace];
      if !w.condition.Available? { return Failure(WorkspaceUnavailable), id; }
      if w.availability != Open { return Failure(WorkspaceUnavailable), id; }
      var hours := (end - start + 3599) / 3600;
      if amount < w.pricePerHour * hours { return Failure(InsufficientPayment), id; }
      var ids := if OfWorkspace(workspace) in lists then lists[OfWorkspace(workspace)] else [];
      for k := 0 to |ids|
        invariant forall i :: 0 <= i < k && ids[i] in bookings && Live(bookings[ids[i]]) ==> !Overlaps(bookings[ids[i]], start, end)
      {
        if ids[k] in bookings {
          var b := bookings[ids[k]];
          if b.status != Cancelled && !(end <= b.start || start >= b.end) {
            ghost var l := Abs().ledger;
            assert Listed(l.lists, OfWorkspace(workspace))[k] in l.bookings;
            assert Taken(l, workspace, start, end);
            return Failure(OverlappingBooking), id;
          }
        }
      }
      id := bookingCount + 1;
      bookings := bookings[id := Booking(member, workspace, start, end, amount, Pending, 0)];
      bookingCount := id;
      PushId(OfWorkspace(workspace), id);
      PushId(OfMember(member), id);
      r := Success(());
    }

    method ConfirmBooking(caller: Address, id: nat) returns (r: Result<(), Error>)
      modifies this
      ensures Answered(old(Abs()), DoConfirm(old(Abs()), caller, id), Abs(), r)
    {
      if admin.None? { return Failure(AdminNotSet); }
      if caller != admin.value { return Failure(Trap); }
      if id !in bookings { return Failure(BookingNotFound); }
      if bookings[id].status == Confirmed { return Failure(BookingAlreadyConfirmed); }
      bookings := bookings[id := bookings[id].(status := Confirmed)];
      r := Success(());
    }

    method CheckConfirmable(id: nat) returns (refusal: Option<Error>)
      ensures refusal == Confirmable(Abs(), id)
    {
      if id !in bookings { return Some(BookingNotFound); }
      var b := bookings[id];
      if b.status == Confirmed { return Some(BookingAlreadyConfirmed); }
      if b.workspace !in workspaces { return Some(WorkspaceNotFound); }
      if workspaces[b.workspace].availability != Open { return Some(WorkspaceUnavailable); }
      refusal := None;
    }

    method CheckAllConfirmable(ids: seq<nat>) returns (refusal: Option<Error>)
      ensures refusal == FirstRefusal(Abs(), ids)
    {
      for k := 0 to |ids|
        invariant FirstRefusal(Abs(), ids[..k]).None?
      {
        assert ids[..k + 1][..k] == ids[..k];
        refusal := CheckConfirmable(ids[k]);
        if refusal.Some? {
          FirstRefusalWins(Abs(), ids, k + 1);
          return;
        }
      }
      assert ids[..|ids|] == ids;
      refusal := None;
    }

    method ConfirmAll(ids: seq<nat>)
      requires forall k :: 0 <= k < |ids| ==> ids[k] in bookings
      modifies `bookings
      ensures bookings == AllConfirmed(old(bookings), ids)
    {
      ghost var before := bookings;
      for k := 0 to |ids|
        invariant bookings.Keys == before.Keys
        invariant forall id :: id in before ==>
                    bookings[id] == if id in ids[..k] then before[id].(status := Confirmed) else before[id]
      {
        assert ids[..k + 1] == ids[..k] + [ids[k]];
        bookings := bookings[ids[k] := bookings[ids[k]].(status := Confirmed)];
      }
      assert ids[..|ids|] == ids;
    }

    method BatchConfirm(caller: Address, ids: seq<nat>) returns (r: Result<(), Error>)
      modifies this
      ensures Answered(old(Abs()), DoBatchConfirm(old(Abs()), caller, ids), Abs(), r)
    {
      if admin != Some(caller) { return Failure(Trap); }
      if |ids| > MAX_BATCH_SIZE { return Failure(BatchTooLarge); }
      var refusal := CheckAllConfirmable(ids);
      if refusal.Some? { return Failure(refusal.value); }
      forall k | 0 <= k < |ids| ensures ids[k] in bookings { NoRefusalAllKnown(Abs(), ids, k); }
      ConfirmAll(ids);
      r := Success(());
    }

    method Cancel(caller: Address, id: nat) returns (r: Result<(), Error>)
      modifies this
      ensures Answered(old(Abs()), DoCancel(old(Abs()), caller, id), Abs(), r)
    {
      if id !in bookings { return Failure(BookingNotFound); }
      var b := bookings[id];
      if b.status == Cancelled { return Failure(AlreadyCancelled); }
      if admin.None? { return Failure(AdminNotSet); }
      if caller != b.member && caller != admin.value { return Failure(Unauthorized); }
      bookings := bookings[id := b.(status := Cancelled)];
      r := Success(());
    }

    method SetBookingEscrow(caller: Address, id: nat, escrowId: nat) returns (r: Result<(), Error>)
      modifies this
      ensures Answered(old(Abs()), DoSetEscrow(old(Abs()), caller, id, escrowId), Abs(), r)
    {
      if id !in bookings { return Failure(BookingNotFound); }
      if admin.None? { return Failure(AdminNotSet); }
      if caller != admin.value { return Failure(Unauthorized); }
      bookings := bookings[id := bookings[id].(escrowId := escrowId)];
      r := Success(());
    }

    /** With exact lists, the member's bookings are all returned, in id order. */
    method ListMemberBookings(member: Address) returns (result: seq<Booking>)
      requires ListExact(Abs().ledger, OfMember(member))
      ensures var ids := IdsOf(bookings, bookingCount, OfMember(member));
              |result| == |ids| && forall k :: 0 <= k < |ids| ==> ids[k] in bookings && result[k] == bookings[ids[k]]
    {
      var ids := if OfMember(member) in lists then lists[OfMember(member)] else [];
      forall k | 0 <= k < |ids| ensures ids[k] in bookings {
        IdsOfHas(bookings, bookingCount, OfMember(member), ids[k]);
      }
      result := [];
      for k := 0 to |ids|
        invariant |result| == k && forall i :: 0 <= i < k ==> result[i] == bookings[ids[i]]
      {
        if ids[k] in bookings { result := result + [bookings[ids[k]]]; }
      }
    }
  }
}
