/**
 * backend/src/bookings/conflict-detection.service.ts and capacity-check.service.ts.
 *
 * A row of the booking table is identified by its position.  Times are
 * milliseconds; a booking covers the half-open interval [startTime, endTime).
 */
module ConflictDetection {
  import opened Common
  import opened Intervals

  datatype Status = Pending | Confirmed | Cancelled | Completed

  datatype Booking = Booking(
    workspaceId: nat, userId: nat, startTime: int, endTime: int,
    status: Status, stellarTxHash: Option<nat>, seriesId: Option<nat>)

  datatype Window = Window(workspaceId: nat, startTime: int, endTime: int)

  datatype Conflict =
    | MaintenanceWindow(startTime: int, endTime: int)
    | CapacityExceeded(bookingId: nat, available: int, startTime: int, endTime: int)

  datatype Error = WorkspaceNotFound

  // ---------------------------------------------------------------- pointwise specification

  predicate Active(b: Booking) {
    b.status.Pending? || b.status.Confirmed?
  }

  /** The booking occupies its workspace at instant t. */
  predicate Covers(b: Booking, ws: nat, t: int) {
    b.workspaceId == ws && Active(b) && b.startTime <= t < b.endTime
  }

  /** How many rows, other than `except`, occupy workspace ws at instant t. */
  function Covered(rows: seq<Booking>, ws: nat, except: Option<nat>, t: int): nat {
    if rows == [] then 0
    else
      var last := |rows| - 1;
      Covered(rows[..last], ws, except, t)
      + (if Covers(rows[last], ws, t) && except != Some(last) then 1 else 0)
  }

  /** The service's WHERE clause. */
  predicate Hits(b: Booking, ws: nat, s: int, e: int) {
    b.workspaceId == ws && Active(b) && b.startTime < e && b.endTime > s
  }

  /** Every listed row exists and matches the query. */
  ghost predicate Selected(rows: seq<Booking>, ids: seq<nat>, ws: nat, s: int, e: int) {
    forall k :: 0 <= k < |ids| ==> ids[k] < |rows| && Hits(rows[ids[k]], ws, s, e)
  }

  ghost predicate Below(ids: seq<nat>, n: nat) {
    forall k :: 0 <= k < |ids| ==> ids[k] < n
  }

  function Overlapping(rows: seq<Booking>, ws: nat, s: int, e: int, except: Option<nat>): (ids: seq<nat>)
    ensures Selected(rows, ids, ws, s, e) && Below(ids, |rows|)
    ensures forall i: nat :: i in ids <==> i < |rows| && Hits(rows[i], ws, s, e) && except != Some(i)
  {
    if rows == [] then []
    else
      var last := |rows| - 1;
      var front := Overlapping(rows[..last], ws, s, e, except);
      if Hits(rows[last], ws, s, e) && except != Some(last) then front + [last] else front
  }

  predicate Blocks(w: Window, ws: nat, s: int, e: int) {
    w.workspaceId == ws && w.startTime < e && w.endTime > s
  }

  ghost predicate InMaintenance(maintenance: seq<Window>, ws: nat, s: int, e: int) {
    exists w :: w in maintenance && Blocks(w, ws, s, e)
  }

  ghost predicate Crowded(capacity: int, rows: seq<Booking>, ws: nat, s: int, e: int, except: Option<nat>) {
    exists t :: s <= t < e && Covered(rows, ws, except, t) >= capacity
  }

  // ---------------------------------------------------------------- what the definitions mean, instant by instant

  /** The row takes a seat of the workspace for as long as it lasts: pending or confirmed, not cancelled or completed. */
  predicate Seated(b: Booking, ws: nat) { b.workspaceId == ws && (b.status == Pending || b.status == Confirmed) }

  /** A row is found by the query exactly when it takes a seat at some instant of the request. */
  lemma HitsIffSharesInstant(b: Booking, ws: nat, s: int, e: int)
    requires s < e && b.startTime < b.endTime
    ensures Hits(b, ws, s, e) <==> Seated(b, ws) && Meet(s, e, b.startTime, b.endTime)
  {
    MeetIff(s, e, b.startTime, b.endTime);
  }

  /** A maintenance window blocks a request exactly when the two share an instant. */
  lemma BlocksIffSharesInstant(w: Window, ws: nat, s: int, e: int)
    requires s < e && w.startTime < w.endTime
    ensures Blocks(w, ws, s, e) <==> w.workspaceId == ws && Meet(s, e, w.startTime, w.endTime)
  {
    MeetIff(s, e, w.startTime, w.endTime);
  }

  ghost predicate ProperWindows(maintenance: seq<Window>) {
    forall w :: w in maintenance ==> w.startTime < w.endTime
  }

  /** Some instant of the request is under maintenance in this workspace. */
  ghost predicate UnderMaintenance(maintenance: seq<Window>, ws: nat, s: int, e: int) {
    exists w :: w in maintenance && w.workspaceId == ws && Meet(s, e, w.startTime, w.endTime)
  }

  lemma InMaintenanceIff(maintenance: seq<Window>, ws: nat, s: int, e: int)
    requires s < e && ProperWindows(maintenance)
    ensures InMaintenance(maintenance, ws, s, e) <==> UnderMaintenance(maintenance, ws, s, e)
  {
    forall w | w in maintenance
      ensures Blocks(w, ws, s, e) <==> w.workspaceId == ws && Meet(s, e, w.startTime, w.endTime)
    {
      BlocksIffSharesInstant(w, ws, s, e);
    }
    hide Blocks, Meet;
  }

  /** The rows, by position, that hold a seat of the workspace at instant t. */
  ghost function SeatsAt(rows: seq<Booking>, ws: nat, except: Option<nat>, t: int): set<nat> {
    set i: nat | i < |rows| && except != Some(i) && Seated(rows[i], ws) && During(t, rows[i].startTime, rows[i].endTime)
  }

  lemma SeatsAtSnoc(rows: seq<Booking>, ws: nat, except: Option<nat>, t: int)
    requires rows != []
    ensures var n := |rows| - 1;
            var front, taken := SeatsAt(rows[..n], ws, except, t), Covers(rows[n], ws, t) && except != Some(n);
            n !in front && SeatsAt(rows, ws, except, t) == front + if taken then {n} else {}
  {
    var n := |rows| - 1;
    forall i: nat | i < n ensures rows[..n][i] == rows[i] {}
  }

  lemma {:induction false} CoveredCountsSeats(rows: seq<Booking>, ws: nat, except: Option<nat>, t: int)
    ensures Covered(rows, ws, except, t) == |SeatsAt(rows, ws, except, t)|
  {
    if rows == [] {
      assert SeatsAt(rows, ws, except, t) == {};
    } else {
      hide SeatsAt;
      CoveredCountsSeats(rows[..|rows| - 1], ws, except, t);
      SeatsAtSnoc(rows, ws, except, t);
    }
  }

  /** The rows that hold a seat at some instant of the request. */
  ghost function SeatsDuring(rows: seq<Booking>, ws: nat, s: int, e: int, except: Option<nat>): set<nat> {
    set i: nat | i < |rows| && except != Some(i) && Seated(rows[i], ws) && Meet(s, e, rows[i].startTime, rows[i].endTime)
  }

  ghost predicate ProperRows(rows: seq<Booking>) {
    forall i :: 0 <= i < |rows| ==> rows[i].startTime < rows[i].endTime
  }

  lemma SeatsDuringSnoc(rows: seq<Booking>, ws: nat, s: int, e: int, except: Option<nat>)
    requires rows != [] && s < e && rows[|rows| - 1].startTime < rows[|rows| - 1].endTime
    ensures var n := |rows| - 1;
            var front, found := SeatsDuring(rows[..n], ws, s, e, except), Hits(rows[n], ws, s, e) && except != Some(n);
            n !in front && SeatsDuring(rows, ws, s, e, except) == front + if found then {n} else {}
  {
    var n := |rows| - 1;
    HitsIffSharesInstant(rows[n], ws, s, e);
    hide Hits, Meet;
    forall i: nat | i < n ensures rows[..n][i] == rows[i] {}
  }

  /** The query finds each row that meets the request once, and no other. */
  lemma {:induction false} OverlappingCountsSeats(rows: seq<Booking>, ws: nat, s: int, e: int, except: Option<nat>)
    requires s < e && ProperRows(rows)
    ensures |Overlapping(rows, ws, s, e, except)| == |SeatsDuring(rows, ws, s, e, except)|
    ensures forall i: nat :: i in Overlapping(rows, ws, s, e, except) <==> i in SeatsDuring(rows, ws, s, e, except)
  {
    if rows == [] {
      assert SeatsDuring(rows, ws, s, e, except) == {};
    } else {
      hide SeatsDuring, Hits;
      OverlappingCountsSeats(rows[..|rows| - 1], ws, s, e, except);
      SeatsDuringSnoc(rows, ws, s, e, except);
    }
  }

  // ---------------------------------------------------------------- sweep over events

  datatype Event = Event(time: int, isStart: bool)

  /** The comparator: time ascending, at one time an end before a start. */
  predicate NotAfter(a: Event, b: Event) {
    a.time < b.time || (a.time == b.time && (a.isStart ==> b.isStart))
  }

  ghost predicate Ordered(evs: seq<Event>) {
    forall i, j :: 0 <= i < j < |evs| ==> NotAfter(evs[i], evs[j])
  }

  function Delta(e: Event): int { if e.isStart then 1 else -1 }

  /** Starts minus ends among all events. */
  function Net(evs: seq<Event>): int {
    if evs == [] then 0 else Net(evs[..|evs| - 1]) + Delta(evs[|evs| - 1])
  }

  /** Starts minus ends among the events no later than t. */
  function NetAt(evs: seq<Event>, t: int): int {
    if evs == [] then 0
    else
      var last := evs[|evs| - 1];
      NetAt(evs[..|evs| - 1], t) + (if last.time <= t then Delta(last) else 0)
  }

  /** The largest running total reached right after a start event. */
  function Peak(evs: seq<Event>): nat {
    if evs == [] then 0
    else
      var front := Peak(evs[..|evs| - 1]);
      if evs[|evs| - 1].isStart then Max(front, Net(evs)) else front
  }

  function Insert(evs: seq<Event>, e: Event): (r: seq<Event>) {
    if evs == [] then [e]
    else
      var n := |evs| - 1;
      if NotAfter(evs[n], e) then evs + [e] else Insert(evs[..n], e) + [evs[n]]
  }

  lemma {:induction false} InsertKeepsEvents(evs: seq<Event>, e: Event)
    ensures multiset(Insert(evs, e)) == multiset(evs) + multiset{e}
  {
    if evs != [] {
      var n := |evs| - 1;
      assert evs == evs[..n] + [evs[n]];
      InsertKeepsEvents(evs[..n], e);
    }
  }

  lemma {:induction false} InsertKeepsOrder(evs: seq<Event>, e: Event)
    requires Ordered(evs)
    ensures Ordered(Insert(evs, e))
    ensures forall k :: 0 <= k < |Insert(evs, e)| ==> Insert(evs, e)[k] == e || Insert(evs, e)[k] in evs
  {
    if evs != [] {
      var n := |evs| - 1;
      if NotAfter(evs[n], e) {
        forall i | 0 <= i < |evs| ensures NotAfter(evs[i], e) {
          if i < n { assert NotAfter(evs[i], evs[n]); }
        }
      } else {
        InsertKeepsOrder(evs[..n], e);
        var r := Insert(evs[..n], e);
        forall i | 0 <= i < |r| ensures NotAfter(r[i], evs[n]) {
          if r[i] != e {
            var j :| 0 <= j < n && evs[j] == r[i];
            assert NotAfter(evs[j], evs[n]);
          }
        }
      }
    }
  }

  lemma {:induction false} InsertCounts(evs: seq<Event>, e: Event, t: int)
    ensures NetAt(Insert(evs, e), t) == NetAt(evs, t) + NetAt([e], t)
  {
    if evs != [] {
      var n := |evs| - 1;
      if NotAfter(evs[n], e) {
        assert (evs + [e])[..|evs|] == evs;
      } else {
        InsertCounts(evs[..n], e, t);
        var r := Insert(evs[..n], e);
        assert (r + [evs[n]])[..|r|] == r;
      }
    }
  }

  /** `Array.prototype.sort` with the comparator above. */
  function SortEvents(evs: seq<Event>): (r: seq<Event>)
    ensures Ordered(r)
    ensures multiset(r) == multiset(evs)
  {
    if evs == [] then []
    else
      var n := |evs| - 1;
      var front := SortEvents(evs[..n]);
      assert evs == evs[..n] + [evs[n]];
      InsertKeepsEvents(front, evs[n]);
      InsertKeepsOrder(front, evs[n]);
      Insert(front, evs[n])
  }

  lemma {:induction false} SortCounts(evs: seq<Event>, t: int)
    ensures NetAt(SortEvents(evs), t) == NetAt(evs, t)
  {
    if evs != [] {
      var n := |evs| - 1;
      SortCounts(evs[..n], t);
      InsertCounts(SortEvents(evs[..n]), evs[n], t);
    }
  }

  lemma {:induction false} PeakBoundsEveryInstant(evs: seq<Event>, t: int)
    requires Ordered(evs)
    ensures NetAt(evs, t) <= Peak(evs)
    ensures Net(evs) <= Peak(evs)
  {
    if evs != [] {
      var n := |evs| - 1;
      PeakBoundsEveryInstant(evs[..n], t);
      if evs[n].time <= t { AllPassed(evs, t); }
    }
  }

  lemma {:induction false} AllPassed(evs: seq<Event>, t: int)
    requires forall i :: 0 <= i < |evs| ==> evs[i].time <= t
    ensures NetAt(evs, t) == Net(evs)
  {
    if evs != [] { AllPassed(evs[..|evs| - 1], t); }
  }

  /** The peak is the running total at the time of some start event. */
  lemma {:induction false} PeakIsReached(evs: seq<Event>) returns (i: nat)
    requires Ordered(evs) && Peak(evs) > 0
    ensures i < |evs| && evs[i].isStart && Peak(evs) <= NetAt(evs, evs[i].time)
  {
    var n := |evs| - 1;
    if evs[n].isStart && Peak(evs) == Net(evs) {
      i := n;
      forall j | 0 <= j < |evs| ensures evs[j].time <= evs[n].time {
        if j < n { assert NotAfter(evs[j], evs[n]); }
      }
      AllPassed(evs, evs[n].time);
    } else {
      i := PeakIsReached(evs[..n]);
      assert NotAfter(evs[i], evs[n]);
    }
  }

  // ---------------------------------------------------------------- events of a request

  function Clipped(b: Booking, s: int, e: int): seq<Event> {
    var lo, hi := Max(s, b.startTime), Min(e, b.endTime);
    if lo < hi then [Event(lo, true), Event(hi, false)] else []
  }

  /** The event list before sorting, for the first k overlapping bookings. */
  function RequestEvents(rows: seq<Booking>, ids: seq<nat>, s: int, e: int): seq<Event>
    requires Below(ids, |rows|)
  {
    if ids == [] then [Event(s, true), Event(e, false)]
    else RequestEvents(rows, ids[..|ids| - 1], s, e) + Clipped(rows[ids[|ids| - 1]], s, e)
  }

  lemma PairCount(a: Event, b: Event, t: int)
    ensures NetAt([a, b], t) == (if a.time <= t then Delta(a) else 0) + (if b.time <= t then Delta(b) else 0)
  {
    assert [a, b][..1] == [a];
    assert NetAt([a], t) == if a.time <= t then Delta(a) else 0;
  }

  lemma NetAtAppend(evs: seq<Event>, more: seq<Event>, t: int)
    requires |more| <= 2
    ensures NetAt(evs + more, t) == NetAt(evs, t) + NetAt(more, t)
  {
    if |more| == 0 {
      assert evs + more == evs;
    } else if |more| == 1 {
      assert (evs + more)[..|evs|] == evs;
    } else {
      assert (evs + more)[..|evs| + 1] == evs + [more[0]];
      assert (evs + [more[0]])[..|evs|] == evs;
      assert more[..1] == [more[0]];
    }
  }

  function HitsCovering(rows: seq<Booking>, ids: seq<nat>, t: int): nat
    requires Below(ids, |rows|)
  {
    if ids == [] then 0
    else HitsCovering(rows, ids[..|ids| - 1], t)
         + (if rows[ids[|ids| - 1]].startTime <= t < rows[ids[|ids| - 1]].endTime then 1 else 0)
  }

  lemma {:induction false} EventsCount(rows: seq<Booking>, ids: seq<nat>, ws: nat, s: int, e: int, t: int)
    requires Selected(rows, ids, ws, s, e)
    requires s <= t < e
    ensures NetAt(RequestEvents(rows, ids, s, e), t) == 1 + HitsCovering(rows, ids, t)
  {
    if ids == [] {
      var evs := RequestEvents(rows, ids, s, e);
      PairCount(evs[0], evs[1], t);
    } else {
      var n := |ids| - 1;
      EventsCount(rows, ids[..n], ws, s, e, t);
      var c := Clipped(rows[ids[n]], s, e);
      NetAtAppend(RequestEvents(rows, ids[..n], s, e), c, t);
      if c != [] { PairCount(c[0], c[1], t); assert c == [c[0], c[1]]; }
    }
  }

  lemma {:induction false} StartsInside(rows: seq<Booking>, ids: seq<nat>, ws: nat, s: int, e: int)
    requires Selected(rows, ids, ws, s, e)
    requires s < e
    ensures forall ev :: ev in RequestEvents(rows, ids, s, e) && ev.isStart ==> s <= ev.time < e
  {
    if ids != [] { StartsInside(rows, ids[..|ids| - 1], ws, s, e); }
  }

  lemma HitsSnoc(rows: seq<Booking>, ids: seq<nat>, id: nat, t: int)
    requires Below(ids, |rows|) && id < |rows|
    ensures Below(ids + [id], |rows|)
    ensures HitsCovering(rows, ids + [id], t) ==
            HitsCovering(rows, ids, t) + (if rows[id].startTime <= t < rows[id].endTime then 1 else 0)
  {
    assert (ids + [id])[..|ids|] == ids;
  }

  /** Counting through the query and counting over the whole table agree inside the request. */
  lemma {:induction false} QueryCount(rows: seq<Booking>, ws: nat, s: int, e: int, except: Option<nat>, t: int)
    requires s <= t < e
    ensures HitsCovering(rows, Overlapping(rows, ws, s, e, except), t) == Covered(rows, ws, except, t)
    ensures Covered(rows, ws, except, t) <= |Overlapping(rows, ws, s, e, except)|
  {
    if rows == [] {
      assert HitsCovering([], [], t) == 0;
    } else {
      hide HitsCovering;
      var last := |rows| - 1;
      QueryCount(rows[..last], ws, s, e, except, t);
      var front := Overlapping(rows[..last], ws, s, e, except);
      HitsPrefix(rows, last, front, t);
      HitsSnoc(rows, front, last, t);
    }
  }

  lemma {:induction false} HitsPrefix(rows: seq<Booking>, n: nat, ids: seq<nat>, t: int)
    requires n <= |rows| && Below(ids, n)
    ensures HitsCovering(rows[..n], ids, t) == HitsCovering(rows, ids, t)
  {
    if ids != [] { HitsPrefix(rows, n, ids[..|ids| - 1], t); }
  }

  /** The sorted sweep computes one more than the largest pointwise count in [s, e). */
  lemma SweepIsPointwise(rows: seq<Booking>, ws: nat, s: int, e: int, except: Option<nat>, evs: seq<Event>)
    requires s < e
    requires evs == SortEvents(RequestEvents(rows, Overlapping(rows, ws, s, e, except), s, e))
    ensures forall t :: s <= t < e ==> Covered(rows, ws, except, t) < Peak(evs)
    ensures exists t :: s <= t < e && Covered(rows, ws, except, t) == Peak(evs) - 1
  {
    var ids := Overlapping(rows, ws, s, e, except);
    forall t | s <= t < e
      ensures NetAt(evs, t) == 1 + Covered(rows, ws, except, t)
      ensures Covered(rows, ws, except, t) < Peak(evs)
    {
      EventsCount(rows, ids, ws, s, e, t);
      QueryCount(rows, ws, s, e, except, t);
      SortCounts(RequestEvents(rows, ids, s, e), t);
      PeakBoundsEveryInstant(evs, t);
    }
    assert Covered(rows, ws, except, s) < Peak(evs);
    var i := PeakIsReached(evs);
    StartsInside(rows, ids, ws, s, e);
    assert evs[i] in multiset(evs);
    assert NetAt(evs, evs[i].time) == 1 + Covered(rows, ws, except, evs[i].time);
  }

  /** Comparing the peak with the capacity, as the service does, decides the pointwise question. */
  lemma SweepDecides(capacity: int, rows: seq<Booking>, ws: nat, s: int, e: int, except: Option<nat>, evs: seq<Event>)
    requires s < e
    requires evs == SortEvents(RequestEvents(rows, Overlapping(rows, ws, s, e, except), s, e))
    ensures Peak(evs) > capacity <==> Crowded(capacity, rows, ws, s, e, except)
  {
    SweepIsPointwise(rows, ws, s, e, except, evs);
  }

  // ---------------------------------------------------------------- ConflictDetectionService.hasConflict

  /** hasConflict's test for capacity: some overlapping row, and a peak above the capacity. */
  ghost predicate Refused(capacity: int, rows: seq<Booking>, ws: nat, s: int, e: int, except: Option<nat>) {
    Overlapping(rows, ws, s, e, except) != [] && Crowded(capacity, rows, ws, s, e, except)
  }

  lemma CrowdedIff(workspaces: map<nat, int>, rows: seq<Booking>, ws: nat, s: int, e: int, except: Option<nat>)
    ensures ws in workspaces ==> (Crowded(workspaces[ws], rows, ws, s, e, except) <==>
                                  exists t :: s <= t < e && |SeatsAt(rows, ws, except, t)| >= workspaces[ws])
  {
    forall t ensures Covered(rows, ws, except, t) == |SeatsAt(rows, ws, except, t)| {
      CoveredCountsSeats(rows, ws, except, t);
    }
  }

  /** With at least one seat the request is refused exactly when some instant of it is already full. */
  lemma ConflictIffFullInstant(capacity: int, rows: seq<Booking>, ws: nat, s: int, e: int, except: Option<nat>)
    requires s < e && capacity >= 1
    ensures Refused(capacity, rows, ws, s, e, except) <==> Crowded(capacity, rows, ws, s, e, except)
  {
    if Crowded(capacity, rows, ws, s, e, except) {
      var t :| s <= t < e && Covered(rows, ws, except, t) >= capacity;
      QueryCount(rows, ws, s, e, except, t);
    }
  }

  /** Without seats every instant is full, and the request is refused exactly when some row overlaps it. */
  lemma NoSeatsShortcut(capacity: int, rows: seq<Booking>, ws: nat, s: int, e: int, except: Option<nat>)
    requires s < e && capacity < 1
    ensures Crowded(capacity, rows, ws, s, e, except)
    ensures Refused(capacity, rows, ws, s, e, except) <==> Overlapping(rows, ws, s, e, except) != []
  {
    assert Covered(rows, ws, except, s) >= capacity;
  }

  method MaxConcurrent(events: seq<Event>) returns (maxConcurrent: nat)
    ensures maxConcurrent == Peak(events)
  {
    var currentConcurrent := 0;
    maxConcurrent := 0;
    for k := 0 to |events|
      invariant currentConcurrent == Net(events[..k])
      invariant maxConcurrent == Peak(events[..k])
    {
      assert events[..k + 1][..k] == events[..k];
      if events[k].isStart {
        currentConcurrent := currentConcurrent + 1;
        if currentConcurrent > maxConcurrent {
          maxConcurrent := currentConcurrent;
        }
      } else {
        currentConcurrent := currentConcurrent - 1;
      }
    }
    assert events[..|events|] == events;
  }

  method FindMaintenance(maintenance: seq<Window>, ws: nat, s: int, e: int) returns (r: Option<Window>)
    ensures r.Some? ==> r.value in maintenance && Blocks(r.value, ws, s, e)
    ensures r.None? ==> !InMaintenance(maintenance, ws, s, e)
    ensures s < e && ProperWindows(maintenance) ==> (r.Some? <==> UnderMaintenance(maintenance, ws, s, e))
  {
    if s < e && ProperWindows(maintenance) { InMaintenanceIff(maintenance, ws, s, e); }
    hide UnderMaintenance;
    for k := 0 to |maintenance|
      invariant forall j :: 0 <= j < k ==>
                  !Blocks(maintenance[j], ws, s, e)
    {
      var w := maintenance[k];
      if Blocks(w, ws, s, e) {
        return Some(w);
      }
    }
    return None;
  }

  method BuildEvents(rows: seq<Booking>, overlapping: seq<nat>, s: int, e: int) returns (events: seq<Event>)
    requires Below(overlapping, |rows|)
    ensures events == RequestEvents(rows, overlapping, s, e)
  {
    events := [];
    events := events + [Event(s, true)];
    events := events + [Event(e, false)];
    for k := 0 to |overlapping|
      invariant events == RequestEvents(rows, overlapping[..k], s, e)
    {
      var b := rows[overlapping[k]];
      var overlapStart := Max(s, b.startTime);
      var overlapEnd := Min(e, b.endTime);
      if overlapStart < overlapEnd {
        events := events + [Event(overlapStart, true)] + [Event(overlapEnd, false)];
      }
      assert overlapping[..k + 1][..k] == overlapping[..k];
    }
    assert overlapping[..|overlapping|] == overlapping;
  }

  method HasConflict(workspaces: map<nat, int>, maintenance: seq<Window>, rows: seq<Booking>,
                     ws: nat, s: int, e: int, except: Option<nat>)
    returns (r: Result<Option<Conflict>, Error>)
    ensures ws !in workspaces <==> r.Failure?
    ensures r.Success? && r.value.Some? && r.value.value.MaintenanceWindow? ==>
              exists w :: w in maintenance && Blocks(w, ws, s, e)
                          && r.value.value == MaintenanceWindow(w.startTime, w.endTime)
    ensures r.Success? && InMaintenance(maintenance, ws, s, e) ==>
              r.value.Some? && r.value.value.MaintenanceWindow?
    ensures r.Success? && s < e && ProperWindows(maintenance) ==>
              (r.value.Some? && r.value.value.MaintenanceWindow? <==> UnderMaintenance(maintenance, ws, s, e))
    ensures r.Success? && s < e && ProperWindows(maintenance) && !UnderMaintenance(maintenance, ws, s, e) && workspaces[ws] >= 1 ==>
              (r.value.Some? <==> exists t :: s <= t < e && |SeatsAt(rows, ws, except, t)| >= workspaces[ws])
    ensures r.Success? && !InMaintenance(maintenance, ws, s, e) && s < e ==>
              (r.value.Some? <==> Refused(workspaces[ws], rows, ws, s, e, except))
    ensures r.Success? && !InMaintenance(maintenance, ws, s, e) && s < e && workspaces[ws] >= 1 ==>
              (r.value.Some? <==> Crowded(workspaces[ws], rows, ws, s, e, except))
    ensures r.Success? && r.value.Some? && r.value.value.CapacityExceeded? ==>
              var c := r.value.value;
              && c.available == 0
              && c.bookingId < |rows| && Hits(rows[c.bookingId], ws, s, e) && except != Some(c.bookingId)
              && c.startTime == rows[c.bookingId].startTime && c.endTime == rows[c.bookingId].endTime
              && (s < e && ProperRows(rows) ==> c.bookingId in SeatsDuring(rows, ws, s, e, except))
  {
    if s < e && ProperRows(rows) { OverlappingCountsSeats(rows, ws, s, e, except); }
    CrowdedIff(workspaces, rows, ws, s, e, except);
    hide Crowded, Covered, Peak, SortEvents, RequestEvents, InMaintenance, UnderMaintenance, SeatsAt, SeatsDuring, ProperRows;
    if ws !in workspaces {
      return Failure(WorkspaceNotFound);
    }
    var window := FindMaintenance(maintenance, ws, s, e);
    if window.Some? {
      return Success(Some(MaintenanceWindow(window.value.startTime, window.value.endTime)));
    }
    var overlapping := Overlapping(rows, ws, s, e, except);
    if s < e && workspaces[ws] >= 1 { ConflictIffFullInstant(workspaces[ws], rows, ws, s, e, except); }
    if |overlapping| > 0 {
      var events := BuildEvents(rows, overlapping, s, e);
      events := SortEvents(events);
      var maxConcurrent := MaxConcurrent(events);
      if s < e { SweepDecides(workspaces[ws], rows, ws, s, e, except, events); }
      if maxConcurrent > workspaces[ws] {
        var first := overlapping[0];
        assert first in overlapping;
        return Success(Some(CapacityExceeded(first, Max(0, workspaces[ws] - (maxConcurrent - 1)),
                                             rows[first].startTime, rows[first].endTime)));
      }
    }
    return Success(None);
  }

  // ---------------------------------------------------------------- CapacityCheckService

  const HOUR := 3_600_000
  const DAY := 86_400_000

  datatype Slot = Slot(hour: int, available: int, capacity: int)

  function Available(capacity: int, rows: seq<Booking>, ws: nat, s: int, e: int): int {
    Max(0, capacity - |Overlapping(rows, ws, s, e, None)|)
  }

  /** The coarse count is safe: what it calls available, the sweep admits. */
  lemma AvailableImpliesNoConflict(capacity: int, rows: seq<Booking>, ws: nat, s: int, e: int, lo: int, hi: int)
    requires lo <= s < e <= hi
    requires Available(capacity, rows, ws, lo, hi) > 0
    ensures !Crowded(capacity, rows, ws, s, e, None)
    ensures forall t :: s <= t < e ==> Covered(rows, ws, None, t) + Available(capacity, rows, ws, lo, hi) <= capacity
  {
    forall t | s <= t < e
      ensures Covered(rows, ws, None, t) + Available(capacity, rows, ws, lo, hi) <= capacity
    {
      QueryCount(rows, ws, lo, hi, None, t);
    }
  }

  /** What it is: the capacity less the rows that hold a seat at some instant, floored at zero. */
  lemma AvailableIs(capacity: int, rows: seq<Booking>, ws: nat, s: int, e: int)
    requires s < e && ProperRows(rows)
    ensures var taken := |SeatsDuring(rows, ws, s, e, None)|;
            Available(capacity, rows, ws, s, e) == if taken <= capacity then capacity - taken else 0
  {
    OverlappingCountsSeats(rows, ws, s, e, None);
  }

  /** The 24 slots follow each other without a gap and make up the UTC day of the date. */
  lemma SlotsTileTheDay(date: int, h: int)
    requires 0 <= h < 24
    ensures var midnight := date - date % DAY;
            && midnight <= date < midnight + 24 * HOUR && midnight % 86_400_000 == 0
            && HOUR == 60 * 60 * 1000
            && exists d :: midnight == d * 86_400_000
  {
    assert date - date % DAY == (date / DAY) * 86_400_000;
  }

  /** It is only a bound: two bookings that never meet exhaust a two-seat count but not the sweep. */
  lemma AvailableIsNotExact()
    ensures var rows := [Booking(0, 0, 0, 1, Confirmed, None, None), Booking(0, 0, 1, 2, Confirmed, None, None)];
            Available(2, rows, 0, 0, 2) == 0 && !Crowded(2, rows, 0, 0, 2, None)
  {
    var a, b := Booking(0, 0, 0, 1, Confirmed, None, None), Booking(0, 0, 1, 2, Confirmed, None, None);
    var rows := [a, b];
    assert rows[..1] == [a] && [a][..0] == [];
    assert Overlapping([a], 0, 0, 2, None) == [0];
    forall t ensures Covered(rows, 0, None, t) < 2 {
      assert Covered([a], 0, None, t) == if 0 <= t < 1 then 1 else 0;
    }
  }

  method HasCapacity(workspaces: map<nat, int>, rows: seq<Booking>, ws: nat, s: int, e: int)
    returns (r: Result<(int, int), Error>)
    ensures ws !in workspaces <==> r.Failure?
    ensures r.Success? ==> r.value == (Available(workspaces[ws], rows, ws, s, e), workspaces[ws])
  {
    if ws !in workspaces {
      return Failure(WorkspaceNotFound);
    }
    var concurrent := |Overlapping(rows, ws, s, e, None)|;
    return Success((Max(0, workspaces[ws] - concurrent), workspaces[ws]));
  }

  method GetHourlyAvailability(workspaces: map<nat, int>, rows: seq<Booking>, ws: nat, date: int)
    returns (r: Result<seq<Slot>, Error>)
    ensures ws !in workspaces <==> r.Failure?
    ensures r.Success? ==> |r.value| == 24
    ensures r.Success? ==> forall h :: 0 <= h < 24 ==>
              var from := date - date % DAY + h * HOUR;
              r.value[h] == Slot(from, Available(workspaces[ws], rows, ws, from, from + HOUR), workspaces[ws])
  {
    if ws !in workspaces {
      return Failure(WorkspaceNotFound);
    }
    var slots := [];
    var startOfDay := date - date % DAY;
    for hour := 0 to 24
      invariant |slots| == hour
      invariant forall h :: 0 <= h < hour ==>
                  var from := startOfDay + h * HOUR;
                  slots[h] == Slot(from, Available(workspaces[ws], rows, ws, from, from + HOUR), workspaces[ws])
    {
      var slotStart := startOfDay + hour * HOUR;
      var slotEnd := startOfDay + (hour + 1) * HOUR;
      var concurrent := |Overlapping(rows, ws, slotStart, slotEnd, None)|;
      slots := slots + [Slot(slotStart, Max(0, workspaces[ws] - concurrent), workspaces[ws])];
    }
    return Success(slots);
  }
}
