/**
 * backend/src/bookings/bookings.service.ts over one booking table.
 *
 * Each call is one atomic step (the service holds the workspace row lock).  The
 * table's meaning is the pointwise count `Covered`; a rejected call leaves it unchanged.
 */
module BookingsService {
  import opened Common
  import opened ConflictDetection
  import opened Intervals

  const MAX_RECURRENCE_INSTANCES := 52

  datatype Env = Env(workspaces: map<nat, int>, maintenance: seq<Window>)

  datatype UpdateDto = UpdateDto(startTime: Option<int>, endTime: Option<int>,
                                 status: Option<Status>, stellarTxHash: Option<nat>)

  datatype Request =
    | Create(userId: nat, ws: nat, s: int, e: int, tx: Option<nat>)
    | CreateSeries(userId: nat, ws: nat, s: int, e: int, tx: Option<nat>, starts: seq<int>, seriesId: nat)
    | Confirm(id: nat, txVerified: bool)
    | Cancel(id: nat, userId: nat)
    | CancelSeries(seriesId: nat, userId: nat, now: int)
    | Update(id: nat, dto: UpdateDto)

  datatype BookingError = NotFound | BadRequest | Forbidden | ConflictDetected

  // ---------------------------------------------------------------- what each request means

  /** hasConflict returns null. */
  ghost predicate Admits(env: Env, rows: seq<Booking>, ws: nat, s: int, e: int, except: Option<nat>) {
    && ws in env.workspaces
    && !InMaintenance(env.maintenance, ws, s, e)
    && (Overlapping(rows, ws, s, e, except) == [] || !Crowded(env.workspaces[ws], rows, ws, s, e, except))
  }

  function Instances(req: Request): (bs: seq<Booking>)
    requires req.CreateSeries?
    ensures |bs| == |req.starts|
  {
    seq(|req.starts|, k requires 0 <= k < |req.starts| =>
      Booking(req.ws, req.userId, req.starts[k], req.starts[k] + (req.e - req.s),
              Pending, req.tx, Some(req.seriesId)))
  }

  /** Every instance is checked against the table as it was before the series. */
  ghost predicate AdmitsAll(env: Env, rows: seq<Booking>, ws: nat, starts: seq<int>, duration: int) {
    forall k :: 0 <= k < |starts| ==> Admits(env, rows, ws, starts[k], starts[k] + duration, None)
  }

  predicate InSeries(b: Booking, seriesId: nat) { b.seriesId == Some(seriesId) }

  /** The first row of the series decides who owns it. */
  predicate OwnsSeries(rows: seq<Booking>, seriesId: nat, userId: nat) {
    exists i :: 0 <= i < |rows| && InSeries(rows[i], seriesId) && rows[i].userId == userId
                && forall j :: 0 <= j < i ==> !InSeries(rows[j], seriesId)
  }

  function Changed(b: Booking, dto: UpdateDto): Booking {
    b.(startTime := if dto.startTime.Some? then dto.startTime.value else b.startTime,
       endTime := if dto.endTime.Some? then dto.endTime.value else b.endTime,
       status := if dto.status.Some? then dto.status.value else b.status,
       stellarTxHash := if dto.stellarTxHash.Some? then dto.stellarTxHash else b.stellarTxHash)
  }

  predicate Reschedules(dto: UpdateDto) { dto.startTime.Some? || dto.endTime.Some? }

  function Withdrawn(b: Booking, seriesId: nat, now: int): Booking {
    if InSeries(b, seriesId) && b.startTime > now && b.status != Cancelled then b.(status := Cancelled) else b
  }

  function SeriesSize(rows: seq<Booking>, seriesId: nat): nat {
    if rows == [] then 0
    else SeriesSize(rows[..|rows| - 1], seriesId) + (if InSeries(rows[|rows| - 1], seriesId) then 1 else 0)
  }

  function Withdrawals(rows: seq<Booking>, seriesId: nat, now: int): nat {
    if rows == [] then 0
    else
      var b := rows[|rows| - 1];
      Withdrawals(rows[..|rows| - 1], seriesId, now) + (if Withdrawn(b, seriesId, now) != b then 1 else 0)
  }

  ghost predicate Accepts(env: Env, rows: seq<Booking>, req: Request) {
    match req
    case Create(_, ws, s, e, _) => s < e && Admits(env, rows, ws, s, e, None)
    case CreateSeries(_, ws, s, e, _, starts, _) =>
      ws in env.workspaces && s < e && 0 < |starts| <= MAX_RECURRENCE_INSTANCES
      && AdmitsAll(env, rows, ws, starts, e - s)
    case Confirm(id, txVerified) =>
      id < |rows| && rows[id].status == Pending && (rows[id].stellarTxHash.Some? ==> txVerified)
    case Cancel(id, userId) => id < |rows| && rows[id].userId == userId
    case CancelSeries(seriesId, userId, _) => OwnsSeries(rows, seriesId, userId)
    case Update(id, dto) =>
      id < |rows| && (Reschedules(dto) ==>
        var b := Changed(rows[id], dto);
        b.startTime < b.endTime && Admits(env, rows, b.workspaceId, b.startTime, b.endTime, Some(id)))
  }

  function WithdrawnRows(rows: seq<Booking>, seriesId: nat, now: int): seq<Booking> {
    seq(|rows|, i requires 0 <= i < |rows| => Withdrawn(rows[i], seriesId, now))
  }

  ghost function Next(env: Env, rows: seq<Booking>, req: Request): seq<Booking> {
    if !Accepts(env, rows, req) then rows
    else
      match req
      case Create(userId, ws, s, e, tx) => rows + [Booking(ws, userId, s, e, Pending, tx, None)]
      case CreateSeries(_, _, _, _, _, _, _) => rows + Instances(req)
      case Confirm(id, _) => rows[id := rows[id].(status := Confirmed)]
      case Cancel(id, _) => rows[id := rows[id].(status := Cancelled)]
      case CancelSeries(seriesId, _, now) => WithdrawnRows(rows, seriesId, now)
      case Update(id, dto) => rows[id := Changed(rows[id], dto)]
  }

  ghost function Run(env: Env, rows: seq<Booking>, reqs: seq<Request>): seq<Booking>
    decreases |reqs|
  {
    if reqs == [] then rows else Run(env, Next(env, rows, reqs[0]), reqs[1..])
  }

  // ---------------------------------------------------------------- what a caller gets, instant by instant

  /** No maintenance at any instant of the slot, and either no seat is held during it or one is left at each instant. */
  ghost predicate Free(env: Env, rows: seq<Booking>, ws: nat, s: int, e: int, except: Option<nat>) {
    && ws in env.workspaces
    && !UnderMaintenance(env.maintenance, ws, s, e)
    && (SeatsDuring(rows, ws, s, e, except) == {}
        || forall t :: During(t, s, e) ==> |SeatsAt(rows, ws, except, t)| < env.workspaces[ws])
  }

  lemma AdmitsIffFree(env: Env, rows: seq<Booking>, ws: nat, s: int, e: int, except: Option<nat>)
    requires s < e && ProperWindows(env.maintenance) && ProperRows(rows)
    ensures Admits(env, rows, ws, s, e, except) <==> Free(env, rows, ws, s, e, except)
  {
    InMaintenanceIff(env.maintenance, ws, s, e);
    OverlappingCountsSeats(rows, ws, s, e, except);
    CrowdedIff(env.workspaces, rows, ws, s, e, except);
    hide InMaintenance, UnderMaintenance, Overlapping, SeatsDuring, SeatsAt, Covered;
    if ws in env.workspaces {
      forall t ensures During(t, s, e) <==> s <= t < e {}
    }
  }

  /** A booking is made, Pending, exactly for a slot in order that is free. */
  lemma CreateDoes(env: Env, rows: seq<Booking>, userId: nat, ws: nat, s: int, e: int, tx: Option<nat>)
    requires ProperWindows(env.maintenance) && ProperRows(rows)
    ensures Next(env, rows, Create(userId, ws, s, e, tx)) ==
            if s < e && Free(env, rows, ws, s, e, None) then rows + [Booking(ws, userId, s, e, Pending, tx, None)] else rows
  {
    if s < e { AdmitsIffFree(env, rows, ws, s, e, None); }
  }

  /** One to 52 instances, each of them free in the table before the series. */
  ghost predicate SeriesFree(env: Env, rows: seq<Booking>, req: Request)
    requires req.CreateSeries?
  {
    && req.s < req.e && 1 <= |req.starts| <= 52
    && forall k :: 0 <= k < |req.starts| ==> Free(env, rows, req.ws, req.starts[k], req.starts[k] + (req.e - req.s), None)
  }

  lemma SeriesAcceptedIff(env: Env, rows: seq<Booking>, req: Request)
    requires req.CreateSeries? && ProperWindows(env.maintenance) && ProperRows(rows)
    ensures Accepts(env, rows, req) <==> SeriesFree(env, rows, req)
  {
    hide Admits, Free;
    if req.s < req.e { AdmitsAllIffFree(env, rows, req.ws, req.starts, req.e - req.s); }
  }

  lemma AdmitsAllIffFree(env: Env, rows: seq<Booking>, ws: nat, starts: seq<int>, d: int)
    requires d > 0 && ProperWindows(env.maintenance) && ProperRows(rows)
    ensures AdmitsAll(env, rows, ws, starts, d) <==> forall k :: 0 <= k < |starts| ==> Free(env, rows, ws, starts[k], starts[k] + d, None)
    ensures AdmitsAll(env, rows, ws, starts, d) && starts != [] ==> ws in env.workspaces
  {
    forall k | 0 <= k < |starts|
      ensures Admits(env, rows, ws, starts[k], starts[k] + d, None) <==> Free(env, rows, ws, starts[k], starts[k] + d, None)
      ensures Admits(env, rows, ws, starts[k], starts[k] + d, None) ==> ws in env.workspaces
    {
      AdmitsIffFree(env, rows, ws, starts[k], starts[k] + d, None);
      hide Free, Overlapping, Crowded, InMaintenance;
    }
    hide Admits, Free;
    if starts != [] && AdmitsAll(env, rows, ws, starts, d) { assert Admits(env, rows, ws, starts[0], starts[0] + d, None); }
  }

  /** A series is made whole or not at all; its instances all last as long as the request. */
  lemma CreateSeriesDoes(env: Env, rows: seq<Booking>, req: Request)
    requires req.CreateSeries? && ProperWindows(env.maintenance) && ProperRows(rows)
    ensures var after := Next(env, rows, req);
            && (!SeriesFree(env, rows, req) ==> after == rows)
            && (SeriesFree(env, rows, req) ==>
                  |after| == |rows| + |req.starts| && after[..|rows|] == rows
                  && forall i :: |rows| <= i < |after| ==>
                       var start := req.starts[i - |rows|];
                       after[i] == Booking(req.ws, req.userId, start, start + (req.e - req.s), Pending, req.tx, Some(req.seriesId)))
  {
    SeriesAcceptedIff(env, rows, req);
    hide Accepts, SeriesFree;
  }

  /** Pending becomes Confirmed exactly without a payment reference or with a verified one. */
  lemma ConfirmDoes(env: Env, rows: seq<Booking>, id: nat, txVerified: bool)
    ensures Next(env, rows, Confirm(id, txVerified)) ==
            if id < |rows| && rows[id].status == Pending && (rows[id].stellarTxHash == None || txVerified)
            then rows[id := rows[id].(status := Confirmed)] else rows
  {
  }

  lemma CancelDoes(env: Env, rows: seq<Booking>, id: nat, userId: nat)
    ensures Next(env, rows, Cancel(id, userId)) ==
            if id < |rows| && rows[id].userId == userId then rows[id := rows[id].(status := Cancelled)] else rows
  {
  }

  /** Position of the first row of a series. */
  ghost predicate FirstOfSeries(rows: seq<Booking>, seriesId: nat, i: nat) {
    i < |rows| && rows[i].seriesId == Some(seriesId) && forall j :: 0 <= j < i ==> rows[j].seriesId != Some(seriesId)
  }

  /** The owner of the first row cancels the instances that start after now; the rest of the table stays. */
  lemma CancelSeriesDoes(env: Env, rows: seq<Booking>, seriesId: nat, userId: nat, now: int, i: nat, first: nat)
    requires i < |rows| && FirstOfSeries(rows, seriesId, first)
    ensures var after := Next(env, rows, CancelSeries(seriesId, userId, now));
            && |after| == |rows|
            && after[i] == if rows[first].userId == userId && rows[i].seriesId == Some(seriesId) && now < rows[i].startTime
                           then rows[i].(status := Cancelled) else rows[i]
  {
  }

  /** The rows of a series, by position, and those of them a cancellation changes. */
  ghost function SeriesRows(rows: seq<Booking>, seriesId: nat): set<nat> {
    set i: nat | i < |rows| && rows[i].seriesId == Some(seriesId)
  }

  ghost function FutureRows(rows: seq<Booking>, seriesId: nat, now: int): set<nat> {
    set i: nat | i < |rows| && rows[i].seriesId == Some(seriesId) && now < rows[i].startTime && rows[i].status != Cancelled
  }

  lemma SeriesRowsSnoc(rows: seq<Booking>, seriesId: nat, now: int)
    requires rows != []
    ensures var n := |rows| - 1;
            var b := rows[n];
            && n !in SeriesRows(rows[..n], seriesId) && n !in FutureRows(rows[..n], seriesId, now)
            && SeriesRows(rows, seriesId) == SeriesRows(rows[..n], seriesId) + (if InSeries(b, seriesId) then {n} else {})
            && FutureRows(rows, seriesId, now) == FutureRows(rows[..n], seriesId, now) + (if Withdrawn(b, seriesId, now) != b then {n} else {})
  {
    forall i: nat | i < |rows| - 1 ensures rows[..|rows| - 1][i] == rows[i] {}
  }

  /** The two counts a cancellation answers with. */
  lemma {:induction false} SeriesCounts(rows: seq<Booking>, seriesId: nat, now: int)
    ensures SeriesSize(rows, seriesId) == |SeriesRows(rows, seriesId)|
    ensures Withdrawals(rows, seriesId, now) == |FutureRows(rows, seriesId, now)|
  {
    if rows == [] {
      assert SeriesRows(rows, seriesId) == {} && FutureRows(rows, seriesId, now) == {};
    } else {
      hide SeriesRows, FutureRows;
      SeriesCounts(rows[..|rows| - 1], seriesId, now);
      SeriesRowsSnoc(rows, seriesId, now);
    }
  }

  /** Without any row of the series nothing happens. */
  lemma CancelNoSeriesDoes(env: Env, rows: seq<Booking>, seriesId: nat, userId: nat, now: int)
    requires forall j :: 0 <= j < |rows| ==> rows[j].seriesId != Some(seriesId)
    ensures Next(env, rows, CancelSeries(seriesId, userId, now)) == rows
  {
  }

  /** An update writes what it names; new times must be in order and free but for the booking itself. */
  lemma UpdateDoes(env: Env, rows: seq<Booking>, id: nat, dto: UpdateDto)
    requires ProperWindows(env.maintenance) && ProperRows(rows)
    ensures var after := Next(env, rows, Update(id, dto));
            if id >= |rows| then after == rows
            else
              var b := rows[id];
              var s := if dto.startTime == None then b.startTime else dto.startTime.value;
              var e := if dto.endTime == None then b.endTime else dto.endTime.value;
              var moved := dto.startTime != None || dto.endTime != None;
              if moved && !(s < e && Free(env, rows, b.workspaceId, s, e, Some(id))) then after == rows
              else
                && |after| == |rows| && (forall i :: 0 <= i < |rows| && i != id ==> after[i] == rows[i])
                && after[id].startTime == s && after[id].endTime == e
                && after[id].status == (if dto.status == None then b.status else dto.status.value)
                && after[id].stellarTxHash == (if dto.stellarTxHash == None then b.stellarTxHash else dto.stellarTxHash)
                && after[id].workspaceId == b.workspaceId && after[id].userId == b.userId && after[id].seriesId == b.seriesId
  {
    if id < |rows| {
      var b := Changed(rows[id], dto);
      if b.startTime < b.endTime { AdmitsIffFree(env, rows, b.workspaceId, b.startTime, b.endTime, Some(id)); }
    }
  }

  /** Every row lasts some time, and shares no instant with a maintenance window of its workspace. */
  ghost predicate KeepsClear(env: Env, rows: seq<Booking>) {
    && ProperRows(rows)
    && forall i :: 0 <= i < |rows| ==> !UnderMaintenance(env.maintenance, rows[i].workspaceId, rows[i].startTime, rows[i].endTime)
  }

  lemma StepKeepsClear(env: Env, rows: seq<Booking>, req: Request)
    requires ProperWindows(env.maintenance) && KeepsClear(env, rows)
    ensures KeepsClear(env, Next(env, rows, req))
  {
    hide UnderMaintenance, SeatsDuring, SeatsAt, Next;
    match req
    case Create(userId, ws, s, e, tx) => CreateDoes(env, rows, userId, ws, s, e, tx);
    case CreateSeries(_, _, _, _, _, _, _) => SeriesKeepsClear(env, rows, req);
    case Confirm(id, txVerified) => ConfirmDoes(env, rows, id, txVerified);
    case Cancel(id, userId) => CancelDoes(env, rows, id, userId);
    case CancelSeries(seriesId, userId, now) => WithdrawalKeepsClear(env, rows, req);
    case Update(id, dto) => UpdateDoes(env, rows, id, dto);
  }

  lemma SeriesKeepsClear(env: Env, rows: seq<Booking>, req: Request)
    requires ProperWindows(env.maintenance) && KeepsClear(env, rows) && req.CreateSeries?
    ensures KeepsClear(env, Next(env, rows, req))
  {
    hide UnderMaintenance, SeatsDuring, SeatsAt, Next;
    CreateSeriesDoes(env, rows, req);
    var after := Next(env, rows, req);
    if SeriesFree(env, rows, req) {
      forall i | 0 <= i < |after|
        ensures after[i].startTime < after[i].endTime
        ensures !UnderMaintenance(env.maintenance, after[i].workspaceId, after[i].startTime, after[i].endTime)
      {
        if i < |rows| { assert after[i] == after[..|rows|][i]; }
      }
    }
  }

  lemma WithdrawalKeepsClear(env: Env, rows: seq<Booking>, req: Request)
    requires KeepsClear(env, rows) && req.CancelSeries?
    ensures KeepsClear(env, Next(env, rows, req))
  {
    hide UnderMaintenance;
  }

  /** Main result: in every run, no booking ever made or moved shares an instant with a maintenance window of its workspace. */
  lemma {:induction false} RunKeepsClear(env: Env, rows: seq<Booking>, reqs: seq<Request>)
    requires ProperWindows(env.maintenance) && KeepsClear(env, rows)
    ensures KeepsClear(env, Run(env, rows, reqs))
    decreases |reqs|
  {
    if reqs != [] {
      StepKeepsClear(env, rows, reqs[0]);
      RunKeepsClear(env, Next(env, rows, reqs[0]), reqs[1..]);
    }
  }

  /** From the empty table, with the seats counted row by row and the windows instant by instant. */
  lemma EveryRunFits(env: Env, reqs: seq<Request>, ws: nat, t: int, i: nat, w: Window)
    requires ProperWindows(env.maintenance) && ws in env.workspaces && env.workspaces[ws] >= 1
    ensures var rows := Run(env, [], reqs);
            && (DisciplinedRun(env, [], reqs) ==> |SeatsAt(rows, ws, None, t)| <= env.workspaces[ws])
            && (i < |rows| && w in env.maintenance && w.workspaceId == rows[i].workspaceId && During(t, w.startTime, w.endTime)
                ==> !During(t, rows[i].startTime, rows[i].endTime))
  {
    RunKeepsClear(env, [], reqs);
    if DisciplinedRun(env, [], reqs) {
      CapacityNeverExceeded(env, reqs, ws, t);
      CoveredCountsSeats(Run(env, [], reqs), ws, None, t);
    }
  }

  // ---------------------------------------------------------------- counting lemmas

  function One(p: bool): nat { if p then 1 else 0 }

  lemma {:induction false} CoveredConcat(rows: seq<Booking>, more: seq<Booking>, ws: nat, t: int)
    ensures Covered(rows + more, ws, None, t) == Covered(rows, ws, None, t) + Covered(more, ws, None, t)
  {
    if more == [] {
      assert rows + more == rows;
    } else {
      var n := |more| - 1;
      CoveredConcat(rows, more[..n], ws, t);
      assert (rows + more)[..|rows| + n] == rows + more[..n];
    }
  }

  lemma {:induction false} CoveredReplace(rows: seq<Booking>, id: nat, b: Booking, ws: nat, t: int)
    requires id < |rows|
    ensures Covered(rows[id := b], ws, None, t) == Covered(rows, ws, Some(id), t) + One(Covers(b, ws, t))
  {
    var n := |rows| - 1;
    if id == n {
      assert rows[id := b][..n] == rows[..n];
      ExceptBeyond(rows[..n], n, ws, t);
    } else {
      assert rows[id := b][..n] == rows[..n][id := b];
      CoveredReplace(rows[..n], id, b, ws, t);
    }
  }

  lemma {:induction false} ExceptBeyond(rows: seq<Booking>, id: nat, ws: nat, t: int)
    requires |rows| <= id
    ensures Covered(rows, ws, Some(id), t) == Covered(rows, ws, None, t)
  {
    if rows != [] { ExceptBeyond(rows[..|rows| - 1], id, ws, t); }
  }

  lemma {:induction false} CoveredMonotone(rows: seq<Booking>, after: seq<Booking>, ws: nat, t: int)
    requires |rows| == |after|
    requires forall i :: 0 <= i < |rows| ==> Covers(after[i], ws, t) ==> Covers(rows[i], ws, t)
    ensures Covered(after, ws, None, t) <= Covered(rows, ws, None, t)
  {
    if rows != [] {
      var n := |rows| - 1;
      CoveredMonotone(rows[..n], after[..n], ws, t);
    }
  }

  ghost predicate PairwiseDisjoint(starts: seq<int>, duration: int) {
    forall i, j :: 0 <= i < j < |starts| ==> starts[i] + duration <= starts[j] || starts[j] + duration <= starts[i]
  }

  lemma {:induction false} DisjointCoverOnce(bs: seq<Booking>, ws: nat, t: int)
    requires forall i, j :: 0 <= i < j < |bs| ==> bs[i].endTime <= bs[j].startTime || bs[j].endTime <= bs[i].startTime
    ensures Covered(bs, ws, None, t) <= 1
    ensures (forall i :: 0 <= i < |bs| ==> !Covers(bs[i], ws, t)) ==> Covered(bs, ws, None, t) == 0
  {
    if bs != [] {
      var n := |bs| - 1;
      DisjointCoverOnce(bs[..n], ws, t);
      if Covers(bs[n], ws, t) {
        forall i | 0 <= i < n ensures !Covers(bs[..n][i], ws, t) { assert bs[..n][i] == bs[i]; }
      }
    }
  }

  lemma {:induction false} CoveredCountsTwo(bs: seq<Booking>, i: nat, j: nat, ws: nat, t: int)
    requires i < |bs| && Covers(bs[i], ws, t)
    ensures Covered(bs, ws, None, t) >= 1
    ensures i < j < |bs| && Covers(bs[j], ws, t) ==> Covered(bs, ws, None, t) >= 2
  {
    var n := |bs| - 1;
    if i < n { CoveredCountsTwo(bs[..n], i, j, ws, t); }
  }

  // ---------------------------------------------------------------- capacity safety over every run

  /** A workspace never holds more bookings than its seats; the first booking is never refused for seats. */
  ghost predicate Safe(env: Env, rows: seq<Booking>) {
    forall ws, t :: ws in env.workspaces ==> Covered(rows, ws, None, t) <= Max(1, env.workspaces[ws])
  }

  lemma AdmittedFits(env: Env, rows: seq<Booking>, ws: nat, s: int, e: int, except: Option<nat>, t: int)
    requires Admits(env, rows, ws, s, e, except) && s <= t < e
    ensures Covered(rows, ws, except, t) + 1 <= Max(1, env.workspaces[ws])
  {
    QueryCount(rows, ws, s, e, except, t);
  }

  /** The guard a caller can check: a revival must come with new times, series instances must not overlap. */
  ghost predicate Disciplined(rows: seq<Booking>, req: Request) {
    match req
    case CreateSeries(_, _, s, e, _, starts, _) => PairwiseDisjoint(starts, e - s)
    case Update(id, dto) => id < |rows| ==> KeepsOrChecks(rows[id], dto)
    case _ => true
  }

  predicate KeepsOrChecks(b: Booking, dto: UpdateDto) {
    Reschedules(dto) || Active(b) || !Active(Changed(b, dto))
  }

  lemma StepSafe(env: Env, rows: seq<Booking>, req: Request)
    requires Safe(env, rows) && Disciplined(rows, req)
    ensures Safe(env, Next(env, rows, req))
  {
    if Accepts(env, rows, req) {
      var after := Next(env, rows, req);
      forall ws, t | ws in env.workspaces
        ensures Covered(after, ws, None, t) <= Max(1, env.workspaces[ws])
      {
        match req
        case Create(_, _, _, _, _) => SafeAfterCreate(env, rows, req, ws, t);
        case CreateSeries(_, _, _, _, _, _, _) => SafeAfterSeries(env, rows, req, ws, t);
        case Update(_, _) => SafeAfterUpdate(env, rows, req, ws, t);
        case _ => CoveredMonotone(rows, after, ws, t);
      }
    }
  }

  lemma SafeAfterCreate(env: Env, rows: seq<Booking>, req: Request, ws: nat, t: int)
    requires Safe(env, rows) && req.Create? && Accepts(env, rows, req) && ws in env.workspaces
    ensures Covered(Next(env, rows, req), ws, None, t) <= Max(1, env.workspaces[ws])
  {
    var b := Booking(req.ws, req.userId, req.s, req.e, Pending, req.tx, None);
    CoveredConcat(rows, [b], ws, t);
    assert [b][..0] == [];
    if Covers(b, ws, t) { AdmittedFits(env, rows, ws, req.s, req.e, None, t); }
  }

  lemma SafeAfterSeries(env: Env, rows: seq<Booking>, req: Request, ws: nat, t: int)
    requires Safe(env, rows) && req.CreateSeries? && Accepts(env, rows, req) && ws in env.workspaces
    requires PairwiseDisjoint(req.starts, req.e - req.s)
    ensures Covered(Next(env, rows, req), ws, None, t) <= Max(1, env.workspaces[ws])
  {
    hide Admits, Covered;
    var bs := Instances(req);
    CoveredConcat(rows, bs, ws, t);
    DisjointCoverOnce(bs, ws, t);
    if k :| 0 <= k < |bs| && Covers(bs[k], ws, t) {
      AdmittedFits(env, rows, ws, req.starts[k], req.starts[k] + (req.e - req.s), None, t);
    }
  }

  lemma SafeAfterUpdate(env: Env, rows: seq<Booking>, req: Request, ws: nat, t: int)
    requires Safe(env, rows) && req.Update? && Accepts(env, rows, req) && ws in env.workspaces
    requires KeepsOrChecks(rows[req.id], req.dto)
    ensures Covered(Next(env, rows, req), ws, None, t) <= Max(1, env.workspaces[ws])
  {
    var b := Changed(rows[req.id], req.dto);
    CoveredReplace(rows, req.id, b, ws, t);
    CoveredReplace(rows, req.id, rows[req.id], ws, t);
    assert rows[req.id := rows[req.id]] == rows;
    if Covers(b, ws, t) && Reschedules(req.dto) {
      AdmittedFits(env, rows, ws, b.startTime, b.endTime, Some(req.id), t);
    }
  }

  ghost predicate DisciplinedRun(env: Env, rows: seq<Booking>, reqs: seq<Request>)
    decreases |reqs|
  {
    reqs != [] ==> Disciplined(rows, reqs[0]) && DisciplinedRun(env, Next(env, rows, reqs[0]), reqs[1..])
  }

  /** Main result: from a safe table, every disciplined run stays safe. */
  lemma {:induction false} RunSafe(env: Env, rows: seq<Booking>, reqs: seq<Request>)
    requires Safe(env, rows) && DisciplinedRun(env, rows, reqs)
    ensures Safe(env, Run(env, rows, reqs))
    decreases |reqs|
  {
    if reqs != [] {
      StepSafe(env, rows, reqs[0]);
      RunSafe(env, Next(env, rows, reqs[0]), reqs[1..]);
    }
  }

  /** With at least one seat everywhere this is the capacity itself, from the empty table on. */
  lemma CapacityNeverExceeded(env: Env, reqs: seq<Request>, ws: nat, t: int)
    requires ws in env.workspaces && env.workspaces[ws] >= 1
    requires DisciplinedRun(env, [], reqs)
    ensures Covered(Run(env, [], reqs), ws, None, t) <= env.workspaces[ws]
  {
    RunSafe(env, [], reqs);
  }

  /** Below one seat it fails at once: an empty workspace admits any first booking. */
  lemma SeatsAreNeeded(env: Env, userId: nat, ws: nat, s: int, e: int, tx: Option<nat>)
    requires ws in env.workspaces && env.workspaces[ws] < 1
    requires s < e && !InMaintenance(env.maintenance, ws, s, e)
    ensures Covered(Next(env, [], Create(userId, ws, s, e, tx)), ws, None, s) > env.workspaces[ws]
  {
    var b := Booking(ws, userId, s, e, Pending, tx, None);
    assert Overlapping([], ws, s, e, None) == [];
    assert [] + [b] == [b] && [b][..0] == [];
  }

  // ---------------------------------------------------------------- the two guards are exact

  /** n copies of one booking. */
  function Copies(b: Booking, n: nat): (bs: seq<Booking>)
    ensures |bs| == n
  {
    seq(n, _ => b)
  }

  lemma {:induction false} CopiesCover(b: Booking, n: nat, ws: nat, t: int)
    ensures Covered(Copies(b, n), ws, None, t) == if Covers(b, ws, t) then n else 0
  {
    if n > 0 {
      assert Copies(b, n)[..n - 1] == Copies(b, n - 1);
      CopiesCover(b, n - 1, ws, t);
    }
  }

  /** Whatever the table, the series is refused: bad request, or some instance under maintenance. */
  ghost predicate NeverAccepted(env: Env, req: Request)
    requires req.CreateSeries?
  {
    || req.ws !in env.workspaces || req.s >= req.e || !(0 < |req.starts| <= MAX_RECURRENCE_INSTANCES)
    || exists k :: 0 <= k < |req.starts| && InMaintenance(env.maintenance, req.ws, req.starts[k], req.starts[k] + (req.e - req.s))
  }

  /**
   * Checking each instance only against the old table is safe for every table exactly when the instances
   * are disjoint or the series is refused anyway: any other overlap is admitted into some table it then
   * overfills.
   */
  lemma SeriesSafeIffDisjoint(env: Env, req: Request)
    requires req.CreateSeries?
    ensures PairwiseDisjoint(req.starts, req.e - req.s) || NeverAccepted(env, req)
            <==> forall rows :: Safe(env, rows) ==> Safe(env, Next(env, rows, req))
  {
    var d := req.e - req.s;
    if PairwiseDisjoint(req.starts, d) {
      forall rows | Safe(env, rows) ensures Safe(env, Next(env, rows, req)) {
        StepSafe(env, rows, req);
      }
    } else if NeverAccepted(env, req) {
      forall rows ensures Next(env, rows, req) == rows {
        if k :| 0 <= k < |req.starts| && InMaintenance(env.maintenance, req.ws, req.starts[k], req.starts[k] + d) {
          assert !Admits(env, rows, req.ws, req.starts[k], req.starts[k] + d, None);
        }
      }
    } else {
      var i, j :| 0 <= i < j < |req.starts| && !(req.starts[i] + d <= req.starts[j] || req.starts[j] + d <= req.starts[i]);
      var rows := OverfilledBy(env, req, i, j);
    }
  }

  /** One seat short at instant t, and empty everywhere else. */
  function NearlyFull(env: Env, ws: nat, t: int): seq<Booking>
    requires ws in env.workspaces
  {
    Copies(Booking(ws, 0, t, t + 1, Confirmed, None, None), Max(1, env.workspaces[ws]) - 1)
  }

  lemma NearlyFullAdmits(env: Env, ws: nat, t: int)
    requires ws in env.workspaces
    ensures Safe(env, NearlyFull(env, ws, t))
    ensures Covered(NearlyFull(env, ws, t), ws, None, t) == Max(1, env.workspaces[ws]) - 1
    ensures forall s, e :: !InMaintenance(env.maintenance, ws, s, e) ==> Admits(env, NearlyFull(env, ws, t), ws, s, e, None)
  {
    var b, n := Booking(ws, 0, t, t + 1, Confirmed, None, None), Max(1, env.workspaces[ws]) - 1;
    forall w, u ensures Covered(Copies(b, n), w, None, u) == if w == ws && u == t then n else 0 {
      CopiesCover(b, n, w, u);
    }
  }

  lemma OverfilledBy(env: Env, req: Request, i: nat, j: nat) returns (rows: seq<Booking>)
    requires req.CreateSeries? && !NeverAccepted(env, req)
    requires i < j < |req.starts|
    requires req.starts[i] < req.starts[j] + (req.e - req.s) && req.starts[j] < req.starts[i] + (req.e - req.s)
    ensures Safe(env, rows) && !Safe(env, Next(env, rows, req))
  {
    var t := Max(req.starts[i], req.starts[j]);
    rows := NearlyFull(env, req.ws, t);
    NearlyFullAdmits(env, req.ws, t);
    var bs := Instances(req);
    assert Covers(bs[i], req.ws, t) && Covers(bs[j], req.ws, t);
    CoveredCountsTwo(bs, i, j, req.ws, t);
    CoveredConcat(rows, bs, req.ws, t);
    assert Covered(Next(env, rows, req), req.ws, None, t) > Max(1, env.workspaces[req.ws]);
  }

  /**
   * Outside rescheduling, `update` writes the status unchecked.  It is safe for every table holding
   * the row exactly when it does not bring an inactive row back to life.
   */
  lemma UpdateSafeIffGuard(b: Booking, dto: UpdateDto)
    requires b.startTime < b.endTime
    ensures KeepsOrChecks(b, dto)
            <==> forall env, rows, id: nat :: id < |rows| && rows[id] == b && Safe(env, rows)
                                              ==> Safe(env, Next(env, rows, Update(id, dto)))
  {
    if KeepsOrChecks(b, dto) {
      forall env, rows, id: nat | id < |rows| && rows[id] == b && Safe(env, rows)
        ensures Safe(env, Next(env, rows, Update(id, dto)))
      {
        StepSafe(env, rows, Update(id, dto));
      }
    } else {
      var env := Env(map[b.workspaceId := 1], []);
      var other := b.(status := Confirmed);
      var rows := [b, other];
      forall ws, t ensures Covered(rows, ws, None, t) <= 1 {
        CoveredReplace(rows, 0, b, ws, t);
        assert rows[0 := b] == rows && rows[..1] == [b] && [b][..0] == [];
        assert Covered([b], ws, Some(0), t) == 0;
      }
      assert Safe(env, rows) && rows[0] == b;
      var after := Next(env, rows, Update(0, dto));
      assert after == [Changed(b, dto), other];
      CoveredCountsTwo(after, 0, 1, b.workspaceId, b.startTime);
      assert !Safe(env, after);
    }
  }

  lemma RunOfOne(env: Env, rows: seq<Booking>, req: Request)
    ensures Run(env, rows, [req]) == Next(env, rows, req)
  {
    assert [req][1..] == [];
  }

  /** On the empty table of a one-seat workspace, a series of two overlapping instances is let in whole. */
  lemma SeriesOverfillsFromEmpty()
    ensures var env := Env(map[0 := 1], []);
            Covered(Run(env, [], [CreateSeries(7, 0, 0, 10, None, [0, 5], 1)]), 0, None, 5) == 2
  {
    var env, req := Env(map[0 := 1], []), CreateSeries(7, 0, 0, 10, None, [0, 5], 1);
    RunOfOne(env, [], req);
    assert Overlapping([], 0, 0, 10, None) == [] && Overlapping([], 0, 5, 15, None) == [];
    assert Accepts(env, [], req);
    var a, b := Booking(0, 7, 0, 10, Pending, None, Some(1)), Booking(0, 7, 5, 15, Pending, None, Some(1));
    assert Next(env, [], req) == [a, b];
    BothCover(a, b, 0, 5);
  }

  /** A request for a slot that meets no active row is let in. */
  lemma FirstIsAdmitted(env: Env, rows: seq<Booking>, userId: nat, ws: nat, s: int, e: int)
    requires ws in env.workspaces && env.maintenance == [] && s < e && Overlapping(rows, ws, s, e, None) == []
    ensures Next(env, rows, Create(userId, ws, s, e, None)) == rows + [Booking(ws, userId, s, e, Pending, None, None)]
  {
  }

  lemma CancelsOwn(env: Env, b: Booking)
    ensures Next(env, [b], Cancel(0, b.userId)) == [b.(status := Cancelled)]
  {
  }

  /** An update without times writes the status unasked. */
  lemma RevivesUnchecked(env: Env, rows: seq<Booking>, status: Status)
    requires rows != []
    ensures Next(env, rows, Update(0, UpdateDto(None, None, Some(status), None))) == rows[0 := rows[0].(status := status)]
  {
  }

  lemma RunOfFour(env: Env, p: Request, q: Request, r: Request, t: Request)
    ensures Run(env, [], [p, q, r, t]) == Next(env, Next(env, Next(env, Next(env, [], p), q), r), t)
  {
    hide Next;
    assert [p, q, r, t][1..] == [q, r, t] && [q, r, t][1..] == [r, t] && [r, t][1..] == [t];
    var two := Next(env, Next(env, [], p), q);
    RunOfOne(env, Next(env, two, r), t);
    assert Run(env, two, [r, t]) == Next(env, Next(env, two, r), t);
    assert Run(env, Next(env, [], p), [q, r, t]) == Run(env, two, [r, t]);
  }

  lemma BothCover(a: Booking, b: Booking, ws: nat, t: int)
    requires Covers(a, ws, t) && Covers(b, ws, t)
    ensures Covered([a, b], ws, None, t) == 2
  {
    assert [a, b][..1] == [a] && [a][..0] == [];
    assert Covered([a], ws, None, t) == 1;
  }

  /** One seat: book, cancel, book the slot again, then update the cancelled booking back to Confirmed. */
  lemma RevivalOverfillsFromEmpty()
    ensures var env := Env(map[0 := 1], []);
            var revive := UpdateDto(None, None, Some(Confirmed), None);
            Covered(Run(env, [], [Create(7, 0, 0, 10, None), Cancel(0, 7), Create(8, 0, 0, 10, None), Update(0, revive)]), 0, None, 0) == 2
  {
    var env, revive := Env(map[0 := 1], []), UpdateDto(None, None, Some(Confirmed), None);
    var a, b := Booking(0, 7, 0, 10, Pending, None, None), Booking(0, 8, 0, 10, Pending, None, None);
    var gone, back := a.(status := Cancelled), a.(status := Confirmed);
    assert [gone][..0] == [] && Overlapping([], 0, 0, 10, None) == [] && Overlapping([gone], 0, 0, 10, None) == [];
    assert Covers(back, 0, 0) && Covers(b, 0, 0);
    hide Next, Run, Covered, Overlapping;
    RunOfFour(env, Create(7, 0, 0, 10, None), Cancel(0, 7), Create(8, 0, 0, 10, None), Update(0, revive));
    FirstIsAdmitted(env, [], 7, 0, 0, 10);
    CancelsOwn(env, a);
    FirstIsAdmitted(env, [gone], 8, 0, 0, 10);
    RevivesUnchecked(env, [gone, b], Confirmed);
    assert [] + [a] == [a] && [gone] + [b] == [gone, b] && [gone, b][0 := back] == [back, b];
    BothCover(back, b, 0, 0);
  }

  // ---------------------------------------------------------------- the service

  class Service {
    const env: Env
    var rows: seq<Booking>

    constructor (env: Env)
      ensures this.env == env && rows == []
    {
      this.env := env;
      rows := [];
    }

    method CreateBooking(userId: nat, ws: nat, s: int, e: int, tx: Option<nat>) returns (r: Result<nat, BookingError>)
      modifies this`rows
      ensures rows == Next(env, old(rows), Create(userId, ws, s, e, tx))
      ensures r.Success? <==> Accepts(env, old(rows), Create(userId, ws, s, e, tx))
      ensures r.Success? ==> r.value == |old(rows)|
      ensures r == Failure(NotFound) <==> ws !in env.workspaces
      ensures r == Failure(BadRequest) <==> ws in env.workspaces && s >= e
      ensures r != Failure(Forbidden)
    {
      if ws !in env.workspaces {
        return Failure(NotFound);
      }
      if e - s <= 0 {
        return Failure(BadRequest);
      }
      var conflict := HasConflict(env.workspaces, env.maintenance, rows, ws, s, e, None);
      if conflict.Failure? || conflict.value.Some? {
        return Failure(ConflictDetected);
      }
      rows := rows + [Booking(ws, userId, s, e, Pending, tx, None)];
      return Success(|rows| - 1);
    }

    /** `starts` is the expansion of the recurrence rule, `None` an unparsable one. */
    method CreateRecurring(userId: nat, ws: nat, s: int, e: int, tx: Option<nat>,
                           expansion: Option<seq<int>>, seriesId: nat)
      returns (r: Result<nat, BookingError>)
      modifies this`rows
      ensures r.Success? ==> expansion.Some? && r.value == |expansion.value|
      ensures expansion.Some? ==>
                && rows == Next(env, old(rows), CreateSeries(userId, ws, s, e, tx, expansion.value, seriesId))
                && (r.Success? <==> Accepts(env, old(rows), CreateSeries(userId, ws, s, e, tx, expansion.value, seriesId)))
      ensures expansion.None? ==> rows == old(rows)
      ensures r == Failure(NotFound) <==> ws !in env.workspaces
      ensures r == Failure(BadRequest) <==>
                ws in env.workspaces && (s >= e || expansion.None? || |expansion.value| == 0 || |expansion.value| > 52)
      ensures r != Failure(Forbidden)
    {
      hide Instances, Overlapping, Crowded, InMaintenance, Covered;
      if ws !in env.workspaces {
        return Failure(NotFound);
      }
      var duration := e - s;
      if duration <= 0 {
        return Failure(BadRequest);
      }
      if expansion.None? || |expansion.value| == 0 || |expansion.value| > MAX_RECURRENCE_INSTANCES {
        return Failure(BadRequest);
      }
      var starts := expansion.value;
      for k := 0 to |starts|
        invariant rows == old(rows)
        invariant forall j :: 0 <= j < k ==> Admits(env, rows, ws, starts[j], starts[j] + duration, None)
      {
        var conflict := HasConflict(env.workspaces, env.maintenance, rows, ws, starts[k], starts[k] + duration, None);
        if conflict.Failure? || conflict.value.Some? {
          assert !Admits(env, rows, ws, starts[k], starts[k] + duration, None);
          return Failure(ConflictDetected);
        }
      }
      InsertInstances(userId, ws, s, e, tx, starts, seriesId);
      return Success(|starts|);
    }

    method InsertInstances(userId: nat, ws: nat, s: int, e: int, tx: Option<nat>, starts: seq<int>, seriesId: nat)
      modifies this`rows
      ensures rows == old(rows) + Instances(CreateSeries(userId, ws, s, e, tx, starts, seriesId))
    {
      ghost var req := CreateSeries(userId, ws, s, e, tx, starts, seriesId);
      for index := 0 to |starts|
        invariant rows == old(rows) + Instances(req)[..index]
      {
        rows := rows + [Booking(ws, userId, starts[index], starts[index] + (e - s), Pending, tx, Some(seriesId))];
      }
    }

    method ConfirmBooking(id: nat, txVerified: bool) returns (r: Result<(), BookingError>)
      modifies this`rows
      ensures rows == Next(env, old(rows), Confirm(id, txVerified))
      ensures r.Success? <==> Accepts(env, old(rows), Confirm(id, txVerified))
      ensures r == Failure(NotFound) <==> id >= |old(rows)|
      ensures r.Failure? && id < |old(rows)| ==> r == Failure(BadRequest)
    {
      if id >= |rows| {
        return Failure(NotFound);
      }
      var booking := rows[id];
      if booking.stellarTxHash.Some? && !txVerified {
        return Failure(BadRequest);
      }
      if booking.status != Pending {
        return Failure(BadRequest);
      }
      rows := rows[id := booking.(status := Confirmed)];
      return Success(());
    }

    method CancelBooking(id: nat, userId: nat) returns (r: Result<(), BookingError>)
      modifies this`rows
      ensures rows == Next(env, old(rows), Cancel(id, userId))
      ensures r.Success? <==> Accepts(env, old(rows), Cancel(id, userId))
      ensures r == Failure(NotFound) <==> id >= |old(rows)|
      ensures r == Failure(Forbidden) <==> id < |old(rows)| && old(rows)[id].userId != userId
    {
      if id >= |rows| {
        return Failure(NotFound);
      }
      if rows[id].userId != userId {
        return Failure(Forbidden);
      }
      rows := rows[id := rows[id].(status := Cancelled)];
      return Success(());
    }

    method SeriesOwner(seriesId: nat) returns (owner: Option<nat>)
      ensures owner.None? <==> forall j :: 0 <= j < |rows| ==> !InSeries(rows[j], seriesId)
      ensures owner.Some? ==> forall u :: OwnsSeries(rows, seriesId, u) <==> u == owner.value
    {
      owner := None;
      for i := 0 to |rows|
        invariant owner.None? ==> forall j :: 0 <= j < i ==> !InSeries(rows[j], seriesId)
        invariant owner.Some? ==> exists j :: 0 <= j < i && InSeries(rows[j], seriesId) && rows[j].userId == owner.value
                                              && forall k :: 0 <= k < j ==> !InSeries(rows[k], seriesId)
      {
        if InSeries(rows[i], seriesId) && owner.None? {
          owner := Some(rows[i].userId);
        }
      }
    }

    /** Returns how many instances were cancelled and how many were left as they are. */
    method CancelBookingSeries(seriesId: nat, userId: nat, now: int) returns (r: Result<(nat, nat), BookingError>)
      modifies this`rows
      ensures rows == Next(env, old(rows), CancelSeries(seriesId, userId, now))
      ensures r.Success? <==> Accepts(env, old(rows), CancelSeries(seriesId, userId, now))
      ensures r == Failure(NotFound) <==> forall i :: 0 <= i < |old(rows)| ==> !InSeries(old(rows)[i], seriesId)
      ensures r.Failure? ==> r == Failure(NotFound) || r == Failure(Forbidden)
      ensures r.Success? ==>
                && r.value.0 == Withdrawals(old(rows), seriesId, now)
                && r.value.0 + r.value.1 == SeriesSize(old(rows), seriesId)
    {
      var owner := SeriesOwner(seriesId);
      if owner.None? {
        return Failure(NotFound);
      }
      if owner.value != userId {
        return Failure(Forbidden);
      }
      var cancelled, preserved := 0, 0;
      for i := 0 to |rows|
        invariant |rows| == |old(rows)|
        invariant rows[..i] == WithdrawnRows(old(rows), seriesId, now)[..i]
        invariant rows[i..] == old(rows)[i..]
        invariant cancelled == Withdrawals(old(rows)[..i], seriesId, now)
        invariant cancelled + preserved == SeriesSize(old(rows)[..i], seriesId)
      {
        assert rows[i] == rows[i..][0] == old(rows)[i];
        assert rows[i + 1..] == rows[i..][1..] == old(rows)[i + 1..];
        assert old(rows)[..i + 1][..i] == old(rows)[..i];
        if InSeries(rows[i], seriesId) {
          if rows[i].startTime > now && rows[i].status != Cancelled {
            rows := rows[i := rows[i].(status := Cancelled)];
            cancelled := cancelled + 1;
          } else {
            preserved := preserved + 1;
          }
        }
      }
      assert old(rows)[..|rows|] == old(rows);
      assert rows == WithdrawnRows(old(rows), seriesId, now);
      return Success((cancelled, preserved));
    }

    method UpdateBooking(id: nat, dto: UpdateDto) returns (r: Result<(), BookingError>)
      modifies this`rows
      ensures rows == Next(env, old(rows), Update(id, dto))
      ensures r.Success? <==> Accepts(env, old(rows), Update(id, dto))
      ensures r == Failure(NotFound) <==> id >= |old(rows)|
      ensures r == Failure(BadRequest) ==> Reschedules(dto) && Changed(old(rows)[id], dto).endTime <= Changed(old(rows)[id], dto).startTime
      ensures r.Failure? ==> r == Failure(NotFound) || r == Failure(BadRequest) || r == Failure(ConflictDetected)
    {
      if id >= |rows| {
        return Failure(NotFound);
      }
      var booking := rows[id];
      var startTime := if dto.startTime.Some? then dto.startTime.value else booking.startTime;
      var endTime := if dto.endTime.Some? then dto.endTime.value else booking.endTime;
      if dto.startTime.Some? || dto.endTime.Some? {
        var conflict := HasConflict(env.workspaces, env.maintenance, rows, booking.workspaceId, startTime, endTime, Some(id));
        if conflict.Failure? || conflict.value.Some? {
          return Failure(ConflictDetected);
        }
        if endTime <= startTime {
          return Failure(BadRequest);
        }
      }
      rows := rows[id := Changed(booking, dto)];
      return Success(());
    }
  }
}
