/**
 * The per-user hash chain and the session pairing of contracts/manage_hub/src/attendance_log.rs.
 * SHA-256 over timestamp, user and previous hash is an arbitrary function of the three.
 */
module AttendanceChain {
  import opened Common
  import opened Intervals

  type Address = nat
  type LogId = nat
  type Hash = nat
  type Digest = (nat, Address, Hash) -> Hash

  const ZERO: Hash := 0
  const MAX_DETAILS: nat := 50

  datatype Action = ClockIn | ClockOut

  datatype Log = Log(user: Address, action: Action, timestamp: nat, prevHash: Hash)

  datatype State = State(logs: map<LogId, Log>, byUser: map<Address, seq<LogId>>, latest: map<Address, Hash>)

  function LatestHash(s: State, user: Address): Hash { if user in s.latest then s.latest[user] else ZERO }

  function IdsOf(s: State, user: Address): seq<LogId> { if user in s.byUser then s.byUser[user] else [] }

  /** The stored logs behind a list of ids, in list order. */
  function LogsOf(logs: map<LogId, Log>, ids: seq<LogId>): seq<Log> {
    if ids == [] then []
    else
      var last := ids[|ids| - 1];
      LogsOf(logs, ids[..|ids| - 1]) + (if last in logs then [logs[last]] else [])
  }

  function UserLogs(s: State, user: Address): seq<Log> { LogsOf(s.logs, IdsOf(s, user)) }

  /** `None` is the host trap on too many details. */
  function DoLog(hash: Digest, s: State, now: nat, id: LogId, user: Address, action: Action, details: nat): Option<State> {
    if details > MAX_DETAILS then None
    else
      var prev := LatestHash(s, user);
      Some(State(s.logs[id := Log(user, action, now, prev)],
                 s.byUser[user := IdsOf(s, user) + [id]],
                 s.latest[user := hash(now, user, prev)]))
  }

  // ---------------------------------------------------------------- the chain

  /** The hash a history ends in. */
  function Head(hash: Digest, user: Address, logs: seq<Log>): Hash {
    if logs == [] then ZERO
    else
      var n := |logs| - 1;
      hash(logs[n].timestamp, user, Head(hash, user, logs[..n]))
  }

  /** Every log names the hash of what came before it. */
  ghost predicate Chained(hash: Digest, user: Address, logs: seq<Log>) {
    forall k :: 0 <= k < |logs| ==> logs[k].prevHash == Head(hash, user, logs[..k])
  }

  /** The verification loop from position i on. */
  predicate Verified(hash: Digest, user: Address, logs: seq<Log>, i: nat, prev: Hash)
    requires i <= |logs|
    decreases |logs| - i
  {
    i == |logs| || (logs[i].prevHash == prev && Verified(hash, user, logs, i + 1, hash(logs[i].timestamp, user, prev)))
  }

  predicate Verdict(hash: Digest, user: Address, logs: seq<Log>, from: nat) {
    if logs == [] then true
    else if from >= |logs| then false
    else Verified(hash, user, logs, from, if from == 0 then ZERO else logs[from - 1].prevHash)
  }

  class AttendanceLog {
    const hash: Digest
    var logs: map<LogId, Log>
    var byUser: map<Address, seq<LogId>>
    var latest: map<Address, Hash>

    ghost function Abs(): State
      reads this
    {
      State(logs, byUser, latest)
    }

    constructor (hash: Digest)
      ensures this.hash == hash && Abs() == DEPLOYED
    {
      this.hash, logs, byUser, latest := hash, map[], map[], map[];
    }

    method LogAttendance(now: nat, id: LogId, user: Address, action: Action, details: nat) returns (r: Option<Log>)
      modifies this
      ensures var o := DoLog(hash, old(Abs()), now, id, user, action, details);
              && (o.None? ==> r.None? && Abs() == old(Abs()))
              && (o.Some? ==> Abs() == o.value && r == Some(logs[id]))
    {
      if details > MAX_DETAILS { return None; }
      var prev := if user in latest then latest[user] else ZERO;
      var log := Log(user, action, now, prev);
      var current := hash(now, user, prev);
      logs := logs[id := log];
      var ids := if user in byUser then byUser[user] else [];
      byUser := byUser[user := ids + [id]];
      latest := latest[user := current];
      r := Some(log);
    }

    method GetUserAttendance(user: Address) returns (found: seq<Log>)
      ensures found == UserLogs(Abs(), user)
    {
      var ids := if user in byUser then byUser[user] else [];
      found := [];
      for i := 0 to |ids|
        invariant found == LogsOf(logs, ids[..i])
      {
        assert ids[..i + 1][..i] == ids[..i];
        if ids[i] in logs { found := found + [logs[ids[i]]]; }
      }
      assert ids[..|ids|] == ids;
    }

    method VerifyChain(user: Address, from: nat) returns (ok: bool)
      ensures ok == Verdict(hash, user, UserLogs(Abs(), user), from)
    {
      var found := GetUserAttendance(user);
      if |found| == 0 { return true; }
      if from >= |found| { return false; }
      var prev: Hash := if from == 0 then ZERO else found[from - 1].prevHash;
      for i := from to |found|
        invariant from <= i <= |found|
        invariant Verified(hash, user, found, i, prev) == Verdict(hash, user, found, from)
      {
        if found[i].prevHash != prev { return false; }
        prev := hash(found[i].timestamp, user, prev);
      }
      ok := true;
    }
  }

  // ---------------------------------------------------------------- what verification means

  lemma {:induction false} VerifiedIff(hash: Digest, user: Address, logs: seq<Log>, i: nat)
    requires i <= |logs|
    ensures Verified(hash, user, logs, i, Head(hash, user, logs[..i])) <==>
            forall k :: i <= k < |logs| ==> logs[k].prevHash == Head(hash, user, logs[..k])
    decreases |logs| - i
  {
    if i < |logs| {
      assert logs[..i + 1][..i] == logs[..i];
      VerifiedIff(hash, user, logs, i + 1);
    }
  }

  /** Verifying from the start accepts exactly the chained histories. */
  lemma VerdictIff(hash: Digest, user: Address, logs: seq<Log>)
    ensures Verdict(hash, user, logs, 0) <==> Chained(hash, user, logs)
  {
    assert logs[..0] == [];
    VerifiedIff(hash, user, logs, 0);
  }

  /**
   * Verifying a good history from a later position compares that log with the hash before its
   * predecessor, so it accepts exactly when hashing the predecessor changed nothing.
   */
  lemma LaterVerdictIff(hash: Digest, user: Address, logs: seq<Log>, from: nat)
    requires Chained(hash, user, logs) && 0 < from < |logs|
    ensures Verdict(hash, user, logs, from) <==> logs[from].prevHash == logs[from - 1].prevHash
    ensures Verdict(hash, user, logs, from) <==>
            hash(logs[from - 1].timestamp, user, logs[from - 1].prevHash) == logs[from - 1].prevHash
  {
    assert logs[..from][..from - 1] == logs[..from - 1];
    VerifiedIff(hash, user, logs, from);
  }

  // ---------------------------------------------------------------- runs

  datatype Step = Step(now: nat, id: LogId, user: Address, action: Action, details: nat)

  const DEPLOYED: State := State(map[], map[], map[])

  function Next(hash: Digest, s: State, e: Step): State {
    var o := DoLog(hash, s, e.now, e.id, e.user, e.action, e.details);
    if o.Some? then o.value else s
  }

  function Run(hash: Digest, steps: seq<Step>): State {
    if steps == [] then DEPLOYED else Next(hash, Run(hash, steps[..|steps| - 1]), steps[|steps| - 1])
  }

  /** No id is used twice. */
  predicate FreshIds(hash: Digest, steps: seq<Step>) {
    steps == []
    || (FreshIds(hash, steps[..|steps| - 1]) && steps[|steps| - 1].id !in Run(hash, steps[..|steps| - 1]).logs)
  }

  /** Every listed id is stored. */
  ghost predicate Stored(logs: map<LogId, Log>, ids: seq<LogId>) { forall k :: 0 <= k < |ids| ==> ids[k] in logs }

  ghost predicate Good(hash: Digest, s: State, user: Address) {
    && Stored(s.logs, IdsOf(s, user))
    && Chained(hash, user, UserLogs(s, user))
    && LatestHash(s, user) == Head(hash, user, UserLogs(s, user))
  }

  lemma {:induction false} NewIdElsewhere(logs: map<LogId, Log>, ids: seq<LogId>, id: LogId, log: Log)
    requires id !in logs && forall k :: 0 <= k < |ids| ==> ids[k] in logs
    ensures LogsOf(logs[id := log], ids) == LogsOf(logs, ids)
  {
    if ids != [] { NewIdElsewhere(logs, ids[..|ids| - 1], id, log); }
  }

  lemma ChainedAppend(hash: Digest, user: Address, logs: seq<Log>, log: Log)
    requires Chained(hash, user, logs) && log.prevHash == Head(hash, user, logs)
    ensures Chained(hash, user, logs + [log])
    ensures Head(hash, user, logs + [log]) == hash(log.timestamp, user, Head(hash, user, logs))
  {
    var all := logs + [log];
    assert all[..|logs|] == logs;
    forall k | 0 <= k < |all| ensures all[k].prevHash == Head(hash, user, all[..k]) {
      if k < |logs| { assert all[..k] == logs[..k]; }
    }
  }

  lemma LogsAppend(logs: map<LogId, Log>, ids: seq<LogId>, id: LogId)
    requires id in logs
    ensures LogsOf(logs, ids + [id]) == LogsOf(logs, ids) + [logs[id]]
  {
    assert (ids + [id])[..|ids|] == ids;
  }

  lemma StepAddsLog(hash: Digest, s: State, e: Step, user: Address)
    requires Stored(s.logs, IdsOf(s, user)) && e.id !in s.logs && e.details <= MAX_DETAILS
    ensures var after, log := Next(hash, s, e), Log(e.user, e.action, e.now, LatestHash(s, e.user));
            && Stored(after.logs, IdsOf(after, user))
            && UserLogs(after, user) == UserLogs(s, user) + (if e.user == user then [log] else [])
            && LatestHash(after, user) == if e.user == user then hash(e.now, user, LatestHash(s, user)) else LatestHash(s, user)
  {
    hide LogsOf;
    var after, log := Next(hash, s, e), Log(e.user, e.action, e.now, LatestHash(s, e.user));
    var ids := IdsOf(s, user);
    NewIdElsewhere(s.logs, ids, e.id, log);
    if e.user == user {
      assert IdsOf(after, user) == ids + [e.id];
      LogsAppend(after.logs, ids, e.id);
    } else {
      assert IdsOf(after, user) == ids;
      assert UserLogs(s, user) + [] == UserLogs(s, user);
    }
  }

  lemma StepKeepsGood(hash: Digest, s: State, e: Step, user: Address)
    requires Good(hash, s, user) && e.id !in s.logs
    ensures Good(hash, Next(hash, s, e), user)
  {
    hide Next, UserLogs, Head, Stored, Chained, LatestHash, IdsOf;
    if e.details <= MAX_DETAILS {
      StepAddsLog(hash, s, e, user);
      if e.user == user {
        ChainedAppend(hash, user, UserLogs(s, user), Log(e.user, e.action, e.now, LatestHash(s, e.user)));
      }
      assert UserLogs(s, user) + [] == UserLogs(s, user);
    } else {
      RefusedLogChangesNothing(hash, s, e);
    }
  }

  lemma {:induction false} RunIsGood(hash: Digest, steps: seq<Step>, user: Address)
    requires FreshIds(hash, steps)
    ensures Good(hash, Run(hash, steps), user)
  {
    if steps != [] {
      var front := steps[..|steps| - 1];
      RunIsGood(hash, front, user);
      StepKeepsGood(hash, Run(hash, front), steps[|steps| - 1], user);
    }
  }

  /** Main result: with fresh ids every reachable history verifies from the start, whatever the hash. */
  lemma ReachableVerifies(hash: Digest, steps: seq<Step>, user: Address)
    requires FreshIds(hash, steps)
    ensures Verdict(hash, user, UserLogs(Run(hash, steps), user), 0)
  {
    RunIsGood(hash, steps, user);
    VerdictIff(hash, user, UserLogs(Run(hash, steps), user));
  }

  /** And from a later position it verifies exactly when the hash maps the log before it to its own previous hash. */
  lemma ReachableVerifiesLaterIff(hash: Digest, steps: seq<Step>, user: Address, from: nat)
    requires FreshIds(hash, steps) && from > 0
    ensures var logs := UserLogs(Run(hash, steps), user);
            Verdict(hash, user, logs, from) <==>
            || logs == []
            || (from < |logs| && hash(logs[from - 1].timestamp, user, logs[from - 1].prevHash) == logs[from - 1].prevHash)
  {
    RunIsGood(hash, steps, user);
    var logs := UserLogs(Run(hash, steps), user);
    if from < |logs| { LaterVerdictIff(hash, user, logs, from); }
  }

  /** A user clocks in and out; the two logs verify from 0 and not from 1. */
  lemma GoodHistoryRejectedLater(hash: Digest, user: Address)
    requires hash(5, user, ZERO) != ZERO
    ensures var steps := [Step(5, 1, user, ClockIn, 0), Step(9, 2, user, ClockOut, 0)];
            var logs := UserLogs(Run(hash, steps), user);
            && logs == [Log(user, ClockIn, 5, ZERO), Log(user, ClockOut, 9, hash(5, user, ZERO))]
            && Verdict(hash, user, logs, 0) && !Verdict(hash, user, logs, 1)
  {
    var a, b := Step(5, 1, user, ClockIn, 0), Step(9, 2, user, ClockOut, 0);
    var prev := hash(5, user, ZERO);
    RunOfTwo(hash, a, b);
    var s1 := Next(hash, DEPLOYED, a);
    var s2 := Next(hash, s1, b);
    assert IdsOf(s1, user) == [1] && LatestHash(s1, user) == prev;
    assert IdsOf(s2, user) == [1] + [2];
    hide Run, Verdict, Next;
    LogsAppend(s2.logs, [], 1);
    LogsAppend(s2.logs, [1], 2);
    assert [] + [1] == [1] && LogsOf(s2.logs, []) == [];
    VerdictOfPair(hash, user, Log(user, ClockIn, 5, ZERO), Log(user, ClockOut, 9, prev));
  }

  lemma VerdictOfPair(hash: Digest, user: Address, first: Log, second: Log)
    requires first.prevHash == ZERO && second.prevHash == hash(first.timestamp, user, ZERO)
    ensures Verdict(hash, user, [first, second], 0)
    ensures Verdict(hash, user, [first, second], 1) <==> second.prevHash == ZERO
  {
    var logs := [first, second];
    assert Verified(hash, user, logs, 2, hash(second.timestamp, user, second.prevHash));
    assert Verified(hash, user, logs, 1, second.prevHash);
  }

  /** A second log under a used id overwrites the first: the history then verifies only if the hash hit zero. */
  lemma ReusedIdVerifiesIff(hash: Digest, id: LogId, user: Address, t: nat, t': nat)
    ensures var steps := [Step(t, id, user, ClockIn, 0), Step(t', id, user, ClockOut, 0)];
            Verdict(hash, user, UserLogs(Run(hash, steps), user), 0) <==>
            hash(t, user, ZERO) == ZERO && hash(t', user, ZERO) == ZERO
  {
    var a, b := Step(t, id, user, ClockIn, 0), Step(t', id, user, ClockOut, 0);
    var prev := hash(t, user, ZERO);
    RunOfTwo(hash, a, b);
    var s1 := Next(hash, DEPLOYED, a);
    var s2 := Next(hash, s1, b);
    hide Run, Verdict;
    assert IdsOf(s1, user) == [id] && LatestHash(s1, user) == prev;
    assert IdsOf(s2, user) == [id] + [id];
    var log := Log(user, ClockOut, t', prev);
    assert s2.logs[id] == log;
    LogsAppend(s2.logs, [], id);
    LogsAppend(s2.logs, [id], id);
    assert [] + [id] == [id] && LogsOf(s2.logs, []) == [];
    VerdictOfTwice(hash, user, log);
    assert UserLogs(s2, user) == [log, log];
  }

  lemma RunOfTwo(hash: Digest, a: Step, b: Step)
    ensures Run(hash, [a, b]) == Next(hash, Next(hash, DEPLOYED, a), b)
  {
    assert [a, b][..1] == [a] && [a][..0] == [];
    assert Run(hash, [a]) == Next(hash, DEPLOYED, a);
  }

  lemma VerdictOfTwice(hash: Digest, user: Address, log: Log)
    ensures Verdict(hash, user, [log, log], 0) <==>
            log.prevHash == ZERO && log.prevHash == hash(log.timestamp, user, ZERO)
  {
    var logs := [log, log];
    assert Verified(hash, user, logs, 2, hash(log.timestamp, user, log.prevHash));
    assert Verified(hash, user, logs, 1, hash(log.timestamp, user, ZERO)) <==> log.prevHash == hash(log.timestamp, user, ZERO);
  }

  // ---------------------------------------------------------------- tamper evidence

  /** On the inputs these two histories hash at position k, equal hashes mean equal inputs. */
  ghost predicate NoCollision(hash: Digest, user: Address, a: seq<Log>, b: seq<Log>, k: nat)
    requires k < |a| && k < |b|
  {
    hash(a[k].timestamp, user, a[k].prevHash) == hash(b[k].timestamp, user, b[k].prevHash) ==>
      a[k].timestamp == b[k].timestamp && a[k].prevHash == b[k].prevHash
  }

  /** In a chain each log hashes the one before it. */
  lemma ChainLink(hash: Digest, user: Address, logs: seq<Log>, k: nat)
    requires Chained(hash, user, logs) && 0 < k < |logs|
    ensures logs[k].prevHash == hash(logs[k - 1].timestamp, user, logs[k - 1].prevHash)
  {
    assert logs[..k][..k - 1] == logs[..k - 1];
  }

  lemma LinkPins(hash: Digest, user: Address, a: seq<Log>, b: seq<Log>, k: nat)
    requires Chained(hash, user, a) && Chained(hash, user, b) && k + 1 < |a| && k + 1 < |b|
    requires a[k + 1].prevHash == b[k + 1].prevHash && NoCollision(hash, user, a, b, k)
    ensures a[k].timestamp == b[k].timestamp && a[k].prevHash == b[k].prevHash
  {
    hide Chained;
    ChainLink(hash, user, a, k + 1);
    ChainLink(hash, user, b, k + 1);
  }

  lemma {:induction false} PrevHashPins(hash: Digest, user: Address, a: seq<Log>, b: seq<Log>, k: nat)
    requires Chained(hash, user, a) && Chained(hash, user, b) && k < |a| && k < |b|
    requires a[k].prevHash == b[k].prevHash
    requires forall j :: 0 <= j < k ==> NoCollision(hash, user, a, b, j)
    ensures forall j :: 0 <= j < k ==> a[j].timestamp == b[j].timestamp && a[j].prevHash == b[j].prevHash
  {
    hide *;
    if k > 0 {
      var i: nat := k - 1;
      assert NoCollision(hash, user, a, b, i);
      LinkPins(hash, user, a, b, i);
      PrevHashPins(hash, user, a, b, i);
    }
  }

  /** Main result: the previous hash of the last log pins down every earlier timestamp. */
  lemma LastHashPinsHistory(hash: Digest, user: Address, a: seq<Log>, b: seq<Log>)
    requires Chained(hash, user, a) && Chained(hash, user, b) && |a| == |b| > 0
    requires a[|a| - 1].prevHash == b[|b| - 1].prevHash
    requires forall k :: 0 <= k < |a| - 1 ==> NoCollision(hash, user, a, b, k)
    ensures forall k :: 0 <= k < |a| - 1 ==> a[k].timestamp == b[k].timestamp && a[k].prevHash == b[k].prevHash
  {
    hide Chained, NoCollision;
    PrevHashPins(hash, user, a, b, |a| - 1);
  }

  /** Two histories with the same previous hashes, and the same timestamps but for the last. */
  ghost predicate SameBut(a: seq<Log>, b: seq<Log>) {
    && |a| == |b|
    && (forall k :: 0 <= k < |a| ==> a[k].prevHash == b[k].prevHash)
    && (forall k :: 0 <= k < |a| - 1 ==> a[k].timestamp == b[k].timestamp)
  }

  lemma {:induction false} HeadIsOfTimestamps(hash: Digest, user: Address, a: seq<Log>, b: seq<Log>, n: nat)
    requires n <= |a| && n <= |b| && forall k :: 0 <= k < n ==> a[k].timestamp == b[k].timestamp
    ensures Head(hash, user, a[..n]) == Head(hash, user, b[..n])
  {
    if n > 0 {
      HeadIsOfTimestamps(hash, user, a, b, n - 1);
      assert a[..n][..n - 1] == a[..n - 1] && b[..n][..n - 1] == b[..n - 1];
    }
  }

  /** What the chain does not cover: every action, and the last log's own timestamp, can be anything. */
  lemma ActionsAndLastTimestampAreFree(hash: Digest, user: Address, a: seq<Log>, b: seq<Log>)
    requires SameBut(a, b)
    ensures Chained(hash, user, a) <==> Chained(hash, user, b)
    ensures Verdict(hash, user, a, 0) <==> Verdict(hash, user, b, 0)
  {
    hide Head;
    forall k | 0 <= k < |a| ensures Head(hash, user, a[..k]) == Head(hash, user, b[..k]) {
      HeadIsOfTimestamps(hash, user, a, b, k);
    }
    VerdictIff(hash, user, a);
    VerdictIff(hash, user, b);
  }

  // ---------------------------------------------------------------- session pairing

  /** A clock-in with a clock-out right after it. */
  predicate PairAt(logs: seq<Log>, i: int) {
    0 <= i && i + 1 < |logs| && logs[i].action.ClockIn? && logs[i + 1].action.ClockOut?
  }

  /** Pairs starting before n, and their total length. */
  function Pairs(logs: seq<Log>, n: nat): nat {
    if n == 0 then 0 else Pairs(logs, n - 1) + (if PairAt(logs, n - 1) then 1 else 0)
  }

  function PairedTime(logs: seq<Log>, n: nat): int {
    if n == 0 then 0
    else PairedTime(logs, n - 1) + (if PairAt(logs, n - 1) then logs[n].timestamp - logs[n - 1].timestamp else 0)
  }

  predicate InOrder(logs: seq<Log>) {
    forall i, j :: 0 <= i <= j < |logs| ==> logs[i].timestamp <= logs[j].timestamp
  }

  /** Sessions do not overlap, so together they fit between the first and the last log. */
  lemma {:induction false} SessionsFit(logs: seq<Log>, n: nat)
    requires InOrder(logs) && n < |logs|
    ensures 0 <= PairedTime(logs, n) <= logs[n].timestamp - logs[0].timestamp
  {
    if n > 0 { SessionsFit(logs, n - 1); }
  }

  /** A session starts at position i: a clock-in, followed at once by a clock-out. */
  predicate SessionAt(logs: seq<Log>, i: nat) {
    i + 1 < |logs| && logs[i].action == ClockIn && logs[i + 1].action == ClockOut
  }

  ghost function Sessions(logs: seq<Log>, n: nat): set<nat> { set i: nat | i < n && SessionAt(logs, i) }

  lemma {:induction false} PairsCountSessions(logs: seq<Log>, n: nat)
    ensures Pairs(logs, n) == |Sessions(logs, n)|
  {
    if n == 0 {
      assert Sessions(logs, n) == {};
    } else {
      PairsCountSessions(logs, n - 1);
      assert Sessions(logs, n) == Sessions(logs, n - 1) + (if PairAt(logs, n - 1) then {n - 1} else {});
    }
  }

  /** The user is inside one of the sessions that start before position n at second t. */
  ghost predicate Inside(logs: seq<Log>, n: nat, t: int) {
    exists i: nat :: i < n && SessionAt(logs, i) && logs[i].timestamp <= t < logs[i + 1].timestamp
  }

  /** The seconds of [first, last) spent inside the sessions that start before position n. */
  ghost function SecondsInside(logs: seq<Log>, n: nat, first: int, last: int): set<int>
    requires first <= last
  {
    set t | t in Seconds(first, last) && Inside(logs, n, t)
  }

  lemma OrderedAt(logs: seq<Log>, i: nat, j: nat)
    requires InOrder(logs) && i <= j < |logs|
    ensures logs[i].timestamp <= logs[j].timestamp
  {
  }

  lemma InsideGrows(logs: seq<Log>, n: nat, t: int)
    requires InOrder(logs) && n + 1 < |logs|
    ensures Inside(logs, n, t) ==> logs[0].timestamp <= t < logs[n].timestamp
    ensures Inside(logs, n + 1, t) <==> Inside(logs, n, t) || (PairAt(logs, n) && logs[n].timestamp <= t < logs[n + 1].timestamp)
  {
    hide InOrder;
    if i: nat :| i < n && SessionAt(logs, i) && logs[i].timestamp <= t < logs[i + 1].timestamp {
      OrderedAt(logs, 0, i);
      OrderedAt(logs, i + 1, n);
    }
    if PairAt(logs, n) { assert SessionAt(logs, n); }
  }

  lemma SecondGrows(logs: seq<Log>, n: nat, first: int, mid: int, last: int, t: int)
    requires InOrder(logs) && n + 1 < |logs|
    requires first == logs[0].timestamp && mid == logs[n].timestamp && last == logs[n + 1].timestamp && first <= mid <= last
    ensures var front, now := SecondsInside(logs, n, first, mid), if PairAt(logs, n) then Seconds(mid, last) else {};
            && (t in SecondsInside(logs, n + 1, first, last) <==> t in front || t in now)
            && (t in front ==> t !in now)
  {
    InsideGrows(logs, n, t);
    hide Inside, PairAt, InOrder;
  }

  lemma SecondsInsideGrows(logs: seq<Log>, n: nat)
    requires InOrder(logs) && n + 1 < |logs| && logs[0].timestamp <= logs[n].timestamp <= logs[n + 1].timestamp
    ensures var first, front := logs[0].timestamp, SecondsInside(logs, n, logs[0].timestamp, logs[n].timestamp);
            |SecondsInside(logs, n + 1, first, logs[n + 1].timestamp)|
            == |front| + if PairAt(logs, n) then logs[n + 1].timestamp - logs[n].timestamp else 0
  {
    hide Inside, PairAt, Seconds, InOrder, SecondsInside;
    var first, mid, last := logs[0].timestamp, logs[n].timestamp, logs[n + 1].timestamp;
    var front, now := SecondsInside(logs, n, first, mid), if PairAt(logs, n) then Seconds(mid, last) else {};
    var all := SecondsInside(logs, n + 1, first, last);
    forall t ensures t in all <==> t in front || t in now ensures t in front ==> t !in now {
      SecondGrows(logs, n, first, mid, last, t);
    }
    SizesAdd(front, now, all);
  }

  /** The total paired time is the number of seconds spent inside sessions. */
  lemma {:induction false} PairedTimeCountsSeconds(logs: seq<Log>, n: nat)
    requires InOrder(logs) && n < |logs|
    ensures logs[0].timestamp <= logs[n].timestamp
    ensures PairedTime(logs, n) == |SecondsInside(logs, n, logs[0].timestamp, logs[n].timestamp)|
  {
    hide *;
    OrderedAt(logs, 0, n);
    if n == 0 {
      NothingInside(logs);
    } else {
      PairedTimeCountsSeconds(logs, n - 1);
      PairedTimeGrows(logs, n - 1);
      OrderedAt(logs, n - 1, n);
      SecondsInsideGrows(logs, n - 1);
    }
  }

  lemma NothingInside(logs: seq<Log>)
    requires logs != []
    ensures SecondsInside(logs, 0, logs[0].timestamp, logs[0].timestamp) == {} && PairedTime(logs, 0) == 0
  {
  }

  lemma PairedTimeGrows(logs: seq<Log>, n: nat)
    requires n + 1 < |logs|
    ensures PairedTime(logs, n + 1)
            == PairedTime(logs, n) + if PairAt(logs, n) then logs[n + 1].timestamp - logs[n].timestamp else 0
  {
  }

  /** log_clock_event: refused beyond fifty details; else stored, listed last, and hashed onto the user's chain. */
  lemma LogDoes(hash: Digest, s: State, now: nat, id: LogId, user: Address, action: Action, details: nat)
    ensures var o := DoLog(hash, s, now, id, user, action, details);
            var prev := if user in s.latest then s.latest[user] else 0;
            && (o.None? <==> details > 50)
            && (o.Some? ==>
                  && o.value.logs == s.logs[id := Log(user, action, now, prev)]
                  && o.value.latest == s.latest[user := hash(now, user, prev)]
                  && o.value.byUser == s.byUser[user := (if user in s.byUser then s.byUser[user] else []) + [id]])
  {
  }

  predicate ClockRuns(steps: seq<Step>, until: nat) {
    steps == [] || (steps[|steps| - 1].now <= until && ClockRuns(steps[..|steps| - 1], steps[|steps| - 1].now))
  }

  /** Under a clock that never goes back, every reachable history with fresh ids is in time order. */
  lemma {:induction false} ReachableInOrder(hash: Digest, steps: seq<Step>, user: Address, until: nat)
    requires FreshIds(hash, steps) && ClockRuns(steps, until)
    ensures var logs := UserLogs(Run(hash, steps), user);
            InOrder(logs) && forall k :: 0 <= k < |logs| ==> logs[k].timestamp <= until
  {
    if steps != [] {
      var front, e := steps[..|steps| - 1], steps[|steps| - 1];
      var s := Run(hash, front);
      ReachableInOrder(hash, front, user, e.now);
      RunIsGood(hash, front, user);
      hide UserLogs, Next, Chained, Head;
      if e.details <= MAX_DETAILS {
        StepAddsLog(hash, s, e, user);
      } else {
        assert Next(hash, s, e) == s by { RefusedLogChangesNothing(hash, s, e); }
      }
    }
  }

  lemma RefusedLogChangesNothing(hash: Digest, s: State, e: Step)
    requires e.details > MAX_DETAILS
    ensures Next(hash, s, e) == s
  {
  }

  /** The logs inside [start, end]. */
  function InRange(logs: seq<Log>, start: nat, end: nat): seq<Log> {
    if logs == [] then []
    else
      var last := logs[|logs| - 1];
      InRange(logs[..|logs| - 1], start, end) + (if start <= last.timestamp <= end then [last] else [])
  }

  function Occurrences(logs: seq<Log>, log: Log): nat { multiset(logs)[log] }

  lemma OccurrencesAppend(logs: seq<Log>, last: Log, log: Log)
    ensures Occurrences(logs + [last], log) == Occurrences(logs, log) + (if last == log then 1 else 0)
  {
  }

  lemma InRangeSnoc(logs: seq<Log>, last: Log, start: nat, end: nat)
    ensures var kept := InRange(logs, start, end);
            InRange(logs + [last], start, end) == if start <= last.timestamp <= end then kept + [last] else kept
  {
    assert (logs + [last])[..|logs|] == logs;
    assert InRange(logs, start, end) + [] == InRange(logs, start, end);
  }

  lemma NothingInRange(start: nat, end: nat, log: Log)
    ensures InRange([], start, end) == [] && Occurrences([], log) == 0
  {
  }

  /** Each log inside the range as often as it was, and no other. */
  lemma {:induction false} InRangeSelects(logs: seq<Log>, start: nat, end: nat, log: Log)
    ensures Occurrences(InRange(logs, start, end), log) == if start <= log.timestamp <= end then Occurrences(logs, log) else 0
  {
    hide *;
    if logs == [] {
      NothingInRange(start, end, log);
    } else {
      var front, last := logs[..|logs| - 1], logs[|logs| - 1];
      InRangeSelects(front, start, end, log);
      InRangeSnoc(front, last, start, end);
      OccurrencesAppend(front, last, log);
      OccurrencesAppend(InRange(front, start, end), last, log);
      assert logs == front + [last];
    }
  }

  /** In the order they were in: what is selected from a first part comes before what is selected from the rest. */
  lemma {:induction false} InRangeKeepsOrder(a: seq<Log>, b: seq<Log>, start: nat, end: nat)
    ensures InRange(a + b, start, end) == InRange(a, start, end) + InRange(b, start, end)
  {
    hide *;
    if b == [] {
      NothingInRange(start, end, Log(0, ClockIn, 0, 0));
      assert a + b == a && InRange(a, start, end) + [] == InRange(a, start, end);
    } else {
      var front, last := b[..|b| - 1], b[|b| - 1];
      InRangeKeepsOrder(a, front, start, end);
      InRangeSnoc(front, last, start, end);
      InRangeSnoc(a + front, last, start, end);
      assert front + [last] == b && (a + front) + [last] == a + b;
    }
  }

  method FilterRange(logs: seq<Log>, start: nat, end: nat) returns (filtered: seq<Log>)
    ensures filtered == InRange(logs, start, end)
  {
    filtered := [];
    for i := 0 to |logs|
      invariant filtered == InRange(logs[..i], start, end)
    {
      assert logs[..i + 1][..i] == logs[..i];
      if logs[i].timestamp >= start && logs[i].timestamp <= end { filtered := filtered + [logs[i]]; }
    }
    assert logs[..|logs|] == logs;
  }

  datatype Summary = Summary(sessions: nat, duration: int, average: int)

  /**
   * The skipping loop counts every adjacent pair, because a pair's second log never starts another; it
   * traps exactly when some pair's times are out of order.
   */
  method SummarizeSessions(logs: seq<Log>) returns (r: Option<Summary>)
    ensures r.None? <==> exists i: nat :: SessionAt(logs, i) && logs[i + 1].timestamp < logs[i].timestamp
    ensures r.Some? ==> r.value.sessions == Pairs(logs, |logs|) == |Sessions(logs, |logs|)|
    ensures r.Some? ==> r.value.duration == PairedTime(logs, |logs|) >= 0
    ensures r.Some? ==> r.value.average == if r.value.sessions > 0 then r.value.duration / r.value.sessions else 0
  {
    var sessions: nat, duration: nat := 0, 0;
    var i := 0;
    while i < |logs|
      invariant 0 <= i <= |logs|
      invariant sessions == Pairs(logs, i) && duration == PairedTime(logs, i)
      invariant forall j: nat :: j < i && SessionAt(logs, j) ==> logs[j].timestamp <= logs[j + 1].timestamp
    {
      if logs[i].action == ClockIn && i + 1 < |logs| && logs[i + 1].action == ClockOut {
        assert PairAt(logs, i) && !PairAt(logs, i + 1);
        assert Pairs(logs, i + 2) == Pairs(logs, i + 1) && PairedTime(logs, i + 2) == PairedTime(logs, i + 1);
        if logs[i + 1].timestamp < logs[i].timestamp {
          assert SessionAt(logs, i);
          return None;
        }
        sessions := sessions + 1;
        duration := duration + (logs[i + 1].timestamp - logs[i].timestamp);
        i := i + 2;
      } else {
        i := i + 1;
      }
    }
    PairsCountSessions(logs, |logs|);
    r := Some(Summary(sessions, duration, if sessions > 0 then duration / sessions else 0));
  }
}
