/**
 * Membership tokens and their expiry index, from contracts/membership_token/src/lib.rs.
 */
module MembershipIndex {
  import opened Common

  type Address = nat

  const DAY: nat := 86_400
  const GRACE_SECONDS: nat := 30 * 86_400
  const MAX_BATCH: nat := 50
  const MAX_DAYS_AHEAD: nat := 365

  datatype Status = Active | Expired | Revoked | GracePeriod

  /** The stored status is only ever Active or Revoked; the other two are computed. */
  datatype Token = Token(owner: Address, tier: nat, issuedAt: nat, expiryDate: nat, revoked: bool)

  datatype IssueParams = IssueParams(owner: Address, tier: nat, expiryDate: nat)

  datatype TransferParams = TransferParams(id: nat, newOwner: Address)

  datatype Error =
    | AdminNotSet | NotAdmin | NotSigned | ContractPaused | InvalidExpiryDate | TokenNotFound | TokenRevoked
    | GracePeriodBlock | InvalidTransition | CannotRenewExpired | BatchTooLarge

  type Tokens = map<nat, Token>

  /** ExpiryIndex: ids by day of expiry. */
  type Buckets = map<nat, seq<nat>>

  datatype State = State(admin: Option<Address>, paused: bool, count: nat, tokens: Tokens, buckets: Buckets)

  type Outcome = Result<State, Error>

  function ComputeStatus(t: Token, now: nat): Status {
    if t.revoked then Revoked
    else if now <= t.expiryDate then Active
    else if now <= t.expiryDate + GRACE_SECONDS then GracePeriod
    else Expired
  }

  function ValidateTransition(from: Status, to: Status): Option<Error> {
    if from.Active? && to.Revoked? then None
    else if from.GracePeriod? && to.Active? then None
    else if from.Revoked? then Some(InvalidTransition)
    else if from.Expired? then Some(CannotRenewExpired)
    else Some(InvalidTransition)
  }

  function Refusal(s: State, caller: Address): Option<Error> {
    if s.paused then Some(ContractPaused)
    else if s.admin.None? then Some(AdminNotSet)
    else if caller != s.admin.value then Some(NotAdmin)
    else None
  }

  function Bucket(b: Buckets, day: nat): seq<nat> { if day in b then b[day] else [] }

  function DayOf(t: Token): nat { t.expiryDate / DAY }

  /** xs with every occurrence of id dropped. */
  function Without(xs: seq<nat>, id: nat): seq<nat> {
    if xs == [] then []
    else Without(xs[..|xs| - 1], id) + (if xs[|xs| - 1] != id then [xs[|xs| - 1]] else [])
  }

  function Added(b: Buckets, day: nat, id: nat): Buckets { b[day := Bucket(b, day) + [id]] }

  function Removed(b: Buckets, day: nat, id: nat): Buckets {
    if day !in b then b
    else
      var rest := Without(b[day], id);
      if rest == [] then b - {day} else b[day := rest]
  }

  // ---------------------------------------------------------------- one call

  function DoInitialize(s: State, admin: Address): Outcome { Success(s.(admin := Some(admin), paused := false)) }

  function DoSetPaused(s: State, caller: Address, paused: bool): Outcome {
    if s.admin.None? then Failure(AdminNotSet)
    else if caller != s.admin.value then Failure(NotAdmin)
    else Success(s.(paused := paused))
  }

  function DoIssue(s: State, now: nat, caller: Address, p: IssueParams): Outcome {
    if Refusal(s, caller).Some? then Failure(Refusal(s, caller).value)
    else if p.expiryDate <= now then Failure(InvalidExpiryDate)
    else
      var id := s.count + 1;
      Success(s.(count := id,
                 tokens := s.tokens[id := Token(p.owner, p.tier, now, p.expiryDate, false)],
                 buckets := Added(s.buckets, p.expiryDate / DAY, id)))
  }

  /** One transfer, signed by `signers`. */
  function Transferred(tokens: Tokens, now: nat, signers: set<Address>, p: TransferParams): Result<Tokens, Error> {
    if p.id !in tokens then Failure(TokenNotFound)
    else
      var t := tokens[p.id];
      if t.owner !in signers then Failure(NotSigned)
      else
        match ComputeStatus(t, now)
        case GracePeriod => Failure(GracePeriodBlock)
        case Revoked => Failure(TokenRevoked)
        case Expired => Failure(InvalidExpiryDate)
        case Active => Success(tokens[p.id := t.(owner := p.newOwner)])
  }

  function AllTransferred(tokens: Tokens, now: nat, signers: set<Address>, ps: seq<TransferParams>): Result<Tokens, Error> {
    if ps == [] then Success(tokens)
    else
      var front := AllTransferred(tokens, now, signers, ps[..|ps| - 1]);
      if front.Failure? then front else Transferred(front.value, now, signers, ps[|ps| - 1])
  }

  function DoTransfers(s: State, now: nat, signers: set<Address>, ps: seq<TransferParams>): Outcome {
    if s.paused then Failure(ContractPaused)
    else
      var moved := AllTransferred(s.tokens, now, signers, ps);
      if moved.Failure? then Failure(moved.error) else Success(s.(tokens := moved.value))
  }

  function DoRenew(s: State, now: nat, caller: Address, id: nat, newExpiry: nat): Outcome {
    if Refusal(s, caller).Some? then Failure(Refusal(s, caller).value)
    else if id !in s.tokens then Failure(TokenNotFound)
    else
      var t := s.tokens[id];
      var refusal := ValidateTransition(ComputeStatus(t, now), Active);
      if refusal.Some? then Failure(refusal.value)
      else
        Success(s.(tokens := s.tokens[id := t.(expiryDate := newExpiry, revoked := false)],
                   buckets := Added(Removed(s.buckets, DayOf(t), id), newExpiry / DAY, id)))
  }

  function DoRevoke(s: State, now: nat, caller: Address, id: nat): Outcome {
    if Refusal(s, caller).Some? then Failure(Refusal(s, caller).value)
    else if id !in s.tokens then Failure(TokenNotFound)
    else
      var t := s.tokens[id];
      var refusal := ValidateTransition(ComputeStatus(t, now), Revoked);
      if refusal.Some? then Failure(refusal.value)
      else Success(s.(tokens := s.tokens[id := t.(revoked := true)]))
  }

  /** Tokens with the batch's first ones issued under the ids after `start`. */
  function Issued(tokens: Tokens, now: nat, start: nat, ps: seq<IssueParams>): Tokens {
    if ps == [] then tokens
    else
      var last := ps[|ps| - 1];
      Issued(tokens, now, start, ps[..|ps| - 1])[start + |ps| := Token(last.owner, last.tier, now, last.expiryDate, false)]
  }

  /** The batch form fills no bucket. */
  function DoBatchIssue(s: State, now: nat, caller: Address, ps: seq<IssueParams>): Outcome {
    if Refusal(s, caller).Some? then Failure(Refusal(s, caller).value)
    else if |ps| > MAX_BATCH then Failure(BatchTooLarge)
    else if exists i :: 0 <= i < |ps| && ps[i].expiryDate <= now then Failure(InvalidExpiryDate)
    else Success(s.(count := s.count + |ps|, tokens := Issued(s.tokens, now, s.count, ps)))
  }

  // ---------------------------------------------------------------- runs

  datatype Call =
    | CallInitialize(admin: Address)
    | CallSetPaused(caller: Address, paused: bool)
    | CallIssue(caller: Address, params: IssueParams)
    | CallTransfers(signers: set<Address>, transfers: seq<TransferParams>)
    | CallRenew(caller: Address, id: nat, newExpiry: nat)
    | CallRevoke(caller: Address, id: nat)
    | CallBatchIssue(caller: Address, batch: seq<IssueParams>)

  datatype Step = Step(now: nat, call: Call)

  function Do(s: State, e: Step): Outcome {
    match e.call
    case CallInitialize(admin) => DoInitialize(s, admin)
    case CallSetPaused(caller, paused) => DoSetPaused(s, caller, paused)
    case CallIssue(caller, p) => DoIssue(s, e.now, caller, p)
    case CallTransfers(signers, ps) => DoTransfers(s, e.now, signers, ps)
    case CallRenew(caller, id, newExpiry) => DoRenew(s, e.now, caller, id, newExpiry)
    case CallRevoke(caller, id) => DoRevoke(s, e.now, caller, id)
    case CallBatchIssue(caller, ps) => DoBatchIssue(s, e.now, caller, ps)
  }

  function After(s: State, o: Outcome): State { if o.Success? then o.value else s }

  const DEPLOYED: State := State(None, false, 0, map[], map[])

  function Run(steps: seq<Step>): State {
    if steps == [] then DEPLOYED
    else
      var s := Run(steps[..|steps| - 1]);
      After(s, Do(s, steps[|steps| - 1]))
  }

  /** id came from a batch and was never renewed. */
  predicate Unindexed(steps: seq<Step>, id: nat) {
    if steps == [] then false
    else
      var front, e := steps[..|steps| - 1], steps[|steps| - 1];
      var s := Run(front);
      if Do(s, e).Failure? then Unindexed(front, id)
      else
        match e.call
        case CallBatchIssue(_, batch) => s.count < id <= s.count + |batch| || Unindexed(front, id)
        case CallRenew(_, renewed, _) => id != renewed && Unindexed(front, id)
        case _ => Unindexed(front, id)
  }

  // ---------------------------------------------------------------- the index

  function Occurrences(xs: seq<nat>, id: nat): nat { multiset(xs)[id] }

  lemma OccurrencesAppend(xs: seq<nat>, x: nat, id: nat)
    ensures Occurrences(xs + [x], id) == Occurrences(xs, id) + (if x == id then 1 else 0)
  {
  }

  lemma {:induction false} OccurrencesWithout(xs: seq<nat>, x: nat, id: nat)
    ensures Occurrences(Without(xs, x), id) == if x == id then 0 else Occurrences(xs, id)
  {
    if xs != [] {
      var front, last := xs[..|xs| - 1], xs[|xs| - 1];
      OccurrencesWithout(front, x, id);
      OccurrencesAppend(front, last, id);
      assert front + [last] == xs;
      if last != x { OccurrencesAppend(Without(front, x), last, id); }
      else { assert Without(front, x) + [] == Without(front, x); }
    }
  }

  /** Bucket `day` holds id once if id is an indexed token of that day, and not at all otherwise. */
  ghost predicate Indexed(s: State, unindexed: bool, day: nat, id: nat) {
    Occurrences(Bucket(s.buckets, day), id) ==
    if id in s.tokens && !unindexed && DayOf(s.tokens[id]) == day then 1 else 0
  }

  /** Ids are handed out in order. */
  ghost predicate Known(s: State, id: nat) { id in s.tokens <==> 0 < id <= s.count }

  lemma {:induction false} IssuedAt(tokens: Tokens, now: nat, start: nat, ps: seq<IssueParams>, id: nat)
    ensures var after := Issued(tokens, now, start, ps);
            if start < id <= start + |ps|
            then var p := ps[id - start - 1]; id in after && after[id] == Token(p.owner, p.tier, now, p.expiryDate, false)
            else (id in after <==> id in tokens) && (id in tokens ==> after[id] == tokens[id])
  {
    if ps != [] { IssuedAt(tokens, now, start, ps[..|ps| - 1], id); }
  }

  /** Transfers change owners and nothing else. */
  lemma {:induction false} TransfersKeep(tokens: Tokens, now: nat, signers: set<Address>, ps: seq<TransferParams>, id: nat)
    requires AllTransferred(tokens, now, signers, ps).Success?
    ensures var after := AllTransferred(tokens, now, signers, ps).value;
            && (id in after <==> id in tokens)
            && (id in tokens ==> after[id] == tokens[id].(owner := after[id].owner))
            && (id in tokens && after[id] != tokens[id] ==>
                  ComputeStatus(tokens[id], now).Active? && tokens[id].owner in signers)
  {
    if ps != [] { TransfersKeep(tokens, now, signers, ps[..|ps| - 1], id); }
  }

  lemma AddedBucket(b: Buckets, day: nat, id: nat, d: nat, x: nat)
    ensures Occurrences(Bucket(Added(b, day, id), d), x) ==
            Occurrences(Bucket(b, d), x) + (if d == day && x == id then 1 else 0)
  {
    OccurrencesAppend(Bucket(b, day), id, x);
  }

  lemma RemovedBucket(b: Buckets, day: nat, id: nat, d: nat, x: nat)
    ensures Occurrences(Bucket(Removed(b, day, id), d), x) ==
            if d == day && x == id then 0 else Occurrences(Bucket(b, d), x)
  {
    if day in b {
      OccurrencesWithout(b[day], id, x);
    }
  }

  lemma StepKeepsIndex(s: State, e: Step, unindexed: bool, unindexed': bool, day: nat, id: nat)
    requires Known(s, id) && Indexed(s, unindexed, day, id) && (unindexed ==> id in s.tokens)
    requires Do(s, e).Success?
    requires unindexed' <==> match e.call
                             case CallBatchIssue(_, batch) => s.count < id <= s.count + |batch| || unindexed
                             case CallRenew(_, renewed, _) => id != renewed && unindexed
                             case _ => unindexed
    ensures var after := Do(s, e).value;
            Known(after, id) && Indexed(after, unindexed', day, id) && (unindexed' ==> id in after.tokens)
  {
    hide Added, Removed, Bucket, Occurrences, Issued, AllTransferred;
    match e.call {
      case CallIssue(_, p) =>
        AddedBucket(s.buckets, p.expiryDate / DAY, s.count + 1, day, id);
      case CallTransfers(signers, ps) =>
        TransfersKeep(s.tokens, e.now, signers, ps, id);
      case CallRenew(_, renewed, newExpiry) =>
        var oldDay := DayOf(s.tokens[renewed]);
        RemovedBucket(s.buckets, oldDay, renewed, day, id);
        AddedBucket(Removed(s.buckets, oldDay, renewed), newExpiry / DAY, renewed, day, id);
      case CallBatchIssue(_, ps) =>
        IssuedAt(s.tokens, e.now, s.count, ps, id);
      case _ =>
    }
  }

  /** Main result: in every run, every bucket is exact for every id, apart from un-renewed batch tokens. */
  lemma {:induction false} RunIsIndexed(steps: seq<Step>, day: nat, id: nat)
    ensures Known(Run(steps), id)
    ensures Indexed(Run(steps), Unindexed(steps, id), day, id)
    ensures Unindexed(steps, id) ==> id in Run(steps).tokens
  {
    if steps != [] {
      var front, e := steps[..|steps| - 1], steps[|steps| - 1];
      RunIsIndexed(front, day, id);
      if Do(Run(front), e).Success? {
        StepKeepsIndex(Run(front), e, Unindexed(front, id), Unindexed(steps, id), day, id);
      }
    }
  }

  // ---------------------------------------------------------------- the expiring window

  /** Buckets first to last (excluded), one after the other. */
  function Concatenated(b: Buckets, first: nat, last: nat): seq<nat>
    decreases last
  {
    if first >= last then [] else Concatenated(b, first, last - 1) + Bucket(b, last - 1)
  }

  function ExpiringTokens(s: State, now: nat, daysAhead: nat): seq<nat> {
    var window: nat := Min(daysAhead, MAX_DAYS_AHEAD);
    Concatenated(s.buckets, now / DAY, now / DAY + window + 1)
  }

  predicate InWindow(t: Token, now: nat, daysAhead: nat) {
    now / DAY <= DayOf(t) <= now / DAY + Min(daysAhead, MAX_DAYS_AHEAD)
  }

  lemma OccurrencesConcat(xs: seq<nat>, ys: seq<nat>, id: nat)
    ensures Occurrences(xs + ys, id) == Occurrences(xs, id) + Occurrences(ys, id)
  {
  }

  lemma {:induction false} ConcatenatedIsExact(s: State, unindexed: bool, first: nat, last: nat, id: nat)
    requires forall day :: Indexed(s, unindexed, day, id)
    ensures Occurrences(Concatenated(s.buckets, first, last), id) ==
            if id in s.tokens && !unindexed && first <= DayOf(s.tokens[id]) < last then 1 else 0
    decreases last
  {
    if first < last {
      ConcatenatedIsExact(s, unindexed, first, last - 1, id);
      assert Indexed(s, unindexed, last - 1, id);
      hide Bucket, Occurrences, DayOf;
      OccurrencesConcat(Concatenated(s.buckets, first, last - 1), Bucket(s.buckets, last - 1), id);
    }
  }

  /** Main result: the index answers the query as a scan of all tokens would, minus un-renewed batch tokens. */
  lemma ExpiringIsScan(steps: seq<Step>, now: nat, daysAhead: nat, id: nat)
    ensures var s := Run(steps);
            Occurrences(ExpiringTokens(s, now, daysAhead), id) ==
            if id in s.tokens && !Unindexed(steps, id) && InWindow(s.tokens[id], now, daysAhead) then 1 else 0
  {
    hide Run, Unindexed, Concatenated, Occurrences, Bucket, DayOf;
    var window: nat := Min(daysAhead, MAX_DAYS_AHEAD);
    forall day ensures Indexed(Run(steps), Unindexed(steps, id), day, id) {
      RunIsIndexed(steps, day, id);
    }
    ConcatenatedIsExact(Run(steps), Unindexed(steps, id), now / DAY, now / DAY + window + 1, id);
  }

  /** So the answer is complete exactly when no token of the window is an un-renewed batch token. */
  lemma ExpiringIsCompleteIff(steps: seq<Step>, now: nat, daysAhead: nat)
    ensures var s := Run(steps);
            (forall id :: id in s.tokens && InWindow(s.tokens[id], now, daysAhead) ==> id in ExpiringTokens(s, now, daysAhead))
            <==>
            (forall id :: id in s.tokens && InWindow(s.tokens[id], now, daysAhead) ==> !Unindexed(steps, id))
  {
    var s := Run(steps);
    var listed := ExpiringTokens(s, now, daysAhead);
    forall id ensures id in listed <==> id in s.tokens && !Unindexed(steps, id) && InWindow(s.tokens[id], now, daysAhead) {
      ExpiringIsScan(steps, now, daysAhead, id);
      assert id in listed <==> Occurrences(listed, id) > 0;
    }
  }

  lemma Extend(steps: seq<Step>, e: Step, id: nat)
    ensures Run(steps + [e]) == After(Run(steps), Do(Run(steps), e))
    ensures e.call.CallBatchIssue? && Do(Run(steps), e).Success? && Run(steps).count < id <= Run(steps).count + |e.call.batch| ==>
              Unindexed(steps + [e], id)
  {
    assert (steps + [e])[..|steps|] == steps;
  }

  lemma BatchIntoEmpty(s: State, batch: Step)
    requires s == DEPLOYED.(admin := Some(9)) && batch == Step(0, CallBatchIssue(9, [IssueParams(5, 1, 1)]))
    ensures Do(s, batch).Success? && Do(s, batch).value.tokens == map[1 := Token(5, 1, 0, 1, false)] && s.count == 0
  {
    var one := IssueParams(5, 1, 1);
    assert Refusal(s, 9).None?;
    assert [one][..0] == [] && Issued(s.tokens, 0, 0, []) == map[];
    assert Issued(s.tokens, 0, 0, [one]) == map[1 := Token(5, 1, 0, 1, false)];
  }

  lemma FirstBatch() returns (steps: seq<Step>)
    ensures Run(steps).tokens == map[1 := Token(5, 1, 0, 1, false)] && Unindexed(steps, 1)
  {
    var init, batch := Step(0, CallInitialize(9)), Step(0, CallBatchIssue(9, [IssueParams(5, 1, 1)]));
    assert Run([]) == DEPLOYED;
    assert Do(DEPLOYED, init) == Success(DEPLOYED.(admin := Some(9)));
    hide Run, Unindexed, Do;
    Extend([], init, 1);
    steps := [] + [init];
    BatchIntoEmpty(Run(steps), batch);
    Extend(steps, batch, 1);
    steps := steps + [batch];
  }

  /** The incomplete case is reached by the first batch: token 1 expires today and is not listed. */
  lemma BatchTokenIsMissed()
    ensures exists steps: seq<Step> ::
              var s := Run(steps);
              1 in s.tokens && InWindow(s.tokens[1], 0, 0) && 1 !in ExpiringTokens(s, 0, 0)
  {
    var steps := FirstBatch();
    hide Run, Unindexed, ExpiringTokens, Occurrences;
    ExpiringIsScan(steps, 0, 0, 1);
    NotListed(ExpiringTokens(Run(steps), 0, 0), 1);
    assert InWindow(Run(steps).tokens[1], 0, 0);
  }

  lemma NotListed(xs: seq<nat>, id: nat)
    ensures Occurrences(xs, id) == 0 <==> id !in xs
  {
  }

  // ---------------------------------------------------------------- what each call does, written out

  /** The window runs from the first second of today's UTC day to the last of the last day, at most 365 days on. */
  lemma WindowInSeconds(t: Token, now: nat, daysAhead: nat)
    ensures var midnight := now - now % 86_400;
            InWindow(t, now, daysAhead) <==>
            midnight <= t.expiryDate < midnight + 86_400 * (1 + if daysAhead < 365 then daysAhead else 365)
  {
    var today := now / 86_400;
    assert now - now % 86_400 == 86_400 * today;
    DayBounds(t.expiryDate, today);
    DayBounds(t.expiryDate, today + 1 + if daysAhead < 365 then daysAhead else 365);
  }

  lemma DayBounds(at: nat, day: nat)
    ensures day <= at / DAY <==> 86_400 * day <= at
  {
  }

  /** The admin, while nothing is paused. */
  predicate InCharge(s: State, caller: Address) { !s.paused && s.admin == Some(caller) }

  /** issue_token and its batch of at most fifty: by the admin, expiring in the future, under the next ids. */
  lemma IssueDoes(s: State, now: nat, caller: Address, p: IssueParams)
    ensures var o, id := DoIssue(s, now, caller, p), s.count + 1;
            && (o.Success? <==> InCharge(s, caller) && now < p.expiryDate)
            && (o.Success? ==>
                  && o.value == State(s.admin, s.paused, id, s.tokens[id := Token(p.owner, p.tier, now, p.expiryDate, false)], o.value.buckets)
                  && forall d :: Bucket(o.value.buckets, d) == if d == p.expiryDate / 86_400 then Bucket(s.buckets, d) + [id] else Bucket(s.buckets, d))
  {
  }

  lemma BatchIssueDoes(s: State, now: nat, caller: Address, ps: seq<IssueParams>, id: nat)
    ensures var o := DoBatchIssue(s, now, caller, ps);
            && (o.Success? <==> InCharge(s, caller) && |ps| <= 50 && forall i :: 0 <= i < |ps| ==> now < ps[i].expiryDate)
            && (o.Success? ==>
                  && o.value == State(s.admin, s.paused, s.count + |ps|, o.value.tokens, s.buckets)
                  && if s.count < id <= s.count + |ps|
                     then var p := ps[id - s.count - 1]; id in o.value.tokens && o.value.tokens[id] == Token(p.owner, p.tier, now, p.expiryDate, false)
                     else (id in o.value.tokens <==> id in s.tokens) && (id in s.tokens ==> o.value.tokens[id] == s.tokens[id]))
  {
    IssuedAt(s.tokens, now, s.count, ps, id);
    hide Issued;
  }

  /** renew_token: by the admin, within the thirty days after expiry; the token is as before, but for its new date. */
  lemma RenewDoes(s: State, now: nat, caller: Address, id: nat, newExpiry: nat)
    ensures var o := DoRenew(s, now, caller, id, newExpiry);
            && (o.Success? <==>
                  && InCharge(s, caller) && id in s.tokens && !s.tokens[id].revoked
                  && s.tokens[id].expiryDate < now <= s.tokens[id].expiryDate + 30 * 86_400)
            && (o.Success? ==>
                  var t := s.tokens[id];
                  o.value == s.(tokens := s.tokens[id := Token(t.owner, t.tier, t.issuedAt, newExpiry, false)], buckets := o.value.buckets))
  {
  }

  /** revoke_token: by the admin, up to the expiry date. */
  lemma RevokeDoes(s: State, now: nat, caller: Address, id: nat)
    ensures var o := DoRevoke(s, now, caller, id);
            && (o.Success? <==> InCharge(s, caller) && id in s.tokens && !s.tokens[id].revoked && now <= s.tokens[id].expiryDate)
            && (o.Success? ==>
                  var t := s.tokens[id];
                  o.value == s.(tokens := s.tokens[id := Token(t.owner, t.tier, t.issuedAt, t.expiryDate, true)]))
  {
  }

  /** One transfer: a token neither revoked nor expired, signed for by its owner. */
  lemma TransferDoes(tokens: Tokens, now: nat, signers: set<Address>, p: TransferParams)
    ensures var o := Transferred(tokens, now, signers, p);
            && (o.Success? <==>
                  p.id in tokens && tokens[p.id].owner in signers && !tokens[p.id].revoked && now <= tokens[p.id].expiryDate)
            && (o.Success? ==>
                  var t := tokens[p.id];
                  o.value == tokens[p.id := Token(p.newOwner, t.tier, t.issuedAt, t.expiryDate, t.revoked)])
  {
  }

  /** Transfers are made one after the other, each on what the ones before it left, all or none, and not while paused. */
  lemma TransfersDo(s: State, now: nat, signers: set<Address>, ps: seq<TransferParams>, p: TransferParams)
    ensures var before, after := AllTransferred(s.tokens, now, signers, ps), AllTransferred(s.tokens, now, signers, ps + [p]);
            && AllTransferred(s.tokens, now, signers, []) == Success(s.tokens)
            && after == (if before.Failure? then before else Transferred(before.value, now, signers, p))
            && DoTransfers(s, now, signers, ps) ==
               if s.paused then Failure(ContractPaused)
               else if before.Failure? then Failure(before.error) else Success(State(s.admin, s.paused, s.count, before.value, s.buckets))
  {
    assert (ps + [p])[..|ps|] == ps;
  }

  /** What each error code says about the call that got it. */
  ghost predicate Explains(s: State, e: Step, error: Error) {
    var id := match e.call case CallRenew(_, id, _) => Some(id) case CallRevoke(_, id) => Some(id) case _ => None;
    var caller := match e.call
                  case CallSetPaused(caller, _) => Some(caller) case CallIssue(caller, _) => Some(caller) case CallRenew(caller, _, _) => Some(caller)
                  case CallRevoke(caller, _) => Some(caller) case CallBatchIssue(caller, _) => Some(caller) case _ => None;
    match error
    case AdminNotSet => s.admin == None
    case NotAdmin => caller.Some? && s.admin != caller
    case ContractPaused => s.paused
    case BatchTooLarge => e.call.CallBatchIssue? && |e.call.batch| > 50
    case CannotRenewExpired => id.Some? && id.value in s.tokens && !s.tokens[id.value].revoked && s.tokens[id.value].expiryDate + 2_592_000 < e.now
    case InvalidTransition =>
      && id.Some? && id.value in s.tokens
      && var t := s.tokens[id.value];
         if e.call.CallRenew? then t.revoked || e.now <= t.expiryDate else t.revoked || t.expiryDate < e.now <= t.expiryDate + 2_592_000
    case TokenNotFound => (id.Some? && id.value !in s.tokens) || e.call.CallTransfers?
    case InvalidExpiryDate =>
      || (e.call.CallIssue? && e.call.params.expiryDate <= e.now)
      || (e.call.CallBatchIssue? && exists i :: 0 <= i < |e.call.batch| && e.call.batch[i].expiryDate <= e.now)
      || e.call.CallTransfers?
    case NotSigned => e.call.CallTransfers?
    case TokenRevoked => e.call.CallTransfers?
    case GracePeriodBlock => e.call.CallTransfers?
  }

  lemma TransferErrorExplains(tokens: Tokens, now: nat, signers: set<Address>, p: TransferParams)
    requires Transferred(tokens, now, signers, p).Failure?
    ensures match Transferred(tokens, now, signers, p).error
            case TokenNotFound => p.id !in tokens
            case NotSigned => p.id in tokens && tokens[p.id].owner !in signers
            case TokenRevoked => p.id in tokens && tokens[p.id].revoked
            case GracePeriodBlock => p.id in tokens && tokens[p.id].expiryDate < now <= tokens[p.id].expiryDate + 2_592_000
            case InvalidExpiryDate => p.id in tokens && tokens[p.id].expiryDate + 2_592_000 < now
            case _ => false
  {
  }

  lemma {:induction false} TransferErrors(tokens: Tokens, now: nat, signers: set<Address>, ps: seq<TransferParams>)
    requires AllTransferred(tokens, now, signers, ps).Failure?
    ensures AllTransferred(tokens, now, signers, ps).error in {TokenNotFound, NotSigned, TokenRevoked, GracePeriodBlock, InvalidExpiryDate}
  {
    var front := AllTransferred(tokens, now, signers, ps[..|ps| - 1]);
    if front.Failure? {
      TransferErrors(tokens, now, signers, ps[..|ps| - 1]);
    } else {
      TransferErrorExplains(front.value, now, signers, ps[|ps| - 1]);
    }
  }

  /** Every error answered is true of the call. */
  lemma ErrorsExplain(s: State, e: Step)
    requires Do(s, e).Failure?
    ensures Explains(s, e, Do(s, e).error)
  {
    if e.call.CallTransfers? && !s.paused { TransferErrors(s.tokens, e.now, e.call.signers, e.call.transfers); }
    hide AllTransferred, Issued;
  }

  lemma AdminCallsDo(s: State, caller: Address, paused: bool)
    ensures var o := DoSetPaused(s, caller, paused);
            (o.Success? <==> s.admin == Some(caller)) && (o.Success? ==> o.value == s.(paused := paused))
    ensures DoInitialize(s, caller) == Success(State(Some(caller), false, s.count, s.tokens, s.buckets))
  {
  }

  // ---------------------------------------------------------------- the life of a token

  /**
   * The only changes to an issued token: its owner signs it away while it is active, the admin renews it
   * during its grace period, or the admin revokes it while it is active.
   */
  lemma TokenChangesOnlyTheseWays(s: State, e: Step, id: nat)
    requires Known(s, id) && id in s.tokens
    ensures var t, after := s.tokens[id], After(s, Do(s, e));
            && id in after.tokens
            && var t' := after.tokens[id];
            && (t' != t ==>
                  var status := ComputeStatus(t, e.now);
                  || (e.call.CallTransfers? && status.Active? && t.owner in e.call.signers && t' == t.(owner := t'.owner))
                  || (e.call.CallRenew? && e.call.id == id && status.GracePeriod? && s.admin == Some(e.call.caller)
                      && t' == t.(expiryDate := e.call.newExpiry))
                  || (e.call.CallRevoke? && e.call.id == id && status.Active? && s.admin == Some(e.call.caller)
                      && t' == t.(revoked := true)))
  {
    if Do(s, e).Success? {
      match e.call {
        case CallTransfers(signers, ps) => TransfersKeep(s.tokens, e.now, signers, ps, id);
        case CallBatchIssue(_, ps) => IssuedAt(s.tokens, e.now, s.count, ps, id);
        case _ =>
      }
    }
  }

  predicate Terminal(status: Status) { status.Expired? || status.Revoked? }

  predicate ClockRuns(steps: seq<Step>, from: nat) {
    forall i :: 0 <= i < |steps| ==> from <= steps[i].now
  }

  function RunFrom(s: State, steps: seq<Step>): State
    decreases |steps|
  {
    if steps == [] then s else RunFrom(After(s, Do(s, steps[0])), steps[1..])
  }

  lemma TerminalTokenStays(s: State, e: Step, id: nat)
    requires Known(s, id) && id in s.tokens && Terminal(ComputeStatus(s.tokens[id], e.now))
    ensures var after := After(s, Do(s, e));
            id in after.tokens && after.tokens[id] == s.tokens[id]
  {
    match e.call {
      case CallTransfers(signers, ps) =>
        if Do(s, e).Success? { TransfersKeep(s.tokens, e.now, signers, ps, id); }
      case CallBatchIssue(_, ps) =>
        if Do(s, e).Success? { IssuedAt(s.tokens, e.now, s.count, ps, id); }
      case _ =>
    }
  }

  lemma StepKnows(s: State, e: Step, id: nat)
    requires Known(s, id)
    ensures Known(After(s, Do(s, e)), id)
  {
    if Do(s, e).Success? {
      match e.call {
        case CallTransfers(signers, ps) => TransfersKeep(s.tokens, e.now, signers, ps, id);
        case CallBatchIssue(_, ps) => IssuedAt(s.tokens, e.now, s.count, ps, id);
        case _ =>
      }
    }
  }

  /** Once expired past its grace period, or revoked, a token is frozen for good. */
  lemma {:induction false} TerminalIsForever(s: State, now: nat, steps: seq<Step>, id: nat, later: nat)
    requires Known(s, id) && id in s.tokens && Terminal(ComputeStatus(s.tokens[id], now))
    requires ClockRuns(steps, now) && later >= now
    ensures var end := RunFrom(s, steps);
            && id in end.tokens && end.tokens[id] == s.tokens[id]
            && ComputeStatus(end.tokens[id], later) == ComputeStatus(s.tokens[id], now)
    decreases |steps|
  {
    if steps != [] {
      TerminalTokenStays(s, steps[0], id);
      StepKnows(s, steps[0], id);
      TerminalIsForever(After(s, Do(s, steps[0])), now, steps[1..], id, later);
    }
  }

  // ---------------------------------------------------------------- the contract

  ghost predicate Answered(before: State, o: Outcome, after: State, r: Result<(), Error>) {
    && after == After(before, o)
    && (o.Success? ==> r == Success(()))
    && (o.Failure? ==> r == Failure(o.error))
  }

  class Contract {
    var admin: Option<Address>
    var paused: bool
    var tokenCount: nat
    var tokens: Tokens
    var expiryIndex: Buckets

    ghost function Abs(): State
      reads this
    {
      State(admin, paused, tokenCount, tokens, expiryIndex)
    }

    constructor ()
      ensures Abs() == DEPLOYED
    {
      admin, paused, tokenCount, tokens, expiryIndex := None, false, 0, map[], map[];
    }

    method Initialize(newAdmin: Address)
      modifies this
      ensures Abs() == After(old(Abs()), DoInitialize(old(Abs()), newAdmin))
    {
      admin, paused := Some(newAdmin), false;
    }

    method SetPaused(caller: Address, value: bool) returns (r: Result<(), Error>)
      modifies this
      ensures Answered(old(Abs()), DoSetPaused(old(Abs()), caller, value), Abs(), r)
    {
      if admin.None? { return Failure(AdminNotSet); }
      if caller != admin.value { return Failure(NotAdmin); }
      paused := value;
      r := Success(());
    }

    method CheckCaller(caller: Address) returns (refusal: Option<Error>)
      ensures refusal == Refusal(Abs(), caller)
    {
      if paused { return Some(ContractPaused); }
      if admin.None? { return Some(AdminNotSet); }
      if caller != admin.value { return Some(NotAdmin); }
      refusal := None;
    }

    method AddToIndex(day: nat, id: nat)
      modifies `expiryIndex
      ensures expiryIndex == Added(old(expiryIndex), day, id)
    {
      var onDay := if day in expiryIndex then expiryIndex[day] else [];
      expiryIndex := expiryIndex[day := onDay + [id]];
    }

    method IssueToken(now: nat, caller: Address, p: IssueParams) returns (r: Result<(), Error>, id: nat)
      modifies this
      ensures Answered(old(Abs()), DoIssue(old(Abs()), now, caller, p), Abs(), r)
      ensures r.Success? ==> id == tokenCount == old(tokenCount) + 1
    {
      id := 0;
      var refusal := CheckCaller(caller);
      if refusal.Some? { return Failure(refusal.value), id; }
      if p.expiryDate <= now { return Failure(InvalidExpiryDate), id; }
      id := tokenCount + 1;
      tokenCount := id;
      tokens := tokens[id := Token(p.owner, p.tier, now, p.expiryDate, false)];
      AddToIndex(p.expiryDate / DAY, id);
      r := Success(());
    }

    method TransferTokens(now: nat, signers: set<Address>, ps: seq<TransferParams>) returns (r: Result<(), Error>)
      modifies this
      ensures Answered(old(Abs()), DoTransfers(old(Abs()), now, signers, ps), Abs(), r)
    {
      if paused { return Failure(ContractPaused); }
      var moved := tokens;
      for i := 0 to |ps|
        invariant AllTransferred(tokens, now, signers, ps[..i]) == Success(moved)
      {
        assert ps[..i + 1][..i] == ps[..i];
        var p := ps[i];
        if p.id !in moved {
          FirstFailureWins(tokens, now, signers, ps, i + 1);
          return Failure(TokenNotFound);
        }
        var t := moved[p.id];
        var status := ComputeStatus(t, now);
        if t.owner !in signers || status != Active {
          FirstFailureWins(tokens, now, signers, ps, i + 1);
          return Failure(if t.owner !in signers then NotSigned
                         else if status == GracePeriod then GracePeriodBlock
                         else if status == Revoked then TokenRevoked else InvalidExpiryDate);
        }
        moved := moved[p.id := t.(owner := p.newOwner)];
      }
      assert ps[..|ps|] == ps;
      tokens := moved;
      r := Success(());
    }

    method RenewToken(now: nat, caller: Address, id: nat, newExpiry: nat) returns (r: Result<(), Error>)
      modifies this
      ensures Answered(old(Abs()), DoRenew(old(Abs()), now, caller, id, newExpiry), Abs(), r)
    {
      var refusal := CheckCaller(caller);
      if refusal.Some? { return Failure(refusal.value); }
      if id !in tokens { return Failure(TokenNotFound); }
      var t := tokens[id];
      refusal := ValidateTransition(ComputeStatus(t, now), Active);
      if refusal.Some? { return Failure(refusal.value); }
      var day := t.expiryDate / DAY;
      if day in expiryIndex {
        var onDay, kept := expiryIndex[day], [];
        for i := 0 to |onDay|
          invariant kept == Without(onDay[..i], id)
        {
          assert onDay[..i + 1][..i] == onDay[..i];
          if onDay[i] != id { kept := kept + [onDay[i]]; }
        }
        assert onDay[..|onDay|] == onDay;
        expiryIndex := if |kept| > 0 then expiryIndex[day := kept] else expiryIndex - {day};
      }
      AddToIndex(newExpiry / DAY, id);
      tokens := tokens[id := t.(expiryDate := newExpiry, revoked := false)];
      r := Success(());
    }

    method RevokeToken(now: nat, caller: Address, id: nat) returns (r: Result<(), Error>)
      modifies this
      ensures Answered(old(Abs()), DoRevoke(old(Abs()), now, caller, id), Abs(), r)
    {
      var refusal := CheckCaller(caller);
      if refusal.Some? { return Failure(refusal.value); }
      if id !in tokens { return Failure(TokenNotFound); }
      var t := tokens[id];
      refusal := ValidateTransition(ComputeStatus(t, now), Revoked);
      if refusal.Some? { return Failure(refusal.value); }
      tokens := tokens[id := t.(revoked := true)];
      r := Success(());
    }

    method BatchIssueTokens(now: nat, caller: Address, ps: seq<IssueParams>) returns (r: Result<(), Error>, ids: seq<nat>)
      modifies this
      ensures Answered(old(Abs()), DoBatchIssue(old(Abs()), now, caller, ps), Abs(), r)
      ensures r.Success? ==> |ids| == |ps| && forall i :: 0 <= i < |ids| ==> ids[i] == old(tokenCount) + i + 1
    {
      ids := [];
      var refusal := CheckCaller(caller);
      if refusal.Some? { return Failure(refusal.value), ids; }
      if |ps| > MAX_BATCH { return Failure(BatchTooLarge), ids; }
      for i := 0 to |ps|
        invariant forall k :: 0 <= k < i ==> ps[k].expiryDate > now
      {
        if ps[i].expiryDate <= now { return Failure(InvalidExpiryDate), ids; }
      }
      var start := tokenCount;
      tokenCount := start + |ps|;
      ghost var before := tokens;
      for i := 0 to |ps|
        invariant Abs() == old(Abs()).(count := start + |ps|, tokens := tokens)
        invariant tokens == Issued(before, now, start, ps[..i])
        invariant |ids| == i && forall k :: 0 <= k < i ==> ids[k] == start + k + 1
      {
        assert ps[..i + 1][..i] == ps[..i];
        var p := ps[i];
        tokens := tokens[start + i + 1 := Token(p.owner, p.tier, now, p.expiryDate, false)];
        ids := ids + [start + i + 1];
      }
      assert ps[..|ps|] == ps;
      r := Success(());
    }

    method GetExpiringTokens(now: nat, daysAhead: nat) returns (ids: seq<nat>)
      ensures ids == ExpiringTokens(Abs(), now, daysAhead)
    {
      var window := if daysAhead > MAX_DAYS_AHEAD then MAX_DAYS_AHEAD else daysAhead;
      var today := now / DAY;
      ids := [];
      for day := today to today + window + 1
        invariant ids == Concatenated(expiryIndex, today, day)
      {
        if day in expiryIndex { ids := ids + expiryIndex[day]; }
      }
    }
  }

  lemma {:induction false} FirstFailureWins(tokens: Tokens, now: nat, signers: set<Address>, ps: seq<TransferParams>, k: nat)
    requires k <= |ps| && AllTransferred(tokens, now, signers, ps[..k]).Failure?
    ensures AllTransferred(tokens, now, signers, ps) == AllTransferred(tokens, now, signers, ps[..k])
    decreases |ps|
  {
    if k < |ps| {
      var front := ps[..|ps| - 1];
      assert front[..k] == ps[..k];
      FirstFailureWins(tokens, now, signers, front, k);
    } else {
      assert ps[..k] == ps;
    }
  }
}
