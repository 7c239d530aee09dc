/**
 * contracts/manage_hub/src/staking.rs: stakes, and the queue of cooling-down withdrawals.
 *
 * A panicking or failing call leaves the state unchanged.  Beside the contract's storage the
 * state keeps, per staker, the entries ever locked, the entries settled with the time of
 * settlement, and the tokens handed out by `claim_unstaked`.
 */
module Staking {
  import opened Common
  import opened TokenLedger
  import opened Rewards
  import opened Arithmetic

  const DEFAULT_COOLDOWN_SECS: nat := 7 * 24 * 3600

  datatype Tier = Tier(id: nat, minAmount: int, baseRateBps: nat, multiplierBps: nat, lockPeriod: nat)

  datatype StakingConfig = StakingConfig(minStake: int, maxStake: int, penaltyBps: nat)

  datatype Stake = Stake(position: Position, tierId: nat, stakedAt: nat)

  datatype Withdrawal = Withdrawal(amount: nat, claimableAt: nat)

  datatype Settlement = Settlement(entry: Withdrawal, at: nat)

  datatype Setup = Setup(admin: Option<Address>, config: Option<StakingConfig>, tiers: map<nat, Tier>,
                         token: Option<Address>, cooldown: Option<nat>)

  /** One staker's withdrawals: waiting, ever locked, settled, and tokens received for them. */
  datatype Queue = Queue(pending: seq<Withdrawal>, locked: seq<Withdrawal>, settled: seq<Settlement>, received: nat)

  datatype State = State(self: Address, setup: Setup, stakes: map<Address, Stake>,
                         queues: map<Address, Queue>, balances: Balances)

  datatype Error = NoActiveStake | TierNotFound | StakingTokenNotSet | InvalidUnstakeAmount | Panic

  type Outcome = Result<State, Error>

  // ---------------------------------------------------------------- what each call does

  function QueueOf(queues: map<Address, Queue>, who: Address): Queue {
    if who in queues then queues[who] else Queue([], [], [], 0)
  }

  function Cooldown(u: Setup): nat { if u.cooldown.Some? then u.cooldown.value else DEFAULT_COOLDOWN_SECS }

  function Locking(q: Queue, w: Withdrawal): Queue {
    q.(pending := q.pending + [w], locked := q.locked + [w])
  }

  function Lock(s: State, staker: Address, now: nat, amount: nat): State {
    var w := Withdrawal(amount, now + Cooldown(s.setup));
    s.(queues := s.queues[staker := Locking(QueueOf(s.queues, staker), w)])
  }

  function DoStake(s: State, now: nat, staker: Address, amount: int, tierId: nat): Outcome {
    if s.setup.config.None? || amount < s.setup.config.value.minStake || amount > s.setup.config.value.maxStake then Failure(Panic)
    else if tierId !in s.setup.tiers || amount < s.setup.tiers[tierId].minAmount then Failure(Panic)
    else if staker in s.stakes || s.setup.token.None? then Failure(Panic)
    else
      var moved := Transfer(s.balances, s.setup.token.value, staker, s.self, amount);
      if moved.None? then Failure(Panic)
      else Success(s.(stakes := s.stakes[staker := Stake(Position(amount, now, 0, 0), tierId, now)], balances := moved.value))
  }

  function DoUnstake(s: State, now: nat, staker: Address): Outcome {
    if staker !in s.stakes || s.stakes[staker].tierId !in s.setup.tiers then Failure(Panic)
    else
      var stake := s.stakes[staker];
      var tier := s.setup.tiers[stake.tierId];
      if now < stake.stakedAt + tier.lockPeriod then Failure(Panic)
      else
        var rewards := CalcRewards(stake.position.amount, tier.baseRateBps, tier.multiplierBps, now - stake.stakedAt);
        Success(Lock(s, staker, now, stake.position.amount + rewards).(stakes := s.stakes - {staker}))
  }

  function DoPartialUnstake(s: State, now: nat, staker: Address, part: int): Outcome {
    if staker !in s.stakes then Failure(NoActiveStake)
    else
      var stake := s.stakes[staker];
      if part <= 0 || part > stake.position.amount then Failure(InvalidUnstakeAmount)
      else if stake.tierId !in s.setup.tiers then Failure(TierNotFound)
      else
        var rate := s.setup.tiers[stake.tierId].baseRateBps;
        var mv := UnstakeAt(now, part);
        var rest := stake.(position := Moved(stake.position, rate, mv));
        Success(Lock(s, staker, now, part + Granted(stake.position, rate, mv)).(
                  stakes := if rest.position.amount == 0 then s.stakes - {staker} else s.stakes[staker := rest]))
  }

  function DoClaimRewards(s: State, now: nat, staker: Address): Result<(State, nat), Error> {
    if staker !in s.stakes then Failure(NoActiveStake)
    else if s.stakes[staker].tierId !in s.setup.tiers then Failure(TierNotFound)
    else
      var stake := s.stakes[staker];
      var rate := s.setup.tiers[stake.tierId].baseRateBps;
      var rewards := Granted(stake.position, rate, ClaimAt(now));
      if rewards <= 0 then Success((s, 0))
      else if s.setup.token.None? then Failure(StakingTokenNotSet)
      else
        var moved := Transfer(s.balances, s.setup.token.value, s.self, staker, rewards);
        if moved.None? then Failure(Panic)
        else
          var next := stake.(position := Moved(stake.position, rate, ClaimAt(now)));
          Success((s.(stakes := s.stakes[staker := next], balances := moved.value), rewards))
  }

  function DoEmergencyUnstake(s: State, staker: Address): Outcome {
    if staker !in s.stakes || s.setup.config.None? || s.setup.token.None? then Failure(Panic)
    else
      var amount := s.stakes[staker].position.amount;
      var penalty := amount * s.setup.config.value.penaltyBps / 10_000;
      var moved := Transfer(s.balances, s.setup.token.value, s.self, staker, amount - penalty);
      if moved.None? then Failure(Panic)
      else Success(s.(stakes := s.stakes - {staker}, balances := moved.value))
  }

  predicate Matured(w: Withdrawal, now: nat) { now >= w.claimableAt }

  function Remaining(ws: seq<Withdrawal>, now: nat): seq<Withdrawal> {
    if ws == [] then []
    else
      var w := ws[|ws| - 1];
      Remaining(ws[..|ws| - 1], now) + (if Matured(w, now) then [] else [w])
  }

  function Claimable(ws: seq<Withdrawal>, now: nat): seq<Settlement> {
    if ws == [] then []
    else
      var w := ws[|ws| - 1];
      Claimable(ws[..|ws| - 1], now) + (if Matured(w, now) then [Settlement(w, now)] else [])
  }

  function Total(ws: seq<Withdrawal>): nat {
    if ws == [] then 0 else Total(ws[..|ws| - 1]) + ws[|ws| - 1].amount
  }

  function ClaimableTotal(ws: seq<Withdrawal>, now: nat): nat {
    if ws == [] then 0
    else
      var w := ws[|ws| - 1];
      ClaimableTotal(ws[..|ws| - 1], now) + (if Matured(w, now) then w.amount else 0)
  }

  function Claiming(q: Queue, now: nat): Queue {
    Queue(Remaining(q.pending, now), q.locked, q.settled + Claimable(q.pending, now),
          q.received + ClaimableTotal(q.pending, now))
  }

  function DoClaimUnstaked(s: State, now: nat, staker: Address): Outcome {
    var q := QueueOf(s.queues, staker);
    var total := ClaimableTotal(q.pending, now);
    if q.pending == [] || total == 0 || s.setup.token.None? then Failure(Panic)
    else
      var moved := Transfer(s.balances, s.setup.token.value, s.self, staker, total);
      if moved.None? then Failure(Panic)
      else Success(s.(queues := s.queues[staker := Claiming(q, now)], balances := moved.value))
  }

  /**
   * Configuration. SetToken is the storage write that only the repository's test set-up makes
   * (contracts/manage_hub/src/test.rs, line 41): the contract has no entry point for it.
   */
  datatype SetupCall = SetConfig(config: StakingConfig) | AddTier(tier: Tier) | SetCooldownDays(days: nat) | SetToken(token: Address)

  function DoSetup(s: State, caller: Address, call: SetupCall): Outcome {
    match call
    case SetConfig(config) => Success(s.(setup := s.setup.(admin := Some(caller), config := Some(config))))
    case AddTier(tier) =>
      if s.setup.admin != Some(caller) then Failure(Panic)
      else Success(s.(setup := s.setup.(tiers := s.setup.tiers[tier.id := tier])))
    case SetCooldownDays(days) =>
      if s.setup.admin != Some(caller) || days == 0 then Failure(Panic)
      else Success(s.(setup := s.setup.(cooldown := Some(days * 24 * 3600))))
    case SetToken(token) => Success(s.(setup := s.setup.(token := Some(token))))
  }

  // ---------------------------------------------------------------- runs

  datatype Call =
    | CallSetup(caller: Address, call: SetupCall)
    | CallStake(staker: Address, amount: int, tierId: nat)
    | CallUnstake(staker: Address)
    | CallPartialUnstake(staker: Address, part: int)
    | CallClaimRewards(staker: Address)
    | CallEmergencyUnstake(staker: Address)
    | CallClaimUnstaked(staker: Address)
    | TokensMoved(balances: Balances)

  function After(s: State, o: Outcome): State { if o.Success? then o.value else s }

  function Apply(s: State, now: nat, call: Call): State {
    match call
    case CallSetup(caller, c) => After(s, DoSetup(s, caller, c))
    case CallStake(staker, amount, tierId) => After(s, DoStake(s, now, staker, amount, tierId))
    case CallUnstake(staker) => After(s, DoUnstake(s, now, staker))
    case CallPartialUnstake(staker, part) => After(s, DoPartialUnstake(s, now, staker, part))
    case CallClaimRewards(staker) =>
      var o := DoClaimRewards(s, now, staker); if o.Success? then o.value.0 else s
    case CallEmergencyUnstake(staker) => After(s, DoEmergencyUnstake(s, staker))
    case CallClaimUnstaked(staker) => After(s, DoClaimUnstaked(s, now, staker))
    case TokensMoved(b) => s.(balances := b)
  }

  function Run(s: State, steps: seq<(nat, Call)>): State
    decreases |steps|
  {
    if steps == [] then s else Run(Apply(s, steps[0].0, steps[0].1), steps[1..])
  }

  function Deployed(self: Address, balances: Balances): State {
    State(self, Setup(None, None, map[], None, None), map[], map[], balances)
  }

  // ---------------------------------------------------------------- conservation

  /** How often entry w occurs. */
  function Count(ws: seq<Withdrawal>, w: Withdrawal): nat {
    if ws == [] then 0 else Count(ws[..|ws| - 1], w) + (if ws[|ws| - 1] == w then 1 else 0)
  }

  function CountSettled(ss: seq<Settlement>, w: Withdrawal): nat {
    if ss == [] then 0 else CountSettled(ss[..|ss| - 1], w) + (if ss[|ss| - 1].entry == w then 1 else 0)
  }

  function TotalSettled(ss: seq<Settlement>): nat {
    if ss == [] then 0 else TotalSettled(ss[..|ss| - 1]) + ss[|ss| - 1].entry.amount
  }

  /** xs is ys with some entries left out. */
  predicate Subsequence(xs: seq<Withdrawal>, ys: seq<Withdrawal>) {
    if xs == [] then true
    else if ys == [] then false
    else if xs[|xs| - 1] == ys[|ys| - 1] then
      Subsequence(xs[..|xs| - 1], ys[..|ys| - 1]) || Subsequence(xs, ys[..|ys| - 1])
    else Subsequence(xs, ys[..|ys| - 1])
  }

  /** Every locked entry is either still pending or settled, and never both. */
  ghost predicate EntriesOk(q: Queue) {
    forall w :: Count(q.locked, w) == CountSettled(q.settled, w) + Count(q.pending, w)
  }

  predicate TotalsOk(q: Queue) {
    Total(q.locked) == q.received + Total(q.pending) && TotalSettled(q.settled) == q.received
  }

  ghost predicate TimesOk(q: Queue) {
    forall k :: 0 <= k < |q.settled| ==> q.settled[k].at >= q.settled[k].entry.claimableAt
  }

  ghost predicate QueueOk(q: Queue) {
    EntriesOk(q) && TotalsOk(q) && TimesOk(q) && Subsequence(q.pending, q.locked)
  }

  lemma Append(ws: seq<Withdrawal>, x: Withdrawal, w: Withdrawal)
    ensures Count(ws + [x], w) == Count(ws, w) + (if x == w then 1 else 0)
    ensures Total(ws + [x]) == Total(ws) + x.amount
  {
    assert (ws + [x])[..|ws|] == ws;
  }

  lemma {:induction false} SettledConcat(a: seq<Settlement>, b: seq<Settlement>, w: Withdrawal)
    ensures CountSettled(a + b, w) == CountSettled(a, w) + CountSettled(b, w)
    ensures TotalSettled(a + b) == TotalSettled(a) + TotalSettled(b)
  {
    if b == [] {
      assert a + b == a;
    } else {
      SettledConcat(a, b[..|b| - 1], w);
      assert (a + b)[..|a| + |b| - 1] == a + b[..|b| - 1];
    }
  }

  lemma {:induction false} SubsequenceExtend(xs: seq<Withdrawal>, ys: seq<Withdrawal>, w: Withdrawal)
    requires Subsequence(xs, ys)
    ensures Subsequence(xs + [w], ys + [w])
    ensures Subsequence(xs, ys + [w])
  {
    assert (xs + [w])[..|xs|] == xs && (ys + [w])[..|ys|] == ys;
  }

  /** What stays pending after a claim keeps its order, within anything it was ordered in before. */
  lemma {:induction false} RemainingSubsequence(ws: seq<Withdrawal>, now: nat, ys: seq<Withdrawal>)
    requires Subsequence(ws, ys)
    ensures Subsequence(Remaining(ws, now), ys)
    decreases |ys|
  {
    if ws != [] {
      var n, m := |ws| - 1, |ys| - 1;
      var last := ws[n];
      assert ys == ys[..m] + [ys[m]];
      if ws[n] == ys[m] && Subsequence(ws[..n], ys[..m]) {
        RemainingSubsequence(ws[..n], now, ys[..m]);
        SubsequenceExtend(Remaining(ws[..n], now), ys[..m], last);
        assert Matured(last, now) ==> Remaining(ws, now) == Remaining(ws[..n], now);
      } else {
        RemainingSubsequence(ws, now, ys[..m]);
        SubsequenceExtend(Remaining(ws, now), ys[..m], ys[m]);
      }
    }
  }

  /** A claim splits the queue: settled entries and remaining ones make up what was pending. */
  lemma {:induction false} ClaimSplits(ws: seq<Withdrawal>, now: nat, w: Withdrawal)
    ensures Count(ws, w) == CountSettled(Claimable(ws, now), w) + Count(Remaining(ws, now), w)
    ensures Total(ws) == TotalSettled(Claimable(ws, now)) + Total(Remaining(ws, now))
    ensures TotalSettled(Claimable(ws, now)) == ClaimableTotal(ws, now)
  {
    if ws != [] {
      var n := |ws| - 1;
      ClaimSplits(ws[..n], now, w);
      if Matured(ws[n], now) {
        AppendSettled(Claimable(ws[..n], now), Settlement(ws[n], now), w);
        assert Remaining(ws, now) == Remaining(ws[..n], now);
      } else {
        Append(Remaining(ws[..n], now), ws[n], w);
        assert Claimable(ws, now) == Claimable(ws[..n], now);
      }
    }
  }

  lemma AppendSettled(ss: seq<Settlement>, x: Settlement, w: Withdrawal)
    ensures CountSettled(ss + [x], w) == CountSettled(ss, w) + (if x.entry == w then 1 else 0)
    ensures TotalSettled(ss + [x]) == TotalSettled(ss) + x.entry.amount
  {
    assert (ss + [x])[..|ss|] == ss;
  }

  /** Settlement is at the time of the claim, never early; what remains has not matured. */
  lemma {:induction false} ClaimTimes(ws: seq<Withdrawal>, now: nat)
    ensures forall k :: 0 <= k < |Claimable(ws, now)| ==>
              Claimable(ws, now)[k].at == now && now >= Claimable(ws, now)[k].entry.claimableAt
    ensures forall k :: 0 <= k < |Remaining(ws, now)| ==> now < Remaining(ws, now)[k].claimableAt
  {
    if ws != [] { ClaimTimes(ws[..|ws| - 1], now); }
  }

  lemma LockingKeeps(q: Queue, w: Withdrawal)
    requires QueueOk(q)
    ensures QueueOk(Locking(q, w))
  {
    forall v
      ensures Count(q.pending + [w], v) == Count(q.pending, v) + (if w == v then 1 else 0)
      ensures Count(q.locked + [w], v) == Count(q.locked, v) + (if w == v then 1 else 0)
    {
      Append(q.pending, w, v);
      Append(q.locked, w, v);
    }
    Append(q.pending, w, w);
    Append(q.locked, w, w);
    SubsequenceExtend(q.pending, q.locked, w);
  }

  lemma ClaimingKeepsEntries(q: Queue, now: nat)
    requires EntriesOk(q) && TotalsOk(q)
    ensures EntriesOk(Claiming(q, now)) && TotalsOk(Claiming(q, now))
  {
    forall w
      ensures var c := Claiming(q, now); Count(c.locked, w) == CountSettled(c.settled, w) + Count(c.pending, w) && TotalsOk(c)
    {
      ClaimSplits(q.pending, now, w);
      SettledConcat(q.settled, Claimable(q.pending, now), w);
    }
    ClaimSplits(q.pending, now, Withdrawal(0, 0));
    SettledConcat(q.settled, Claimable(q.pending, now), Withdrawal(0, 0));
  }

  lemma ClaimingKeepsTimes(q: Queue, now: nat)
    requires TimesOk(q)
    ensures TimesOk(Claiming(q, now))
  {
    ClaimTimes(q.pending, now);
  }

  lemma ClaimingKeeps(q: Queue, now: nat)
    requires QueueOk(q)
    ensures QueueOk(Claiming(q, now))
  {
    ClaimingKeepsEntries(q, now);
    ClaimingKeepsTimes(q, now);
    RemainingSubsequence(q.pending, now, q.locked);
  }

  /** A call leaves a staker's queue alone, locks one entry in it, or claims from it. */
  ghost predicate QueueStep(q: Queue, r: Queue, now: nat) {
    r == q || r == Claiming(q, now) || exists w :: r == Locking(q, w)
  }

  lemma EveryCallIsAQueueStep(s: State, now: nat, call: Call, who: Address)
    ensures QueueStep(QueueOf(s.queues, who), QueueOf(Apply(s, now, call).queues, who), now)
  {
    match call
    case CallUnstake(staker) => UnstakeLocks(s, now, staker, who);
    case CallPartialUnstake(staker, part) => PartialUnstakeLocks(s, now, staker, part, who);
    case CallClaimUnstaked(staker) =>
    case _ => OtherCallsKeepQueues(s, now, call);
  }

  lemma UnstakeLocks(s: State, now: nat, staker: Address, who: Address)
    ensures var r := QueueOf(After(s, DoUnstake(s, now, staker)).queues, who);
            QueueStep(QueueOf(s.queues, who), r, now)
  {
    var o := DoUnstake(s, now, staker);
    if o.Success? {
      var amount :| o.value.queues == Lock(s, staker, now, amount).queues;
    }
  }

  lemma PartialUnstakeLocks(s: State, now: nat, staker: Address, part: int, who: Address)
    ensures var r := QueueOf(After(s, DoPartialUnstake(s, now, staker, part)).queues, who);
            QueueStep(QueueOf(s.queues, who), r, now)
  {
    var o := DoPartialUnstake(s, now, staker, part);
    if o.Success? {
      var amount :| o.value.queues == Lock(s, staker, now, amount).queues;
    }
  }

  lemma OtherCallsKeepQueues(s: State, now: nat, call: Call)
    requires !call.CallUnstake? && !call.CallPartialUnstake? && !call.CallClaimUnstaked?
    ensures Apply(s, now, call).queues == s.queues
  {
  }

  lemma QueueStepKeeps(q: Queue, r: Queue, now: nat)
    requires QueueOk(q) && QueueStep(q, r, now)
    ensures QueueOk(r)
  {
    if r == Claiming(q, now) {
      ClaimingKeeps(q, now);
    } else if r != q {
      var w :| r == Locking(q, w);
      LockingKeeps(q, w);
    }
  }

  /**
   * Main result: over every run, for every staker, the amounts ever locked by unstake and
   * partial_unstake equal the amounts received through claim_unstaked plus those still pending;
   * each entry is settled at most once and never before its cooldown; the rest keeps its order.
   */
  lemma {:induction false} RunConserves(s: State, steps: seq<(nat, Call)>, who: Address)
    requires QueueOk(QueueOf(s.queues, who))
    ensures QueueOk(QueueOf(Run(s, steps).queues, who))
    decreases |steps|
  {
    if steps != [] {
      EveryCallIsAQueueStep(s, steps[0].0, steps[0].1, who);
      QueueStepKeeps(QueueOf(s.queues, who), QueueOf(Apply(s, steps[0].0, steps[0].1).queues, who), steps[0].0);
      RunConserves(Apply(s, steps[0].0, steps[0].1), steps[1..], who);
    }
  }

  /** The same from deployment on, with the totals written out. */
  lemma EveryRunConserves(self: Address, balances: Balances, steps: seq<(nat, Call)>, who: Address)
    ensures var q := QueueOf(Run(Deployed(self, balances), steps).queues, who);
            && QueueOk(q)
            && Total(q.locked) == q.received + Total(q.pending)
            && (forall w :: CountSettled(q.settled, w) <= Count(q.locked, w))
            && (forall k :: 0 <= k < |q.settled| ==> q.settled[k].at >= q.settled[k].entry.claimableAt)
  {
    RunConserves(Deployed(self, balances), steps, who);
  }

  // ---------------------------------------------------------------- rewards over a run of the whole contract

  /** The reward part of what a call pays or locks for one staker. */
  function RewardOf(s: State, now: nat, call: Call, who: Address): nat {
    if who !in s.stakes || s.stakes[who].tierId !in s.setup.tiers then 0
    else
      var stake := s.stakes[who];
      var rate := s.setup.tiers[stake.tierId].baseRateBps;
      match call
      case CallClaimRewards(staker) =>
        var o := DoClaimRewards(s, now, staker);
        if staker == who && o.Success? then o.value.1 else 0
      case CallPartialUnstake(staker, part) =>
        if staker == who && DoPartialUnstake(s, now, staker, part).Success?
        then Granted(stake.position, rate, UnstakeAt(now, part)) else 0
      case CallUnstake(staker) =>
        if staker == who && DoUnstake(s, now, staker).Success? then UnstakeReward(s, now, who) else 0
      case _ => 0
  }

  /** What unstake adds to the principal: the formula over the whole time since staking. */
  function UnstakeReward(s: State, now: nat, who: Address): nat
    requires who in s.stakes && s.stakes[who].tierId in s.setup.tiers && now >= s.stakes[who].stakedAt
  {
    var tier := s.setup.tiers[s.stakes[who].tierId];
    CalcRewards(s.stakes[who].position.amount, tier.baseRateBps, tier.multiplierBps, now - s.stakes[who].stakedAt)
  }

  function RewardsOver(s: State, steps: seq<(nat, Call)>, who: Address): nat
    decreases |steps|
  {
    if steps == [] then 0
    else RewardOf(s, steps[0].0, steps[0].1, who) + RewardsOver(Apply(s, steps[0].0, steps[0].1), steps[1..], who)
  }

  /** The call neither closes or reopens this stake nor redefines its tier. */
  predicate KeepsStakeAndTier(call: Call, who: Address, tierId: nat) {
    match call
    case CallUnstake(staker) => staker != who
    case CallEmergencyUnstake(staker) => staker != who
    case CallStake(staker, _, _) => staker != who
    case CallSetup(_, c) => c.AddTier? ==> c.tier.id != tierId
    case _ => true
  }

  ghost predicate Timely(since: nat, steps: seq<(nat, Call)>, last: nat)
    decreases |steps|
  {
    if steps == [] then since <= last else since <= steps[0].0 && Timely(steps[0].0, steps[1..], last)
  }

  /** How a call moves one stake: not at all, or by exactly the move it names, or out of storage. */
  lemma StakeMoves(s: State, now: nat, call: Call, who: Address)
    requires who in s.stakes && s.stakes[who].tierId in s.setup.tiers
    requires KeepsStakeAndTier(call, who, s.stakes[who].tierId)
    ensures var stake, after := s.stakes[who], Apply(s, now, call);
            var tier := s.setup.tiers[stake.tierId];
            && stake.tierId in after.setup.tiers && after.setup.tiers[stake.tierId] == tier
            && ((who in after.stakes && after.stakes[who] == stake && RewardOf(s, now, call, who) == 0)
                || exists mv: Move :: mv.now == now
                     && RewardOf(s, now, call, who) == Granted(stake.position, tier.baseRateBps, mv)
                     && (who in after.stakes ==>
                           after.stakes[who] == stake.(position := Moved(stake.position, tier.baseRateBps, mv))))
  {
    match call
    case CallClaimRewards(staker) => if staker == who { var mv := ClaimAt(now); assert mv.now == now; }
    case CallPartialUnstake(staker, part) => if staker == who && part > 0 { var mv := UnstakeAt(now, part); assert mv.now == now; }
    case _ =>
  }

  lemma {:induction false} NoStakeNoRewards(s: State, steps: seq<(nat, Call)>, who: Address, tierId: nat)
    requires who !in s.stakes
    requires forall k :: 0 <= k < |steps| ==> KeepsStakeAndTier(steps[k].1, who, tierId)
    ensures RewardsOver(s, steps, who) == 0
    decreases |steps|
  {
    if steps != [] { NoStakeNoRewards(Apply(s, steps[0].0, steps[0].1), steps[1..], who, tierId); }
  }

  /**
   * Main result: until the stake is closed, and whatever others do, the rewards it is granted through
   * claims and partial unstakes stay within the closed-form reward on its principal.
   */
  lemma {:induction false} RunRewardsBounded(s: State, steps: seq<(nat, Call)>, who: Address, last: nat)
    requires who in s.stakes && s.stakes[who].tierId in s.setup.tiers
    requires Timely(s.stakes[who].position.since, steps, last)
    requires forall k :: 0 <= k < |steps| ==> KeepsStakeAndTier(steps[k].1, who, s.stakes[who].tierId)
    ensures var p, rate := s.stakes[who].position, s.setup.tiers[s.stakes[who].tierId].baseRateBps;
            RewardsOver(s, steps, who) <= CalculateRewards(p.amount, p.since, last, rate)
    decreases |steps|
  {
    if steps != [] {
      var stake, now, call := s.stakes[who], steps[0].0, steps[0].1;
      var after := Apply(s, now, call);
      TimelyWeaken(now, now, steps[1..], last);
      StakeMoves(s, now, call, who);
      if who !in after.stakes {
        NoStakeNoRewards(after, steps[1..], who, stake.tierId);
      }
      if !(who in after.stakes && after.stakes[who] == stake && RewardOf(s, now, call, who) == 0) {
        var rate := s.setup.tiers[stake.tierId].baseRateBps;
        var mv: Move :| mv.now == now && RewardOf(s, now, call, who) == Granted(stake.position, rate, mv)
                        && (who in after.stakes ==> after.stakes[who] == stake.(position := Moved(stake.position, rate, mv)));
        MoveWithinDue(stake.position, rate, mv, last);
      }
      if who in after.stakes {
        TimelyWeaken(after.stakes[who].position.since, now, steps[1..], last);
        RunRewardsBounded(after, steps[1..], who, last);
      }
    }
  }

  // ---------------------------------------------------------------- what each call does, written out

  /** stake: an amount within the configured and the tier's limits, covered, by somebody without a stake. */
  lemma StakeDoes(s: State, now: nat, staker: Address, amount: int, tierId: nat)
    ensures var o := DoStake(s, now, staker, amount, tierId);
            && (o.Success? <==>
                  && s.setup.config.Some? && s.setup.config.value.minStake <= amount <= s.setup.config.value.maxStake
                  && tierId in s.setup.tiers && s.setup.tiers[tierId].minAmount <= amount
                  && staker !in s.stakes && s.setup.token.Some? && 0 <= amount <= BalanceOf(s.balances, s.setup.token.value, staker))
            && (o.Success? ==>
                  && o.value == s.(stakes := s.stakes[staker := Stake(Position(amount, now, 0, 0), tierId, now)], balances := o.value.balances)
                  && MovesTokens(s.balances, o.value.balances, s.setup.token.value, staker, s.self, amount))
  {
    hide Transfer, MovesTokens;
    if s.setup.token.Some? { TransferMoves(s.balances, s.setup.token.value, staker, s.self, amount); }
  }

  /** One more entry in a staker's queue, claimable after the cooldown: a week unless configured. */
  ghost predicate Locks(s: State, after: State, staker: Address, now: nat, amount: int) {
    var wait := if s.setup.cooldown.Some? then s.setup.cooldown.value else 7 * 86_400;
    && amount >= 0
    && var q, w := QueueOf(s.queues, staker), Withdrawal(amount, now + wait);
       after.queues == s.queues[staker := Queue(q.pending + [w], q.locked + [w], q.settled, q.received)]
  }

  /** unstake: from the end of the tier's lock period on; principal and reward are locked and the stake is gone. */
  lemma UnstakeDoes(s: State, now: nat, staker: Address)
    ensures var o := DoUnstake(s, now, staker);
            && (o.Success? <==>
                  && staker in s.stakes && s.stakes[staker].tierId in s.setup.tiers
                  && s.stakes[staker].stakedAt + s.setup.tiers[s.stakes[staker].tierId].lockPeriod <= now)
            && (o.Success? ==>
                  var stake, tier := s.stakes[staker], s.setup.tiers[s.stakes[staker].tierId];
                  && o.value == s.(stakes := s.stakes - {staker}, queues := o.value.queues)
                  && Locks(s, o.value, staker, now, stake.position.amount
                       + CalcRewards(stake.position.amount, tier.baseRateBps, tier.multiplierBps, now - stake.stakedAt)))
  {
    hide CalcRewards;
  }

  /** partial_unstake: part of the principal and its share of the reward are locked, and the rest starts afresh. */
  lemma PartialUnstakeDoes(s: State, now: nat, staker: Address, part: int)
    ensures var o := DoPartialUnstake(s, now, staker, part);
            && (o.Success? <==> staker in s.stakes && 0 < part <= s.stakes[staker].position.amount && s.stakes[staker].tierId in s.setup.tiers)
            && (o.Success? ==>
                  var stake, p := s.stakes[staker], s.stakes[staker].position;
                  var earned := CalculateRewards(p.amount, p.since, now, s.setup.tiers[stake.tierId].baseRateBps);
                  var share := earned * (part * 1_000_000 / p.amount) / 1_000_000;
                  && share <= earned
                  && o.value == s.(stakes := o.value.stakes, queues := o.value.queues)
                  && Locks(s, o.value, staker, now, part + share)
                  && o.value.stakes == if part == p.amount then s.stakes - {staker}
                                       else s.stakes[staker := stake.(position := Position(p.amount - part, now, earned - share, p.claimed))])
  {
    if staker in s.stakes && 0 < part <= s.stakes[staker].position.amount {
      var p := s.stakes[staker].position;
      hide CalculateRewards;
      if s.stakes[staker].tierId in s.setup.tiers {
        var rate := s.setup.tiers[s.stakes[staker].tierId].baseRateBps;
        PartialGrantIs(p, rate, now, part);
        PartIsAtMostTotal(CalculateRewards(p.amount, p.since, now, rate), part, p.amount);
      }
    }
  }

  /** claim_staking_rewards: what the stake earned since its last claim is paid, recorded, and starts afresh. */
  lemma ClaimRewardsDoes(s: State, now: nat, staker: Address)
    ensures var o := DoClaimRewards(s, now, staker);
            && (o.Success? ==> staker in s.stakes && s.stakes[staker].tierId in s.setup.tiers)
            && (staker in s.stakes && s.stakes[staker].tierId in s.setup.tiers ==>
                  var stake, p := s.stakes[staker], s.stakes[staker].position;
                  var earned := CalculateRewards(p.amount, p.since, now, s.setup.tiers[stake.tierId].baseRateBps);
                  if earned == 0 then o == Success((s, 0))
                  else
                    && (o.Success? <==> s.setup.token.Some? && earned <= BalanceOf(s.balances, s.setup.token.value, s.self))
                    && (o.Success? ==>
                          var after := o.value.0;
                          && o.value.1 == earned
                          && after == s.(stakes := s.stakes[staker := stake.(position := Position(p.amount, now, 0, p.claimed + earned))],
                                         balances := after.balances)
                          && MovesTokens(s.balances, after.balances, s.setup.token.value, s.self, staker, earned)))
  {
    hide Transfer, MovesTokens, CalculateRewards;
    if staker in s.stakes && s.stakes[staker].tierId in s.setup.tiers && s.setup.token.Some? {
      var p := s.stakes[staker].position;
      TransferMoves(s.balances, s.setup.token.value, s.self, staker,
                    CalculateRewards(p.amount, p.since, now, s.setup.tiers[s.stakes[staker].tierId].baseRateBps));
    }
  }

  /** emergency_unstake: at any time, for the principal less the penalty; nothing is earned. */
  lemma EmergencyUnstakeDoes(s: State, staker: Address)
    ensures var o := DoEmergencyUnstake(s, staker);
            && (o.Success? ==> staker in s.stakes && s.setup.config.Some? && s.setup.token.Some?)
            && (staker in s.stakes && s.setup.config.Some? && s.setup.token.Some? ==>
                  var amount := s.stakes[staker].position.amount;
                  var paid := amount - amount * s.setup.config.value.penaltyBps / 10_000;
                  && (o.Success? <==> 0 <= paid <= BalanceOf(s.balances, s.setup.token.value, s.self))
                  && (o.Success? ==>
                        && o.value == s.(stakes := s.stakes - {staker}, balances := o.value.balances)
                        && MovesTokens(s.balances, o.value.balances, s.setup.token.value, s.self, staker, paid)))
  {
    hide Transfer, MovesTokens;
    if staker in s.stakes && s.setup.config.Some? && s.setup.token.Some? {
      var amount := s.stakes[staker].position.amount;
      TransferMoves(s.balances, s.setup.token.value, s.self, staker, amount - amount * s.setup.config.value.penaltyBps / 10_000);
    }
  }

  lemma ClaimSnoc(front: seq<Withdrawal>, last: Withdrawal, now: nat)
    ensures Remaining(front + [last], now) == Remaining(front, now) + if last.claimableAt <= now then [] else [last]
    ensures Claimable(front + [last], now) == Claimable(front, now) + if last.claimableAt <= now then [Settlement(last, now)] else []
  {
    assert (front + [last])[..|front|] == front;
  }

  lemma NothingClaimable(now: nat)
    ensures ClaimableTotal([], now) == 0
  {
  }

  lemma NothingCounts(now: nat, w: Withdrawal)
    ensures Remaining([], now) == [] && Claimable([], now) == [] && Count([], w) == 0 && CountSettled([], w) == 0
  {
  }

  /** A claim settles the entries whose time has come, and leaves the others. */
  lemma {:induction false} ClaimSettlesMatured(ws: seq<Withdrawal>, now: nat, w: Withdrawal)
    ensures Count(Remaining(ws, now), w) == if w.claimableAt <= now then 0 else Count(ws, w)
    ensures CountSettled(Claimable(ws, now), w) == if w.claimableAt <= now then Count(ws, w) else 0
  {
    hide *;
    if ws == [] {
      NothingCounts(now, w);
    } else {
      var front, last := ws[..|ws| - 1], ws[|ws| - 1];
      assert front + [last] == ws;
      ClaimSettlesMatured(front, now, w);
      ClaimSnoc(front, last, now);
      Append(front, last, w);
      Append(Remaining(front, now), last, w);
      AppendSettled(Claimable(front, now), Settlement(last, now), w);
      assert Remaining(front, now) + [] == Remaining(front, now) && Claimable(front, now) + [] == Claimable(front, now);
    }
  }

  /** claim_unstaked: pays the sum of the settled entries, if there is something to pay. */
  lemma ClaimUnstakedDoes(s: State, now: nat, staker: Address)
    ensures var o, q := DoClaimUnstaked(s, now, staker), QueueOf(s.queues, staker);
            var total := TotalSettled(Claimable(q.pending, now));
            && (o.Success? <==> total > 0 && s.setup.token.Some? && total <= BalanceOf(s.balances, s.setup.token.value, s.self))
            && (o.Success? ==>
                  && o.value == s.(queues := o.value.queues, balances := o.value.balances)
                  && o.value.queues == s.queues[staker := Queue(Remaining(q.pending, now), q.locked,
                                                                q.settled + Claimable(q.pending, now), q.received + total)]
                  && MovesTokens(s.balances, o.value.balances, s.setup.token.value, s.self, staker, total))
  {
    hide Transfer, MovesTokens, Remaining, Claimable, Total, TotalSettled, ClaimableTotal, Count, CountSettled;
    var q := QueueOf(s.queues, staker);
    NothingClaimable(now);
    ClaimSplits(q.pending, now, Withdrawal(0, 0));
    if s.setup.token.Some? { TransferMoves(s.balances, s.setup.token.value, s.self, staker, ClaimableTotal(q.pending, now)); }
  }

  /** Configuration: anyone sets it and becomes the admin; tiers and cooldown, in whole days, are the admin's. */
  lemma SetupDoes(s: State, caller: Address, call: SetupCall)
    ensures var o, u := DoSetup(s, caller, call), s.setup;
            match call
            case SetConfig(config) => o == Success(s.(setup := Setup(Some(caller), Some(config), u.tiers, u.token, u.cooldown)))
            case AddTier(tier) =>
              && (o.Success? <==> u.admin == Some(caller))
              && (o.Success? ==> o.value == s.(setup := Setup(u.admin, u.config, u.tiers[tier.id := tier], u.token, u.cooldown)))
            case SetCooldownDays(days) =>
              && (o.Success? <==> u.admin == Some(caller) && days > 0)
              && (o.Success? ==> o.value == s.(setup := Setup(u.admin, u.config, u.tiers, u.token, Some(days * 86_400))))
            case SetToken(token) => o == Success(s.(setup := Setup(u.admin, u.config, u.tiers, Some(token), u.cooldown)))
  {
  }

  // ---------------------------------------------------------------- the whole life of a stake

  lemma {:induction false} NoStakeStays(s: State, steps: seq<(nat, Call)>, who: Address, tierId: nat)
    requires who !in s.stakes
    requires forall k :: 0 <= k < |steps| ==> KeepsStakeAndTier(steps[k].1, who, tierId)
    ensures who !in Run(s, steps).stakes
    decreases |steps|
  {
    if steps != [] { NoStakeStays(Apply(s, steps[0].0, steps[0].1), steps[1..], who, tierId); }
  }

  /** How far a stake can have moved while it was kept: nothing granted unless principal left or claimed_rewards grew. */
  ghost predicate Kept(before: Stake, after: Stake, granted: nat) {
    && after.tierId == before.tierId && after.stakedAt == before.stakedAt
    && after.position.amount <= before.position.amount && after.position.claimed >= before.position.claimed
    && (after.position.amount == before.position.amount ==> granted == after.position.claimed - before.position.claimed)
  }

  lemma KeptTwice(a: Stake, b: Stake, c: Stake, g: nat, h: nat)
    requires Kept(a, b, g) && Kept(b, c, h)
    ensures Kept(a, c, g + h)
  {
  }

  lemma MoveKeeps(p: Position, rate: nat, mv: Move)
    ensures var q := Moved(p, rate, mv);
            && q.amount <= p.amount && q.claimed >= p.claimed
            && (q.amount == p.amount ==> Granted(p, rate, mv) == q.claimed - p.claimed)
  {
  }

  lemma {:induction false} RunKeepsStake(s: State, steps: seq<(nat, Call)>, who: Address)
    requires who in s.stakes && s.stakes[who].tierId in s.setup.tiers && who in Run(s, steps).stakes
    requires forall k :: 0 <= k < |steps| ==> KeepsStakeAndTier(steps[k].1, who, s.stakes[who].tierId)
    ensures var end, tierId := Run(s, steps), s.stakes[who].tierId;
            && Kept(s.stakes[who], end.stakes[who], RewardsOver(s, steps, who))
            && tierId in end.setup.tiers && end.setup.tiers[tierId] == s.setup.tiers[tierId]
    decreases |steps|
  {
    if steps != [] {
      var stake, now, call := s.stakes[who], steps[0].0, steps[0].1;
      var after := Apply(s, now, call);
      StakeMoves(s, now, call, who);
      if who !in after.stakes { NoStakeStays(after, steps[1..], who, stake.tierId); }
      if !(after.stakes[who] == stake && RewardOf(s, now, call, who) == 0) {
        var rate := s.setup.tiers[stake.tierId].baseRateBps;
        var mv: Move :| mv.now == now && RewardOf(s, now, call, who) == Granted(stake.position, rate, mv)
                        && after.stakes[who] == stake.(position := Moved(stake.position, rate, mv));
        MoveKeeps(stake.position, rate, mv);
      }
      RunKeepsStake(after, steps[1..], who);
      KeptTwice(stake, after.stakes[who], Run(s, steps).stakes[who], RewardOf(s, now, call, who), RewardsOver(after, steps[1..], who));
    }
  }

  lemma {:induction false} RewardsAppend(s: State, steps: seq<(nat, Call)>, step: (nat, Call), who: Address)
    ensures RewardsOver(s, steps + [step], who) == RewardsOver(s, steps, who) + RewardOf(Run(s, steps), step.0, step.1, who)
    decreases |steps|
  {
    if steps == [] {
      assert steps + [step] == [step] && [step][1..] == [];
    } else {
      RewardsAppend(Apply(s, steps[0].0, steps[0].1), steps[1..], step, who);
      assert (steps + [step])[1..] == steps[1..] + [step];
    }
  }

  /** One call that keeps a stake, at a multiplier of at least one: the bound of its move. */
  lemma StepWithinFormula(s: State, at: nat, call: Call, who: Address, elapsed: nat)
    requires who in s.stakes && s.stakes[who].tierId in s.setup.tiers && who in Apply(s, at, call).stakes
    requires KeepsStakeAndTier(call, who, s.stakes[who].tierId)
    requires s.stakes[who].position.since <= at <= s.stakes[who].position.since + elapsed
    requires s.setup.tiers[s.stakes[who].tierId].multiplierBps >= BPS
    ensures var after := Apply(s, at, call);
            var before, now, tier := s.stakes[who], after.stakes[who], s.setup.tiers[s.stakes[who].tierId];
            && now.tierId == before.tierId && now.stakedAt == before.stakedAt
            && now.tierId in after.setup.tiers && after.setup.tiers[now.tierId] == tier
            && before.position.since <= now.position.since <= at && now.position.claimed >= before.position.claimed
            && RewardOf(s, at, call, who) + CalcRewards(now.position.amount, tier.baseRateBps, tier.multiplierBps, elapsed)
               <= CalcRewards(before.position.amount, tier.baseRateBps, tier.multiplierBps, elapsed)
                  + (now.position.claimed - before.position.claimed)
  {
    hide CalcRewards, Apply, RewardOf, Granted, Moved, KeepsStakeAndTier;
    var stake, after := s.stakes[who], Apply(s, at, call);
    var tier := s.setup.tiers[stake.tierId];
    StakeMoves(s, at, call, who);
    if !(after.stakes[who] == stake && RewardOf(s, at, call, who) == 0) {
      var mv: Move :| mv.now == at && RewardOf(s, at, call, who) == Granted(stake.position, tier.baseRateBps, mv)
                      && after.stakes[who] == stake.(position := Moved(stake.position, tier.baseRateBps, mv));
      MoveWithinFormula(stake.position, tier.baseRateBps, tier.multiplierBps, mv, elapsed);
      MoveWithinDue(stake.position, tier.baseRateBps, mv, at);
    }
  }

  /** A stake present at the end was there after the first call. */
  lemma KeptOrGone(s: State, steps: seq<(nat, Call)>, who: Address)
    requires who in s.stakes && steps != [] && who in Run(s, steps).stakes
    requires forall k :: 0 <= k < |steps| ==> KeepsStakeAndTier(steps[k].1, who, s.stakes[who].tierId)
    ensures who in Apply(s, steps[0].0, steps[0].1).stakes
  {
    var after := Apply(s, steps[0].0, steps[0].1);
    if who !in after.stakes { NoStakeStays(after, steps[1..], who, s.stakes[who].tierId); }
  }

  lemma RunOfNone(s: State, who: Address)
    ensures Run(s, []) == s && RewardsOver(s, [], who) == 0
  {
  }

  lemma RunUnfolds(s: State, steps: seq<(nat, Call)>, who: Address, since: nat, last: nat)
    requires steps != [] && Timely(since, steps, last)
    ensures var at, after := steps[0].0, Apply(s, steps[0].0, steps[0].1);
            && Run(s, steps) == Run(after, steps[1..])
            && RewardsOver(s, steps, who) == RewardOf(s, at, steps[0].1, who) + RewardsOver(after, steps[1..], who)
            && since <= at <= last && forall other: nat :: other <= at ==> Timely(other, steps[1..], last)
  {
    hide Apply, RewardOf;
    var at := steps[0].0;
    TimelyWeaken(at, at, steps[1..], last);
    forall other: nat | other <= at ensures Timely(other, steps[1..], last) { TimelyWeaken(other, at, steps[1..], last); }
  }

  /**
   * Over every timely run that keeps a stake, at a multiplier of at least one: what it was granted, plus the
   * unstake formula on what is left, passes the formula on the whole by no more than claimed_rewards grew.
   */
  lemma {:induction false} RunWithinFormula(s: State, steps: seq<(nat, Call)>, who: Address, now: nat)
    requires who in s.stakes && s.stakes[who].tierId in s.setup.tiers && who in Run(s, steps).stakes
    requires s.stakes[who].stakedAt <= s.stakes[who].position.since && Timely(s.stakes[who].position.since, steps, now)
    requires forall k :: 0 <= k < |steps| ==> KeepsStakeAndTier(steps[k].1, who, s.stakes[who].tierId)
    requires s.setup.tiers[s.stakes[who].tierId].multiplierBps >= BPS && s.stakes[who].stakedAt <= now
    ensures var p, q, tier := s.stakes[who].position, Run(s, steps).stakes[who].position, s.setup.tiers[s.stakes[who].tierId];
            var elapsed := now - s.stakes[who].stakedAt;
            && q.claimed >= p.claimed
            && RewardsOver(s, steps, who) + CalcRewards(q.amount, tier.baseRateBps, tier.multiplierBps, elapsed)
               <= CalcRewards(p.amount, tier.baseRateBps, tier.multiplierBps, elapsed) + (q.claimed - p.claimed)
    decreases |steps|
  {
    hide *;
    if steps == [] {
      RunOfNone(s, who);
    } else {
      var stake, at, call := s.stakes[who], steps[0].0, steps[0].1;
      var after := Apply(s, at, call);
      RunUnfolds(s, steps, who, stake.position.since, now);
      KeptOrGone(s, steps, who);
      StepWithinFormula(s, at, call, who, now - stake.stakedAt);
      RunWithinFormula(after, steps[1..], who, now);
    }
  }

  /** A stake of this rate and multiplier, kept through timely calls and then closed by unstake. */
  ghost predicate Life(s: State, steps: seq<(nat, Call)>, who: Address, now: nat, rate: nat, m: nat) {
    && who in s.stakes && s.stakes[who].tierId in s.setup.tiers
    && s.setup.tiers[s.stakes[who].tierId].baseRateBps == rate && s.setup.tiers[s.stakes[who].tierId].multiplierBps == m
    && s.stakes[who].stakedAt <= s.stakes[who].position.since && s.stakes[who].stakedAt <= now
    && Timely(s.stakes[who].position.since, steps, now)
    && (forall k :: 0 <= k < |steps| ==> KeepsStakeAndTier(steps[k].1, who, s.stakes[who].tierId))
    && DoUnstake(Run(s, steps), now, who).Success?
  }

  /** The rewards of a whole life, the final unstake included. */
  function Lifetime(s: State, steps: seq<(nat, Call)>, who: Address, now: nat): nat {
    RewardsOver(s, steps + [(now, CallUnstake(who))], who)
  }

  /** The unstake formula on the principal a life starts with, for its whole time. */
  ghost function Formula(s: State, steps: seq<(nat, Call)>, who: Address, now: nat, rate: nat, m: nat): nat
    requires Life(s, steps, who, now, rate, m)
  {
    CalcRewards(s.stakes[who].position.amount, rate, m, now - s.stakes[who].stakedAt)
  }

  /** What claims paid over a life. */
  ghost function ClaimedOver(s: State, steps: seq<(nat, Call)>, who: Address, now: nat, rate: nat, m: nat): (c: int)
    requires Life(s, steps, who, now, rate, m)
  {
    Run(s, steps).stakes[who].position.claimed - s.stakes[who].position.claimed
  }

  lemma LifetimeIs(s: State, steps: seq<(nat, Call)>, who: Address, now: nat, rate: nat, m: nat)
    requires Life(s, steps, who, now, rate, m)
    ensures Lifetime(s, steps, who, now) == RewardsOver(s, steps, who)
            + CalcRewards(Run(s, steps).stakes[who].position.amount, rate, m, now - s.stakes[who].stakedAt)
    ensures Kept(s.stakes[who], Run(s, steps).stakes[who], RewardsOver(s, steps, who))
  {
    hide CalcRewards, Run, RewardsOver, Kept, Timely, KeepsStakeAndTier;
    RunKeepsStake(s, steps, who);
    RewardsAppend(s, steps, (now, CallUnstake(who)), who);
  }

  /**
   * Main result: at a multiplier of at least one, whatever is claimed or partly taken out on the way, a whole
   * life is granted at most the unstake formula plus what claims paid: only claiming pays time twice. At any
   * multiplier it stays within the unstake formula plus the claim formula.
   */
  lemma LifetimeBounded(s: State, steps: seq<(nat, Call)>, who: Address, now: nat, rate: nat, m: nat)
    requires Life(s, steps, who, now, rate, m)
    ensures ClaimedOver(s, steps, who, now, rate, m) >= 0
    ensures Lifetime(s, steps, who, now) <= Formula(s, steps, who, now, rate, m)
                                            + CalculateRewards(s.stakes[who].position.amount, s.stakes[who].position.since, now, rate)
    ensures m >= BPS ==> Lifetime(s, steps, who, now) <= Formula(s, steps, who, now, rate, m) + ClaimedOver(s, steps, who, now, rate, m)
    ensures rate == 0 ==> Lifetime(s, steps, who, now) == 0
  {
    LifetimeIs(s, steps, who, now, rate, m);
    hide CalcRewards, CalculateRewards, Run, RewardsOver, Lifetime, Timely, KeepsStakeAndTier;
    var p, q := s.stakes[who].position, Run(s, steps).stakes[who].position;
    RunRewardsBounded(s, steps, who, now);
    CalcRewardsSuperadditive(q.amount, p.amount - q.amount, rate, m, now - s.stakes[who].stakedAt);
    if m >= BPS { RunWithinFormula(s, steps, who, now); }
    if rate == 0 {
      NoRateNoRewards(s.stakes[who].position.amount, s.stakes[who].position.since, now, m, now - s.stakes[who].stakedAt);
      NoRateNoRewards(Run(s, steps).stakes[who].position.amount, 0, now, m, now - s.stakes[who].stakedAt);
    }
  }

  lemma NoRateNoRewards(amount: nat, since: nat, now: nat, m: nat, elapsed: nat)
    ensures CalculateRewards(amount, since, now, 0) == 0 == CalcRewards(amount, 0, m, elapsed)
  {
  }

  /** With the principal left whole the lifetime is exact, and within the formula exactly when nothing was claimed. */
  lemma LifetimeWithinIff(s: State, steps: seq<(nat, Call)>, who: Address, now: nat, rate: nat, m: nat)
    requires Life(s, steps, who, now, rate, m)
    requires Run(s, steps).stakes[who].position.amount == s.stakes[who].position.amount
    ensures Lifetime(s, steps, who, now) == Formula(s, steps, who, now, rate, m) + ClaimedOver(s, steps, who, now, rate, m)
    ensures Lifetime(s, steps, who, now) <= Formula(s, steps, who, now, rate, m)
            <==> Run(s, steps).stakes[who].position.claimed == s.stakes[who].position.claimed
  {
    hide CalcRewards;
    LifetimeIs(s, steps, who, now, rate, m);
  }

  /**
   * Main result: that every life in which nothing is claimed stays within the formula holds exactly for tiers
   * with a multiplier of at least one (or no rate): partial unstakes pay the rate without the multiplier.
   */
  lemma UnclaimedWithinIff(rate: nat, m: nat)
    ensures m >= BPS || rate == 0 <==>
            forall s, steps, who, now: nat ::
              Life(s, steps, who, now, rate, m) && ClaimedOver(s, steps, who, now, rate, m) == 0 ==>
                Lifetime(s, steps, who, now) <= Formula(s, steps, who, now, rate, m)
  {
    if m >= BPS || rate == 0 {
      forall s, steps, who, now: nat | Life(s, steps, who, now, rate, m) && ClaimedOver(s, steps, who, now, rate, m) == 0
        ensures Lifetime(s, steps, who, now) <= Formula(s, steps, who, now, rate, m)
      {
        LifetimeBounded(s, steps, who, now, rate, m);
      }
    } else {
      var setup, steps := HalfOverpaid(rate, m);
      hide Life, Lifetime, ClaimedOver, Formula, Run;
    }
  }

  lemma RunOfOne(s: State, now: nat, call: Call, who: Address)
    ensures Run(s, [(now, call)]) == Apply(s, now, call) && RewardsOver(s, [(now, call)], who) == RewardOf(s, now, call, who)
  {
    var steps := [(now, call)];
    assert steps[1..] == [];
  }

  const STAKER := 1

  function Minted(amount: nat): State { Deployed(0, map[Account(7, STAKER) := amount]) }

  /** One stake made at time 0 in a tier of the given rate and multiplier, through the whole setup of a new contract. */
  lemma Opened(amount: nat, rate: nat, m: nat) returns (steps: seq<(nat, Call)>)
    requires amount > 0
    ensures var s := Run(Minted(amount), steps);
            && s.self == 0 && s.setup.token == Some(7) && s.setup.cooldown.None? && s.setup.tiers == map[1 := Tier(1, 1, rate, m, 0)]
            && s.stakes == map[STAKER := Stake(Position(amount, 0, 0, 0), 1, 0)] && s.queues == map[]
            && BalanceOf(s.balances, 7, 0) == amount
    ensures RewardsOver(Minted(amount), steps, STAKER) == 0
  {
    var s0 := Minted(amount);
    var a, b: (nat, Call) := (0, CallSetup(9, SetConfig(StakingConfig(1, amount, 0)))), (0, CallSetup(9, AddTier(Tier(1, 1, rate, m, 0))));
    var c, d: (nat, Call) := (0, CallSetup(9, SetToken(7))), (0, CallStake(STAKER, amount, 1));
    assert Run(s0, []) == s0 && RewardsOver(s0, [], STAKER) == 0;
    hide Run, RewardsOver;
    RunAppend(s0, [], a);
    RewardsAppend(s0, [], a, STAKER);
    steps := [] + [a];
    RunAppend(s0, steps, b);
    RewardsAppend(s0, steps, b, STAKER);
    steps := steps + [b];
    RunAppend(s0, steps, c);
    RewardsAppend(s0, steps, c, STAKER);
    steps := steps + [c];
    assert Run(s0, steps).setup == Setup(Some(9), Some(StakingConfig(1, amount, 0)), map[1 := Tier(1, 1, rate, m, 0)], Some(7), None);
    assert Run(s0, steps).stakes == map[] && Run(s0, steps).balances == s0.balances;
    RunAppend(s0, steps, d);
    RewardsAppend(s0, steps, d, STAKER);
    steps := steps + [d];
  }

  /** The two formulas over one year, on 200 million and on half of it. */
  lemma YearOfHalf(rate: nat, m: nat)
    ensures Granted(Position(200_000_000, 0, 0, 0), rate, UnstakeAt(YEAR, 100_000_000)) == 10_000 * rate
    ensures CalcRewards(100_000_000, rate, m, YEAR) == rate * m
    ensures CalcRewards(200_000_000, rate, m, YEAR) == 2 * (rate * m)
  {
    CalculateRewardsClosedForm(200_000_000, 0, YEAR, rate);
    DivIs(200_000_000 * rate * YEAR, YEAR * BPS, 20_000 * rate);
    DivIs(20_000 * rate * 500_000, REWARD_PRECISION, 10_000 * rate);
    CalcRewardsPerUnit(100_000_000, rate, m, YEAR);
    CalcRewardsPerUnit(200_000_000, rate, m, YEAR);
    DivIs((rate * m * YEAR) * 100_000_000, YEAR * 100_000_000, rate * m);
    DivIs((rate * m * YEAR) * 200_000_000, YEAR * 100_000_000, 2 * (rate * m));
  }

  /**
   * Below a multiplier of one, from deployment: half a stake is taken out after a year and the rest closed,
   * nothing was claimed, and the two payments pass the formula on the whole.
   */
  lemma HalfOverpaid(rate: nat, m: nat) returns (setup: seq<(nat, Call)>, steps: seq<(nat, Call)>)
    requires rate > 0 && m < BPS
    ensures var s := Run(Minted(200_000_000), setup);
            && Life(s, steps, STAKER, YEAR, rate, m) && ClaimedOver(s, steps, STAKER, YEAR, rate, m) == 0
            && Formula(s, steps, STAKER, YEAR, rate, m) == 2 * (rate * m)
            && Lifetime(s, steps, STAKER, YEAR) == 10_000 * rate + rate * m > 2 * (rate * m)
  {
    setup := Opened(200_000_000, rate, m);
    steps := [(YEAR, CallPartialUnstake(STAKER, 100_000_000))];
    var s := Run(Minted(200_000_000), setup);
    YearOfHalf(rate, m);
    RunOfOne(s, YEAR, steps[0].1, STAKER);
    assert Timely(0, steps, YEAR);
    var half := Apply(s, YEAR, steps[0].1);
    hide CalcRewards, CalculateRewards, Minted, Run, RewardsOver;
    assert RewardOf(s, YEAR, steps[0].1, STAKER) == 10_000 * rate;
    assert half.stakes[STAKER].position.amount == 100_000_000;
    assert DoUnstake(half, YEAR, STAKER).Success?;
    LifetimeIs(s, steps, STAKER, YEAR, rate, m);
    MulMono(rate, m + 1, BPS);
  }

  lemma YearlyReward()
    ensures CalculateRewards(1_000_000, 0, YEAR, 1000) == 100_000 == CalcRewards(1_000_000, 1000, 10_000, YEAR)
  {
    CalculateRewardsClosedForm(1_000_000, 0, YEAR, 1000);
    CalcRewardsClosedForm(1_000_000, 1000, 10_000, YEAR);
  }

  /** From deployment: claiming after a year and then unstaking is paid for that year twice. */
  lemma YearPaidTwice() returns (setup: seq<(nat, Call)>, steps: seq<(nat, Call)>)
    ensures var s := Run(Minted(1_000_000), setup);
            && steps == [(YEAR, CallClaimRewards(STAKER))] && Life(s, steps, STAKER, YEAR, 1000, 10_000)
            && Formula(s, steps, STAKER, YEAR, 1000, 10_000) == 100_000 && Lifetime(s, steps, STAKER, YEAR) == 200_000
  {
    setup := Opened(1_000_000, 1000, 10_000);
    steps := [(YEAR, CallClaimRewards(STAKER))];
    var s := Run(Minted(1_000_000), setup);
    YearlyReward();
    RunOfOne(s, YEAR, steps[0].1, STAKER);
    assert Timely(0, steps, YEAR);
    var claimed := Apply(s, YEAR, steps[0].1);
    hide CalcRewards, CalculateRewards, Minted, Run, RewardsOver;
    assert RewardOf(s, YEAR, steps[0].1, STAKER) == 100_000;
    assert DoUnstake(claimed, YEAR, STAKER).Success?;
    LifetimeIs(s, steps, STAKER, YEAR, 1000, 10_000);
  }

  lemma {:induction false} RunAppend(s: State, steps: seq<(nat, Call)>, step: (nat, Call))
    ensures Run(s, steps + [step]) == Apply(Run(s, steps), step.0, step.1)
    decreases |steps|
  {
    if steps == [] {
      assert steps + [step] == [step] && [step][1..] == [];
    } else {
      RunAppend(Apply(s, steps[0].0, steps[0].1), steps[1..], step);
      assert (steps + [step])[1..] == steps[1..] + [step];
    }
  }

  // ---------------------------------------------------------------- does the balance cover what is owed?

  /** Principal and waiting withdrawals of one staker. */
  function OwedTo(s: State, who: Address): nat {
    (if who in s.stakes then s.stakes[who].position.amount else 0) + Total(QueueOf(s.queues, who).pending)
  }

  /** The same over all addresses below n. */
  function OwedBelow(s: State, n: nat): nat {
    if n == 0 then 0 else OwedBelow(s, n - 1) + OwedTo(s, n - 1)
  }

  /** What the contract holds beyond that. */
  function Surplus(s: State, token: Address, n: nat): int { BalanceOf(s.balances, token, s.self) - OwedBelow(s, n) }

  /** The staker is one of the first n addresses, tokens do not move from the contract to itself, and the token stays the same. */
  predicate Accounted(s: State, call: Call, token: Address, n: nat) {
    match call
    case CallSetup(_, c) => c.SetToken? ==> c.token == token
    case CallStake(staker, _, _) => staker < n && staker != s.self
    case CallUnstake(staker) => staker < n
    case CallPartialUnstake(staker, _) => staker < n
    case CallClaimRewards(staker) => staker != s.self
    case CallEmergencyUnstake(staker) => staker < n && staker != s.self
    case CallClaimUnstaked(staker) => staker < n && staker != s.self
    case TokensMoved(_) => true
  }

  /** The reward a call pays or locks, to whomever. */
  function RewardGiven(s: State, now: nat, call: Call): nat {
    match call
    case CallUnstake(staker) => RewardOf(s, now, call, staker)
    case CallPartialUnstake(staker, _) => RewardOf(s, now, call, staker)
    case CallClaimRewards(staker) => RewardOf(s, now, call, staker)
    case _ => 0
  }

  /** What a call brings the contract: a penalty it keeps, or tokens sent to it. */
  function Income(s: State, call: Call, token: Address): int {
    match call
    case CallEmergencyUnstake(staker) =>
      if DoEmergencyUnstake(s, staker).Success?
      then s.stakes[staker].position.amount * s.setup.config.value.penaltyBps / 10_000 else 0
    case TokensMoved(b) => BalanceOf(b, token, s.self) - BalanceOf(s.balances, token, s.self)
    case _ => 0
  }

  lemma {:induction false} OwedMoves(s: State, after: State, who: Address, n: nat)
    requires forall other :: other != who ==> OwedTo(after, other) == OwedTo(s, other)
    ensures OwedBelow(after, n) - OwedBelow(s, n) == if who < n then OwedTo(after, who) - OwedTo(s, who) else 0
  {
    if n > 0 { OwedMoves(s, after, who, n - 1); }
  }

  predicate TokenIs(s: State, token: Address) { s.setup.token.None? || s.setup.token == Some(token) }

  /** Whose stake or queue a call may change; the contract itself stands for nobody. */
  function Subject(s: State, call: Call): Address {
    match call
    case CallStake(staker, _, _) => staker
    case CallUnstake(staker) => staker
    case CallPartialUnstake(staker, _) => staker
    case CallClaimRewards(staker) => staker
    case CallEmergencyUnstake(staker) => staker
    case CallClaimUnstaked(staker) => staker
    case _ => s.self
  }

  lemma OthersUntouched(s: State, now: nat, call: Call, token: Address, n: nat)
    requires Accounted(s, call, token, n)
    ensures var after, who := Apply(s, now, call), Subject(s, call);
            && (forall other :: other != who ==> OwedTo(after, other) == OwedTo(s, other))
            && (who >= n ==> OwedTo(after, who) == OwedTo(s, who))
  {
    hide Total;
  }

  lemma LockAdds(q: Queue, w: Withdrawal)
    ensures Total(Locking(q, w).pending) == Total(q.pending) + w.amount
  {
    Append(q.pending, w, w);
  }

  lemma ClaimTakes(q: Queue, now: nat)
    ensures Total(Claiming(q, now).pending) == Total(q.pending) - ClaimableTotal(q.pending, now)
  {
    ClaimSplits(q.pending, now, Withdrawal(0, 0));
  }

  /** The balance less what is owed to one staker. */
  function Left(s: State, token: Address, who: Address): int { BalanceOf(s.balances, token, s.self) - OwedTo(s, who) }

  /** One call moves that by its income less its reward. */
  ghost predicate Moves(s: State, now: nat, call: Call, token: Address) {
    var after, who := Apply(s, now, call), Subject(s, call);
    && TokenIs(after, token) && after.self == s.self
    && Left(after, token, who) == Left(s, token, who) + Income(s, call, token) - RewardGiven(s, now, call)
  }

  lemma StakeLeaves(s: State, now: nat, who: Address, amount: int, tierId: nat, token: Address)
    requires TokenIs(s, token) && who != s.self
    ensures Moves(s, now, CallStake(who, amount, tierId), token)
  {
    hide Total;
  }

  lemma UnstakeLeaves(s: State, now: nat, who: Address, token: Address)
    requires TokenIs(s, token)
    ensures Moves(s, now, CallUnstake(who), token)
  {
    hide Total, CalcRewards;
    if DoUnstake(s, now, who).Success? {
      LockAdds(QueueOf(s.queues, who), Withdrawal(s.stakes[who].position.amount + UnstakeReward(s, now, who), now + Cooldown(s.setup)));
    }
  }

  lemma PartialUnstakeLeaves(s: State, now: nat, who: Address, part: int, token: Address)
    requires TokenIs(s, token)
    ensures Moves(s, now, CallPartialUnstake(who, part), token)
  {
    hide Total, CalculateRewards;
    if DoPartialUnstake(s, now, who, part).Success? {
      LockAdds(QueueOf(s.queues, who), Withdrawal(part + RewardOf(s, now, CallPartialUnstake(who, part), who), now + Cooldown(s.setup)));
    }
  }

  lemma ClaimRewardsLeaves(s: State, now: nat, who: Address, token: Address)
    requires TokenIs(s, token) && who != s.self
    ensures Moves(s, now, CallClaimRewards(who), token)
  {
    hide Total, CalculateRewards;
  }

  lemma EmergencyUnstakeLeaves(s: State, now: nat, who: Address, token: Address)
    requires TokenIs(s, token) && who != s.self
    ensures Moves(s, now, CallEmergencyUnstake(who), token)
  {
    hide Total;
  }

  lemma ClaimUnstakedLeaves(s: State, now: nat, who: Address, token: Address)
    requires TokenIs(s, token) && who != s.self
    ensures Moves(s, now, CallClaimUnstaked(who), token)
  {
    hide Total, Claiming;
    ClaimTakes(QueueOf(s.queues, who), now);
  }

  lemma EveryCallMoves(s: State, now: nat, call: Call, token: Address, n: nat)
    requires TokenIs(s, token) && Accounted(s, call, token, n)
    ensures Moves(s, now, call, token)
  {
    hide Moves;
    match call
    case CallStake(who, amount, tierId) => StakeLeaves(s, now, who, amount, tierId, token);
    case CallUnstake(who) => UnstakeLeaves(s, now, who, token);
    case CallPartialUnstake(who, part) => PartialUnstakeLeaves(s, now, who, part, token);
    case CallClaimRewards(who) => ClaimRewardsLeaves(s, now, who, token);
    case CallEmergencyUnstake(who) => EmergencyUnstakeLeaves(s, now, who, token);
    case CallClaimUnstaked(who) => ClaimUnstakedLeaves(s, now, who, token);
    case CallSetup(_, _) => OutsideCallMoves(s, now, call, token, n);
    case TokensMoved(_) => OutsideCallMoves(s, now, call, token, n);
  }

  lemma OutsideCallMoves(s: State, now: nat, call: Call, token: Address, n: nat)
    requires TokenIs(s, token) && Accounted(s, call, token, n) && (call.CallSetup? || call.TokensMoved?)
    ensures Moves(s, now, call, token)
  {
    hide Total;
  }

  /** Main result, one call: the surplus moves by the call's income less its reward. */
  lemma SurplusStep(s: State, now: nat, call: Call, token: Address, n: nat)
    requires TokenIs(s, token) && Accounted(s, call, token, n)
    ensures TokenIs(Apply(s, now, call), token)
    ensures Surplus(Apply(s, now, call), token, n) == Surplus(s, token, n) + Income(s, call, token) - RewardGiven(s, now, call)
  {
    hide OwedTo, Income, RewardGiven, Apply;
    EveryCallMoves(s, now, call, token, n);
    OthersUntouched(s, now, call, token, n);
    OwedMoves(s, Apply(s, now, call), Subject(s, call), n);
  }

  function RewardsGiven(s: State, steps: seq<(nat, Call)>): nat
    decreases |steps|
  {
    if steps == [] then 0
    else RewardGiven(s, steps[0].0, steps[0].1) + RewardsGiven(Apply(s, steps[0].0, steps[0].1), steps[1..])
  }

  function IncomeOver(s: State, steps: seq<(nat, Call)>, token: Address): int
    decreases |steps|
  {
    if steps == [] then 0
    else Income(s, steps[0].1, token) + IncomeOver(Apply(s, steps[0].0, steps[0].1), steps[1..], token)
  }

  ghost predicate AccountedRun(s: State, steps: seq<(nat, Call)>, token: Address, n: nat)
    decreases |steps|
  {
    steps != [] ==> Accounted(s, steps[0].1, token, n) && AccountedRun(Apply(s, steps[0].0, steps[0].1), steps[1..], token, n)
  }

  lemma {:induction false} RunMovesSurplus(s: State, steps: seq<(nat, Call)>, token: Address, n: nat)
    requires TokenIs(s, token) && AccountedRun(s, steps, token, n)
    ensures Surplus(Run(s, steps), token, n) == Surplus(s, token, n) + IncomeOver(s, steps, token) - RewardsGiven(s, steps)
    decreases |steps|
  {
    if steps != [] {
      hide Surplus, Income, RewardGiven, Apply, Accounted, TokenIs;
      SurplusStep(s, steps[0].0, steps[0].1, token, n);
      RunMovesSurplus(Apply(s, steps[0].0, steps[0].1), steps[1..], token, n);
    }
  }

  lemma {:induction false} NothingOwed(s: State, n: nat)
    requires s.stakes == map[] && s.queues == map[]
    ensures OwedBelow(s, n) == 0
  {
    if n > 0 { NothingOwed(s, n - 1); }
  }

  /**
   * Main result: rewards are paid from the balance that holds the principals. From deployment, the balance
   * covers all principals and waiting withdrawals exactly when the rewards given so far do not pass what the
   * contract started with, was sent, and kept as penalties.
   */
  lemma CoveredIff(self: Address, balances: Balances, steps: seq<(nat, Call)>, token: Address, n: nat)
    requires AccountedRun(Deployed(self, balances), steps, token, n)
    ensures var s0 := Deployed(self, balances);
            var s, funds := Run(s0, steps), BalanceOf(balances, token, self) + IncomeOver(s0, steps, token);
            && BalanceOf(s.balances, token, s.self) + RewardsGiven(s0, steps) == OwedBelow(s, n) + funds
            && (BalanceOf(s.balances, token, s.self) >= OwedBelow(s, n) <==> RewardsGiven(s0, steps) <= funds)
  {
    NothingOwed(Deployed(self, balances), n);
    RunMovesSurplus(Deployed(self, balances), steps, token, n);
  }

  lemma {:induction false} OwedToIsOwed(s: State, who: Address, n: nat)
    requires who < n
    ensures OwedTo(s, who) <= OwedBelow(s, n)
  {
    if who < n - 1 { OwedToIsOwed(s, who, n - 1); }
  }

  lemma {:induction false} ClaimableIsOwed(ws: seq<Withdrawal>, now: nat)
    ensures ClaimableTotal(ws, now) <= Total(ws)
  {
    if ws != [] { ClaimableIsOwed(ws[..|ws| - 1], now); }
  }

  /** What cover is for: a covered contract pays every matured withdrawal, and every emergency exit at a penalty of at most all. */
  lemma CoveredPaysOut(s: State, now: nat, who: Address, token: Address, n: nat)
    requires s.setup.token == Some(token) && Surplus(s, token, n) >= 0 && who < n
    ensures DoClaimUnstaked(s, now, who).Success? <==> ClaimableTotal(QueueOf(s.queues, who).pending, now) > 0
    ensures s.setup.config.Some? && s.setup.config.value.penaltyBps <= 10_000 ==>
              (DoEmergencyUnstake(s, who).Success? <==> who in s.stakes)
  {
    OwedToIsOwed(s, who, n);
    ClaimableIsOwed(QueueOf(s.queues, who).pending, now);
    hide OwedBelow, Claiming;
    if who in s.stakes && s.setup.config.Some? && s.setup.config.value.penaltyBps <= 10_000 {
      var amount := s.stakes[who].position.amount;
      MulMono(amount, s.setup.config.value.penaltyBps, 10_000);
      DivMono(amount * s.setup.config.value.penaltyBps, amount * 10_000, 10_000);
    }
  }

  /** A stake whose rewards were claimed out of its principal: what unstake locks cannot be paid. */
  lemma LockedBeyondBalance(s: State)
    requires s.self == 0 && s.setup.token == Some(7) && s.setup.cooldown.None? && s.setup.tiers == map[1 := Tier(1, 1, 1000, 10_000, 0)]
    requires s.stakes == map[STAKER := Stake(Position(1_000_000, YEAR, 0, 100_000), 1, 0)] && s.queues == map[]
    requires BalanceOf(s.balances, 7, 0) == 900_000
    ensures var later, late := YEAR + DEFAULT_COOLDOWN_SECS, Apply(s, YEAR, CallUnstake(STAKER));
            && QueueOf(late.queues, STAKER).pending == [Withdrawal(1_100_000, later)]
            && DoClaimUnstaked(late, later, STAKER).Failure?
  {
    var w := Withdrawal(1_100_000, YEAR + DEFAULT_COOLDOWN_SECS);
    var late := Apply(s, YEAR, CallUnstake(STAKER));
    assert late == After(s, DoUnstake(s, YEAR, STAKER));
    YearlyReward();
    UnstakeDoes(s, YEAR, STAKER);
    hide CalcRewards, CalculateRewards, DoUnstake, DoClaimUnstaked, Apply;
    assert QueueOf(late.queues, STAKER).pending == [] + [w] == [w];
    MaturesAlone(w);
    ClaimUnstakedDoes(late, w.claimableAt, STAKER);
  }

  lemma MaturesAlone(w: Withdrawal)
    ensures TotalSettled(Claimable([w], w.claimableAt)) == w.amount
  {
    assert [w][..0] == [] && [Settlement(w, w.claimableAt)][..0] == [];
    assert Claimable([w], w.claimableAt) == [Settlement(w, w.claimableAt)];
  }

  /** The uncovered case, from deployment: one claim is paid out of the principal, and the matured unstake cannot be. */
  lemma PrincipalOutOfReach() returns (setup: seq<(nat, Call)>)
    ensures var s := Run(Minted(1_000_000), setup + [(YEAR, CallClaimRewards(STAKER))]);
            && s.stakes == map[STAKER := Stake(Position(1_000_000, YEAR, 0, 100_000), 1, 0)]
            && BalanceOf(s.balances, 7, s.self) == 900_000
            && var later, late := YEAR + DEFAULT_COOLDOWN_SECS, Apply(s, YEAR, CallUnstake(STAKER));
            && QueueOf(late.queues, STAKER).pending == [Withdrawal(1_100_000, later)]
            && DoClaimUnstaked(late, later, STAKER).Failure?
  {
    setup := Opened(1_000_000, 1000, 10_000);
    var before, call := Run(Minted(1_000_000), setup), CallClaimRewards(STAKER);
    var claim: (nat, Call) := (YEAR, call);
    YearlyReward();
    RunAppend(Minted(1_000_000), setup, claim);
    hide CalcRewards, CalculateRewards, Minted, Run, DoClaimUnstaked, QueueOf;
    var s := Run(Minted(1_000_000), setup + [claim]);
    assert Granted(Position(1_000_000, 0, 0, 0), 1000, ClaimAt(YEAR)) == 100_000;
    assert DoClaimRewards(before, YEAR, STAKER).Success?;
    assert s.stakes == map[STAKER := Stake(Position(1_000_000, YEAR, 0, 100_000), 1, 0)];
    hide Apply;
    LockedBeyondBalance(s);
  }

  /** No call of a run writes the staking token. */
  ghost predicate TokenNeverSet(steps: seq<(nat, Call)>) {
    forall k :: 0 <= k < |steps| ==> !(steps[k].1.CallSetup? && steps[k].1.call.SetToken?)
  }

  /** The contract has no entry point that writes its token: without that write nobody can ever stake. */
  lemma {:induction false} NoTokenNoStakes(s: State, steps: seq<(nat, Call)>)
    requires s.setup.token.None? && s.stakes == map[] && s.queues == map[] && TokenNeverSet(steps)
    ensures var after := Run(s, steps); after.setup.token.None? && after.stakes == map[] && after.queues == map[]
    decreases |steps|
  {
    if steps != [] { NoTokenNoStakes(Apply(s, steps[0].0, steps[0].1), steps[1..]); }
  }

  lemma {:induction false} TimelyWeaken(earlier: nat, since: nat, steps: seq<(nat, Call)>, last: nat)
    requires earlier <= since && Timely(since, steps, last)
    ensures Timely(earlier, steps, last) && since <= last
    decreases |steps|
  {
    if steps != [] { TimelyWeaken(since, steps[0].0, steps[1..], last); }
  }

  // ---------------------------------------------------------------- the contract

  ghost predicate Answered(before: State, o: Outcome, after: State, r: Result<(), Error>) {
    && after == After(before, o)
    && (o.Success? ==> r == Success(()))
    && (o.Failure? ==> r == Failure(o.error))
  }

  class StakingModule {
    const self: Address
    var admin: Option<Address>
    var config: Option<StakingConfig>
    var tiers: map<nat, Tier>
    var stakingToken: Option<Address>
    var cooldownSecs: Option<nat>
    var stakes: map<Address, Stake>
    var queues: map<Address, Queue>
    var balances: Balances

    ghost function Abs(): State
      reads this
    {
      State(self, Setup(admin, config, tiers, stakingToken, cooldownSecs), stakes, queues, balances)
    }

    constructor (self: Address, balances: Balances)
      ensures Abs() == Deployed(self, balances)
    {
      this.self, this.balances := self, balances;
      admin, config, tiers, stakingToken, cooldownSecs := None, None, map[], None, None;
      stakes, queues := map[], map[];
    }

    method SetUp(caller: Address, call: SetupCall) returns (r: Result<(), Error>)
      modifies this
      ensures Answered(old(Abs()), DoSetup(old(Abs()), caller, call), Abs(), r)
    {
      match call {
        case SetConfig(c) =>
          admin, config := Some(caller), Some(c);
        case AddTier(tier) =>
          if admin != Some(caller) {
            return Failure(Panic);
          }
          tiers := tiers[tier.id := tier];
        case SetCooldownDays(days) =>
          if admin != Some(caller) || days == 0 {
            return Failure(Panic);
          }
          cooldownSecs := Some(days * 24 * 3600);
        case SetToken(token) =>
          stakingToken := Some(token);
      }
      return Success(());
    }

    method StakeTokens(now: nat, staker: Address, amount: int, tierId: nat) returns (r: Result<(), Error>)
      modifies this
      ensures Answered(old(Abs()), DoStake(old(Abs()), now, staker, amount, tierId), Abs(), r)
    {
      if config.None? || !(config.value.minStake <= amount <= config.value.maxStake) {
        return Failure(Panic);
      }
      if tierId !in tiers || amount < tiers[tierId].minAmount {
        return Failure(Panic);
      }
      if staker in stakes || stakingToken.None? {
        return Failure(Panic);
      }
      var moved := Transfer(balances, stakingToken.value, staker, self, amount);
      if moved.None? {
        return Failure(Panic);
      }
      balances := moved.value;
      stakes := stakes[staker := Stake(Position(amount, now, 0, 0), tierId, now)];
      return Success(());
    }

    method PushWithdrawal(now: nat, staker: Address, amount: nat)
      modifies this`queues
      ensures Abs() == Lock(old(Abs()), staker, now, amount)
    {
      var cooldown := if cooldownSecs.Some? then cooldownSecs.value else DEFAULT_COOLDOWN_SECS;
      var w := Withdrawal(amount, now + cooldown);
      var q := QueueOf(queues, staker);
      queues := queues[staker := q.(pending := q.pending + [w], locked := q.locked + [w])];
    }

    method Unstake(now: nat, staker: Address) returns (r: Result<(), Error>)
      modifies this
      ensures Answered(old(Abs()), DoUnstake(old(Abs()), now, staker), Abs(), r)
    {
      if staker !in stakes {
        return Failure(Panic);
      }
      var info := stakes[staker];
      if info.tierId !in tiers {
        return Failure(Panic);
      }
      var tier := tiers[info.tierId];
      if now < info.stakedAt + tier.lockPeriod {
        return Failure(Panic);
      }
      var rewards := CalcRewards(info.position.amount, tier.baseRateBps, tier.multiplierBps, now - info.stakedAt);
      PushWithdrawal(now, staker, info.position.amount + rewards);
      stakes := stakes - {staker};
      return Success(());
    }

    method PartialUnstake(now: nat, staker: Address, unstakeAmount: int) returns (r: Result<(), Error>)
      modifies this
      ensures Answered(old(Abs()), DoPartialUnstake(old(Abs()), now, staker, unstakeAmount), Abs(), r)
    {
      if staker !in stakes {
        return Failure(NoActiveStake);
      }
      var info := stakes[staker];
      var p := info.position;
      if unstakeAmount <= 0 || unstakeAmount > p.amount {
        return Failure(InvalidUnstakeAmount);
      }
      if info.tierId !in tiers {
        return Failure(TierNotFound);
      }
      var tier := tiers[info.tierId];
      var removedPortionRatio := unstakeAmount * REWARD_PRECISION / p.amount;
      var totalRewards := CalculateRewards(p.amount, p.since, now, tier.baseRateBps);
      var removedRewards := totalRewards * removedPortionRatio / REWARD_PRECISION;
      assert removedRewards == Granted(p, tier.baseRateBps, UnstakeAt(now, unstakeAmount));
      PartIsAtMostTotal(totalRewards, unstakeAmount, p.amount);
      PushWithdrawal(now, staker, unstakeAmount + removedRewards);
      p := Position(p.amount - unstakeAmount, now, totalRewards - removedRewards, p.claimed);
      if p.amount == 0 {
        stakes := stakes - {staker};
      } else {
        stakes := stakes[staker := info.(position := p)];
      }
      return Success(());
    }

    method ClaimStakingRewards(now: nat, staker: Address) returns (r: Result<nat, Error>)
      modifies this
      ensures var o := DoClaimRewards(old(Abs()), now, staker);
              && (o.Success? ==> Abs() == o.value.0 && r == Success(o.value.1))
              && (o.Failure? ==> Abs() == old(Abs()) && r == Failure(o.error))
    {
      if staker !in stakes {
        return Failure(NoActiveStake);
      }
      var info := stakes[staker];
      if info.tierId !in tiers {
        return Failure(TierNotFound);
      }
      var p := info.position;
      var rewards := CalculateRewards(p.amount, p.since, now, tiers[info.tierId].baseRateBps);
      if rewards <= 0 {
        return Success(0);
      }
      if stakingToken.None? {
        return Failure(StakingTokenNotSet);
      }
      var moved := Transfer(balances, stakingToken.value, self, staker, rewards);
      if moved.None? {
        return Failure(Panic);
      }
      balances := moved.value;
      stakes := stakes[staker := info.(position := Position(p.amount, now, 0, p.claimed + rewards))];
      return Success(rewards);
    }

    method EmergencyUnstake(staker: Address) returns (r: Result<(), Error>)
      modifies this
      ensures Answered(old(Abs()), DoEmergencyUnstake(old(Abs()), staker), Abs(), r)
    {
      if staker !in stakes || config.None? {
        return Failure(Panic);
      }
      var amount := stakes[staker].position.amount;
      var penalty := amount * config.value.penaltyBps / 10_000;
      var payout := amount - penalty;
      if stakingToken.None? {
        return Failure(Panic);
      }
      var moved := Transfer(balances, stakingToken.value, self, staker, payout);
      if moved.None? {
        return Failure(Panic);
      }
      balances := moved.value;
      stakes := stakes - {staker};
      return Success(());
    }

    method ClaimUnstaked(now: nat, staker: Address) returns (r: Result<(), Error>)
      modifies this
      ensures Answered(old(Abs()), DoClaimUnstaked(old(Abs()), now, staker), Abs(), r)
    {
      var q := QueueOf(queues, staker);
      var pending := q.pending;
      if pending == [] {
        return Failure(Panic);
      }
      var claimableTotal, remaining, settled := 0, [], [];
      for k := 0 to |pending|
        invariant claimableTotal == ClaimableTotal(pending[..k], now)
        invariant remaining == Remaining(pending[..k], now)
        invariant settled == Claimable(pending[..k], now)
      {
        assert pending[..k + 1][..k] == pending[..k];
        var w := pending[k];
        if now >= w.claimableAt {
          claimableTotal := claimableTotal + w.amount;
          settled := settled + [Settlement(w, now)];
        } else {
          remaining := remaining + [w];
        }
      }
      assert pending[..|pending|] == pending;
      if !(claimableTotal > 0) {
        return Failure(Panic);
      }
      if stakingToken.None? {
        return Failure(Panic);
      }
      var moved := Transfer(balances, stakingToken.value, self, staker, claimableTotal);
      if moved.None? {
        return Failure(Panic);
      }
      balances := moved.value;
      queues := queues[staker := Queue(remaining, q.locked, q.settled + settled, q.received + claimableTotal)];
      return Success(());
    }
  }
}
