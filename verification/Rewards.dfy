/**
 * The reward formulas of contracts/manage_hub/src/staking.rs and rewards.rs.
 *
 * All quantities are non-negative there (token amounts, basis points, seconds), so the
 * contract's truncating division is floor division.
 */
module Rewards {
  import opened Common
  import opened Arithmetic

  const YEAR: nat := 365 * 24 * 3600
  const BPS: nat := 10_000
  const REWARD_PRECISION: nat := 1_000_000
  const I128_MAX: nat := 0x7FFF_FFFF_FFFF_FFFF_FFFF_FFFF_FFFF_FFFF

  // ---------------------------------------------------------------- the contract's arithmetic

  /** StakingModule::calculate_rewards. */
  function CalculateRewards(amount: nat, start: nat, end: nat, apyBps: nat): nat {
    if end <= start then 0
    else amount * apyBps * (end - start) * REWARD_PRECISION / (YEAR * BPS * REWARD_PRECISION)
  }

  /** StakingModule::calc_rewards. */
  function CalcRewards(amount: nat, rateBps: nat, multiplierBps: nat, elapsed: nat): nat {
    var scaled: nat := amount * rateBps * multiplierBps * elapsed * REWARD_PRECISION;
    scaled / YEAR / 100_000_000 / REWARD_PRECISION
  }

  /** RewardsModule: the total before subtracting what was claimed, truncated at every step. */
  function SteppedTotal(amount: nat, rateBps: nat, multiplierBps: nat, elapsed: nat): nat {
    amount * rateBps / BPS * elapsed / YEAR * multiplierBps / BPS
  }

  datatype RewardsError = Overflow

  predicate Fits(n: nat) { n <= I128_MAX }

  /** RewardsModule::calculate_pending_rewards on the fields it reads. */
  function PendingRewards(amount: nat, rateBps: nat, multiplierBps: nat, elapsed: nat, claimed: nat, emergency: bool)
    : Result<nat, RewardsError>
  {
    if emergency then Success(0)
    else if !Fits(amount * rateBps) then Failure(Overflow)
    else
      var step2 := amount * rateBps / BPS;
      if !Fits(step2 * elapsed) then Failure(Overflow)
      else
        var step4 := step2 * elapsed / YEAR;
        if !Fits(step4 * multiplierBps) then Failure(Overflow)
        else Success(Max(step4 * multiplierBps / BPS - claimed, 0))
  }

  // ---------------------------------------------------------------- closed forms

  /** The fixed-point factor cancels: one division, one truncation. */
  lemma CalculateRewardsClosedForm(amount: nat, start: nat, end: nat, apyBps: nat)
    requires start <= end
    ensures CalculateRewards(amount, start, end, apyBps) == amount * apyBps * (end - start) / (YEAR * BPS)
    ensures YEAR * BPS == 31_536_000 * 10_000 && YEAR == 365 * 86_400
  {
    if start < end { DivCancel(amount * apyBps * (end - start), YEAR * BPS, REWARD_PRECISION); }
  }

  lemma CalcRewardsClosedForm(amount: nat, rateBps: nat, multiplierBps: nat, elapsed: nat)
    ensures CalcRewards(amount, rateBps, multiplierBps, elapsed)
            == amount * rateBps * multiplierBps * elapsed / (YEAR * 100_000_000)
  {
    var n := amount * rateBps * multiplierBps * elapsed;
    DivTwice(n * REWARD_PRECISION, YEAR, 100_000_000);
    DivTwice(n * REWARD_PRECISION, YEAR * 100_000_000, REWARD_PRECISION);
    DivCancel(n, YEAR * 100_000_000, REWARD_PRECISION);
  }

  /** The reward a partial unstake pays: of what the stake has earned, the part's share in millionths, rounded down. */
  lemma PartialGrantIs(p: Position, apyBps: nat, now: nat, part: nat)
    requires 0 < part <= p.amount
    ensures Granted(p, apyBps, UnstakeAt(now, part))
            == CalculateRewards(p.amount, p.since, now, apyBps) * (part * 1_000_000 / p.amount) / 1_000_000
  {
  }

  /** Pending rewards: nothing after an emergency exit; else an overflow, or the stepped total less claims, never negative. */
  lemma PendingIs(amount: nat, rateBps: nat, m: nat, e: nat, claimed: nat, emergency: bool)
    ensures var r := PendingRewards(amount, rateBps, m, e, claimed, emergency);
            var limit, yearly := 0x7FFF_FFFF_FFFF_FFFF_FFFF_FFFF_FFFF_FFFF, amount * rateBps / 10_000;
            && (emergency ==> r == Success(0))
            && (!emergency ==>
                  if amount * rateBps > limit || yearly * e > limit || (yearly * e / 31_536_000) * m > limit then r == Failure(Overflow)
                  else r.Success? && r.value == Max(SteppedTotal(amount, rateBps, m, e) - claimed, 0))
  {
  }

  // ---------------------------------------------------------------- step truncation against the closed form

  /**
   * Stepwise truncation loses something, but boundedly: T <= C < T + (e/Y + 1) m/10^4 + 1,
   * written over the common denominator Y * 10^4.
   */
  lemma SteppedTotalIsClose(amount: nat, rateBps: nat, m: nat, e: nat)
    ensures SteppedTotal(amount, rateBps, m, e) <= CalcRewards(amount, rateBps, m, e)
    ensures CalcRewards(amount, rateBps, m, e) * (YEAR * BPS)
            < SteppedTotal(amount, rateBps, m, e) * (YEAR * BPS) + (e + YEAR) * m + YEAR * BPS
  {
    var p := amount * rateBps;
    var x := p / BPS;
    var y := x * e / YEAR;
    var t := y * m / BPS;
    assert t == SteppedTotal(amount, rateBps, m, e);
    DivBounds(p, BPS);
    DivBounds(x * e, YEAR);
    DivBounds(y * m, BPS);
    var n := p * m * e;
    var c := CalcRewards(amount, rateBps, m, e);
    CalcRewardsClosedForm(amount, rateBps, m, e);
    assert c == n / (YEAR * 100_000_000) by { assert amount * rateBps * m * e == n; }
    DivBounds(n, YEAR * 100_000_000);
    SteppedBelow(p, x, y, t, m, e, n, c);
    Shuffle(m, e, p);
    SteppedAbove(p, x, y, t, m, e, n, c);
  }

  lemma SteppedBelow(p: nat, x: nat, y: nat, t: nat, m: nat, e: nat, n: nat, c: nat)
    requires BPS * x <= p && YEAR * y <= x * e && BPS * t <= y * m
    requires n == p * m * e && n < YEAR * 100_000_000 * c + YEAR * 100_000_000
    ensures t <= c
  {
    calc {
      YEAR * 100_000_000 * t;
    == YEAR * BPS * (BPS * t);
    <= { MulMono(YEAR * BPS, BPS * t, y * m); }
      YEAR * BPS * (y * m);
    == BPS * m * (YEAR * y);
    <= { MulMono(BPS * m, YEAR * y, x * e); }
      BPS * m * (x * e);
    == (m * e) * (BPS * x);
    <= { MulMono(m * e, BPS * x, p); }
      (m * e) * p;
    == n;
    }
  }

  lemma SteppedAbove(p: nat, x: nat, y: nat, t: nat, m: nat, e: nat, n: nat, c: nat)
    requires p < BPS * x + BPS && x * e < YEAR * y + YEAR && y * m < BPS * t + BPS
    requires n == (m * e) * p && YEAR * 100_000_000 * c <= n
    ensures c * (YEAR * BPS) < t * (YEAR * BPS) + (e + YEAR) * m + YEAR * BPS
  {
    ScaleRemainder(m * e, p, x, BPS);
    ScaleRemainder(m, x * e, y, YEAR);
    Shuffle(m, e, x);
    Shuffle(m, e, p);
    AddUpRemainders(c, t, m, m * e, y * m, m * (x * e), n);
    Distribute(m, e, YEAR);
  }

  lemma ScaleRemainder(k: nat, p: nat, x: nat, d: nat)
    requires p < d * x + d
    ensures k * p <= d * (k * x) + d * k
  {
    MulMono(k, p, d * x + d);
    assert k * (d * x + d) == d * (k * x) + d * k;
  }

  lemma AddUpRemainders(c: nat, t: nat, m: nat, me: nat, ym: nat, mxe: nat, n: nat)
    requires YEAR * 100_000_000 * c <= n <= BPS * mxe + BPS * me
    requires mxe <= YEAR * ym + YEAR * m && ym < BPS * t + BPS
    ensures c * (YEAR * BPS) < t * (YEAR * BPS) + me + YEAR * m + YEAR * BPS
  {
  }

  /** Without overflow the pending amount is the stepped total less what was claimed, never negative. */
  lemma PendingIsSteppedLessClaimed(amount: nat, rateBps: nat, m: nat, e: nat, claimed: nat)
    requires PendingRewards(amount, rateBps, m, e, claimed, false).Success?
    ensures PendingRewards(amount, rateBps, m, e, claimed, false).value
            == Max(SteppedTotal(amount, rateBps, m, e) - claimed, 0)
  {
  }

  // ---------------------------------------------------------------- RewardsModule::claim_rewards over time

  /** Stored claimed_rewards after claims at the given elapsed times; a failed claim changes nothing. */
  function ClaimedAfter(amount: nat, rateBps: nat, m: nat, claimed: nat, times: seq<nat>): nat
    decreases |times|
  {
    if times == [] then claimed
    else
      var p := PendingRewards(amount, rateBps, m, times[0], claimed, false);
      ClaimedAfter(amount, rateBps, m, claimed + (if p.Success? then p.value else 0), times[1..])
  }

  /** What the steps compute before their divisions only grows with time. */
  lemma OverflowIsMonotone(amount: nat, rateBps: nat, m: nat, e: nat, f: nat, claimed: nat)
    requires e <= f && PendingRewards(amount, rateBps, m, f, claimed, false).Success?
    ensures PendingRewards(amount, rateBps, m, e, claimed, false).Success?
  {
    var x := amount * rateBps / BPS;
    MulMono(x, e, f);
    DivMono(x * e, x * f, YEAR);
    MulMono(m, x * e / YEAR, x * f / YEAR);
  }

  /**
   * Claiming at e leaves for a later f exactly what the stepped total grew by: nothing at once, and nothing
   * is lost or paid twice.
   */
  lemma ClaimLeavesGrowth(amount: nat, rateBps: nat, m: nat, e: nat, f: nat, claimed: nat)
    requires e <= f && PendingRewards(amount, rateBps, m, f, claimed, false).Success?
    requires claimed <= SteppedTotal(amount, rateBps, m, e)
    ensures PendingRewards(amount, rateBps, m, e, claimed, false).Success?
    ensures var now := PendingRewards(amount, rateBps, m, e, claimed, false).value;
            PendingRewards(amount, rateBps, m, f, claimed + now, false)
            == Success(SteppedTotal(amount, rateBps, m, f) - SteppedTotal(amount, rateBps, m, e))
  {
    OverflowIsMonotone(amount, rateBps, m, e, f, claimed);
    PendingIsSteppedLessClaimed(amount, rateBps, m, e, claimed);
    var now := PendingRewards(amount, rateBps, m, e, claimed, false).value;
    PendingIsSteppedLessClaimed(amount, rateBps, m, f, claimed + now);
    SteppedMonotone(amount, rateBps, m, e, f);
  }

  lemma SteppedMonotone(amount: nat, rateBps: nat, m: nat, e: nat, f: nat)
    requires e <= f
    ensures SteppedTotal(amount, rateBps, m, e) <= SteppedTotal(amount, rateBps, m, f)
  {
    var x := amount * rateBps / BPS;
    MulMono(x, e, f);
    DivMono(x * e, x * f, YEAR);
    MulMono(m, x * e / YEAR, x * f / YEAR);
    DivMono(x * e / YEAR * m, x * f / YEAR * m, BPS);
  }

  /** However often one claims, the lifetime total never passes the stepped total at the latest claim. */
  lemma {:induction false} RepeatedClaimsTelescope(amount: nat, rateBps: nat, m: nat, claimed: nat, times: seq<nat>, last: nat)
    requires forall k :: 0 <= k < |times| ==> times[k] <= last
    ensures claimed <= ClaimedAfter(amount, rateBps, m, claimed, times)
                    <= Max(claimed, SteppedTotal(amount, rateBps, m, last))
    ensures times != [] && times[|times| - 1] == last
            && PendingRewards(amount, rateBps, m, last, 0, false).Success?
            ==> ClaimedAfter(amount, rateBps, m, claimed, times) == Max(claimed, SteppedTotal(amount, rateBps, m, last))
    decreases |times|
  {
    if times != [] {
      var p := PendingRewards(amount, rateBps, m, times[0], claimed, false);
      SteppedMonotone(amount, rateBps, m, times[0], last);
      RepeatedClaimsTelescope(amount, rateBps, m, claimed + (if p.Success? then p.value else 0), times[1..], last);
    }
  }

  // ---------------------------------------------------------------- one stake under claims and partial unstakes

  /** The part of a stake record that claim_staking_rewards and partial_unstake read and write. */
  datatype Position = Position(amount: nat, since: nat, accumulated: nat, claimed: nat)

  datatype Move = ClaimAt(now: nat) | UnstakeAt(now: nat, part: nat)

  /** What one move pays or locks as reward. */
  function Granted(p: Position, apyBps: nat, mv: Move): nat {
    match mv
    case ClaimAt(now) => CalculateRewards(p.amount, p.since, now, apyBps)
    case UnstakeAt(now, part) =>
      if part == 0 || part > p.amount then 0
      else
        var ratio := part * REWARD_PRECISION / p.amount;
        CalculateRewards(p.amount, p.since, now, apyBps) * ratio / REWARD_PRECISION
  }

  function Moved(p: Position, apyBps: nat, mv: Move): Position {
    var total := CalculateRewards(p.amount, p.since, mv.now, apyBps);
    match mv
    case ClaimAt(now) =>
      if total <= 0 then p else Position(p.amount, now, 0, p.claimed + total)
    case UnstakeAt(now, part) =>
      if part == 0 || part > p.amount then p
      else
        PartIsAtMostTotal(total, part, p.amount);
        Position(p.amount - part, now, total - Granted(p, apyBps, mv), p.claimed)
  }

  /** What a move leaves: a claim that earned nothing leaves all, any other starts afresh; a partial unstake sets the rest aside. */
  lemma MoveLeaves(p: Position, apyBps: nat, now: nat, part: nat)
    ensures var earned := CalculateRewards(p.amount, p.since, now, apyBps);
            && Moved(p, apyBps, ClaimAt(now)) == (if earned == 0 then p else Position(p.amount, now, 0, p.claimed + earned))
            && (0 < part <= p.amount ==>
                  var left := earned - Granted(p, apyBps, UnstakeAt(now, part));
                  left >= 0 && Moved(p, apyBps, UnstakeAt(now, part)) == Position(p.amount - part, now, left, p.claimed))
  {
    if 0 < part <= p.amount { PartIsAtMostTotal(CalculateRewards(p.amount, p.since, now, apyBps), part, p.amount); }
    hide CalculateRewards;
  }

  // ---------------------------------------------------------------- the claim formula under the unstake formula

  lemma QuotientAtLeast(a: nat, d: nat, g: nat)
    requires d > 0 && d * g <= a
    ensures g <= a / d
  {
    DivBounds(a, d);
    if g > a / d { MulMono(d, a / d + 1, g); }
  }

  /** The unstake formula as a multiple of the amount. */
  lemma CalcRewardsPerUnit(amount: nat, rate: nat, m: nat, e: nat)
    ensures CalcRewards(amount, rate, m, e) == (rate * m * e) * amount / (YEAR * 100_000_000)
  {
    CalcRewardsClosedForm(amount, rate, m, e);
    Chain(amount, rate, m, e);
  }

  lemma Chain(a: nat, b: nat, c: nat, d: nat)
    ensures a * b * c * d == (b * c * d) * a
  {
  }

  /** The unstake formula on two amounts never exceeds it on their sum. */
  lemma CalcRewardsSuperadditive(a: nat, b: nat, rate: nat, m: nat, e: nat)
    ensures CalcRewards(a, rate, m, e) + CalcRewards(b, rate, m, e) <= CalcRewards(a + b, rate, m, e)
  {
    hide CalcRewards;
    CalcRewardsPerUnit(a, rate, m, e);
    CalcRewardsPerUnit(b, rate, m, e);
    CalcRewardsPerUnit(a + b, rate, m, e);
    var x := rate * m * e;
    Distribute(x, a, b);
    DivSuperadditive(x * a, x * b, YEAR * 100_000_000);
  }

  /** A share, rounded down twice, of a quotient rounded down, within the share of its numerator. */
  lemma ShareWithin(amount: nat, part: nat, ratio: nat, prec: nat, c: nat, g: nat, d: nat, x: nat)
    requires amount > 0 && prec > 0
    requires d * c <= amount * x && amount * ratio <= part * prec && prec * g <= c * ratio
    ensures d * g <= part * x
  {
    var k := amount * prec;
    calc {
      k * (d * g);
    == { Regroup(amount, prec, d, g); }
      (amount * d) * (prec * g);
    <= { MulMono(amount * d, prec * g, c * ratio); }
      (amount * d) * (c * ratio);
    == { Regroup(amount, d, c, ratio); Regroup(d, c, amount, ratio); }
      (d * c) * (amount * ratio);
    <= { MulMono(d * c, amount * ratio, part * prec); MulMono(part * prec, d * c, amount * x); }
      (part * prec) * (amount * x);
    == { Regroup(part, prec, amount, x); Regroup(amount, prec, part, x); }
      k * (part * x);
    }
    if d * g > part * x { MulMono(k, part * x + 1, d * g); }
  }

  lemma Regroup(a: nat, b: nat, c: nat, d: nat)
    ensures (a * b) * (c * d) == (a * c) * (b * d)
  {
  }

  /** At a multiplier of at least one, a partial unstake grants no more than the unstake formula on the part. */
  lemma PartWithinFormula(p: Position, rate: nat, m: nat, now: nat, part: nat, e: nat)
    requires m >= BPS && now <= p.since + e
    ensures Granted(p, rate, UnstakeAt(now, part)) <= CalcRewards(part, rate, m, e)
  {
    if 0 < part <= p.amount && now > p.since {
      var t, x, d := now - p.since, rate * (now - p.since), YEAR * BPS;
      var c, ratio := CalculateRewards(p.amount, p.since, now, rate), part * REWARD_PRECISION / p.amount;
      var g := Granted(p, rate, UnstakeAt(now, part));
      CalculateRewardsClosedForm(p.amount, p.since, now, rate);
      assert p.amount * rate * t == p.amount * x by { Associate(p.amount, rate, t); }
      DivBounds(p.amount * x, d);
      DivBounds(part * REWARD_PRECISION, p.amount);
      DivBounds(c * ratio, REWARD_PRECISION);
      ShareWithin(p.amount, part, ratio, REWARD_PRECISION, c, g, d, x);
      FormulaAtLeast(part, rate, m, t, e, g);
    }
  }

  lemma FormulaAtLeast(part: nat, rate: nat, m: nat, t: nat, e: nat, g: nat)
    requires m >= BPS && t <= e && YEAR * BPS * g <= part * (rate * t)
    ensures g <= CalcRewards(part, rate, m, e)
  {
    CalcRewardsClosedForm(part, rate, m, e);
    calc {
      YEAR * 100_000_000 * g;
    == BPS * (YEAR * BPS * g);
    <= { MulMono(BPS, YEAR * BPS * g, part * (rate * t)); }
      BPS * (part * (rate * t));
    == { Associate(part, rate, t); }
      BPS * ((part * rate) * t);
    <= { MulMono(part * rate, t, e); MulMono(BPS, part * rate * t, part * rate * e); }
      BPS * ((part * rate) * e);
    <= { MulMono(part * rate * e, BPS, m); }
      (part * rate * e) * m;
    == { Associate(part * rate, e, m); Associate(part * rate, m, e); }
      part * rate * m * e;
    }
    QuotientAtLeast(part * rate * m * e, YEAR * 100_000_000, g);
  }

  /**
   * One move at a multiplier of at least one: what it grants, plus the unstake formula on the principal it
   * leaves, passes the formula on the principal before by no more than claimed_rewards grew.
   */
  lemma MoveWithinFormula(p: Position, rate: nat, m: nat, mv: Move, e: nat)
    requires m >= BPS && mv.now <= p.since + e
    ensures var q := Moved(p, rate, mv);
            && q.claimed >= p.claimed
            && Granted(p, rate, mv) + CalcRewards(q.amount, rate, m, e) <= CalcRewards(p.amount, rate, m, e) + (q.claimed - p.claimed)
  {
    if mv.UnstakeAt? && 0 < mv.part <= p.amount {
      PartWithinFormula(p, rate, m, mv.now, mv.part, e);
      CalcRewardsSuperadditive(mv.part, p.amount - mv.part, rate, m, e);
    }
  }

  // ---------------------------------------------------------------- sequences of moves

  function GrantedAll(p: Position, apyBps: nat, mvs: seq<Move>): nat
    decreases |mvs|
  {
    if mvs == [] then 0 else Granted(p, apyBps, mvs[0]) + GrantedAll(Moved(p, apyBps, mvs[0]), apyBps, mvs[1..])
  }

  /** What a partial unstake sets aside as accumulated_rewards is not paid by anything that follows. */
  lemma {:induction false} AccumulatedIsNeverPaid(p: Position, accumulated: nat, apyBps: nat, mvs: seq<Move>)
    ensures GrantedAll(p.(accumulated := accumulated), apyBps, mvs) == GrantedAll(p, apyBps, mvs)
    decreases |mvs|
  {
    if mvs != [] {
      var q, r := Moved(p, apyBps, mvs[0]), Moved(p.(accumulated := accumulated), apyBps, mvs[0]);
      assert r == q.(accumulated := r.accumulated);
      AccumulatedIsNeverPaid(q, r.accumulated, apyBps, mvs[1..]);
    }
  }

  ghost predicate InTime(since: nat, mvs: seq<Move>, last: nat)
    decreases |mvs|
  {
    if mvs == [] then since <= last else since <= mvs[0].now && InTime(mvs[0].now, mvs[1..], last)
  }

  lemma {:induction false} InTimeWeaken(earlier: nat, since: nat, mvs: seq<Move>, last: nat)
    requires earlier <= since && InTime(since, mvs, last)
    ensures InTime(earlier, mvs, last) && since <= last
    decreases |mvs|
  {
    if mvs != [] { InTimeWeaken(since, mvs[0].now, mvs[1..], last); }
  }

  lemma PartIsAtMostTotal(total: nat, part: nat, amount: nat)
    requires 0 < part <= amount
    ensures total * (part * REWARD_PRECISION / amount) / REWARD_PRECISION <= total
  {
    var ratio := part * REWARD_PRECISION / amount;
    DivBounds(part * REWARD_PRECISION, amount);
    MulMono(REWARD_PRECISION, part, amount);
    if ratio > REWARD_PRECISION { MulMono(amount, REWARD_PRECISION + 1, ratio); }
    MulMono(total, ratio, REWARD_PRECISION);
    DivMono(total * ratio, total * REWARD_PRECISION, REWARD_PRECISION);
    DivIs(total * REWARD_PRECISION, REWARD_PRECISION, total);
  }

  /** Splitting the period, and keeping less principal in its second part, never earns more. */
  lemma SplitEarnsNoMore(amount: nat, rest: nat, since: nat, now: nat, last: nat, apyBps: nat)
    requires rest <= amount && since <= now <= last
    ensures CalculateRewards(amount, since, now, apyBps) + CalculateRewards(rest, now, last, apyBps)
            <= CalculateRewards(amount, since, last, apyBps)
  {
    CalculateRewardsClosedForm(amount, since, now, apyBps);
    CalculateRewardsClosedForm(rest, now, last, apyBps);
    CalculateRewardsClosedForm(amount, since, last, apyBps);
    var rate := amount * apyBps;
    var a, b := rate * (now - since), rest * apyBps * (last - now);
    DivSuperadditive(a, b, YEAR * BPS);
    assert rest * apyBps <= rate by { MulMono(apyBps, rest, amount); }
    assert b <= rate * (last - now) by { MulMono(last - now, rest * apyBps, rate); }
    assert rate * (last - since) == a + rate * (last - now) by { Distribute(rate, now - since, last - now); }
    DivMono(a + b, rate * (last - since), YEAR * BPS);
  }

  /** One move: what it grants, plus the most the rest can still earn, is within what was due before. */
  lemma MoveWithinDue(p: Position, apyBps: nat, mv: Move, last: nat)
    requires p.since <= mv.now <= last
    ensures var q := Moved(p, apyBps, mv);
            && p.since <= q.since <= mv.now && q.amount <= p.amount
            && Granted(p, apyBps, mv) + CalculateRewards(q.amount, q.since, last, apyBps)
               <= CalculateRewards(p.amount, p.since, last, apyBps)
  {
    var q := Moved(p, apyBps, mv);
    SplitEarnsNoMore(p.amount, q.amount, p.since, mv.now, last, apyBps);
    if mv.UnstakeAt? && 0 < mv.part <= p.amount {
      PartIsAtMostTotal(CalculateRewards(p.amount, p.since, mv.now, apyBps), mv.part, p.amount);
    }
  }

  /**
   * Main result: over any timely sequence of claims and partial unstakes, everything granted is at
   * most the one closed-form reward on the initial principal for the whole period.
   */
  lemma {:induction false} GrantsBoundedByClosedForm(p: Position, apyBps: nat, mvs: seq<Move>, last: nat)
    requires InTime(p.since, mvs, last)
    ensures GrantedAll(p, apyBps, mvs) <= CalculateRewards(p.amount, p.since, last, apyBps)
    ensures CalculateRewards(p.amount, p.since, last, apyBps) == p.amount * apyBps * Max(0, last - p.since) / (YEAR * BPS)
    decreases |mvs|
  {
    InTimeWeaken(p.since, p.since, mvs, last);
    CalculateRewardsClosedForm(p.amount, p.since, last, apyBps);
    if mvs != [] {
      var now := mvs[0].now;
      InTimeWeaken(now, now, mvs[1..], last);
      MoveWithinDue(p, apyBps, mvs[0], last);
      var q := Moved(p, apyBps, mvs[0]);
      InTimeWeaken(q.since, now, mvs[1..], last);
      GrantsBoundedByClosedForm(q, apyBps, mvs[1..], last);
    }
  }
}
