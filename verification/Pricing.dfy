/**
 * The pricing engine of backend/src/pricing/pricing-engine.service.ts. Times are UTC
 * milliseconds, money and hours are reals, and decimal rounding is written out.
 */
module Pricing {
  import opened Common
  import opened Intervals

  const HOUR: int := 3_600_000
  const DAY: int := 86_400_000

  /** Labels play no part and are left out. */
  datatype PriceRule = PriceRule(id: nat, workspace: nat, dayOfWeek: int, startHour: int, endHour: int,
                                 ratePerHour: real, isActive: bool)

  datatype Segment = Segment(rule: Option<nat>, start: int, end: int, hours: real, ratePerHour: real, cost: real)

  datatype Tier = Admin | Staff | Member | Unlisted

  datatype Snapshot = Snapshot(segments: seq<Segment>, totalAmount: real, tier: Tier, tierDiscount: real)

  datatype Error = EndNotAfterStart | StartHourNotBeforeEnd | Overlap(with: nat) | RuleNotFound

  // ---------------------------------------------------------------- the clock and the rounding

  /** getUTCDay: day 0 of the epoch was a Thursday. */
  function DayOfWeek(t: int): int { (t / DAY + 4) % 7 }

  function HourOfDay(t: int): int { t / HOUR % 24 }

  function NextHour(t: int): int { (t / HOUR + 1) * HOUR }

  /** toFixed: the nearest multiple of 1/scale, halves away from zero. */
  function RoundTo(x: real, scale: real): (r: real)
    requires scale > 0.0
  {
    if x < 0.0 then -((-x * scale + 0.5).Floor as real / scale) else (x * scale + 0.5).Floor as real / scale
  }

  function Distance(x: real, y: real): real { if x < y then y - x else x - y }

  function Discount(tier: Tier): real {
    match tier
    case Admin => 0.0
    case Staff => 0.15
    case Member => 0.1
    case Unlisted => 0.0
  }

  // ---------------------------------------------------------------- matching

  predicate Applies(r: PriceRule, moment: int) {
    && r.isActive
    && r.dayOfWeek == DayOfWeek(moment)
    && r.startHour <= HourOfDay(moment) < r.endHour
  }

  /** The first rule that applies. */
  function FindMatchingRule(rules: seq<PriceRule>, moment: int): (r: Option<PriceRule>)
    ensures r.Some? ==> r.value in rules && Applies(r.value, moment)
    ensures r.None? ==> forall i :: 0 <= i < |rules| ==> !Applies(rules[i], moment)
  {
    if rules == [] then None
    else if Applies(rules[0], moment) then Some(rules[0])
    else FindMatchingRule(rules[1..], moment)
  }

  /** It is the first one in list order that applies. */
  lemma {:induction false} FirstMatchWins(rules: seq<PriceRule>, moment: int, i: nat)
    requires i < |rules| && Applies(rules[i], moment)
    requires forall j :: 0 <= j < i ==> !Applies(rules[j], moment)
    ensures FindMatchingRule(rules, moment) == Some(rules[i])
    decreases i
  {
    if i > 0 {
      forall j | 0 <= j < i - 1 ensures !Applies(rules[1..][j], moment) { assert rules[1..][j] == rules[j + 1]; }
      FirstMatchWins(rules[1..], moment, i - 1);
    }
  }

  function RateAt(rules: seq<PriceRule>, fallback: real, moment: int): real {
    var rule := FindMatchingRule(rules, moment);
    if rule.Some? then rule.value.ratePerHour else fallback
  }

  // ---------------------------------------------------------------- slicing

  function HoursOf(milliseconds: int): real { milliseconds as real / 3_600_000.0 }

  function CostOf(milliseconds: int, rate: real): real { HoursOf(milliseconds) * rate }

  function Slice(rules: seq<PriceRule>, fallback: real, start: int, end: int): Segment {
    var rule := FindMatchingRule(rules, start);
    var rate := RateAt(rules, fallback, start);
    Segment(if rule.Some? then Some(rule.value.id) else None, start, end,
            RoundTo(HoursOf(end - start), 1_000_000.0), rate, RoundTo(CostOf(end - start, rate), 1_000_000.0))
  }

  function Slices(rules: seq<PriceRule>, fallback: real, start: int, end: int): seq<Segment>
    decreases end - start
  {
    if start >= end then []
    else
      var sliceEnd := Min(NextHour(start), end);
      [Slice(rules, fallback, start, sliceEnd)] + Slices(rules, fallback, sliceEnd, end)
  }

  lemma NextHourIsLater(t: int)
    ensures t < NextHour(t)
  {
  }

  method BuildSegments(rules: seq<PriceRule>, fallback: real, start: int, end: int) returns (segments: seq<Segment>)
    ensures segments == Slices(rules, fallback, start, end)
  {
    hide RoundTo, HoursOf, CostOf, FindMatchingRule, NextHour;
    segments := [];
    var cursor := start;
    while cursor < end
      invariant start <= end ==> cursor <= end
      invariant segments + Slices(rules, fallback, cursor, end) == Slices(rules, fallback, start, end)
      decreases end - cursor
    {
      var nextHour := NextHour(cursor);
      NextHourIsLater(cursor);
      var sliceEnd := if nextHour < end then nextHour else end;
      var rule := FindMatchingRule(rules, cursor);
      var rate := if rule.Some? then rule.value.ratePerHour else fallback;
      var segment := Segment(if rule.Some? then Some(rule.value.id) else None, cursor, sliceEnd,
                             RoundTo(HoursOf(sliceEnd - cursor), 1_000_000.0), rate,
                             RoundTo(CostOf(sliceEnd - cursor, rate), 1_000_000.0));
      assert segment == Slice(rules, fallback, cursor, sliceEnd);
      ghost var rest := Slices(rules, fallback, sliceEnd, end);
      assert segments + ([segment] + rest) == (segments + [segment]) + rest;
      segments := segments + [segment];
      cursor := sliceEnd;
    }
  }

  function Gross(segments: seq<Segment>): real {
    if segments == [] then 0.0 else segments[0].cost + Gross(segments[1..])
  }

  function Discounted(gross: real, tier: Tier): real { gross * (1.0 - Discount(tier)) }

  function Priced(rules: seq<PriceRule>, fallback: real, start: int, end: int, tier: Tier): Result<Snapshot, Error> {
    if end <= start then Failure(EndNotAfterStart)
    else
      var segments := Slices(rules, fallback, start, end);
      Success(Snapshot(segments, RoundTo(Discounted(Gross(segments), tier), 100.0), tier, Discount(tier)))
  }

  method SumCosts(segments: seq<Segment>) returns (total: real)
    ensures total == Gross(segments)
  {
    total := 0.0;
    for i := 0 to |segments|
      invariant total + Gross(segments[i..]) == Gross(segments)
    {
      assert segments[i..][1..] == segments[i + 1..];
      total := total + segments[i].cost;
    }
  }

  method CalculatePrice(rules: seq<PriceRule>, fallback: real, start: int, end: int, tier: Tier)
    returns (r: Result<Snapshot, Error>)
    ensures r == Priced(rules, fallback, start, end, tier)
  {
    if end <= start { return Failure(EndNotAfterStart); }
    var segments := BuildSegments(rules, fallback, start, end);
    var gross := SumCosts(segments);
    r := Success(Snapshot(segments, RoundTo(Discounted(gross, tier), 100.0), tier, Discount(tier)));
  }

  // ---------------------------------------------------------------- what the slices are

  /** Consecutive, non-empty, from start to end with nothing left over. */
  ghost predicate Tile(segments: seq<Segment>, start: int, end: int) {
    if segments == [] then start == end
    else segments[0].start == start < segments[0].end && Tile(segments[1..], segments[0].end, end)
  }

  ghost predicate WithinOneHour(s: Segment) { s.start / HOUR == (s.end - 1) / HOUR }

  lemma NextHourIsNext(t: int, u: int)
    requires t <= u < NextHour(t)
    ensures u / HOUR == t / HOUR
  {
  }

  lemma {:induction false} SlicesTile(rules: seq<PriceRule>, fallback: real, start: int, end: int)
    requires start <= end
    ensures Tile(Slices(rules, fallback, start, end), start, end)
    decreases end - start
  {
    if start < end { SlicesTile(rules, fallback, Min(NextHour(start), end), end); }
  }

  /** Each slice stays inside one clock hour, and one rate holds at each of its milliseconds. */
  lemma {:induction false} SlicesAreUniform(rules: seq<PriceRule>, fallback: real, start: int, end: int, k: nat, t: int)
    requires k < |Slices(rules, fallback, start, end)|
    ensures var s := Slices(rules, fallback, start, end)[k];
            && start <= s.start < s.end <= end && WithinOneHour(s)
            && (s.start <= t < s.end ==> RateAt(rules, fallback, t) == s.ratePerHour)
    decreases k
  {
    var sliceEnd := Min(NextHour(start), end);
    if k == 0 {
      NextHourIsNext(start, sliceEnd - 1);
      if start <= t < sliceEnd { RateIsHourly(rules, fallback, start, t); }
    } else {
      SlicesAreUniform(rules, fallback, sliceEnd, end, k - 1, t);
    }
  }

  /** As many slices as clock hours touched. */
  lemma {:induction false} SliceCount(rules: seq<PriceRule>, fallback: real, start: int, end: int)
    requires start < end
    ensures |Slices(rules, fallback, start, end)| == (end - 1) / HOUR - start / HOUR + 1
    decreases end - start
  {
    var next := NextHour(start);
    if next < end {
      SliceCount(rules, fallback, next, end);
      assert next / HOUR == start / HOUR + 1;
    } else {
      NextHourIsNext(start, end - 1);
      assert Slices(rules, fallback, end, end) == [];
    }
  }

  lemma SameHour(t: int, u: int)
    requires t / HOUR == u / HOUR
    ensures HourOfDay(t) == HourOfDay(u) && DayOfWeek(t) == DayOfWeek(u)
  {
    assert t / DAY == t / HOUR / 24 && u / DAY == u / HOUR / 24;
  }

  lemma {:induction false} SameHourSameRule(rules: seq<PriceRule>, t: int, u: int)
    requires t / HOUR == u / HOUR
    ensures FindMatchingRule(rules, t) == FindMatchingRule(rules, u)
  {
    SameHour(t, u);
    if rules != [] { SameHourSameRule(rules[1..], t, u); }
  }

  lemma RateIsHourly(rules: seq<PriceRule>, fallback: real, start: int, t: int)
    requires start <= t < NextHour(start)
    ensures RateAt(rules, fallback, t) == RateAt(rules, fallback, start)
  {
    NextHourIsNext(start, t);
    SameHourSameRule(rules, t, start);
  }

  // ---------------------------------------------------------------- the calendar, and the rate of a slice

  /** Millisecond m of hour h of day k, counted from the epoch. */
  function Moment(k: int, h: nat, m: nat): int { k * 86_400_000 + h * 3_600_000 + m }

  lemma MomentSplits(k: int, h: nat, m: nat)
    requires h < 24 && m < 3_600_000
    ensures Moment(k, h, m) / DAY == k && Moment(k, h, m) / HOUR == 24 * k + h
  {
    assert 0 <= h * 3_600_000 + m < 86_400_000;
  }

  /** The epoch began on a Thursday, weekdays follow each other, and every day has its 24 hours in order. */
  lemma Calendar(k: int, h: nat, m: nat)
    requires h < 24 && m < 3_600_000
    ensures DayOfWeek(0) == 4
    ensures DayOfWeek(Moment(k, h, m)) == (k + 4) % 7
    ensures DayOfWeek(Moment(k, h, m) + 86_400_000) == (DayOfWeek(Moment(k, h, m)) + 1) % 7
    ensures HourOfDay(Moment(k, h, m)) == h
    ensures NextHour(Moment(k, h, m)) == Moment(k, h, 0) + 3_600_000
  {
    MomentSplits(k, h, m);
    MomentSplits(k + 1, h, m);
    assert Moment(k, h, m) + 86_400_000 == Moment(k + 1, h, m);
  }

  /** When a rule is in force: active, on its weekday, from its first hour up to its last, excluded. */
  predicate InForce(r: PriceRule, k: int, h: nat) { r.isActive && r.dayOfWeek == (k + 4) % 7 && r.startHour <= h && h < r.endHour }

  lemma AppliesIffInForce(r: PriceRule, k: int, h: nat, m: nat)
    requires h < 24 && m < 3_600_000
    ensures Applies(r, Moment(k, h, m)) <==> InForce(r, k, h)
  {
    Calendar(k, h, m);
    hide DayOfWeek, HourOfDay, Moment;
  }

  /** The rule and the rate charged at a moment: those of the first rule in force, or none and the workspace's own rate. */
  lemma ChargedAt(rules: seq<PriceRule>, fallback: real, k: int, h: nat, m: nat, i: nat)
    requires h < 24 && m < 3_600_000
    ensures var t := Moment(k, h, m);
            && ((forall j :: 0 <= j < |rules| ==> !InForce(rules[j], k, h)) ==>
                  FindMatchingRule(rules, t) == None && RateAt(rules, fallback, t) == fallback)
            && (i < |rules| && InForce(rules[i], k, h) && (forall j :: 0 <= j < i ==> !InForce(rules[j], k, h)) ==>
                  FindMatchingRule(rules, t) == Some(rules[i]) && RateAt(rules, fallback, t) == rules[i].ratePerHour)
  {
    var t := Moment(k, h, m);
    forall j | 0 <= j < |rules| ensures Applies(rules[j], t) <==> InForce(rules[j], k, h) {
      AppliesIffInForce(rules[j], k, h, m);
    }
    hide Applies, InForce, Moment;
    if i < |rules| && Applies(rules[i], t) && forall j :: 0 <= j < i ==> !Applies(rules[j], t) { FirstMatchWins(rules, t, i); }
  }

  /** n is a whole number, none is nearer to y, and between two as near it is the one further from zero. */
  ghost predicate Nearest(y: real, n: real) {
    n == n.Floor as real && Distance(n, y) <= 0.5 && (Distance(n, y) == 0.5 ==> if y < 0.0 then n < y else n > y)
  }

  /** r is the multiple of 1/scale nearest to x. */
  ghost predicate Rounded(x: real, scale: real, r: real) { Nearest(x * scale, r * scale) }

  lemma QuotientTimes(n: int, scale: real)
    requires scale > 0.0
    ensures (n as real / scale) * scale == n as real && (-(n as real / scale)) * scale == (-n) as real
  {
  }

  lemma Negates(x: real, scale: real)
    ensures -x * scale == -(x * scale)
  {
  }

  lemma SignStays(x: real, scale: real)
    requires scale > 0.0
    ensures x < 0.0 <==> x * scale < 0.0
  {
  }

  lemma RoundToBelow(x: real, scale: real)
    requires scale > 0.0 && x < 0.0
    ensures RoundTo(x, scale) * scale == (-(-(x * scale) + 0.5).Floor) as real
  {
    Negates(x, scale);
    QuotientTimes((-x * scale + 0.5).Floor, scale);
  }

  lemma RoundToAbove(x: real, scale: real)
    requires scale > 0.0 && x >= 0.0
    ensures RoundTo(x, scale) * scale == (x * scale + 0.5).Floor as real
  {
    QuotientTimes((x * scale + 0.5).Floor, scale);
  }

  lemma RoundToRounds(x: real, scale: real)
    requires scale > 0.0
    ensures Rounded(x, scale, RoundTo(x, scale))
  {
    hide Nearest, RoundTo;
    SignStays(x, scale);
    if x < 0.0 {
      RoundToBelow(x, scale);
      NearestBelow(x * scale);
    } else {
      RoundToAbove(x, scale);
      NearestAbove(x * scale);
    }
  }

  lemma NearestAbove(y: real)
    requires y >= 0.0
    ensures Nearest(y, (y + 0.5).Floor as real)
  {
  }

  lemma NearestBelow(y: real)
    requires y < 0.0
    ensures Nearest(y, (-(-y + 0.5).Floor) as real)
  {
  }

  /** Every slice starts somewhere in the calendar, and is charged its length at the rate of that hour. */
  lemma SliceIsCharged(rules: seq<PriceRule>, fallback: real, start: int, end: int, n: nat, k: int, h: nat, m: nat)
    requires n < |Slices(rules, fallback, start, end)| && h < 24 && m < 3_600_000
    requires Slices(rules, fallback, start, end)[n].start == Moment(k, h, m)
    ensures var s := Slices(rules, fallback, start, end)[n];
            && s.end == Min(Moment(k, h, 0) + 3_600_000, end)
            && s.ratePerHour == RateAt(rules, fallback, Moment(k, h, m))
            && s.rule == (if FindMatchingRule(rules, Moment(k, h, m)).Some? then Some(FindMatchingRule(rules, Moment(k, h, m)).value.id) else None)
            && Rounded(HoursOf(s.end - s.start), 1_000_000.0, s.hours)
            && Rounded(CostOf(s.end - s.start, s.ratePerHour), 1_000_000.0, s.cost)
  {
    hide *;
    SliceAt(rules, fallback, start, end, n);
    Calendar(k, h, m);
    SliceIs(rules, fallback, Slices(rules, fallback, start, end)[n]);
  }

  lemma SliceIs(rules: seq<PriceRule>, fallback: real, s: Segment)
    requires s == Slice(rules, fallback, s.start, s.end)
    ensures var rule := FindMatchingRule(rules, s.start);
            && s.ratePerHour == RateAt(rules, fallback, s.start)
            && s.rule == (if rule.Some? then Some(rule.value.id) else None)
            && Rounded(HoursOf(s.end - s.start), 1_000_000.0, s.hours)
            && Rounded(CostOf(s.end - s.start, s.ratePerHour), 1_000_000.0, s.cost)
  {
    hide Rounded, RoundTo, FindMatchingRule, HoursOf, CostOf;
    RoundToRounds(HoursOf(s.end - s.start), 1_000_000.0);
    RoundToRounds(CostOf(s.end - s.start, RateAt(rules, fallback, s.start)), 1_000_000.0);
  }

  lemma {:induction false} SliceAt(rules: seq<PriceRule>, fallback: real, start: int, end: int, n: nat)
    requires n < |Slices(rules, fallback, start, end)|
    ensures var s := Slices(rules, fallback, start, end)[n];
            s == Slice(rules, fallback, s.start, s.end) && s.end == Min(NextHour(s.start), end)
    decreases n
  {
    hide Slice;
    SliceKeepsBounds(rules, fallback, start, Min(NextHour(start), end));
    if n > 0 { SliceAt(rules, fallback, Min(NextHour(start), end), end, n - 1); }
  }

  lemma SliceKeepsBounds(rules: seq<PriceRule>, fallback: real, start: int, end: int)
    ensures Slice(rules, fallback, start, end).start == start && Slice(rules, fallback, start, end).end == end
  {
  }

  /** Length, cost and discount in plain figures: milliseconds, rate per hour, percent. */
  lemma Figures(milliseconds: int, rate: real, gross: real)
    ensures HoursOf(milliseconds) * 3_600_000.0 == milliseconds as real
    ensures CostOf(milliseconds, rate) * 3_600_000.0 == milliseconds as real * rate
    ensures Discounted(gross, Admin) == Discounted(gross, Unlisted) == gross
    ensures Discounted(gross, Staff) * 100.0 == 85.0 * gross && Discounted(gross, Member) * 100.0 == 90.0 * gross
  {
  }

  /** The bill: the sum of the slices, less 15 percent for Staff and 10 for Members, rounded to cents. */
  lemma PricedIs(rules: seq<PriceRule>, fallback: real, start: int, end: int, tier: Tier)
    ensures var r := Priced(rules, fallback, start, end, tier);
            && (start >= end ==> r == Failure(EndNotAfterStart))
            && (start < end ==>
                  && r.Success? && r.value.segments == Slices(rules, fallback, start, end) && r.value.tier == tier
                  && r.value.tierDiscount == (match tier case Staff => 0.15 case Member => 0.1 case Admin => 0.0 case Unlisted => 0.0)
                  && Rounded(Discounted(Gross(r.value.segments), tier), 100.0, r.value.totalAmount))
  {
    hide Rounded, RoundTo, Slices, Gross, Discounted;
    RoundToRounds(Discounted(Gross(Slices(rules, fallback, start, end)), tier), 100.0);
  }

  // ---------------------------------------------------------------- cost against the integral of the rate

  /** The rate in force, integrated millisecond by millisecond. */
  function Integral(rules: seq<PriceRule>, fallback: real, start: int, end: int): real
    decreases end - start
  {
    if start >= end then 0.0
    else CostOf(1, RateAt(rules, fallback, start)) + Integral(rules, fallback, start + 1, end)
  }

  lemma CostAdds(m: int, n: int, rate: real)
    ensures CostOf(m + n, rate) == CostOf(m, rate) + CostOf(n, rate)
  {
    assert (m + n) as real == m as real + n as real;
    var x, y := HoursOf(m), HoursOf(n);
    assert HoursOf(m + n) == x + y;
    assert (x + y) * rate == x * rate + y * rate;
  }

  lemma {:induction false} UniformIntegral(rules: seq<PriceRule>, fallback: real, start: int, end: int, rate: real)
    requires start <= end
    requires forall t :: start <= t < end ==> RateAt(rules, fallback, t) == rate
    ensures Integral(rules, fallback, start, end) == CostOf(end - start, rate)
    decreases end - start
  {
    if start < end {
      UniformIntegral(rules, fallback, start + 1, end, rate);
      CostAdds(1, end - start - 1, rate);
    } else {
      assert CostOf(0, rate) == 0.0;
    }
  }

  lemma {:induction false} IntegralSplits(rules: seq<PriceRule>, fallback: real, start: int, middle: int, end: int)
    requires start <= middle <= end
    ensures Integral(rules, fallback, start, end) ==
            Integral(rules, fallback, start, middle) + Integral(rules, fallback, middle, end)
    decreases middle - start
  {
    if start < middle { IntegralSplits(rules, fallback, start + 1, middle, end); }
  }

  lemma MicroRounding(x: real)
    ensures Distance(RoundTo(x, 1_000_000.0), x) <= 0.000_000_5
  {
  }

  lemma CentRounding(x: real)
    ensures Distance(RoundTo(x, 100.0), x) <= 0.005
  {
  }

  /** Main result: rounding is all that separates the bill from the integral of the rate. */
  lemma {:induction false} GrossIsAccurate(rules: seq<PriceRule>, fallback: real, start: int, end: int)
    requires start <= end
    ensures var segments := Slices(rules, fallback, start, end);
            Distance(Gross(segments), Integral(rules, fallback, start, end)) <= 0.000_000_5 * |segments| as real
    decreases end - start
  {
    if start < end {
      hide CostOf, RoundTo, HoursOf;
      var sliceEnd := Min(NextHour(start), end);
      var rate := RateAt(rules, fallback, start);
      forall t | start <= t < sliceEnd ensures RateAt(rules, fallback, t) == rate {
        RateIsHourly(rules, fallback, start, t);
      }
      UniformIntegral(rules, fallback, start, sliceEnd, rate);
      IntegralSplits(rules, fallback, start, sliceEnd, end);
      MicroRounding(CostOf(sliceEnd - start, rate));
      var rest := Slices(rules, fallback, sliceEnd, end);
      GrossIsAccurate(rules, fallback, sliceEnd, end);
      assert Slices(rules, fallback, start, end)[1..] == rest;
    }
  }

  /** Discounting never spreads two amounts further apart. */
  lemma DiscountContracts(x: real, y: real, tier: Tier)
    ensures Distance(Discounted(x, tier), Discounted(y, tier)) <= Distance(x, y)
  {
  }

  /** The whole call: the amount charged is the discounted integral, to half a cent and half a millionth per hour touched. */
  lemma PriceIsAccurate(rules: seq<PriceRule>, fallback: real, start: int, end: int, tier: Tier)
    ensures var r := Priced(rules, fallback, start, end, tier);
            && (r.Success? <==> start < end)
            && (r.Success? ==>
                  var hoursTouched := (end - 1) / HOUR - start / HOUR + 1;
                  Distance(r.value.totalAmount, Discounted(Integral(rules, fallback, start, end), tier))
                  <= 0.005 + 0.000_000_5 * hoursTouched as real)
  {
    if start < end {
      hide RoundTo, Discounted, Integral, Slices, Gross;
      var gross := Gross(Slices(rules, fallback, start, end));
      GrossIsAccurate(rules, fallback, start, end);
      SliceCount(rules, fallback, start, end);
      CentRounding(Discounted(gross, tier));
      DiscountContracts(gross, Integral(rules, fallback, start, end), tier);
    }
  }

  // ---------------------------------------------------------------- the rule set

  predicate Overlaps(r: PriceRule, startHour: int, endHour: int) { r.startHour < endHour && r.endHour > startHour }

  ghost predicate Apart(r: PriceRule, s: PriceRule) {
    r.isActive && s.isActive && r.workspace == s.workspace && r.dayOfWeek == s.dayOfWeek ==>
      !Overlaps(r, s.startHour, s.endHour)
  }

  type Rules = map<nat, PriceRule>

  /** The entity's stated invariant: hours in order, and active rules of one workspace and day disjoint. */
  ghost predicate RuleSetOk(rules: Rules) {
    && (forall id :: id in rules ==> rules[id].id == id && rules[id].startHour < rules[id].endHour)
    && (forall i, j :: i in rules && j in rules && i != j ==> Apart(rules[i], rules[j]))
  }

  /** Two rules clash exactly when they share an hour. */
  lemma OverlapsIffShareHour(r: PriceRule, startHour: int, endHour: int)
    requires r.startHour < r.endHour && startHour < endHour
    ensures Overlaps(r, startHour, endHour) <==> Meet(startHour, endHour, r.startHour, r.endHour)
  {
    MeetIff(startHour, endHour, r.startHour, r.endHour);
  }

  /** In a rule set that keeps the invariant at most one rule of a workspace is in force at any moment. */
  lemma OneRuleAtATime(rules: Rules, i: nat, j: nat, k: int, h: nat)
    requires RuleSetOk(rules) && i in rules && j in rules && rules[i].workspace == rules[j].workspace
    requires InForce(rules[i], k, h) && InForce(rules[j], k, h)
    ensures i == j
  {
    if i != j {
      assert Apart(rules[i], rules[j]);
      OverlapsIffShareHour(rules[i], rules[j].startHour, rules[j].endHour);
      assert During(h, rules[i].startHour, rules[i].endHour) && During(h, rules[j].startHour, rules[j].endHour);
      assert false;
    }
  }

  /** A rule set breaks the invariant, its hours being in order, only when two active rules of a workspace and day share an hour. */
  lemma RuleSetOkIff(rules: Rules)
    requires forall id :: id in rules ==> rules[id].id == id && rules[id].startHour < rules[id].endHour
    ensures RuleSetOk(rules) <==>
            forall i, j :: i in rules && j in rules && i != j && rules[i].isActive && rules[j].isActive
                           && rules[i].workspace == rules[j].workspace && rules[i].dayOfWeek == rules[j].dayOfWeek ==>
                             !Meet(rules[j].startHour, rules[j].endHour, rules[i].startHour, rules[i].endHour)
  {
    forall i, j | i in rules && j in rules
      ensures Overlaps(rules[i], rules[j].startHour, rules[j].endHour)
              <==> Meet(rules[j].startHour, rules[j].endHour, rules[i].startHour, rules[i].endHour)
    {
      OverlapsIffShareHour(rules[i], rules[j].startHour, rules[j].endHour);
    }
    hide Overlaps, Meet;
  }

  /** Some listing of what `find({ workspaceId, isActive: true })` returns. */
  ghost predicate Lists(rules: Rules, workspace: nat, listed: seq<PriceRule>) {
    forall r :: r in listed <==> r.id in rules && rules[r.id] == r && r.workspace == workspace && r.isActive
  }

  lemma SameMatch(rules: Rules, workspace: nat, a: seq<PriceRule>, b: seq<PriceRule>, moment: int)
    requires RuleSetOk(rules) && Lists(rules, workspace, a) && Lists(rules, workspace, b)
    ensures FindMatchingRule(a, moment) == FindMatchingRule(b, moment)
  {
    var r, s := FindMatchingRule(a, moment), FindMatchingRule(b, moment);
    if r.Some? {
      assert r.value in b;
      assert s.Some?;
      assert s.value in a;
      assert r.value.id == s.value.id;
    }
  }

  /** Whatever order the rules come back in, the price is the same. */
  lemma {:induction false} OrderIsIrrelevant(rules: Rules, workspace: nat, a: seq<PriceRule>, b: seq<PriceRule>,
                                            fallback: real, start: int, end: int)
    requires RuleSetOk(rules) && Lists(rules, workspace, a) && Lists(rules, workspace, b)
    ensures Slices(a, fallback, start, end) == Slices(b, fallback, start, end)
    ensures forall tier :: Priced(a, fallback, start, end, tier) == Priced(b, fallback, start, end, tier)
    decreases end - start
  {
    if start < end {
      SameMatch(rules, workspace, a, b, start);
      OrderIsIrrelevant(rules, workspace, a, b, fallback, Min(NextHour(start), end), end);
    }
  }

  // ---------------------------------------------------------------- maintaining the rule set

  datatype CreateRule = CreateRule(workspace: nat, dayOfWeek: int, startHour: int, endHour: int, ratePerHour: real,
                                   isActive: Option<bool>)

  datatype UpdateRule = UpdateRule(workspace: Option<nat>, dayOfWeek: Option<int>, startHour: Option<int>,
                                   endHour: Option<int>, ratePerHour: Option<real>, isActive: Option<bool>)

  function OrElse<T>(o: Option<T>, default: T): T { if o.Some? then o.value else default }

  function Merge(r: PriceRule, dto: UpdateRule): PriceRule {
    PriceRule(r.id, OrElse(dto.workspace, r.workspace), OrElse(dto.dayOfWeek, r.dayOfWeek),
              OrElse(dto.startHour, r.startHour), OrElse(dto.endHour, r.endHour),
              OrElse(dto.ratePerHour, r.ratePerHour), OrElse(dto.isActive, r.isActive))
  }

  /** An update replaces exactly the fields it names. */
  lemma MergeDoes(r: PriceRule, dto: UpdateRule)
    ensures var merged := Merge(r, dto);
            && merged.id == r.id
            && merged.workspace == (if dto.workspace == None then r.workspace else dto.workspace.value)
            && merged.dayOfWeek == (if dto.dayOfWeek == None then r.dayOfWeek else dto.dayOfWeek.value)
            && merged.startHour == (if dto.startHour == None then r.startHour else dto.startHour.value)
            && merged.endHour == (if dto.endHour == None then r.endHour else dto.endHour.value)
            && merged.ratePerHour == (if dto.ratePerHour == None then r.ratePerHour else dto.ratePerHour.value)
            && merged.isActive == (if dto.isActive == None then r.isActive else dto.isActive.value)
  {
  }

  predicate TimeChanged(dto: UpdateRule) { dto.dayOfWeek.Some? || dto.startHour.Some? || dto.endHour.Some? }

  predicate Clashes(rules: Rules, id: nat, workspace: nat, dayOfWeek: int, startHour: int, endHour: int)
    requires id in rules
  {
    var r := rules[id];
    r.workspace == workspace && r.dayOfWeek == dayOfWeek && r.isActive && Overlaps(r, startHour, endHour)
  }

  class PricingEngine {
    var rules: Rules
    var nextId: nat

    ghost predicate Valid()
      reads this
    {
      forall id :: id in rules ==> id < nextId && rules[id].id == id
    }

    constructor ()
      ensures Valid() && rules == map[] && nextId == 0
    {
      rules, nextId := map[], 0;
    }

    /** The scan of assertNoOverlap, in id order. */
    method AssertNoOverlap(workspace: nat, dayOfWeek: int, startHour: int, endHour: int, exclude: Option<nat>)
      returns (conflict: Option<nat>)
      requires Valid()
      ensures conflict.Some? ==> conflict.value in rules && conflict != exclude &&
                                 Clashes(rules, conflict.value, workspace, dayOfWeek, startHour, endHour)
      ensures conflict.None? ==>
                forall id :: id in rules && Some(id) != exclude ==>
                               !Clashes(rules, id, workspace, dayOfWeek, startHour, endHour)
    {
      for id := 0 to nextId
        invariant forall i :: i in rules && i < id && Some(i) != exclude ==>
                                !Clashes(rules, i, workspace, dayOfWeek, startHour, endHour)
      {
        if id in rules && Some(id) != exclude && Clashes(rules, id, workspace, dayOfWeek, startHour, endHour) {
          return Some(id);
        }
      }
      conflict := None;
    }

    method Create(dto: CreateRule) returns (r: Result<PriceRule, Error>)
      requires Valid()
      modifies this
      ensures Valid()
      ensures r.Success? <==>
              && dto.startHour < dto.endHour
              && forall id :: id in old(rules) ==>
                                !Clashes(old(rules), id, dto.workspace, dto.dayOfWeek, dto.startHour, dto.endHour)
      ensures dto.startHour >= dto.endHour ==> r == Failure(StartHourNotBeforeEnd)
      ensures r.Failure? && dto.startHour < dto.endHour ==>
                && r.error.Overlap? && r.error.with in old(rules)
                && Clashes(old(rules), r.error.with, dto.workspace, dto.dayOfWeek, dto.startHour, dto.endHour)
      ensures r.Failure? ==> rules == old(rules) && nextId == old(nextId)
      ensures r.Success? ==>
                && r.value == PriceRule(old(nextId), dto.workspace, dto.dayOfWeek, dto.startHour, dto.endHour,
                                        dto.ratePerHour, OrElse(dto.isActive, true))
                && rules == old(rules)[old(nextId) := r.value] && old(nextId) !in old(rules)
                && nextId == old(nextId) + 1
      ensures old(RuleSetOk(rules)) ==> RuleSetOk(rules)
    {
      if dto.startHour >= dto.endHour { return Failure(StartHourNotBeforeEnd); }
      var conflict := AssertNoOverlap(dto.workspace, dto.dayOfWeek, dto.startHour, dto.endHour, None);
      if conflict.Some? { return Failure(Overlap(conflict.value)); }
      var rule := PriceRule(nextId, dto.workspace, dto.dayOfWeek, dto.startHour, dto.endHour, dto.ratePerHour,
                            OrElse(dto.isActive, true));
      rules := rules[nextId := rule];
      nextId := nextId + 1;
      r := Success(rule);
    }

    method Update(id: nat, dto: UpdateRule) returns (r: Result<PriceRule, Error>)
      requires Valid()
      modifies this
      ensures Valid() && nextId == old(nextId)
      ensures r.Success? <==> Updatable(old(rules), id, dto)
      ensures id !in old(rules) ==> r == Failure(RuleNotFound)
      ensures r.Failure? && id in old(rules) ==>
                var merged := Merge(old(rules)[id], dto);
                if merged.startHour >= merged.endHour then r.error == StartHourNotBeforeEnd
                else
                  && r.error.Overlap? && r.error.with in old(rules) && r.error.with != id
                  && Clashes(old(rules), r.error.with, merged.workspace, merged.dayOfWeek, merged.startHour, merged.endHour)
      ensures rules == if r.Success? then old(rules)[id := Merge(old(rules)[id], dto)] else old(rules)
      ensures r.Success? ==> r.value == rules[id]
      ensures old(RuleSetOk(rules)) && (id in old(rules) ==> Rechecked(old(rules)[id], dto)) ==> RuleSetOk(rules)
    {
      if id !in rules { return Failure(RuleNotFound); }
      var rule := rules[id];
      var merged := Merge(rule, dto);
      if merged.startHour >= merged.endHour { return Failure(StartHourNotBeforeEnd); }
      if dto.dayOfWeek.Some? || dto.startHour.Some? || dto.endHour.Some? {
        var conflict := AssertNoOverlap(merged.workspace, merged.dayOfWeek, merged.startHour, merged.endHour, Some(id));
        if conflict.Some? { return Failure(Overlap(conflict.value)); }
      }
      if RuleSetOk(rules) && Rechecked(rule, dto) { RecheckedUpdateKeeps(rules, id, dto); }
      rules := rules[id := merged];
      r := Success(merged);
    }

    method Delete(id: nat) returns (r: Result<(), Error>)
      requires Valid()
      modifies this
      ensures Valid() && nextId == old(nextId)
      ensures r == if id in old(rules) then Success(()) else Failure(RuleNotFound)
      ensures rules == old(rules) - {id}
      ensures old(RuleSetOk(rules)) ==> RuleSetOk(rules)
    {
      if id !in rules { return Failure(RuleNotFound); }
      rules := rules - {id};
      r := Success(());
    }
  }

  // ---------------------------------------------------------------- when an update keeps the invariant

  /** updateRule gets past its checks. */
  ghost predicate Updatable(rules: Rules, id: nat, dto: UpdateRule) {
    && id in rules
    && var merged := Merge(rules[id], dto);
    && merged.startHour < merged.endHour
    && (TimeChanged(dto) ==>
          forall other :: other in rules && other != id ==>
            !Clashes(rules, other, merged.workspace, merged.dayOfWeek, merged.startHour, merged.endHour))
  }

  /** The overlap scan ran, or the rule claims no slot it did not already claim. */
  predicate Rechecked(rule: PriceRule, dto: UpdateRule) {
    var merged := Merge(rule, dto);
    TimeChanged(dto) || !merged.isActive || (rule.isActive && merged.workspace == rule.workspace)
  }

  lemma RecheckedUpdateKeeps(rules: Rules, id: nat, dto: UpdateRule)
    requires RuleSetOk(rules) && Updatable(rules, id, dto) && Rechecked(rules[id], dto)
    ensures RuleSetOk(rules[id := Merge(rules[id], dto)])
  {
    var merged := Merge(rules[id], dto);
    forall other | other in rules && other != id
      ensures Apart(merged, rules[other]) && Apart(rules[other], merged)
    {
      assert Apart(rules[id], rules[other]);
      if TimeChanged(dto) {
        assert !Clashes(rules, other, merged.workspace, merged.dayOfWeek, merged.startHour, merged.endHour);
      }
    }
  }

  /**
   * Not rechecking on reactivation or on a move to another workspace breaks the invariant: an update
   * is safe for every valid rule set exactly when the scan ran or no new slot is claimed.
   */
  lemma UpdateSafeIffRechecked(rule: PriceRule, dto: UpdateRule)
    requires rule.startHour < rule.endHour
    ensures (forall rules: Rules :: RuleSetOk(rules) && rule.id in rules && rules[rule.id] == rule && Updatable(rules, rule.id, dto)
                                    ==> RuleSetOk(rules[rule.id := Merge(rule, dto)]))
            <==> Rechecked(rule, dto)
  {
    if Rechecked(rule, dto) {
      forall rules: Rules | RuleSetOk(rules) && rule.id in rules && rules[rule.id] == rule && Updatable(rules, rule.id, dto)
        ensures RuleSetOk(rules[rule.id := Merge(rule, dto)])
      {
        RecheckedUpdateKeeps(rules, rule.id, dto);
      }
    } else {
      var merged := Merge(rule, dto);
      var other := merged.(id := rule.id + 1);
      var rules := map[rule.id := rule, other.id := other];
      assert RuleSetOk(rules) && Updatable(rules, rule.id, dto);
      var after := rules[rule.id := merged];
      assert !Apart(after[rule.id], after[other.id]);
      assert !RuleSetOk(after);
    }
  }

  /** The unsafe case from an empty rule set: switch a rule off, give its hours to another, switch it on again. */
  method Reactivate(dto: CreateRule) returns (engine: PricingEngine)
    requires dto.startHour < dto.endHour && dto.isActive.None?
    ensures fresh(engine) && engine.Valid() && !RuleSetOk(engine.rules)
  {
    engine := new PricingEngine();
    var first := engine.Create(dto);
    ghost var rule := PriceRule(0, dto.workspace, dto.dayOfWeek, dto.startHour, dto.endHour, dto.ratePerHour, true);
    assert engine.rules == map[0 := rule];
    var off := engine.Update(0, UpdateRule(None, None, None, None, None, Some(false)));
    assert engine.rules == map[0 := rule.(isActive := false)];
    var second := engine.Create(dto);
    assert engine.rules == map[0 := rule.(isActive := false), 1 := rule.(id := 1)];
    var on := engine.Update(0, UpdateRule(None, None, None, None, None, Some(true)));
    assert !Apart(engine.rules[0], engine.rules[1]);
  }
}
