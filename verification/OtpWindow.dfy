/**
 * The OTP resend limit of backend/src/auth/otp-rate-limit.service.ts: a cached list of timestamps
 * under a time to live, against the full history of allowed requests.
 */
module OtpWindow {

  const LIMIT: nat := 3
  const WINDOW: nat := 300_000

  type Email = nat

  /** A cached list and when it was saved; its time to live is WINDOW. */
  datatype Entry = Entry(stamps: seq<int>, savedAt: int)

  type Cache = map<Email, Entry>

  datatype Response = Allowed(remaining: int) | Blocked(retryAfterSeconds: int) | Unavailable(remaining: int)

  /** The entries later than `from`, in order. */
  function Later(stamps: seq<int>, from: int): (r: seq<int>)
    ensures |r| <= |stamps|
  {
    if stamps == [] then []
    else Later(stamps[..|stamps| - 1], from) + (if stamps[|stamps| - 1] > from then [stamps[|stamps| - 1]] else [])
  }

  /** Math.min(...stamps) */
  function Oldest(stamps: seq<int>): int
    requires stamps != []
  {
    if |stamps| == 1 then stamps[0]
    else
      var front := Oldest(stamps[..|stamps| - 1]);
      if stamps[|stamps| - 1] < front then stamps[|stamps| - 1] else front
  }

  /** Math.ceil(milliseconds / 1000) */
  function CeilSeconds(milliseconds: int): int { -((-milliseconds) / 1000) }

  /**
   * What a read of the cache returns. From savedAt + WINDOW on the store may have dropped the key;
   * `dropped` says whether it has.
   */
  function Load(cache: Cache, email: Email, now: int, dropped: bool): seq<int> {
    if email !in cache then []
    else if dropped && now >= cache[email].savedAt + WINDOW then []
    else cache[email].stamps
  }

  function Decide(recent: seq<int>, now: int): Response {
    if |recent| >= LIMIT then Blocked(CeilSeconds(Oldest(recent) + WINDOW - now)) else Allowed(LIMIT - (|recent| + 1))
  }

  function Respond(cache: Cache, email: Email, now: int, dropped: bool): Response {
    Decide(Later(Load(cache, email, now, dropped), now - WINDOW), now)
  }

  function Checked(cache: Cache, email: Email, now: int, dropped: bool): Cache {
    var recent := Later(Load(cache, email, now, dropped), now - WINDOW);
    if |recent| >= LIMIT then cache else cache[email := Entry(recent + [now], now)]
  }

  class OtpRateLimit {
    var connected: bool
    var cache: Cache

    constructor (connected: bool)
      ensures this.connected == connected && cache == map[]
    {
      this.connected, cache := connected, map[];
    }

    method CheckAndRecordResend(email: Email, now: int, dropped: bool) returns (r: Response)
      modifies `cache
      ensures !connected ==> r == Unavailable(LIMIT - 1) && cache == old(cache)
      ensures connected ==> r == Respond(old(cache), email, now, dropped)
                            && cache == Checked(old(cache), email, now, dropped)
    {
      if !connected { return Unavailable(LIMIT - 1); }
      var windowStart := now - WINDOW;
      var timestamps := [];
      if email in cache && !(dropped && now >= cache[email].savedAt + WINDOW) {
        timestamps := cache[email].stamps;
      }
      timestamps := Later(timestamps, windowStart);
      if |timestamps| >= LIMIT {
        var retryAfterMs := Oldest(timestamps) + WINDOW - now;
        return Blocked(CeilSeconds(retryAfterMs));
      }
      timestamps := timestamps + [now];
      cache := cache[email := Entry(timestamps, now)];
      r := Allowed(LIMIT - |timestamps|);
    }

    method ClearResendWindow(email: Email)
      modifies `cache
      ensures cache == if connected then old(cache) - {email} else old(cache)
    {
      if connected { cache := cache - {email}; }
    }
  }

  // ---------------------------------------------------------------- runs with a working cache

  datatype Step = Request(now: int, email: Email, dropped: bool) | Clear(now: int, email: Email)

  function Run(steps: seq<Step>): Cache {
    if steps == [] then map[]
    else
      var cache := Run(steps[..|steps| - 1]);
      match steps[|steps| - 1]
      case Request(now, email, dropped) => Checked(cache, email, now, dropped)
      case Clear(now, email) => cache - {email}
  }

  /** When this email's requests were allowed, since its last clear. */
  function AllowedTimes(steps: seq<Step>, email: Email): seq<int> {
    if steps == [] then []
    else
      var front, last := steps[..|steps| - 1], steps[|steps| - 1];
      if last.email != email then AllowedTimes(front, email)
      else if last.Clear? then []
      else if Respond(Run(front), email, last.now, last.dropped).Allowed? then AllowedTimes(front, email) + [last.now]
      else AllowedTimes(front, email)
  }

  /** Times never go back, and none is after `until`. */
  predicate ClockRuns(steps: seq<Step>, until: int) {
    steps == [] || (steps[|steps| - 1].now <= until && ClockRuns(steps[..|steps| - 1], steps[|steps| - 1].now))
  }

  /** In order, and none after `until`. */
  predicate Ascending(times: seq<int>, until: int) {
    times == [] || (times[|times| - 1] <= until && Ascending(times[..|times| - 1], times[|times| - 1]))
  }

  lemma {:induction false} AscendingLonger(times: seq<int>, until: int, later: int)
    requires Ascending(times, until) && until <= later
    ensures Ascending(times, later)
  {
  }

  lemma {:induction false} LaterTwice(times: seq<int>, from: int, from': int)
    requires from <= from'
    ensures Later(Later(times, from), from') == Later(times, from')
  {
    if times != [] {
      var front, last := times[..|times| - 1], times[|times| - 1];
      LaterTwice(front, from, from');
      if last > from {
        assert (Later(front, from) + [last])[..|Later(front, from)|] == Later(front, from);
      } else {
        assert Later(front, from) + [] == Later(front, from);
      }
    }
  }

  lemma LaterAppend(times: seq<int>, t: int, from: int)
    requires t > from
    ensures Later(times + [t], from) == Later(times, from) + [t]
  {
    assert (times + [t])[..|times|] == times;
  }

  lemma {:induction false} NoneLater(times: seq<int>, until: int, from: int)
    requires Ascending(times, until) && until <= from
    ensures Later(times, from) == []
  {
    if times != [] {
      AscendingLonger(times[..|times| - 1], times[|times| - 1], until);
      NoneLater(times[..|times| - 1], until, from);
    }
  }

  /** The cache keeps exactly the part of the history that was in the window at the last save. */
  ghost predicate Remembers(cache: Cache, email: Email, times: seq<int>) {
    if times == [] then email !in cache
    else
      var last := times[|times| - 1];
      email in cache && cache[email] == Entry(Later(times, last - WINDOW), last)
  }

  /** Neither eviction on load nor the time to live can be observed. */
  lemma LoadIsHistory(cache: Cache, email: Email, times: seq<int>, now: int, dropped: bool)
    requires Remembers(cache, email, times) && Ascending(times, now)
    ensures Later(Load(cache, email, now, dropped), now - WINDOW) == Later(times, now - WINDOW)
  {
    if times != [] {
      var last := times[|times| - 1];
      var front := times[..|times| - 1];
      assert Ascending(times, last);
      hide Later, Ascending;
      if dropped && now >= last + WINDOW {
        NoneLater(times, last, now - WINDOW);
        NothingAscends(last);
        NoneLater([], last, now - WINDOW);
      } else {
        LaterTwice(times, last - WINDOW, now - WINDOW);
      }
    }
  }

  /** What one step does to the cached entry and to the history of an email. */
  lemma StepRemembers(cache: Cache, email: Email, times: seq<int>, now: int, dropped: bool)
    requires Remembers(cache, email, times) && Ascending(times, now)
    ensures Remembers(Checked(cache, email, now, dropped), email,
                      if Respond(cache, email, now, dropped).Allowed? then times + [now] else times)
    ensures Ascending(times + [now], now)
  {
    assert (times + [now])[..|times|] == times;
    assert Ascending(times + [now], now);
    hide Load, Ascending, Later;
    LoadIsHistory(cache, email, times, now, dropped);
    LaterAppend(times, now, now - WINDOW);
  }

  /** Nothing in the cache is about an email whose entry did not change. */
  lemma SameEntry(cache: Cache, after: Cache, email: Email, times: seq<int>)
    requires Remembers(cache, email, times)
    requires email in after <==> email in cache
    requires email in cache ==> after[email] == cache[email]
    ensures Remembers(after, email, times)
  {
  }

  lemma RunUnfolds(steps: seq<Step>, last: Step, email: Email)
    ensures var before, all := Run(steps), steps + [last];
            && Run(all) == (if last.Request? then Checked(before, last.email, last.now, last.dropped) else before - {last.email})
            && AllowedTimes(all, email) ==
               if last.email != email then AllowedTimes(steps, email)
               else if last.Clear? then []
               else if Respond(before, email, last.now, last.dropped).Allowed? then AllowedTimes(steps, email) + [last.now]
               else AllowedTimes(steps, email)
  {
    assert (steps + [last])[..|steps|] == steps;
  }

  lemma CheckedElsewhere(cache: Cache, other: Email, now: int, dropped: bool, email: Email)
    requires email != other
    ensures var after := Checked(cache, other, now, dropped);
            (email in after <==> email in cache) && (email in cache ==> after[email] == cache[email])
  {
  }

  lemma NothingRemembered(cache: Cache, email: Email)
    ensures Remembers(cache - {email}, email, [])
  {
  }

  lemma {:induction false} RunRemembers(steps: seq<Step>, email: Email, until: int)
    requires ClockRuns(steps, until)
    ensures Remembers(Run(steps), email, AllowedTimes(steps, email))
    ensures Ascending(AllowedTimes(steps, email), until)
  {
    if steps == [] {
      NothingAscends(until);
    } else {
      var front, last := steps[..|steps| - 1], steps[|steps| - 1];
      RunRemembers(front, email, last.now);
      hide Respond, Ascending, Later, Load, Checked, Run, AllowedTimes, Remembers;
      var cache, times := Run(front), AllowedTimes(front, email);
      assert front + [last] == steps;
      RunUnfolds(front, last, email);
      if last.email != email {
        if last.Request? { CheckedElsewhere(cache, last.email, last.now, last.dropped, email); }
        SameEntry(cache, Run(steps), email, times);
      } else if last.Request? {
        StepRemembers(cache, email, times, last.now, last.dropped);
      } else {
        NothingRemembered(cache, email);
        NothingAscends(last.now);
      }
      AscendingLonger(AllowedTimes(steps, email), last.now, until);
    }
  }

  lemma NothingAscends(until: int)
    ensures Ascending([], until)
  {
  }

  /** Main result: every answer is the one the complete history gives, whatever the store dropped. */
  lemma AnswersFollowHistory(steps: seq<Step>, email: Email, now: int, dropped: bool)
    requires ClockRuns(steps, now)
    ensures Respond(Run(steps), email, now, dropped) == Decide(Later(AllowedTimes(steps, email), now - WINDOW), now)
  {
    RunRemembers(steps, email, now);
    LoadIsHistory(Run(steps), email, AllowedTimes(steps, email), now, dropped);
  }

  // ---------------------------------------------------------------- the limit

  /** If the i-th time is in the window then so are all after it. */
  lemma {:induction false} LaterIsSuffix(times: seq<int>, until: int, from: int, i: nat)
    requires Ascending(times, until) && i < |times| && times[i] > from
    ensures times[i] <= until && |Later(times, from)| >= |times| - i
  {
    var n := |times| - 1;
    if i < n { LaterIsSuffix(times[..n], times[n], from, i); }
  }

  /** Main result: any four allowed requests with no clear in between span at least the window. */
  lemma {:induction false} FourSpanTheWindow(steps: seq<Step>, email: Email, until: int, i: nat)
    requires ClockRuns(steps, until) && i + 3 < |AllowedTimes(steps, email)|
    ensures AllowedTimes(steps, email)[i + 3] - AllowedTimes(steps, email)[i] >= 300_000
  {
    var front, last := steps[..|steps| - 1], steps[|steps| - 1];
    var before, times := AllowedTimes(front, email), AllowedTimes(steps, email);
    if i + 3 < |before| {
      FourSpanTheWindow(front, email, last.now, i);
    } else {
      RunRemembers(front, email, last.now);
      AnswersFollowHistory(front, email, last.now, last.dropped);
      assert times == before + [last.now] && |Later(before, last.now - WINDOW)| < LIMIT;
      hide Run, Respond, Later, Ascending;
      if times[i] > last.now - WINDOW { LaterIsSuffix(before, last.now, last.now - WINDOW, i); }
    }
  }

  /** So a window never holds more than three. */
  lemma WindowHoldsThree(steps: seq<Step>, email: Email, now: int)
    requires ClockRuns(steps, now)
    ensures |Later(AllowedTimes(steps, email), now - WINDOW)| <= LIMIT
  {
    var times := AllowedTimes(steps, email);
    hide Run, AllowedTimes, Later;
    RunRemembers(steps, email, now);
    var n := |times|;
    if n >= 4 {
      FourSpanTheWindow(steps, email, now, n - 4);
      assert times[n - 1] <= now;
      hide Ascending;
      assert times[n - 4] <= now - WINDOW;
      LaterIsShort(times, now, now - WINDOW, n - 4);
    }
  }

  /** If the i-th time is out of the window then so are all before it. */
  lemma {:induction false} LaterIsShort(times: seq<int>, until: int, from: int, i: nat)
    requires Ascending(times, until) && i < |times| && times[i] <= from
    ensures |Later(times, from)| < |times| - i
  {
    var n := |times| - 1;
    if i < n {
      LaterIsShort(times[..n], times[n], from, i);
    } else {
      NoneLater(times[..n], times[n], from);
    }
  }

  // ---------------------------------------------------------------- the answers, written out

  /** The window keeps each time after its start as often as it is there, and no other. */
  lemma {:induction false} LaterSelects(times: seq<int>, from: int, t: int)
    ensures multiset(Later(times, from))[t] == if from < t then multiset(times)[t] else 0
  {
    if times != [] {
      var front, last := times[..|times| - 1], times[|times| - 1];
      LaterSelects(front, from, t);
      assert times == front + [last];
      assert Later(times, from) == Later(front, from) + if last > from then [last] else [];
    }
  }

  lemma {:induction false} OldestIsLeast(times: seq<int>, k: nat)
    requires k < |times|
    ensures Oldest(times) in times && Oldest(times) <= times[k]
  {
    var n := |times| - 1;
    if n > 0 {
      OldestIsLeast(times[..n], if k < n then k else 0);
      assert times == times[..n] + [times[n]];
    }
  }

  /**
   * A request is allowed while fewer than three allowed ones lie in the five minutes up to it, and told how
   * many more it leaves; otherwise it is told the whole seconds until the oldest of them is five minutes old.
   */
  lemma AnswerIs(steps: seq<Step>, email: Email, now: int, dropped: bool)
    requires ClockRuns(steps, now)
    ensures var recent := Later(AllowedTimes(steps, email), now - 300_000);
            match Respond(Run(steps), email, now, dropped)
            case Allowed(remaining) => |recent| < 3 && remaining == 2 - |recent|
            case Blocked(wait) => |recent| == 3 && 1000 * wait - 1000 < Oldest(recent) + 300_000 - now <= 1000 * wait
            case Unavailable(_) => false
  {
    AnswersFollowHistory(steps, email, now, dropped);
    WindowHoldsThree(steps, email, now);
  }

  // ---------------------------------------------------------------- waiting

  /** Steps about other emails change nothing here. */
  lemma {:induction false} OthersDoNotMatter(steps: seq<Step>, others: seq<Step>, email: Email)
    requires forall k :: 0 <= k < |others| ==> others[k].email != email
    ensures AllowedTimes(steps + others, email) == AllowedTimes(steps, email)
  {
    if others == [] {
      assert steps + others == steps;
    } else {
      var m := |others| - 1;
      OthersDoNotMatter(steps, others[..m], email);
      assert (steps + others)[..|steps| + m] == steps + others[..m];
    }
  }

  lemma {:induction false} OldestSurvives(times: seq<int>, from: int, from': int)
    requires from <= from' && Later(times, from) != []
    ensures |Later(times, from')| <= |Later(times, from)|
    ensures |Later(times, from')| == |Later(times, from)| <==> Oldest(Later(times, from)) > from'
  {
    LaterTwice(times, from, from');
    KeepsAll(Later(times, from), from');
  }

  lemma {:induction false} KeepsAll(xs: seq<int>, from: int)
    requires xs != []
    ensures |Later(xs, from)| == |xs| <==> Oldest(xs) > from
  {
    if |xs| > 1 {
      KeepsAll(xs[..|xs| - 1], from);
    } else {
      assert Later(xs[..0], from) == [];
    }
  }

  /**
   * Main result: after a refusal and no other request for this email, a request is allowed exactly from
   * the moment the oldest one leaves the window; the advertised number of whole seconds is the least
   * that reaches it.
   */
  lemma WaitingIsEnough(steps: seq<Step>, email: Email, now: int, dropped: bool, others: seq<Step>, now': int, dropped': bool)
    requires ClockRuns(steps, now) && Respond(Run(steps), email, now, dropped).Blocked?
    requires forall k :: 0 <= k < |others| ==> others[k].email != email
    requires ClockRuns(steps + others, now') && now <= now'
    ensures var wait := Respond(Run(steps), email, now, dropped).retryAfterSeconds;
            var recent := Later(AllowedTimes(steps, email), now - WINDOW);
            && recent != []
            && (Respond(Run(steps + others), email, now', dropped').Allowed? <==> now' >= Oldest(recent) + WINDOW)
            && now + 1000 * (wait - 1) < Oldest(recent) + WINDOW <= now + 1000 * wait
            && wait > 0
  {
    hide Run, AllowedTimes, Later, Oldest, Respond;
    var times := AllowedTimes(steps, email);
    AnswersFollowHistory(steps, email, now, dropped);
    AnswersFollowHistory(steps + others, email, now', dropped');
    OthersDoNotMatter(steps, others, email);
    WindowHoldsThree(steps, email, now);
    OldestSurvives(times, now - WINDOW, now - WINDOW);
    OldestSurvives(times, now - WINDOW, now' - WINDOW);
  }
}
