/**
 The fixed-window rate limiter: a pure window decision and a table of per-key windows that is
 pruned opportunistically. Instants are reals (seconds on a monotonic clock).
 */
module RateLimit {
  import opened Common

  datatype Rule = Rule(limit: int, window: int)

  datatype Bucket = Bucket(count: int, start: real)

  datatype HitResult = HitResult(allowed: bool, remaining: int, retryAfter: int)

  type Buckets = map<string, Bucket>

  /** The smallest integer not below x. */
  function Ceil(x: real): int { -((-x).Floor) }

  predicate Expired(bucket: Bucket, rule: Rule, now: real) {
    now - bucket.start >= rule.window as real
  }

  /** The window decision: whether the hit is allowed, and the window afterwards. */
  function EvaluateFixedWindow(current: Option<Bucket>, now: real, rule: Rule): (bool, Bucket) {
    if current.None? || Expired(current.value, rule, now) then (true, Bucket(1, now))
    else if current.value.count < rule.limit then (true, current.value.(count := current.value.count + 1))
    else (false, current.value)
  }

  function Find(buckets: Buckets, key: string): Option<Bucket> {
    if key in buckets then Some(buckets[key]) else None
  }

  function AfterHit(buckets: Buckets, key: string, rule: Rule, now: real): Buckets {
    buckets[key := EvaluateFixedWindow(Find(buckets, key), now, rule).1]
  }

  function ResultOf(buckets: Buckets, key: string, rule: Rule, now: real): HitResult {
    var (allowed, window) := EvaluateFixedWindow(Find(buckets, key), now, rule);
    HitResult(allowed, Max(0, rule.limit - window.count),
              if allowed then 0 else Max(0, Ceil(window.start + rule.window as real - now)))
  }

  predicate Stale(bucket: Bucket, now: real, maxWindow: int) {
    bucket.start <= now - maxWindow as real
  }

  function Pruned(buckets: Buckets, now: real, maxWindow: int): Buckets {
    map key | key in buckets && !Stale(buckets[key], now, maxWindow) :: buckets[key]
  }

  class InMemoryRateLimiter {
    var buckets: Buckets

    constructor ()
      ensures buckets == map[]
    {
      buckets := map[];
    }

    method Hit(key: string, rule: Rule, now: real) returns (r: HitResult)
      modifies this
      ensures buckets == AfterHit(old(buckets), key, rule, now)
      ensures r == ResultOf(old(buckets), key, rule, now)
      ensures forall other :: other != key ==> Find(buckets, other) == Find(old(buckets), other)
      ensures !r.allowed ==> buckets == old(buckets) && r.retryAfter >= 1
      ensures r.allowed ==> r.retryAfter == 0
      ensures rule.window > 0 ==> key in buckets && !Expired(buckets[key], rule, now)
      ensures r.allowed <==>
        key !in old(buckets) || now >= old(buckets)[key].start + rule.window as real || old(buckets)[key].count < rule.limit
      ensures r.allowed && key in old(buckets) && now < old(buckets)[key].start + rule.window as real ==>
        buckets[key] == Bucket(old(buckets)[key].count + 1, old(buckets)[key].start)
      ensures key !in old(buckets) || now >= old(buckets)[key].start + rule.window as real ==> buckets[key] == Bucket(1, now)
      ensures key in buckets && r.remaining == Max(0, rule.limit - buckets[key].count)
    {
      var current := if key in buckets then Some(buckets[key]) else None;
      var (allowed, window) := EvaluateFixedWindow(current, now, rule);
      buckets := buckets[key := window];
      var resetAt := window.start + rule.window as real;
      var remaining := Max(0, rule.limit - window.count);
      var retryAfter := if allowed then 0 else Max(0, Ceil(resetAt - now));
      return HitResult(allowed, remaining, retryAfter);
    }

    /** Collect the stale keys, then delete them one by one. */
    method Prune(now: real, maxWindow: int) returns (removed: nat)
      modifies this
      ensures buckets == Pruned(old(buckets), now, maxWindow)
      ensures removed + |buckets| == |old(buckets)|
      ensures forall key :: key in buckets <==> key in old(buckets) && now - old(buckets)[key].start < maxWindow as real
      ensures forall key :: key in buckets ==> buckets[key] == old(buckets)[key]
    {
      var stale := set key | key in buckets && Stale(buckets[key], now, maxWindow);
      ghost var before := buckets;
      removed := |stale|;
      var left := stale;
      while left != {}
        invariant left <= stale
        invariant forall key :: key in buckets <==> key in before && (key !in stale || key in left)
        invariant forall key :: key in buckets ==> buckets[key] == before[key]
        decreases |left|
      {
        var key :| key in left;
        buckets := buckets - {key};
        left := left - {key};
      }
      assert before.Keys == buckets.Keys + stale;
      assert buckets.Keys !! stale;
    }
  }

  // ---------------------------------------------------------------- runs

  datatype Event =
    | HitEvent(key: string, rule: Rule, now: real)
    | PruneEvent(now: real, maxWindow: int)

  datatype Logged = Logged(key: string, now: real, result: HitResult)

  function Apply(buckets: Buckets, event: Event): Buckets {
    match event
    case HitEvent(key, rule, now) => AfterHit(buckets, key, rule, now)
    case PruneEvent(now, maxWindow) => Pruned(buckets, now, maxWindow)
  }

  /** The table after a run from an empty limiter. */
  function After(events: seq<Event>): Buckets {
    if |events| == 0 then map[] else Apply(After(events[..|events| - 1]), events[|events| - 1])
  }

  /** What the callers saw. */
  function Log(events: seq<Event>): seq<Logged> {
    if |events| == 0 then []
    else
      var front, last := events[..|events| - 1], events[|events| - 1];
      Log(front) +
      if last.HitEvent? then [Logged(last.key, last.now, ResultOf(After(front), last.key, last.rule, last.now))] else []
  }

  function HitsOnly(events: seq<Event>): seq<Event> {
    if |events| == 0 then []
    else
      var last := events[|events| - 1];
      HitsOnly(events[..|events| - 1]) + if last.HitEvent? then [last] else []
  }

  /** How many hits of a key were admitted at instants in [from, to). */
  function Admitted(log: seq<Logged>, key: string, from: real, to: real): nat {
    if |log| == 0 then 0
    else
      var last := log[|log| - 1];
      Admitted(log[..|log| - 1], key, from, to) +
      if last.key == key && last.result.allowed && from <= last.now < to then 1 else 0
  }

  ghost predicate ClockRuns(events: seq<Event>) {
    forall i, j :: 0 <= i < j < |events| ==> events[i].now <= events[j].now
  }

  /** Every hit of the key uses the one rule. */
  ghost predicate OneRule(events: seq<Event>, key: string, rule: Rule) {
    forall i :: 0 <= i < |events| && events[i].HitEvent? && events[i].key == key ==> events[i].rule == rule
  }

  // ---------------------------------------------------------------- retry-after

  /**
   A refused caller is told the least whole number of seconds after which it is let in again:
   retrying any earlier whole second is refused, retrying then or later is allowed.
   */
  lemma RetryAfterIsLeast(buckets: Buckets, key: string, rule: Rule, now: real, seconds: nat)
    requires !ResultOf(buckets, key, rule, now).allowed
    ensures ResultOf(buckets, key, rule, now).retryAfter >= 1
    ensures ResultOf(AfterHit(buckets, key, rule, now), key, rule, now + seconds as real).allowed
            <==> seconds >= ResultOf(buckets, key, rule, now).retryAfter
  {
    var window := buckets[key];
    var left := window.start + rule.window as real - now;
    assert left > 0.0;
    assert (-left).Floor as real <= -left < (-left).Floor as real + 1.0;
  }

  // ---------------------------------------------------------------- how much a window admits

  function Cap(rule: Rule): int { Max(1, rule.limit) }

  lemma AdmittedAppend(log: seq<Logged>, entry: Logged, key: string, from: real, to: real)
    ensures Admitted(log + [entry], key, from, to) ==
            Admitted(log, key, from, to)
            + if entry.key == key && entry.result.allowed && from <= entry.now < to then 1 else 0
  {
    assert (log + [entry])[..|log|] == log;
  }

  ghost predicate HitRun(events: seq<Event>, key: string, rule: Rule) {
    ClockRuns(events) && OneRule(events, key, rule) && forall i :: 0 <= i < |events| ==> events[i].HitEvent?
  }

  lemma HitRunFront(events: seq<Event>, key: string, rule: Rule)
    requires HitRun(events, key, rule) && |events| > 0
    ensures HitRun(events[..|events| - 1], key, rule)
  {
  }

  /** Nothing was admitted at or after an instant the clock has not passed. */
  lemma {:induction false} NothingAdmittedLater(events: seq<Event>, key: string, from: real, to: real)
    requires forall i :: 0 <= i < |events| ==> events[i].now < from
    ensures Admitted(Log(events), key, from, to) == 0
  {
    if |events| > 0 {
      NothingAdmittedLater(events[..|events| - 1], key, from, to);
      var front, last := events[..|events| - 1], events[|events| - 1];
      if last.HitEvent? {
        var entry := Logged(last.key, last.now, ResultOf(After(front), last.key, last.rule, last.now));
        assert Log(events) == Log(front) + [entry];
        AdmittedAppend(Log(front), entry, key, from, to);
      } else {
        assert Log(events) == Log(front);
      }
    }
  }

  /**
   The state of a key's current window against its history: the window opened no later than now, no
   admission lies past its end, and its counter is the number of admissions it made, at most the cap.
   */
  lemma {:induction false} WindowCountsItsAdmissions(events: seq<Event>, key: string, rule: Rule)
    requires HitRun(events, key, rule) && rule.window > 0
    ensures key !in After(events) ==> forall from, to :: Admitted(Log(events), key, from, to) == 0
    ensures key in After(events) ==>
      var bucket := After(events)[key];
      var end := bucket.start + rule.window as real;
      && |events| > 0 && bucket.start <= events[|events| - 1].now
      && (forall from, to :: from >= end ==> Admitted(Log(events), key, from, to) == 0)
      && Admitted(Log(events), key, bucket.start, end) == bucket.count
      && 1 <= bucket.count <= Cap(rule)
  {
    if |events| > 0 {
      var front, last := events[..|events| - 1], events[|events| - 1];
      HitRunFront(events, key, rule);
      WindowCountsItsAdmissions(front, key, rule);
      var entry := Logged(last.key, last.now, ResultOf(After(front), last.key, last.rule, last.now));
      assert Log(events) == Log(front) + [entry];
      forall from, to
        ensures Admitted(Log(events), key, from, to) == Admitted(Log(front), key, from, to)
                + if entry.key == key && entry.result.allowed && from <= entry.now < to then 1 else 0
      {
        AdmittedAppend(Log(front), entry, key, from, to);
      }
    }
  }

  /** A key's window is either still the one it was, or opened at least one window length later. */
  lemma {:induction false} WindowsDoNotOverlap(events: seq<Event>, key: string, rule: Rule, n: nat)
    requires HitRun(events, key, rule) && rule.window > 0 && n <= |events|
    requires key in After(events[..n])
    ensures key in After(events)
    ensures var was, now := After(events[..n])[key].start, After(events)[key].start;
            now == was || now >= was + rule.window as real
  {
    if n == |events| {
      assert events[..n] == events;
    } else {
      var front := events[..|events| - 1];
      assert front[..n] == events[..n];
      WindowsDoNotOverlap(front, key, rule, n);
    }
  }

  lemma CurrentWindowBound(events: seq<Event>, key: string, rule: Rule)
    requires HitRun(events, key, rule) && rule.window > 0 && key in After(events)
    ensures |events| > 0
    ensures After(events)[key].start <= events[|events| - 1].now
    ensures var start := After(events)[key].start;
            Admitted(Log(events), key, start, start + rule.window as real) <= Cap(rule)
  {
    WindowCountsItsAdmissions(events, key, rule);
  }

  /**
   Every fixed window that ever opens admits at most the cap over the whole run, and the cap is the
   limit whenever the limit is at least one.
   */
  lemma {:induction false} WindowBound(events: seq<Event>, key: string, rule: Rule, n: nat)
    requires HitRun(events, key, rule) && rule.window > 0 && n <= |events|
    requires key in After(events[..n])
    ensures var start := After(events[..n])[key].start;
            Admitted(Log(events), key, start, start + rule.window as real) <= Cap(rule)
    ensures rule.limit >= 1 ==> Cap(rule) == rule.limit
  {
    hide ResultOf, Apply;
    WindowsDoNotOverlap(events, key, rule, n);
    CurrentWindowBound(events, key, rule);
    var start, end := After(events[..n])[key].start, After(events[..n])[key].start + rule.window as real;
    assert events[..|events|] == events;
    if After(events)[key].start != start {
      var front, last := events[..|events| - 1], events[|events| - 1];
      assert last.now >= end;
      assert front[..n] == events[..n];
      WindowBound(front, key, rule, n);
      var entry := Logged(last.key, last.now, ResultOf(After(front), last.key, last.rule, last.now));
      assert Log(events) == Log(front) + [entry];
      AdmittedAppend(Log(front), entry, key, start, end);
    }
  }

  /** The induction behind the sliding bound, for the interval [from, from + window). */
  lemma {:induction false} SlidingInvariant(events: seq<Event>, key: string, rule: Rule, from: real)
    requires HitRun(events, key, rule) && rule.window > 0
    ensures var admitted := Admitted(Log(events), key, from, from + rule.window as real);
            if key !in After(events) then admitted == 0
            else
              var bucket := After(events)[key];
              if bucket.start < from then admitted <= bucket.count
              else if bucket.start < from + rule.window as real then admitted <= Cap(rule) + bucket.count
              else admitted <= 2 * Cap(rule)
  {
    var to := from + rule.window as real;
    if |events| > 0 {
      var front, last := events[..|events| - 1], events[|events| - 1];
      HitRunFront(events, key, rule);
      SlidingInvariant(front, key, rule, from);
      WindowCountsItsAdmissions(front, key, rule);
      var entry := Logged(last.key, last.now, ResultOf(After(front), last.key, last.rule, last.now));
      assert Log(events) == Log(front) + [entry];
      AdmittedAppend(Log(front), entry, key, from, to);
      if last.now < from {
        NothingAdmittedLater(front, key, from, to);
      }
    }
  }

  /** Any half-open interval of one window length admits at most twice the cap. */
  lemma SlidingBound(events: seq<Event>, key: string, rule: Rule, from: real)
    requires HitRun(events, key, rule) && rule.window > 0
    ensures Admitted(Log(events), key, from, from + rule.window as real) <= 2 * Cap(rule)
  {
    SlidingInvariant(events, key, rule, from);
    WindowCountsItsAdmissions(events, key, rule);
  }

  // ---------------------------------------------------------------- exactly which hits are admitted

  /** Where a key stands in a run of hits: when its current window opened, and how many hits came since, let in or not. */
  datatype Standing = NoWindow | Since(start: real, hits: nat)

  /** A hit opens a window when there is none or when the last one's length has passed. */
  function StandingOf(events: seq<Event>, key: string, window: int): Standing {
    if |events| == 0 then NoWindow
    else
      var before, last := StandingOf(events[..|events| - 1], key, window), events[|events| - 1];
      if !last.HitEvent? || last.key != key then before
      else if before.NoWindow? || last.now >= before.start + window as real then Since(last.now, 1)
      else before.(hits := before.hits + 1)
  }

  lemma {:induction false} WindowFollowsHits(events: seq<Event>, key: string, rule: Rule)
    requires HitRun(events, key, rule)
    ensures match StandingOf(events, key, rule.window)
            case NoWindow => key !in After(events)
            case Since(start, hits) =>
              && hits >= 1 && key in After(events)
              && After(events)[key] == Bucket(Min(hits, Cap(rule)), start)
  {
    if |events| > 0 {
      HitRunFront(events, key, rule);
      WindowFollowsHits(events[..|events| - 1], key, rule);
    }
  }

  /**
   The exact decision: a hit is let in if and only if it is among the first `Cap` of the hits its window has
   seen, it is told how many more would be, and the window is the one its key's hits opened.
   */
  lemma HitDecision(events: seq<Event>, key: string, rule: Rule, now: real)
    requires HitRun(events + [HitEvent(key, rule, now)], key, rule)
    ensures var r := ResultOf(After(events), key, rule, now);
            var standing := StandingOf(events + [HitEvent(key, rule, now)], key, rule.window);
            && standing.Since?
            && (r.allowed <==> standing.hits <= Cap(rule))
            && r.remaining == Max(0, rule.limit - standing.hits)
            && (r.allowed ==> r.retryAfter == 0)
  {
    var all := events + [HitEvent(key, rule, now)];
    assert all[..|events|] == events;
    HitRunFront(all, key, rule);
    WindowFollowsHits(events, key, rule);
  }

  /**
   The same on the log: a hit is refused if and only if the key's window is still running and has let in
   exactly the cap ...
   */
  lemma RefusedIff(events: seq<Event>, key: string, rule: Rule, now: real)
    requires HitRun(events, key, rule) && rule.window > 0
    ensures !ResultOf(After(events), key, rule, now).allowed <==>
              && key in After(events)
              && (var start := After(events)[key].start;
                  && now < start + rule.window as real
                  && Admitted(Log(events), key, start, start + rule.window as real) == Cap(rule))
  {
    WindowCountsItsAdmissions(events, key, rule);
  }

  /** ... and what it is told remains is the limit less what its window has let in by then, itself included. */
  lemma RemainingIs(events: seq<Event>, key: string, rule: Rule, now: real)
    requires HitRun(events + [HitEvent(key, rule, now)], key, rule) && rule.window > 0
    ensures var all := events + [HitEvent(key, rule, now)];
            && key in After(all)
            && (var start := After(all)[key].start;
                ResultOf(After(events), key, rule, now).remaining
                == Max(0, rule.limit - Admitted(Log(all), key, start, start + rule.window as real)))
  {
    hide HitRun, Admitted;
    var all := events + [HitEvent(key, rule, now)];
    assert all[..|events|] == events;
    WindowCountsItsAdmissions(all, key, rule);
  }

  // ---------------------------------------------------------------- pruning cannot be observed

  lemma PrunedMeaning(buckets: Buckets, now: real, maxWindow: int, key: string)
    ensures key in Pruned(buckets, now, maxWindow) <==> key in buckets && !Stale(buckets[key], now, maxWindow)
    ensures key in Pruned(buckets, now, maxWindow) ==> Pruned(buckets, now, maxWindow)[key] == buckets[key]
  {
  }

  /** At a key the tables agree, unless the window is missing and every rule considers it expired. */
  predicate AgreesAt(pruned: Buckets, full: Buckets, key: string, now: real, maxWindow: int) {
    Find(pruned, key) == Find(full, key) || (key in full && key !in pruned && Stale(full[key], now, maxWindow))
  }

  ghost predicate Agrees(pruned: Buckets, full: Buckets, now: real, maxWindow: int) {
    forall key :: AgreesAt(pruned, full, key, now, maxWindow)
  }

  lemma HitKeepsAgreement(pruned: Buckets, full: Buckets, key: string, rule: Rule, before: real, now: real, maxWindow: int)
    requires Agrees(pruned, full, before, maxWindow) && before <= now && rule.window <= maxWindow
    ensures ResultOf(pruned, key, rule, now) == ResultOf(full, key, rule, now)
    ensures Agrees(AfterHit(pruned, key, rule, now), AfterHit(full, key, rule, now), now, maxWindow)
  {
    assert AgreesAt(pruned, full, key, before, maxWindow);
    assert EvaluateFixedWindow(Find(pruned, key), now, rule) == EvaluateFixedWindow(Find(full, key), now, rule);
    forall k ensures AgreesAt(AfterHit(pruned, key, rule, now), AfterHit(full, key, rule, now), k, now, maxWindow) {
      assert AgreesAt(pruned, full, k, before, maxWindow);
    }
  }

  lemma PruneKeepsAgreement(pruned: Buckets, full: Buckets, before: real, now: real, bound: int, maxWindow: int)
    requires Agrees(pruned, full, before, maxWindow) && before <= now && maxWindow <= bound
    ensures Agrees(Pruned(pruned, now, bound), full, now, maxWindow)
  {
    forall k ensures AgreesAt(Pruned(pruned, now, bound), full, k, now, maxWindow) {
      assert AgreesAt(pruned, full, k, before, maxWindow);
      PrunedMeaning(pruned, now, bound, k);
    }
  }

  lemma AgreementAges(pruned: Buckets, full: Buckets, before: real, now: real, maxWindow: int)
    requires Agrees(pruned, full, before, maxWindow) && before <= now
    ensures Agrees(pruned, full, now, maxWindow)
  {
    forall k ensures AgreesAt(pruned, full, k, now, maxWindow) {
      assert AgreesAt(pruned, full, k, before, maxWindow);
    }
  }

  /** No prune drops a window younger than `maxWindow`, and no rule's window is longer. */
  ghost predicate PrunesSafely(events: seq<Event>, maxWindow: int) {
    forall i :: 0 <= i < |events| ==>
      if events[i].PruneEvent? then events[i].maxWindow >= maxWindow else events[i].rule.window <= maxWindow
  }

  /** Every caller sees what a limiter that never prunes would have shown. */
  lemma {:induction false} PruningIsUnobservable(events: seq<Event>, maxWindow: int, now: real)
    requires ClockRuns(events) && PrunesSafely(events, maxWindow)
    requires forall i :: 0 <= i < |events| ==> events[i].now <= now
    ensures Log(events) == Log(HitsOnly(events))
    ensures Agrees(After(events), After(HitsOnly(events)), now, maxWindow)
  {
    if |events| > 0 {
      var front, last := events[..|events| - 1], events[|events| - 1];
      PruningIsUnobservable(front, maxWindow, last.now);
      var pruned, full := After(front), After(HitsOnly(front));
      if last.HitEvent? {
        var hits := HitsOnly(events);
        assert hits == HitsOnly(front) + [last];
        assert hits[..|hits| - 1] == HitsOnly(front);
        HitKeepsAgreement(pruned, full, last.key, last.rule, last.now, last.now, maxWindow);
      } else {
        assert HitsOnly(events) == HitsOnly(front) && Log(events) == Log(front);
        PruneKeepsAgreement(pruned, full, last.now, last.now, last.maxWindow, maxWindow);
      }
      AgreementAges(After(events), After(HitsOnly(events)), last.now, now, maxWindow);
    }
  }

  lemma {:induction false} HitsOnlyMeaning(events: seq<Event>)
    requires ClockRuns(events)
    ensures ClockRuns(HitsOnly(events))
    ensures forall i :: 0 <= i < |HitsOnly(events)| ==> HitsOnly(events)[i].HitEvent? && HitsOnly(events)[i] in events
  {
    if |events| > 0 {
      HitsOnlyMeaning(events[..|events| - 1]);
    }
  }

  /** Both bounds hold for the limiter as it runs, prunes included. */
  lemma PrunedSlidingBound(events: seq<Event>, key: string, rule: Rule, maxWindow: int, from: real)
    requires ClockRuns(events) && OneRule(events, key, rule) && rule.window > 0
    requires PrunesSafely(events, maxWindow)
    ensures Admitted(Log(events), key, from, from + rule.window as real) <= 2 * Cap(rule)
  {
    if |events| > 0 {
      PruningIsUnobservable(events, maxWindow, events[|events| - 1].now);
    }
    HitsOnlyMeaning(events);
    SlidingBound(HitsOnly(events), key, rule, from);
  }

  /**
   The hypothesis on prunes is needed: pruning with a bound below the rule's window lets a caller
   in who would have been refused.
   */
  lemma EarlyPruneIsObservable(key: string, hit: Event, prune: Event, again: Event)
    requires hit == HitEvent(key, Rule(1, 60), 0.0)
    requires prune == PruneEvent(30.0, 30)
    requires again == HitEvent(key, Rule(1, 60), 30.0)
    ensures Log([hit, prune, again]) != Log(HitsOnly([hit, prune, again]))
  {
    var pruned, plain := [hit, prune, again], [hit, again];
    assert pruned[..2] == [hit, prune] && [hit, prune][..1] == [hit] && plain[..1] == [hit] && [hit][..0] == [];
    assert HitsOnly([hit]) == [hit];
    assert HitsOnly([hit, prune]) == [hit];
    assert HitsOnly(pruned) == plain;
    assert After([hit]) == map[key := Bucket(1, 0.0)];
    PrunedMeaning(After([hit]), 30.0, 30, key);
    var r, s := ResultOf(After([hit, prune]), key, again.rule, 30.0), ResultOf(After([hit]), key, again.rule, 30.0);
    assert r.allowed && !s.allowed;
    assert |Log([hit])| == 1 && Log([hit, prune]) == Log([hit]);
    assert Log(pruned) == Log([hit, prune]) + [Logged(key, 30.0, r)];
    assert Log(plain) == Log([hit]) + [Logged(key, 30.0, s)];
    assert Log(pruned)[1].result.allowed != Log(plain)[1].result.allowed;
  }

  // ---------------------------------------------------------------- the middleware in front of it

  datatype Request = Request(isAuth: bool, client: string, now: real)

  const PRUNE_EVERY: nat := 1000

  function KeyOf(r: Request): string {
    (if r.isAuth then "auth:" else "gen:") + r.client
  }

  /** The limiter calls the middleware makes: a hit per request, and a prune after every thousandth. */
  function Calls(requests: seq<Request>, general: Rule, auth: Rule): seq<Event> {
    if |requests| == 0 then []
    else
      var r := requests[|requests| - 1];
      Calls(requests[..|requests| - 1], general, auth) +
      [HitEvent(KeyOf(r), if r.isAuth then auth else general, r.now)] +
      if |requests| % PRUNE_EVERY == 0 then [PruneEvent(r.now, Max(general.window, auth.window))] else []
  }

  ghost predicate GoodCall(event: Event, general: Rule, auth: Rule) {
    match event
    case HitEvent(key, rule, _) =>
      && |key| > 0 && (key[0] == 'a' || key[0] == 'g') && rule == if key[0] == 'a' then auth else general
    case PruneEvent(_, maxWindow) => maxWindow == Max(general.window, auth.window)
  }

  lemma {:induction false} CallsAreGood(requests: seq<Request>, general: Rule, auth: Rule)
    requires forall i, j :: 0 <= i < j < |requests| ==> requests[i].now <= requests[j].now
    ensures var calls := Calls(requests, general, auth);
            && ClockRuns(calls)
            && (forall i :: 0 <= i < |calls| ==> GoodCall(calls[i], general, auth))
            && (|requests| > 0 ==> forall i :: 0 <= i < |calls| ==> calls[i].now <= requests[|requests| - 1].now)
  {
    if |requests| > 0 {
      var r := requests[|requests| - 1];
      CallsAreGood(requests[..|requests| - 1], general, auth);
      assert KeyOf(r)[0] == if r.isAuth then 'a' else 'g';
    }
  }

  /**
   End to end: whatever requests arrive on a non-decreasing clock, a client gets at most twice its
   rule's cap through in any interval of one window length, pruning included.
   */
  lemma MiddlewareBound(requests: seq<Request>, general: Rule, auth: Rule, client: string, isAuth: bool, from: real)
    requires forall i, j :: 0 <= i < j < |requests| ==> requests[i].now <= requests[j].now
    requires general.window > 0 && auth.window > 0
    ensures var rule := if isAuth then auth else general;
            var key := KeyOf(Request(isAuth, client, from));
            Admitted(Log(Calls(requests, general, auth)), key, from, from + rule.window as real) <= 2 * Cap(rule)
  {
    var rule := if isAuth then auth else general;
    var key := KeyOf(Request(isAuth, client, from));
    assert key[0] == if isAuth then 'a' else 'g';
    CallsAreGood(requests, general, auth);
    var calls := Calls(requests, general, auth);
    assert forall i :: 0 <= i < |calls| ==> GoodCall(calls[i], general, auth);
    PrunedSlidingBound(calls, key, rule, Max(general.window, auth.window), from);
  }

  /** Two requests share a window exactly when they come from one client and are both for logging in, or both not. */
  lemma KeysSeparate(r: Request, q: Request)
    ensures KeyOf(r) == KeyOf(q) <==> r.isAuth == q.isAuth && r.client == q.client
  {
    assert KeyOf(r)[0] == (if r.isAuth then 'a' else 'g') && KeyOf(q)[0] == (if q.isAuth then 'a' else 'g');
    assert KeyOf(r)[if r.isAuth then 5 else 4..] == r.client && KeyOf(q)[if q.isAuth then 5 else 4..] == q.client;
  }

  lemma HitsOnlyConcat(events: seq<Event>, last: seq<Event>)
    requires |last| <= 1
    ensures HitsOnly(events + last) == HitsOnly(events) + if |last| == 1 && last[0].HitEvent? then last else []
  {
    if |last| == 0 {
      assert events + last == events;
    } else {
      assert (events + last)[..|events|] == events;
    }
  }

  /** The hits of one client and class, in a run of requests. */
  function HitsOf(requests: seq<Request>, general: Rule, auth: Rule): seq<Event> {
    seq(|requests|, i requires 0 <= i < |requests| =>
      HitEvent(KeyOf(requests[i]), if requests[i].isAuth then auth else general, requests[i].now))
  }

  lemma {:induction false} CallsHits(requests: seq<Request>, general: Rule, auth: Rule)
    ensures HitsOnly(Calls(requests, general, auth)) == HitsOf(requests, general, auth)
  {
    hide KeyOf, HitsOnly;
    if |requests| == 0 {
      NoCalls(general, auth);
    } else {
      var front, r := requests[..|requests| - 1], requests[|requests| - 1];
      CallsHits(front, general, auth);
      var hit := HitEvent(KeyOf(r), if r.isAuth then auth else general, r.now);
      var prune := if |requests| % PRUNE_EVERY == 0 then [PruneEvent(r.now, Max(general.window, auth.window))] else [];
      assert Calls(requests, general, auth) == Calls(front, general, auth) + [hit] + prune;
      HitsOnlyConcat(Calls(front, general, auth), [hit]);
      HitsOnlyConcat(Calls(front, general, auth) + [hit], prune);
      assert HitsOf(requests, general, auth) == HitsOf(front, general, auth) + [hit];
    }
  }

  lemma NoCalls(general: Rule, auth: Rule)
    ensures HitsOnly(Calls([], general, auth)) == HitsOf([], general, auth)
  {
  }

  /** What the log says of the last hit of a run. */
  ghost predicate DecidedAs(log: seq<Logged>, hit: Event, standing: Standing)
    requires hit.HitEvent?
  {
    && |log| > 0 && standing.Since?
    && log[|log| - 1].key == hit.key && log[|log| - 1].now == hit.now
    && (log[|log| - 1].result.allowed <==> standing.hits <= Cap(hit.rule))
    && log[|log| - 1].result.remaining == Max(0, hit.rule.limit - standing.hits)
  }

  lemma LastDecision(events: seq<Event>, key: string, rule: Rule)
    requires |events| > 0 && HitRun(events, key, rule) && events[|events| - 1].key == key
    ensures DecidedAs(Log(events), events[|events| - 1], StandingOf(events, key, rule.window))
  {
    var front, last := events[..|events| - 1], events[|events| - 1];
    assert events == front + [HitEvent(key, rule, last.now)];
    HitDecision(front, key, rule, last.now);
    hide StandingOf, ResultOf;
  }

  /**
   End to end, exactly: whatever requests arrive on a non-decreasing clock, prunes included, the last one is let
   in if and only if it is among the first `Cap` hits of its client's current window, and is told what remains.
   */
  lemma MiddlewareDecision(requests: seq<Request>, general: Rule, auth: Rule)
    requires |requests| > 0 && forall i, j :: 0 <= i < j < |requests| ==> requests[i].now <= requests[j].now
    ensures var r := requests[|requests| - 1];
            var rule := if r.isAuth then auth else general;
            var log := Log(Calls(requests, general, auth));
            && |log| == |requests|
            && DecidedAs(log, HitEvent(KeyOf(r), rule, r.now), StandingOf(HitsOf(requests, general, auth), KeyOf(r), rule.window))
  {
    hide StandingOf, Log, Calls, KeyOf, DecidedAs, HitRun;
    var r := requests[|requests| - 1];
    var rule := if r.isAuth then auth else general;
    LogIsHits(requests, general, auth);
    HitsAreARun(requests, general, auth, r);
    LogLength(HitsOf(requests, general, auth));
    LastDecision(HitsOf(requests, general, auth), KeyOf(r), rule);
  }

  /** The prunes the middleware makes are never seen. */
  lemma LogIsHits(requests: seq<Request>, general: Rule, auth: Rule)
    requires |requests| > 0 && forall i, j :: 0 <= i < j < |requests| ==> requests[i].now <= requests[j].now
    ensures Log(Calls(requests, general, auth)) == Log(HitsOf(requests, general, auth))
  {
    hide Log;
    var calls := Calls(requests, general, auth);
    CallsAreGood(requests, general, auth);
    CallsHits(requests, general, auth);
    assert forall i :: 0 <= i < |calls| ==> GoodCall(calls[i], general, auth);
    PruningIsUnobservable(calls, Max(general.window, auth.window), requests[|requests| - 1].now);
  }

  lemma HitsAreARun(requests: seq<Request>, general: Rule, auth: Rule, r: Request)
    requires forall i, j :: 0 <= i < j < |requests| ==> requests[i].now <= requests[j].now
    ensures HitRun(HitsOf(requests, general, auth), KeyOf(r), if r.isAuth then auth else general)
  {
    forall i | 0 <= i < |requests| && KeyOf(requests[i]) == KeyOf(r) ensures requests[i].isAuth == r.isAuth {
      KeysSeparate(requests[i], r);
    }
  }

  lemma {:induction false} LogLength(events: seq<Event>)
    requires forall i :: 0 <= i < |events| ==> events[i].HitEvent?
    ensures |Log(events)| == |events|
  {
    if |events| > 0 {
      LogLength(events[..|events| - 1]);
    }
  }
}
