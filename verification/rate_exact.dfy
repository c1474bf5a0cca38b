/**
 Ten minutes is exactly the longest window for which pruning goes unnoticed, denied calls are free
 and the bound on every interval holds.
 */
module RateExact {
  import opened RateLimit
  import opened RateSafety

  function Burst(ip: string, now: real, n: nat): seq<Event> {
    if n == 0 then [] else Burst(ip, now, n - 1) + [Call(ip, now)]
  }

  lemma {:induction false} BurstTimes(ip: string, now: real, n: nat)
    ensures |Burst(ip, now, n)| == n && forall e | e in Burst(ip, now, n) :: e == Call(ip, now)
  {
    if n > 0 {
      BurstTimes(ip, now, n - 1);
    }
  }

  ghost predicate AllAllowed(answers: seq<Answer>) {
    forall i | 0 <= i < |answers| :: answers[i].Allowed?
  }

  lemma AllAllowedSnoc(front: seq<Answer>, last: Answer)
    ensures AllAllowed(front + [last]) <==> AllAllowed(front) && last.Allowed?
  {
    assert (front + [last])[|front|] == last;
    assert forall i | 0 <= i < |front| :: (front + [last])[i] == front[i];
  }

  /** One more call at the moment of the last one: no refill, one token. */
  lemma CallAgain(c: Config, buckets: Buckets, ip: string, now: real, left: Bucket, prune: bool)
    requires c.Valid() && left.last == now && left.tokens <= c.Max()
    ensures var (next, answer) := Step(c, buckets[ip := left], Call(ip, now), prune);
            && (answer.Allowed? <==> left.tokens >= 1.0)
            && (answer.Allowed? ==> next == buckets[ip := left.(tokens := left.tokens - 1.0)])
  {
    NoTimeNoRefill(c, left, now);
    var taken := left.(tokens := left.tokens - 1.0);
    assert buckets[ip := left][ip := taken] == buckets[ip := taken];
  }

  /** A burst at one moment is allowed throughout exactly when there are tokens for all of it. */
  lemma {:induction false} BurstNeedsTokens(c: Config, buckets: Buckets, ip: string, now: real, n: nat, prune: bool)
    requires c.Valid() && n > 0
    ensures var tokens := Refill(c, BucketOf(c, buckets, ip, now), now).tokens;
            && (AllAllowed(Answers(c, buckets, Burst(ip, now, n), prune)) <==> tokens >= n as real)
            && (tokens >= n as real ==>
                  Exec(c, buckets, Burst(ip, now, n), prune) == buckets[ip := Bucket(tokens - n as real, now)])
  {
    hide Answers, Exec, AllAllowed, BucketOf;
    var tokens := Refill(c, BucketOf(c, buckets, ip, now), now).tokens;
    var front := Burst(ip, now, n - 1);
    LastOf(c, buckets, front, Call(ip, now), prune);
    var state := Exec(c, buckets, front, prune);
    AllAllowedSnoc(Answers(c, buckets, front, prune), Step(c, state, Call(ip, now), prune).1);
    if n == 1 {
      NothingYet(c, buckets, prune);
    } else {
      BurstNeedsTokens(c, buckets, ip, now, n - 1, prune);
      if tokens >= (n - 1) as real {
        CallAgain(c, buckets, ip, now, Bucket(tokens - (n - 1) as real, now), prune);
      }
    }
  }

  lemma NothingYet(c: Config, buckets: Buckets, prune: bool)
    requires c.Valid()
    ensures Exec(c, buckets, [], prune) == buckets && AllAllowed(Answers(c, buckets, [], prune))
  {
  }

  lemma LastOf(c: Config, buckets: Buckets, front: seq<Event>, e: Event, prune: bool)
    requires c.Valid()
    ensures var (next, answer) := Step(c, Exec(c, buckets, front, prune), e, prune);
            && Answers(c, buckets, front + [e], prune) == Answers(c, buckets, front, prune) + [answer]
            && Exec(c, buckets, front + [e], prune) == next
  {
    assert (front + [e])[..|front|] == front;
  }

  lemma NoTimeNoRefill(c: Config, b: Bucket, now: real)
    requires c.Valid() && b.last == now && b.tokens <= c.Max()
    ensures Refill(c, b, now) == b
  {
    GainAdds(c, 0.0, 0.0);
  }

  lemma FirstBurstEmpties(c: Config, ip: string, prune: bool)
    requires c.Valid()
    ensures Exec(c, map[], Burst(ip, 0.0, c.requests), prune) == map[ip := Bucket(0.0, 0.0)]
  {
    NoTimeNoRefill(c, Bucket(c.Max(), 0.0), 0.0);
    BurstNeedsTokens(c, map[], ip, 0.0, c.requests, prune);
  }

  // ---------- the ticker ----------

  /** The ticker fires every five minutes. */
  const PERIOD: real := 300.0

  function TickTimes(events: seq<Event>): seq<real> {
    if events == [] then []
    else
      var e := events[|events| - 1];
      TickTimes(events[..|events| - 1]) + (if e.Tick? then [e.now] else [])
  }

  /** The ticks of the run are all those of a ticker that fires at `first` and then every period. */
  ghost predicate Scheduled(events: seq<Event>, first: real) {
    && (forall i | 0 <= i < |TickTimes(events)| :: TickTimes(events)[i] == first + PERIOD * (i as real))
    && (events != [] ==>
          && first - PERIOD <= events[0].now
          && events[|events| - 1].now <= first + PERIOD * (|TickTimes(events)| as real))
  }

  lemma {:induction false} TickTimesConcat(first: seq<Event>, second: seq<Event>)
    ensures TickTimes(first + second) == TickTimes(first) + TickTimes(second)
    decreases |second|
  {
    if second == [] {
      assert first + second == first;
    } else {
      var n := |second| - 1;
      TickTimesConcat(first, second[..n]);
      assert (first + second)[..|first + second| - 1] == first + second[..n];
    }
  }

  lemma {:induction false} CallsHaveNoTicks(events: seq<Event>)
    requires forall e | e in events :: e.Call?
    ensures TickTimes(events) == []
  {
    if events != [] {
      assert events[|events| - 1] in events;
      CallsHaveNoTicks(events[..|events| - 1]);
    }
  }

  /** The ticks up to `idle` in the last ten minutes. */
  function Ticks(idle: real): seq<Event> {
    [Tick(idle - 600.0), Tick(idle - 300.0), Tick(idle)]
  }

  lemma TicksTimes(before: seq<Event>, idle: real, after: seq<Event>)
    requires (forall e | e in before :: e.Call?) && (forall e | e in after :: e.Call?)
    ensures TickTimes(before + Ticks(idle) + after) == [idle - 600.0, idle - 300.0, idle]
  {
    CallsHaveNoTicks(before);
    CallsHaveNoTicks(after);
    TickTimesConcat(before + Ticks(idle), after);
    TickTimesConcat(before, Ticks(idle));
    assert TickTimes([Tick(idle - 600.0)]) == [idle - 600.0];
    TickTimesConcat([Tick(idle - 600.0)], [Tick(idle - 300.0)]);
    TickTimesConcat([Tick(idle - 600.0), Tick(idle - 300.0)], [Tick(idle)]);
    assert [Tick(idle - 600.0)] + [Tick(idle - 300.0)] == [Tick(idle - 600.0), Tick(idle - 300.0)];
    assert [Tick(idle - 600.0), Tick(idle - 300.0)] + [Tick(idle)] == Ticks(idle);
  }

  lemma TicksScheduled(before: seq<Event>, idle: real, after: seq<Event>)
    requires (forall e | e in before :: e.Call?) && (forall e | e in after :: e.Call?)
    requires var events := before + Ticks(idle) + after;
             idle - 900.0 <= events[0].now && events[|events| - 1].now <= idle + 300.0
    ensures Scheduled(before + Ticks(idle) + after, idle - 600.0)
  {
    TicksTimes(before, idle, after);
  }

  lemma TickEffect(c: Config, ip: string, b: Bucket, now: real, prune: bool)
    requires c.Valid()
    ensures Step(c, map[ip := b], Tick(now), prune)
         == (if prune && now - b.last > IDLE then map[] else map[ip := b], NoCall)
  {
    var buckets: Buckets := map[ip := b];
    assert Cleanup(buckets, now) == if now - b.last > IDLE then map[] else buckets;
  }

  /** Only the last of the ticks can find the bucket idle for too long. */
  lemma TicksEffect(c: Config, ip: string, b: Bucket, idle: real, prune: bool)
    requires c.Valid() && idle <= b.last + 900.0
    ensures Exec(c, map[ip := b], Ticks(idle), prune) == if prune && idle - b.last > IDLE then map[] else map[ip := b]
    ensures Answers(c, map[ip := b], Ticks(idle), prune) == [NoCall, NoCall, NoCall]
  {
    hide Step, Exec, Answers;
    var buckets: Buckets := map[ip := b];
    var first, second, third := Tick(idle - 600.0), Tick(idle - 300.0), Tick(idle);
    TickEffect(c, ip, b, idle - 600.0, prune);
    TickEffect(c, ip, b, idle - 300.0, prune);
    TickEffect(c, ip, b, idle, prune);
    NothingYet(c, buckets, prune);
    LastOf(c, buckets, [], first, prune);
    LastOf(c, buckets, [] + [first], second, prune);
    LastOf(c, buckets, [] + [first] + [second], third, prune);
    assert [] + [first] + [second] + [third] == Ticks(idle);
    NoAnswersYet(c, buckets, prune);
    assert [] + [NoCall] + [NoCall] + [NoCall] == [NoCall, NoCall, NoCall];
  }

  lemma NoAnswersYet(c: Config, buckets: Buckets, prune: bool)
    requires c.Valid()
    ensures Answers(c, buckets, [], prune) == []
  {
  }

  // ---------- the probe ----------

  /** Use up the bucket, idle past the prune but not past the next tick, and use it up again. */
  function Probe(c: Config, ip: string, idle: real): seq<Event> {
    Burst(ip, 0.0, c.requests) + Ticks(idle) + Burst(ip, idle, c.requests)
  }

  /** An idle time that a tick ends by pruning, while the window is not over yet. */
  predicate PrunedTooSoon(c: Config, idle: real) {
    IDLE < idle <= 900.0 && idle < c.window
  }

  lemma ProbeIsSorted(c: Config, ip: string, idle: real)
    requires IDLE < idle <= 900.0
    ensures Sorted(Probe(c, ip, idle)) && Scheduled(Probe(c, ip, idle), idle - 600.0)
  {
    BurstTimes(ip, 0.0, c.requests);
    BurstTimes(ip, idle, c.requests);
    var events, n := Probe(c, ip, idle), c.requests;
    forall i | 0 <= i < |events|
      ensures events[i].now == if i < n then 0.0 else if i == n then idle - 600.0 else if i == n + 1 then idle - 300.0 else idle
    {
      if i < n {
        assert events[i] == Burst(ip, 0.0, n)[i] && events[i] in Burst(ip, 0.0, n);
      } else if i > n + 2 {
        assert events[i] == Burst(ip, idle, n)[i - n - 3] && events[i] in Burst(ip, idle, n);
      }
    }
    TicksScheduled(Burst(ip, 0.0, n), idle, Burst(ip, idle, n));
  }

  /** How the second burst of the probe is answered: from nothing, or from an empty bucket. */
  lemma ProbeAnswers(c: Config, ip: string, idle: real, prune: bool)
    requires c.Valid() && IDLE < idle <= 900.0
    ensures Answers(c, map[], Probe(c, ip, idle), prune)
         == Answers(c, map[], Burst(ip, 0.0, c.requests), prune) + [NoCall, NoCall, NoCall]
            + Answers(c, if prune then map[] else map[ip := Bucket(0.0, 0.0)], Burst(ip, idle, c.requests), prune)
    ensures |Answers(c, map[], Burst(ip, 0.0, c.requests), prune)| == c.requests
  {
    hide Answers, Exec;
    var n := c.requests;
    var first, second := Burst(ip, 0.0, n), Burst(ip, idle, n);
    FirstBurstEmpties(c, ip, prune);
    BurstTimes(ip, 0.0, n);
    TicksEffect(c, ip, Bucket(0.0, 0.0), idle, prune);
    RunConcat(c, map[], first, Ticks(idle), prune);
    RunConcat(c, map[], first + Ticks(idle), second, prune);
  }

  lemma ProbeTellsThemApart(c: Config, ip: string, idle: real)
    requires c.Valid() && PrunedTooSoon(c, idle)
    ensures Answers(c, map[], Probe(c, ip, idle), true) != Answers(c, map[], Probe(c, ip, idle), false)
  {
    hide Answers, AllAllowed;
    var n := c.requests;
    ProbeAnswers(c, ip, idle, true);
    ProbeAnswers(c, ip, idle, false);
    NoTimeNoRefill(c, Bucket(c.Max(), idle), idle);
    GainOfWindow(c);
    GainIsMonotone(c, idle, c.window);
    BurstNeedsTokens(c, map[], ip, idle, n, true);
    BurstNeedsTokens(c, map[ip := Bucket(0.0, 0.0)], ip, idle, n, false);
    var pruned, ideal := Answers(c, map[], Probe(c, ip, idle), true), Answers(c, map[], Probe(c, ip, idle), false);
    assert pruned[n + 3..] == Answers(c, map[], Burst(ip, idle, n), true);
    assert ideal[n + 3..] == Answers(c, map[ip := Bucket(0.0, 0.0)], Burst(ip, idle, n), false);
  }

  /** Halfway to the end of the window, or the next tick if that is earlier. */
  function IdleTime(c: Config): (idle: real)
    requires c.window > IDLE
    ensures PrunedTooSoon(c, idle)
  {
    var middle := (IDLE + c.window) / 2.0;
    if middle <= 900.0 then middle else 900.0
  }

  /**
   No run of calls and ticks reveals the pruning if and only if the window is at most ten minutes,
   and no run on the ticker's schedule does if and only if it is.
   */
  lemma PruningIsInvisibleIff(c: Config)
    requires c.Valid()
    ensures c.window <= IDLE <==>
            forall events | Sorted(events) :: Answers(c, map[], events, true) == Answers(c, map[], events, false)
    ensures c.window <= IDLE <==>
            forall events, first | Sorted(events) && Scheduled(events, first) ::
              Answers(c, map[], events, true) == Answers(c, map[], events, false)
  {
    hide Answers, Scheduled, Sorted;
    if c.window <= IDLE {
      forall events | Sorted(events)
        ensures Answers(c, map[], events, true) == Answers(c, map[], events, false)
      {
        PruningIsInvisible(c, events);
      }
    } else {
      ProbeIsSorted(c, "ip", IdleTime(c));
      ProbeTellsThemApart(c, "ip", IdleTime(c));
    }
  }

  // ---------- denied calls ----------

  /** The probe, with a call soon after the first burst that keeps the bucket from being pruned. */
  function Knock(c: Config, ip: string, early: real): seq<Event> {
    (Burst(ip, 0.0, c.requests) + [Call(ip, early)]) + Ticks(IDLE + early) + Burst(ip, IDLE + early, c.requests)
  }

  /** The knock comes before the first token and leaves no time for a full bucket. */
  predicate TooSoon(c: Config, early: real)
    requires c.Valid()
  {
    0.0 < early && c.Gain(early) < 1.0 && PrunedTooSoon(c, IDLE + early)
  }

  lemma KnockWithoutCall(c: Config, ip: string, early: real)
    ensures |Knock(c, ip, early)| > c.requests && Knock(c, ip, early)[c.requests] == Call(ip, early)
    ensures Knock(c, ip, early)[..c.requests] + Knock(c, ip, early)[c.requests + 1..] == Probe(c, ip, IDLE + early)
  {
    BurstTimes(ip, 0.0, c.requests);
  }

  lemma KnockIsSorted(c: Config, ip: string, early: real)
    requires 0.0 < early <= 300.0
    ensures Sorted(Knock(c, ip, early)) && Scheduled(Knock(c, ip, early), early)
  {
    var idle, n := IDLE + early, c.requests;
    BurstTimes(ip, 0.0, n);
    BurstTimes(ip, idle, n);
    var events := Knock(c, ip, early);
    forall i | 0 <= i < |events|
      ensures events[i].now == if i < n then 0.0 else if i <= n + 1 then early else if i == n + 2 then 300.0 + early else idle
    {
      if i < n {
        assert events[i] == Burst(ip, 0.0, n)[i] && events[i] in Burst(ip, 0.0, n);
      } else if i > n + 3 {
        assert events[i] == Burst(ip, idle, n)[i - n - 4] && events[i] in Burst(ip, idle, n);
      }
    }
    TicksScheduled(Burst(ip, 0.0, n) + [Call(ip, early)], idle, Burst(ip, idle, n));
    assert idle - 600.0 == early;
  }

  lemma DeniedFromEmpty(c: Config, ip: string, early: real)
    requires c.Valid() && TooSoon(c, early)
    ensures var (after, answer) := Step(c, map[ip := Bucket(0.0, 0.0)], Call(ip, early), true);
            after == map[ip := Bucket(c.Gain(early), early)] && answer.Denied?
  {
    assert early - 0.0 == early;
  }

  /** The call is denied, and the second burst then finds a bucket that is neither gone nor full. */
  lemma KnockAnswers(c: Config, ip: string, early: real)
    requires c.Valid() && TooSoon(c, early)
    ensures var answers := Answers(c, map[], Knock(c, ip, early), true);
            && |answers| > c.requests + 3 && answers[c.requests].Denied?
            && answers[c.requests + 4..]
               == Answers(c, map[ip := Bucket(c.Gain(early), early)], Burst(ip, IDLE + early, c.requests), true)
  {
    hide Answers, Exec, Config.Gain, BucketOf;
    var n, idle := c.requests, IDLE + early;
    var first, second := Burst(ip, 0.0, n), Burst(ip, idle, n);
    FirstBurstEmpties(c, ip, true);
    BurstTimes(ip, 0.0, n);
    DeniedFromEmpty(c, ip, early);
    var left := Bucket(c.Gain(early), early);
    LastOf(c, map[], first, Call(ip, early), true);
    TicksEffect(c, ip, left, idle, true);
    RunConcat(c, map[], first + [Call(ip, early)], Ticks(idle), true);
    RunConcat(c, map[], (first + [Call(ip, early)]) + Ticks(idle), second, true);
  }

  lemma KnockTellsThemApart(c: Config, ip: string, early: real)
    requires c.Valid() && TooSoon(c, early)
    ensures var answers := Answers(c, map[], Knock(c, ip, early), true); var n := c.requests;
            && |answers| > n && answers[n].Denied?
            && Answers(c, map[], Probe(c, ip, IDLE + early), true) != answers[..n] + answers[n + 1..]
  {
    hide Answers, Config.Gain, AllAllowed;
    var n, idle := c.requests, IDLE + early;
    KnockAnswers(c, ip, early);
    ProbeAnswers(c, ip, idle, true);
    var left := Bucket(c.Gain(early), early);
    BurstNeedsTokens(c, map[], ip, idle, n, true);
    BurstNeedsTokens(c, map[ip := left], ip, idle, n, true);
    NoTimeNoRefill(c, Bucket(c.Max(), idle), idle);
    GainAdds(c, early, idle - early);
    assert early + (idle - early) == idle;
    GainOfWindow(c);
    GainIsMonotone(c, idle, c.window);
    var answers := Answers(c, map[], Knock(c, ip, early), true);
    assert (answers[..n] + answers[n + 1..])[n + 3..] == answers[n + 4..];
    assert Answers(c, map[], Probe(c, ip, idle), true)[n + 3..] == Answers(c, map[], Burst(ip, idle, n), true);
  }

  /** The k-th call of the run was denied, and without it the other answers are the same. */
  ghost predicate IsFree(c: Config, events: seq<Event>, k: nat)
    requires c.Valid() && k < |events|
  {
    var answers := Answers(c, map[], events, true);
    events[k].Call? && answers[k].Denied? ==>
      Answers(c, map[], events[..k] + events[k + 1..], true) == answers[..k] + answers[k + 1..]
  }

  /**
   Removing a denied call changes no other answer, in any run, if and only if the window is at most
   ten minutes; runs on the ticker's schedule are enough to see the difference.
   */
  lemma DeniedCallsAreFreeIff(c: Config)
    requires c.Valid()
    ensures c.window <= IDLE <==>
            forall events: seq<Event>, k | Sorted(events) && 0 <= k < |events| :: IsFree(c, events, k)
    ensures c.window <= IDLE <==>
            forall events: seq<Event>, first, k | Sorted(events) && Scheduled(events, first) && 0 <= k < |events| ::
              IsFree(c, events, k)
  {
    hide Answers, Sorted, Scheduled;
    if c.window <= IDLE {
      forall events: seq<Event>, k | Sorted(events) && 0 <= k < |events| ensures IsFree(c, events, k) {
        if events[k].Call? && Answers(c, map[], events, true)[k].Denied? {
          DeniedCallsAreFree(c, events, k);
        }
      }
    } else {
      var early := EarlyEnough(c);
      KnockIsSorted(c, "ip", early);
      KnockWithoutCall(c, "ip", early);
      KnockTellsThemApart(c, "ip", early);
      assert !IsFree(c, Knock(c, "ip", early), c.requests);
    }
  }

  /** A time for the knock: half the slack of the window or half the wait for a token, whichever is less, and within a period. */
  function EarlyEnough(c: Config): (early: real)
    requires c.Valid() && c.window > IDLE
    ensures TooSoon(c, early)
  {
    var slack := IdleTime(c) - IDLE;
    var token := 0.5 / c.Rate();
    RateIsPositive(c);
    GainOfWait(c, 0.5);
    if slack <= token then
      GainIsMonotone(c, slack, token);
      slack
    else token
  }

  // ---------- the sliding window ----------

  lemma {:induction false} CountConcat(first: seq<Event>, firstAnswers: seq<Answer>, second: seq<Event>,
                                       secondAnswers: seq<Answer>, ip: string, from: real, upTo: real)
    requires |first| == |firstAnswers| && |second| == |secondAnswers|
    ensures CountAllowed(first + second, firstAnswers + secondAnswers, ip, from, upTo)
         == CountAllowed(first, firstAnswers, ip, from, upTo) + CountAllowed(second, secondAnswers, ip, from, upTo)
    decreases |second|
  {
    if second == [] {
      assert first + second == first && firstAnswers + secondAnswers == firstAnswers;
    } else {
      var n := |second| - 1;
      CountConcat(first, firstAnswers, second[..n], secondAnswers[..n], ip, from, upTo);
      assert (first + second)[..|first| + n] == first + second[..n];
      assert (firstAnswers + secondAnswers)[..|first| + n] == firstAnswers + secondAnswers[..n];
    }
  }

  lemma {:induction false} CountBurst(ip: string, now: real, n: nat, answers: seq<Answer>, from: real, upTo: real)
    requires |Burst(ip, now, n)| == |answers| == n && AllAllowed(answers) && from <= now <= upTo
    ensures CountAllowed(Burst(ip, now, n), answers, ip, from, upTo) == n
  {
    if n > 0 {
      BurstTimes(ip, now, n - 1);
      CountBurst(ip, now, n - 1, answers[..n - 1], from, upTo);
      assert Burst(ip, now, n)[..n - 1] == Burst(ip, now, n - 1);
    }
  }

  /** The pruning limiter lets both bursts of the probe through. */
  lemma ProbeCount(c: Config, ip: string, idle: real)
    requires c.Valid() && IDLE < idle <= 900.0
    ensures CountAllowed(Probe(c, ip, idle), Answers(c, map[], Probe(c, ip, idle), true), ip, 0.0, idle) == 2 * c.requests
  {
    hide Answers, CountAllowed, AllAllowed;
    var n := c.requests;
    var first, second := Burst(ip, 0.0, n), Burst(ip, idle, n);
    BurstTimes(ip, 0.0, n);
    BurstTimes(ip, idle, n);
    NoTimeNoRefill(c, Bucket(c.Max(), 0.0), 0.0);
    NoTimeNoRefill(c, Bucket(c.Max(), idle), idle);
    BurstNeedsTokens(c, map[], ip, 0.0, n, true);
    BurstNeedsTokens(c, map[], ip, idle, n, true);
    ProbeAnswers(c, ip, idle, true);
    var a1, a2 := Answers(c, map[], first, true), Answers(c, map[], second, true);
    CountBurst(ip, 0.0, n, a1, 0.0, idle);
    CountBurst(ip, idle, n, a2, 0.0, idle);
    CountConcat(first, a1, Ticks(idle), [NoCall, NoCall, NoCall], ip, 0.0, idle);
    CountTicks(idle, ip, 0.0, idle);
    CountConcat(first + Ticks(idle), a1 + [NoCall, NoCall, NoCall], second, a2, ip, 0.0, idle);
  }

  lemma CountTicks(idle: real, ip: string, from: real, upTo: real)
    ensures CountAllowed(Ticks(idle), [NoCall, NoCall, NoCall], ip, from, upTo) == 0
  {
    NoCallsNoneAllowed(Ticks(idle), [NoCall, NoCall, NoCall], ip, from, upTo);
  }

  lemma {:induction false} NoCallsNoneAllowed(events: seq<Event>, answers: seq<Answer>, ip: string, from: real, upTo: real)
    requires |events| == |answers| && forall i | 0 <= i < |events| :: events[i].Tick?
    ensures CountAllowed(events, answers, ip, from, upTo) == 0
  {
    if events != [] {
      NoCallsNoneAllowed(events[..|events| - 1], answers[..|events| - 1], ip, from, upTo);
    }
  }

  /** The calls of every IP in every interval stay within a full bucket and the interval's refill. */
  ghost predicate Bounded(c: Config, events: seq<Event>)
    requires c.Valid()
  {
    forall ip, from, upTo | from <= upTo ::
      CountAllowed(events, Answers(c, map[], events, true), ip, from, upTo) as real <= c.Max() + c.Gain(upTo - from)
  }

  /**
   The bound on every interval holds of every run of the pruning limiter if and only if the window
   is at most ten minutes; runs on the ticker's schedule are enough to see the difference.
   */
  lemma WindowBoundIff(c: Config)
    requires c.Valid()
    ensures c.window <= IDLE <==> forall events | Sorted(events) :: Bounded(c, events)
    ensures c.window <= IDLE <==> forall events, first | Sorted(events) && Scheduled(events, first) :: Bounded(c, events)
  {
    hide Answers, CountAllowed, Sorted, Scheduled, Config.Gain;
    if c.window <= IDLE {
      forall events | Sorted(events) ensures Bounded(c, events) {
        forall ip, from, upTo | from <= upTo
          ensures CountAllowed(events, Answers(c, map[], events, true), ip, from, upTo) as real <= c.Max() + c.Gain(upTo - from)
        {
          WindowBound(c, events, ip, from, upTo);
        }
      }
    } else {
      var idle := IdleTime(c);
      ProbeIsSorted(c, "ip", idle);
      ProbeCount(c, "ip", idle);
      GainOfWindow(c);
      GainIsMonotone(c, idle, c.window);
      assert idle - 0.0 == idle;
      assert !Bounded(c, Probe(c, "ip", idle));
    }
  }
}
