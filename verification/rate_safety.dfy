/** What the limiter promises over every sequence of calls and cleanup ticks. */
module RateSafety {
  import opened RateLimit

  // ---------- pruning ----------

  /** Every bucket is in range and was last refilled by `now`. */
  ghost predicate Healthy(c: Config, buckets: Buckets, now: real) {
    forall ip | ip in buckets :: InRange(c, buckets[ip]) && buckets[ip].last <= now
  }

  /** The bucket would be full by `now`. */
  predicate FullBy(c: Config, b: Bucket, now: real)
    requires c.Valid()
  {
    b.tokens + c.Gain(now - b.last) >= c.Max()
  }

  /** The pruned table is the ideal one without some buckets that would be full anyway. */
  ghost predicate Agree(c: Config, ideal: Buckets, pruned: Buckets, now: real)
    requires c.Valid()
  {
    && Healthy(c, ideal, now)
    && (forall ip | ip in pruned :: ip in ideal && pruned[ip] == ideal[ip])
    && (forall ip | ip in ideal && ip !in pruned :: FullBy(c, ideal[ip], now))
  }

  lemma FullStaysFull(c: Config, b: Bucket, now: real, later: real)
    requires c.Valid() && b.last <= now <= later && FullBy(c, b, now)
    ensures FullBy(c, b, later)
  {
    GainIsMonotone(c, now - b.last, later - b.last);
  }

  lemma AgreeLater(c: Config, ideal: Buckets, pruned: Buckets, now: real, later: real)
    requires c.Valid() && Agree(c, ideal, pruned, now) && now <= later
    ensures Agree(c, ideal, pruned, later)
  {
    forall ip | ip in ideal && ip !in pruned ensures FullBy(c, ideal[ip], later) {
      FullStaysFull(c, ideal[ip], now, later);
    }
  }

  lemma CallAgrees(c: Config, ideal: Buckets, pruned: Buckets, ip: string, now: real)
    requires c.Valid() && Agree(c, ideal, pruned, now)
    ensures Step(c, ideal, Call(ip, now), false).1 == Step(c, pruned, Call(ip, now), true).1
    ensures Agree(c, Step(c, ideal, Call(ip, now), false).0, Step(c, pruned, Call(ip, now), true).0, now)
  {
    var b, b' := BucketOf(c, ideal, ip, now), BucketOf(c, pruned, ip, now);
    assert Refill(c, b, now) == Refill(c, b', now);
    TakeStaysInRange(c, b, now);
  }

  lemma TickAgrees(c: Config, ideal: Buckets, pruned: Buckets, now: real)
    requires c.Valid() && c.window <= IDLE && Agree(c, ideal, pruned, now)
    ensures Agree(c, ideal, Cleanup(pruned, now), now)
  {
    forall ip | ip in ideal && ip !in Cleanup(pruned, now) ensures FullBy(c, ideal[ip], now) {
      if ip in pruned {
        GainOfWindow(c);
        GainIsMonotone(c, c.window, now - ideal[ip].last);
      }
    }
  }

  lemma StepAgrees(c: Config, ideal: Buckets, pruned: Buckets, e: Event)
    requires c.Valid() && c.window <= IDLE && Agree(c, ideal, pruned, e.now)
    ensures Step(c, ideal, e, false).1 == Step(c, pruned, e, true).1
    ensures Agree(c, Step(c, ideal, e, false).0, Step(c, pruned, e, true).0, e.now)
  {
    hide Agree, Take, Cleanup;
    match e
    case Call(ip, now) => CallAgrees(c, ideal, pruned, ip, now);
    case Tick(now) => TickAgrees(c, ideal, pruned, now);
  }

  lemma {:induction false} RunsAgree(c: Config, events: seq<Event>, now: real)
    requires c.Valid() && c.window <= IDLE && Sorted(events)
    requires events != [] ==> events[|events| - 1].now <= now
    ensures Answers(c, map[], events, true) == Answers(c, map[], events, false)
    ensures Agree(c, Exec(c, map[], events, false), Exec(c, map[], events, true), now)
  {
    hide Agree, Step;
    if events == [] {
      NobodyAgrees(c, now);
    } else {
      var front, e := events[..|events| - 1], events[|events| - 1];
      RunsAgree(c, front, e.now);
      StepAgrees(c, Exec(c, map[], front, false), Exec(c, map[], front, true), e);
      AgreeLater(c, Exec(c, map[], events, false), Exec(c, map[], events, true), e.now, now);
    }
  }

  lemma NobodyAgrees(c: Config, now: real)
    requires c.Valid()
    ensures Agree(c, map[], map[], now)
  {
  }

  /** With a window of at most ten minutes nobody can tell that idle buckets are pruned. */
  lemma PruningIsInvisible(c: Config, events: seq<Event>)
    requires c.Valid() && c.window <= IDLE && Sorted(events)
    ensures Answers(c, map[], events, true) == Answers(c, map[], events, false)
  {
    RunsAgree(c, events, if events == [] then 0.0 else events[|events| - 1].now);
  }

  // ---------- runs in two parts ----------

  lemma {:induction false} RunConcat(c: Config, buckets: Buckets, first: seq<Event>, second: seq<Event>, prune: bool)
    requires c.Valid()
    ensures Exec(c, buckets, first + second, prune) == Exec(c, Exec(c, buckets, first, prune), second, prune)
    ensures Answers(c, buckets, first + second, prune)
         == Answers(c, buckets, first, prune) + Answers(c, Exec(c, buckets, first, prune), second, prune)
    decreases |second|
  {
    hide Step;
    if second == [] {
      assert first + second == first;
    } else {
      var n := |second| - 1;
      RunConcat(c, buckets, first, second[..n], prune);
      assert (first + second)[..|first + second| - 1] == first + second[..n];
    }
  }

  /** Tokens stay between zero and the maximum, whether idle buckets are pruned or not and whatever the window. */
  lemma {:induction false} HealthyRun(c: Config, events: seq<Event>, now: real, prune: bool)
    requires c.Valid() && Sorted(events)
    requires events != [] ==> events[|events| - 1].now <= now
    ensures Healthy(c, Exec(c, map[], events, prune), now)
  {
    if events != [] {
      var front, e := events[..|events| - 1], events[|events| - 1];
      HealthyRun(c, front, e.now, prune);
      if e.Call? {
        TakeStaysInRange(c, BucketOf(c, Exec(c, map[], front, prune), e.ip, e.now), e.now);
      }
    }
  }

  // ---------- the sliding window ----------

  /** One call in the window: what it takes and leaves stays within the budget the window has so far. */
  lemma TakeWithinBudget(c: Config, b: Bucket, isNew: bool, now: real, from: real, count: nat)
    requires c.Valid() && InRange(c, b) && b.last <= now && from <= now
    requires isNew ==> b.last == now && count == 0
    requires !isNew && b.last >= from ==> count as real + b.tokens <= c.Max() + c.Gain(b.last - from)
    requires b.last < from ==> count == 0
    ensures var (left, answer) := Take(c, b, now);
            (if answer.Allowed? then count + 1 else count) as real + left.tokens <= c.Max() + c.Gain(now - from)
  {
    TakeStaysInRange(c, b, now);
    GainIsMonotone(c, 0.0, now - from);
    if !isNew && b.last >= from {
      GainAdds(c, b.last - from, now - b.last);
      assert (b.last - from) + (now - b.last) == now - from;
    }
  }

  /** Allowed calls and tokens left together are within a full bucket and what was refilled since `from`. */
  ghost predicate WithinBudget(c: Config, buckets: Buckets, ip: string, from: real, count: nat)
    requires c.Valid()
  {
    if ip in buckets && buckets[ip].last >= from
    then count as real + buckets[ip].tokens <= c.Max() + c.Gain(buckets[ip].last - from)
    else count == 0
  }

  lemma CallWithinBudget(c: Config, before: Buckets, ip: string, now: real, from: real, count: nat)
    requires c.Valid() && Healthy(c, before, now) && WithinBudget(c, before, ip, from, count)
    ensures var (after, answer) := Step(c, before, Call(ip, now), false);
            WithinBudget(c, after, ip, from, if from <= now && answer.Allowed? then count + 1 else count)
  {
    var b := BucketOf(c, before, ip, now);
    TakeStaysInRange(c, b, now);
    hide Take;
    if from <= now {
      TakeWithinBudget(c, b, ip !in before, now, from, count);
    }
  }

  /** Counting the last event of a run. */
  lemma CountLast(c: Config, events: seq<Event>, ip: string, from: real, upTo: real)
    requires c.Valid() && events != []
    ensures var front, e := events[..|events| - 1], events[|events| - 1];
            var (_, answer) := Step(c, Exec(c, map[], front, false), e, false);
            var one := if e.Call? && e.ip == ip && from <= e.now <= upTo && answer.Allowed? then 1 else 0;
            CountAllowed(events, Answers(c, map[], events, false), ip, from, upTo)
              == CountAllowed(front, Answers(c, map[], front, false), ip, from, upTo) + one
  {
    hide Step;
    assert Answers(c, map[], events, false)[..|events| - 1] == Answers(c, map[], events[..|events| - 1], false);
  }

  lemma OthersWithinBudget(c: Config, before: Buckets, e: Event, ip: string, from: real, count: nat)
    requires c.Valid() && WithinBudget(c, before, ip, from, count) && !(e.Call? && e.ip == ip)
    ensures WithinBudget(c, Step(c, before, e, false).0, ip, from, count)
  {
    hide Take;
  }

  /** Over every run, the calls of the window so far and the tokens left are within the budget. */
  lemma {:induction false} WindowBudget(c: Config, events: seq<Event>, ip: string, from: real, upTo: real)
    requires c.Valid() && Sorted(events)
    requires forall e | e in events :: e.now <= upTo
    ensures WithinBudget(c, Exec(c, map[], events, false), ip, from,
                         CountAllowed(events, Answers(c, map[], events, false), ip, from, upTo))
  {
    hide Step, Answers, CountAllowed, WithinBudget, Healthy;
    if events == [] {
      CountNothing(ip, from, upTo);
      NobodyWithinBudget(c, ip, from);
    } else {
      var front, e := events[..|events| - 1], events[|events| - 1];
      var before := Exec(c, map[], front, false);
      WindowBudget(c, front, ip, from, upTo);
      HealthyRun(c, front, e.now, false);
      CountLast(c, events, ip, from, upTo);
      var count := CountAllowed(front, Answers(c, map[], front, false), ip, from, upTo);
      if e.Call? && e.ip == ip {
        CallWithinBudget(c, before, ip, e.now, from, count);
      } else {
        OthersWithinBudget(c, before, e, ip, from, count);
      }
    }
  }

  lemma NobodyWithinBudget(c: Config, ip: string, from: real)
    requires c.Valid()
    ensures WithinBudget(c, map[], ip, from, 0)
  {
  }

  lemma {:induction false} IdealWindowBound(c: Config, events: seq<Event>, ip: string, from: real, upTo: real)
    requires c.Valid() && Sorted(events) && from <= upTo
    ensures CountAllowed(events, Answers(c, map[], events, false), ip, from, upTo) as real
         <= c.Max() + c.Gain(upTo - from)
  {
    hide CountAllowed, Answers, Exec, Config.Gain;
    GainIsMonotone(c, 0.0, upTo - from);
    if events == [] {
      CountNothing(ip, from, upTo);
    } else {
      var front, e := events[..|events| - 1], events[|events| - 1];
      if e.now > upTo {
        IdealWindowBound(c, front, ip, from, upTo);
        CountLast(c, events, ip, from, upTo);
      } else {
        WindowBudget(c, events, ip, from, upTo);
        HealthyRun(c, events, upTo, false);
        var buckets := Exec(c, map[], events, false);
        if ip in buckets && buckets[ip].last >= from {
          GainIsMonotone(c, buckets[ip].last - from, upTo - from);
        }
      }
    }
  }

  lemma CountNothing(ip: string, from: real, upTo: real)
    ensures CountAllowed([], [], ip, from, upTo) == 0
  {
  }

  /**
   For every IP, every sequence of calls and ticks and every interval, the calls allowed in it are
   at most a full bucket and the refill of the interval, pruning included.
   */
  lemma WindowBound(c: Config, events: seq<Event>, ip: string, from: real, upTo: real)
    requires c.Valid() && c.window <= IDLE && Sorted(events) && from <= upTo
    ensures CountAllowed(events, Answers(c, map[], events, true), ip, from, upTo) as real
         <= c.Max() + c.Gain(upTo - from)
  {
    hide Answers, CountAllowed, Sorted;
    PruningIsInvisible(c, events);
    IdealWindowBound(c, events, ip, from, upTo);
  }

  // ---------- denied calls ----------

  /** From `now` on the two buckets refill alike. */
  ghost predicate Alike(c: Config, b: Bucket, b': Bucket, now: real)
    requires c.Valid()
  {
    forall later | later >= now :: Refill(c, b, later) == Refill(c, b', later)
  }

  ghost predicate AllAlike(c: Config, one: Buckets, other: Buckets, now: real)
    requires c.Valid()
  {
    one.Keys == other.Keys && forall ip | ip in one :: Alike(c, one[ip], other[ip], now)
  }

  lemma AlikeStep(c: Config, one: Buckets, other: Buckets, e: Event)
    requires c.Valid() && AllAlike(c, one, other, e.now)
    ensures Step(c, one, e, false).1 == Step(c, other, e, false).1
    ensures AllAlike(c, Step(c, one, e, false).0, Step(c, other, e, false).0, e.now)
  {
    if e.Call? {
      assert Refill(c, BucketOf(c, one, e.ip, e.now), e.now) == Refill(c, BucketOf(c, other, e.ip, e.now), e.now);
    }
  }

  lemma AlikeLater(c: Config, one: Buckets, other: Buckets, now: real, later: real)
    requires c.Valid() && AllAlike(c, one, other, now) && now <= later
    ensures AllAlike(c, one, other, later)
  {
  }

  lemma {:induction false} AlikeRuns(c: Config, one: Buckets, other: Buckets, events: seq<Event>, now: real, end: real)
    requires c.Valid() && AllAlike(c, one, other, now) && Sorted(events) && now <= end
    requires forall e | e in events :: now <= e.now <= end
    ensures Answers(c, one, events, false) == Answers(c, other, events, false)
    ensures AllAlike(c, Exec(c, one, events, false), Exec(c, other, events, false), end)
  {
    hide AllAlike, Step;
    if events == [] {
      AlikeLater(c, one, other, now, end);
    } else {
      var front, e := events[..|events| - 1], events[|events| - 1];
      assert e in events;
      forall i | 0 <= i < |front| ensures now <= front[i].now <= e.now {
        assert front[i] == events[i] && events[i] in events;
      }
      AlikeRuns(c, one, other, front, now, e.now);
      AlikeStep(c, Exec(c, one, front, false), Exec(c, other, front, false), e);
      AlikeLater(c, Exec(c, one, events, false), Exec(c, other, events, false), e.now, end);
    }
  }

  /** A denied call leaves the buckets alike. */
  lemma DeniedStep(c: Config, buckets: Buckets, ip: string, now: real)
    requires c.Valid() && Healthy(c, buckets, now) && Step(c, buckets, Call(ip, now), false).1.Denied?
    ensures AllAlike(c, Step(c, buckets, Call(ip, now), false).0, buckets, now)
  {
    var b := BucketOf(c, buckets, ip, now);
    assert ip in buckets;
    forall later | later >= now ensures Refill(c, Refill(c, b, now), later) == Refill(c, b, later) {
      RefillsCompose(c, b, now, later);
    }
  }

  /** A run, taken apart around one of its events. */
  lemma RunAround(c: Config, buckets: Buckets, events: seq<Event>, k: nat, prune: bool)
    requires c.Valid() && k < |events|
    ensures var (next, answer) := Step(c, Exec(c, buckets, events[..k], prune), events[k], prune);
            && Answers(c, buckets, events, prune)
               == Answers(c, buckets, events[..k], prune) + [answer] + Answers(c, next, events[k + 1..], prune)
            && Exec(c, buckets, events, prune) == Exec(c, next, events[k + 1..], prune)
  {
    hide Step;
    var middle := events[..k] + [events[k]];
    assert middle[..k] == events[..k];
    assert events == middle + events[k + 1..];
    RunConcat(c, buckets, middle, events[k + 1..], prune);
  }

  lemma SortedWithout(events: seq<Event>, k: nat)
    requires Sorted(events) && k < |events|
    ensures Sorted(events[..k]) && Sorted(events[k + 1..]) && Sorted(events[..k] + events[k + 1..])
    ensures k > 0 ==> events[k - 1].now <= events[k].now
    ensures forall e | e in events[k + 1..] :: events[k].now <= e.now <= events[|events| - 1].now
  {
    var rest := events[..k] + events[k + 1..];
    forall i, j | 0 <= i < j < |rest| ensures rest[i].now <= rest[j].now {
      assert rest[i] == events[if i < k then i else i + 1] && rest[j] == events[if j < k then j else j + 1];
    }
  }

  /** Removing a denied call changes no other answer of the ideal limiter. */
  lemma IdealDeniedCallsAreFree(c: Config, events: seq<Event>, k: nat)
    requires c.Valid() && Sorted(events) && k < |events| && events[k].Call?
    requires Answers(c, map[], events, false)[k].Denied?
    ensures var answers := Answers(c, map[], events, false);
            Answers(c, map[], events[..k] + events[k + 1..], false) == answers[..k] + answers[k + 1..]
  {
    hide Answers, Exec, Step, Sorted, Healthy, AllAlike;
    var before, call, after := events[..k], events[k], events[k + 1..];
    SortedWithout(events, k);
    var state := Exec(c, map[], before, false);
    RunAround(c, map[], events, k, false);
    RunConcat(c, map[], before, after, false);
    HealthyRun(c, before, call.now, false);
    DeniedStep(c, state, call.ip, call.now);
    SortedEnds(events, k);
    AlikeRuns(c, Step(c, state, call, false).0, state, after, call.now, events[|events| - 1].now);
  }

  lemma SortedEnds(events: seq<Event>, k: nat)
    requires Sorted(events) && k < |events|
    ensures events[k].now <= events[|events| - 1].now
  {
  }

  /** Removing a denied call changes no other answer, pruning included. */
  lemma DeniedCallsAreFree(c: Config, events: seq<Event>, k: nat)
    requires c.Valid() && c.window <= IDLE && Sorted(events) && k < |events| && events[k].Call?
    requires Answers(c, map[], events, true)[k].Denied?
    ensures var answers := Answers(c, map[], events, true);
            Answers(c, map[], events[..k] + events[k + 1..], true) == answers[..k] + answers[k + 1..]
  {
    hide Answers, Sorted;
    SortedWithout(events, k);
    PruningIsInvisible(c, events);
    PruningIsInvisible(c, events[..k] + events[k + 1..]);
    IdealDeniedCallsAreFree(c, events, k);
  }

  // ---------- waiting ----------

  /**
   A denied bucket allows a call again after exactly (1 - tokens) / rate seconds, and the returned
   whole number of seconds is longer than that by at most one.
   */
  lemma RetryAfterIsTight(c: Config, b: Bucket, now: real, later: real)
    requires c.Valid() && InRange(c, b) && b.last <= now <= later && Take(c, b, now).1.Denied?
    ensures var (left, answer) := Take(c, b, now);
            var wait := (1.0 - left.tokens) / c.Rate();
            && wait < answer.retryAfter as real <= wait + 1.0
            && (Take(c, left, later).1.Allowed? <==> later - now >= wait)
  {
    RateIsPositive(c);
    TakeStaysInRange(c, b, now);
    var left := Take(c, b, now).0;
    var missing := 1.0 - left.tokens;
    var wait := missing / c.Rate();
    GainOfWait(c, missing);
    GainIsMonotone(c, 0.0, later - now);
    if later - now >= wait {
      GainIsMonotone(c, wait, later - now);
    } else {
      GainIsMonotone(c, later - now, wait);
    }
  }

  /** Calls of others and cleanups leave a bucket as it was or remove it. */
  lemma {:induction false} OthersLeaveBucketAlone(c: Config, buckets: Buckets, events: seq<Event>, ip: string, prune: bool)
    requires c.Valid() && forall e | e in events && e.Call? :: e.ip != ip
    ensures ip in Exec(c, buckets, events, prune) ==>
              ip in buckets && Exec(c, buckets, events, prune)[ip] == buckets[ip]
  {
    if events != [] {
      assert events[|events| - 1] in events;
      OthersLeaveBucketAlone(c, buckets, events[..|events| - 1], ip, prune);
    }
  }

  /** The bucket after a call that no later call of the IP follows, unless it was pruned. */
  lemma BucketAfterLastCall(c: Config, events: seq<Event>, k: nat, prune: bool)
    requires c.Valid() && k < |events| && events[k].Call?
    requires forall j | k < j < |events| && events[j].Call? :: events[j].ip != events[k].ip
    ensures var ip := events[k].ip;
            var (left, answer) := Take(c, BucketOf(c, Exec(c, map[], events[..k], prune), ip, events[k].now), events[k].now);
            && Answers(c, map[], events, prune)[k] == answer
            && (ip in Exec(c, map[], events, prune) ==> Exec(c, map[], events, prune)[ip] == left)
  {
    hide Take, BucketOf, Answers, Exec;
    RunAround(c, map[], events, k, prune);
    var next := Step(c, Exec(c, map[], events[..k], prune), events[k], prune).0;
    OthersLeaveBucketAlone(c, next, events[k + 1..], events[k].ip, prune);
  }

  /** The last answer of a run, from the bucket the run before it left. */
  lemma LastAnswer(c: Config, events: seq<Event>, last: Event, prune: bool)
    requires c.Valid()
    ensures Answers(c, map[], events + [last], prune)
         == Answers(c, map[], events, prune) + [Step(c, Exec(c, map[], events, prune), last, prune).1]
  {
    assert (events + [last])[..|events|] == events;
  }

  lemma NewBucketAllows(c: Config, now: real)
    requires c.Valid()
    ensures Take(c, Bucket(c.Max(), now), now).1.Allowed?
  {
    GainIsMonotone(c, 0.0, now - now);
  }

  /**
   In any run and for any window, a caller that was denied and waits the returned number of seconds
   is allowed if nothing else came from its IP in between, even if its bucket was pruned meanwhile.
   */
  lemma DeniedCallerMayReturn(c: Config, events: seq<Event>, k: nat, retry: Event, prune: bool)
    requires c.Valid() && Sorted(events + [retry])
    requires k < |events| && events[k].Call? && retry.Call? && retry.ip == events[k].ip
    requires forall j | k < j < |events| && events[j].Call? :: events[j].ip != retry.ip
    requires Answers(c, map[], events + [retry], prune)[k].Denied?
    requires retry.now >= events[k].now + Answers(c, map[], events + [retry], prune)[k].retryAfter as real
    ensures Answers(c, map[], events + [retry], prune)[|events|].Allowed?
  {
    hide Take, Answers, Exec;
    var call := events[k];
    LastAnswer(c, events, retry, prune);
    BucketAfterLastCall(c, events, k, prune);
    SortedWithout(events + [retry], k);
    assert (events + [retry])[..k] == events[..k] && (events + [retry])[k] == call;
    HealthyRun(c, events[..k], call.now, prune);
    var b := BucketOf(c, Exec(c, map[], events[..k], prune), call.ip, call.now);
    assert Take(c, b, call.now).1 == Answers(c, map[], events + [retry], prune)[k];
    SortedEnds(events + [retry], k);
    RetryAfterIsTight(c, b, call.now, retry.now);
    NewBucketAllows(c, retry.now);
  }
}
