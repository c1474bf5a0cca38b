/**
 The token-bucket limiter on values: one call, one cleanup, and runs of both. Time is a real
 number of seconds; a call is one atomic step.
 */
module RateLimit {
  /** Buckets idle for longer than ten minutes are pruned. */
  const IDLE: real := 600.0

  datatype Config = Config(requests: nat, window: real) {
    predicate Valid() {
      requests >= 1 && window > 0.0
    }

    function Max(): real {
      requests as real
    }

    function Rate(): real
      requires Valid()
    {
      Max() / window
    }

    /** What `seconds` refill, before the cap. */
    function Gain(seconds: real): real
      requires Valid()
    {
      seconds * Rate()
    }
  }

  datatype Bucket = Bucket(tokens: real, last: real)

  type Buckets = map<string, Bucket>

  /** The answer to one event; a cleanup tick has none. */
  datatype Answer = Allowed | Denied(retryAfter: int) | NoCall

  /** Go's conversion to int drops the fraction. */
  function Truncate(x: real): int {
    if x >= 0.0 then x.Floor else -((-x).Floor)
  }

  function Refill(c: Config, b: Bucket, now: real): Bucket
    requires c.Valid()
  {
    var tokens := b.tokens + c.Gain(now - b.last);
    Bucket(if tokens > c.Max() then c.Max() else tokens, now)
  }

  function Take(c: Config, b: Bucket, now: real): (Bucket, Answer)
    requires c.Valid()
  {
    var r := Refill(c, b, now);
    if r.tokens >= 1.0 then (r.(tokens := r.tokens - 1.0), Allowed)
    else (r, Denied(Truncate((1.0 - r.tokens) / c.Rate()) + 1))
  }

  /** The bucket of an IP, or a new full one. */
  function BucketOf(c: Config, buckets: Buckets, ip: string, now: real): Bucket {
    if ip in buckets then buckets[ip] else Bucket(c.Max(), now)
  }

  function Cleanup(buckets: Buckets, now: real): Buckets {
    map ip | ip in buckets && now - buckets[ip].last <= IDLE :: buckets[ip]
  }

  // ---------- runs ----------

  datatype Event = Call(ip: string, now: real) | Tick(now: real)

  function Step(c: Config, buckets: Buckets, e: Event, prune: bool): (Buckets, Answer)
    requires c.Valid()
  {
    match e
    case Call(ip, now) =>
      var (b, answer) := Take(c, BucketOf(c, buckets, ip, now), now);
      (buckets[ip := b], answer)
    case Tick(now) => (if prune then Cleanup(buckets, now) else buckets, NoCall)
  }

  function Exec(c: Config, buckets: Buckets, events: seq<Event>, prune: bool): Buckets
    requires c.Valid()
  {
    if events == [] then buckets
    else Step(c, Exec(c, buckets, events[..|events| - 1], prune), events[|events| - 1], prune).0
  }

  function Answers(c: Config, buckets: Buckets, events: seq<Event>, prune: bool): (r: seq<Answer>)
    requires c.Valid()
    ensures |r| == |events|
  {
    if events == [] then []
    else
      var front := events[..|events| - 1];
      Answers(c, buckets, front, prune) + [Step(c, Exec(c, buckets, front, prune), events[|events| - 1], prune).1]
  }

  ghost predicate Sorted(events: seq<Event>) {
    forall i, j | 0 <= i < j < |events| :: events[i].now <= events[j].now
  }

  /** How many calls of `ip` at times in [from, upTo] were allowed. */
  function CountAllowed(events: seq<Event>, answers: seq<Answer>, ip: string, from: real, upTo: real): nat
    requires |events| == |answers|
  {
    if events == [] then 0
    else
      var n := |events| - 1;
      CountAllowed(events[..n], answers[..n], ip, from, upTo)
      + (if events[n].Call? && events[n].ip == ip && from <= events[n].now <= upTo && answers[n].Allowed? then 1 else 0)
  }

  // ---------- refill arithmetic ----------

  lemma RateIsPositive(c: Config)
    requires c.Valid()
    ensures c.Rate() > 0.0
  {
  }

  lemma GainAdds(c: Config, x: real, y: real)
    requires c.Valid()
    ensures c.Gain(x + y) == c.Gain(x) + c.Gain(y)
  {
  }

  lemma GainIsMonotone(c: Config, x: real, y: real)
    requires c.Valid() && x <= y
    ensures c.Gain(x) <= c.Gain(y)
    ensures x >= 0.0 ==> c.Gain(x) >= 0.0
    ensures x < y ==> c.Gain(x) < c.Gain(y)
  {
    RateIsPositive(c);
  }

  lemma GainOfWindow(c: Config)
    requires c.Valid()
    ensures c.Gain(c.window) == c.Max()
  {
  }

  lemma GainOfWait(c: Config, missing: real)
    requires c.Valid()
    ensures c.Gain(missing / c.Rate()) == missing
  {
    RateIsPositive(c);
  }

  /** A bucket holds between zero and the maximum. */
  predicate InRange(c: Config, b: Bucket) {
    0.0 <= b.tokens <= c.Max()
  }

  lemma TakeStaysInRange(c: Config, b: Bucket, now: real)
    requires c.Valid() && InRange(c, b) && b.last <= now
    ensures InRange(c, Refill(c, b, now)) && InRange(c, Take(c, b, now).0) && Take(c, b, now).0.last == now
  {
    GainIsMonotone(c, 0.0, now - b.last);
  }

  /** Splitting a wait in two refills no more and no less: the cap loses nothing that the later cap would keep. */
  lemma RefillsCompose(c: Config, b: Bucket, mid: real, now: real)
    requires c.Valid() && b.last <= mid <= now
    ensures Refill(c, Refill(c, b, mid), now) == Refill(c, b, now)
  {
    GainAdds(c, mid - b.last, now - mid);
    assert (mid - b.last) + (now - mid) == now - b.last;
    GainIsMonotone(c, 0.0, now - mid);
  }

  // ---------- the steps, in plain terms ----------

  /**
   A call refills with the time since the last refill, up to the configured number of requests, and is
   allowed if and only if that makes a whole token, which it then takes.
   */
  lemma TakeEffect(c: Config, b: Bucket, now: real)
    requires c.Valid()
    ensures var (after, answer) := Take(c, b, now);
            var refilled := b.tokens + (now - b.last) * (c.requests as real / c.window);
            var tokens := if refilled > c.requests as real then c.requests as real else refilled;
            && after.last == now
            && (answer == Allowed <==> tokens >= 1.0)
            && after.tokens == (if tokens >= 1.0 then tokens - 1.0 else tokens)
            && answer != NoCall
  {
  }

  /** A call changes only the bucket of its IP, which is full if it is new. */
  lemma CallEffect(c: Config, buckets: Buckets, ip: string, now: real, prune: bool)
    requires c.Valid()
    ensures var (after, answer) := Step(c, buckets, Call(ip, now), prune);
            var b := if ip in buckets then buckets[ip] else Bucket(c.requests as real, now);
            && after == buckets[ip := Take(c, b, now).0] && answer == Take(c, b, now).1
  {
  }

  /** A tick removes exactly the buckets, of whatever IP, last refilled more than 600 seconds ago. */
  lemma CleanupEffect(c: Config, buckets: Buckets, now: real)
    requires c.Valid()
    ensures var (after, answer) := Step(c, buckets, Tick(now), true);
            && answer == NoCall
            && (forall ip :: ip in after <==> ip in buckets && now - buckets[ip].last <= 600.0)
            && (forall ip | ip in after :: after[ip] == buckets[ip])
  {
  }
}
