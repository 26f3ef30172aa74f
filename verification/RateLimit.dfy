/** The fixed-window rate limiter kept in memory, with its pruning of expired buckets. */
module RateLimit {
  import opened Common

  /** A configured number; `NotFinite` stands for NaN and the infinities. */
  datatype Number = Finite(value: real) | NotFinite

  datatype Options = Options(
    windowMs: Number, max: Number, keyPrefix: Option<string>,
    authLoginMax: Option<Number>, authRefreshMax: Option<Number>, webhookMax: Option<Number>)

  datatype Bucket = Bucket(count: nat, resetAt: int)

  datatype Decision = Decision(allowed: bool, key: string, limit: nat, remaining: nat, resetAt: int)

  const PRUNE_ABOVE := 10_000

  /** `Math.trunc`: toward zero. */
  function Trunc(x: real): int { if x >= 0.0 then x.Floor else -((-x).Floor) }

  function ClampInteger(value: Number, min: nat, max: nat, fallback: nat): (r: nat)
    requires min <= fallback <= max
    ensures min <= r <= max
    ensures value.Finite? && min as real <= value.value <= max as real ==> r as real <= value.value < (r + 1) as real
    ensures value.Finite? && value.value < min as real ==> r == min
    ensures value.Finite? && value.value > max as real ==> r == max
    ensures value.NotFinite? ==> r == fallback
  {
    match value
    case NotFinite => fallback
    case Finite(x) => Min(max, Max(min, Trunc(x)))
  }

  function WindowMs(o: Options): (w: nat)
    ensures 1_000 <= w <= 86_400_000
  {
    ClampInteger(o.windowMs, 1_000, 86_400_000, 60_000)
  }

  /** The text before the first colon. */
  function RouteBucket(rawKey: string): string {
    if rawKey == "" || rawKey[0] == ':' then "" else [rawKey[0]] + RouteBucket(rawKey[1..])
  }

  function OrElse(configured: Option<Number>, fallback: nat): Number {
    if configured.Some? then configured.value else Finite(fallback as real)
  }

  function MaxFor(rawKey: string, o: Options): (max: nat)
    ensures 1 <= max <= 100_000
  {
    var fallback := ClampInteger(o.max, 1, 100_000, 600);
    var route := RouteBucket(rawKey);
    if route == "auth-login" then ClampInteger(OrElse(o.authLoginMax, Min(fallback, 20)), 1, 100_000, fallback)
    else if route == "auth-refresh"
      then ClampInteger(OrElse(o.authRefreshMax, Min(fallback, 120)), 1, 100_000, fallback)
    else if route == "webhook" then ClampInteger(OrElse(o.webhookMax, fallback), 1, 100_000, fallback)
    else fallback
  }

  function Normalized(rawKey: string): string { if rawKey == "" then "unknown" else rawKey }

  /** The options once resolved: what a decision depends on. */
  datatype Policy = Policy(windowMs: nat, prefix: string, limits: string -> nat)

  function PolicyOf(o: Options): Policy {
    Policy(WindowMs(o), if o.keyPrefix.Some? then o.keyPrefix.value else "wms", (rawKey: string) => MaxFor(rawKey, o))
  }

  /** Every window is longer than nothing and every key may make a request. */
  ghost predicate Usable(p: Policy) { p.windowMs >= 2 && forall k :: p.limits(k) >= 1 }

  /** Whatever the options, even nonsensical ones, the policy they resolve to is usable. */
  lemma {:induction false} EveryPolicyIsUsable(o: Options)
    ensures Usable(PolicyOf(o))
  {
    forall k: string ensures PolicyOf(o).limits(k) >= 1 { assert MaxFor(k, o) >= 1; }
  }

  function KeyOf(rawKey: string, p: Policy): string { p.prefix + ":" + Normalized(rawKey) }

  function LimitOf(rawKey: string, p: Policy): nat { p.limits(Normalized(rawKey)) }

  type Buckets = map<string, Bucket>

  /** The bucket a request at `now` finds: an expired one counts for nothing. */
  function Live(buckets: Buckets, key: string, now: int): Option<Bucket> {
    if key in buckets && buckets[key].resetAt > now then Some(buckets[key]) else None
  }

  function Bumped(buckets: Buckets, key: string, now: int, windowMs: nat): Bucket {
    match Live(buckets, key, now)
    case Some(b) => b.(count := b.count + 1)
    case None => Bucket(1, now + windowMs)
  }

  function Unexpired(buckets: Buckets, now: int): Buckets {
    map k | k in buckets && buckets[k].resetAt > now :: buckets[k]
  }

  /** One call of the store. `pruneAbove` is the size beyond which expired buckets are dropped;
      `None` is the simple store that keeps everything. */
  function Step(p: Policy, buckets: Buckets, rawKey: string, now: int, pruneAbove: Option<nat>): (Decision, Buckets) {
    var max := LimitOf(rawKey, p);
    var key := KeyOf(rawKey, p);
    var bucket := Bumped(buckets, key, now, p.windowMs);
    var updated := buckets[key := bucket];
    (Decision(bucket.count <= max, key, max, Max(0, max - bucket.count), bucket.resetAt),
     if pruneAbove.Some? && |updated| > pruneAbove.value then Unexpired(updated, now) else updated)
  }

  class RateLimitStore {
    const options: Options
    var buckets: Buckets

    constructor (o: Options)
      ensures options == o && buckets == map[]
    {
      options := o;
      buckets := map[];
    }

    method Decide(rawKey: string, currentTime: int) returns (decision: Decision)
      modifies this
      ensures (decision, buckets) == Step(PolicyOf(options), old(buckets), rawKey, currentTime, Some(PRUNE_ABOVE))
    {
      var windowMs := WindowMs(options);
      var max := MaxFor(Normalized(rawKey), options);
      var key := KeyOf(rawKey, PolicyOf(options));
      var bucket := Bucket(0, currentTime + windowMs);
      if key in buckets && buckets[key].resetAt > currentTime { bucket := buckets[key]; }
      bucket := bucket.(count := bucket.count + 1);
      buckets := buckets[key := bucket];
      if |buckets| > PRUNE_ABOVE { Prune(currentTime); }
      decision := Decision(bucket.count <= max, key, max, Max(0, max - bucket.count), bucket.resetAt);
    }

    /** The pruning loop: visit every entry and delete the expired ones. */
    method Prune(currentTime: int)
      modifies this
      ensures buckets == Unexpired(old(buckets), currentTime)
    {
      var entries := buckets.Keys;
      while entries != {}
        invariant entries <= old(buckets).Keys
        invariant forall k :: k in buckets <==>
          k in old(buckets) && (k in entries || old(buckets)[k].resetAt > currentTime)
        invariant forall k :: k in buckets ==> buckets[k] == old(buckets)[k]
        decreases |entries|
      {
        var bucketKey :| bucketKey in entries;
        if buckets[bucketKey].resetAt <= currentTime { buckets := buckets - {bucketKey}; }
        entries := entries - {bucketKey};
      }
    }
  }

  // ---------------------------------------------------------------- runs

  datatype Request = Request(rawKey: string, at: int)

  /** The clock never goes back, and starts at `from` or later. */
  ghost predicate Monotone(requests: seq<Request>, from: int) {
    && (forall i :: 0 <= i < |requests| ==> from <= requests[i].at)
    && (forall i, j :: 0 <= i < j < |requests| ==> requests[i].at <= requests[j].at)
  }

  function Decisions(p: Policy, buckets: Buckets, requests: seq<Request>, pruneAbove: Option<nat>): (ds: seq<Decision>)
    ensures |ds| == |requests|
    decreases |requests|
  {
    if requests == [] then []
    else
      var (d, next) := Step(p, buckets, requests[0].rawKey, requests[0].at, pruneAbove);
      [d] + Decisions(p, next, requests[1..], pruneAbove)
  }

  ghost predicate SameLive(a: Buckets, b: Buckets, now: int) { forall k :: Live(a, k, now) == Live(b, k, now) }

  lemma {:induction false} SameLiveLater(a: Buckets, b: Buckets, now: int, later: int)
    requires SameLive(a, b, now) && now <= later
    ensures SameLive(a, b, later)
  {
    forall k ensures Live(a, k, later) == Live(b, k, later) { assert Live(a, k, now) == Live(b, k, now); }
  }

  lemma {:induction false} StepSameLive(p: Policy, a: Buckets, b: Buckets, rawKey: string, now: int, x: Option<nat>,
                                        y: Option<nat>)
    requires SameLive(a, b, now)
    ensures Step(p, a, rawKey, now, x).0 == Step(p, b, rawKey, now, y).0
    ensures SameLive(Step(p, a, rawKey, now, x).1, Step(p, b, rawKey, now, y).1, now)
  {
    var key := KeyOf(rawKey, p);
    assert Live(a, key, now) == Live(b, key, now);
    var a', b' := Step(p, a, rawKey, now, x).1, Step(p, b, rawKey, now, y).1;
    forall k ensures Live(a', k, now) == Live(b', k, now) { assert Live(a, k, now) == Live(b, k, now); }
  }

  lemma {:induction false} SameDecisions(p: Policy, a: Buckets, b: Buckets, requests: seq<Request>, from: int,
                                         x: Option<nat>, y: Option<nat>)
    requires SameLive(a, b, from) && Monotone(requests, from)
    ensures Decisions(p, a, requests, x) == Decisions(p, b, requests, y)
    decreases |requests|
  {
    if requests != [] {
      var r := requests[0];
      SameLiveLater(a, b, from, r.at);
      StepSameLive(p, a, b, r.rawKey, r.at, x, y);
      SameDecisions(p, Step(p, a, r.rawKey, r.at, x).1, Step(p, b, r.rawKey, r.at, y).1, requests[1..], r.at, x, y);
    }
  }

  /** Pruning is invisible: over every run whose clock never goes back, the pruning store
      decides exactly as the one that keeps every bucket. */
  lemma {:induction false} PruningIsInvisible(p: Policy, requests: seq<Request>)
    requires Monotone(requests, if requests == [] then 0 else requests[0].at)
    ensures Decisions(p, map[], requests, Some(PRUNE_ABOVE)) == Decisions(p, map[], requests, None)
  {
    SameDecisions(p, map[], map[], requests, if requests == [] then 0 else requests[0].at, Some(PRUNE_ABOVE), None);
  }

  /** Requests of one key that were allowed at a time in `[a, a + windowMs)`. */
  function AllowedIn(p: Policy, requests: seq<Request>, decisions: seq<Decision>, key: string, a: int): nat
    requires |decisions| == |requests|
  {
    if requests == [] then 0
    else
      (if KeyOf(requests[0].rawKey, p) == key && a <= requests[0].at < a + p.windowMs && decisions[0].allowed
       then 1 else 0)
      + AllowedIn(p, requests[1..], decisions[1..], key, a)
  }

  /** What a bucket says about the `c` requests so far allowed since `a`. */
  ghost predicate Accounted(bucket: Option<Bucket>, c: int, a: int, windowMs: nat, max: nat, now: int) {
    && c >= 0
    && match bucket {
      case None => c == 0
      case Some(b) =>
        var start := b.resetAt - windowMs;
        && b.count >= 1 && start <= now
        && (c > 0 ==> b.resetAt > a)
        && c <= (if start < a then Min(b.count, max) - 1
                 else if start == a then Min(b.count, max)
                 else if start < a + windowMs then max - 1 + Min(b.count, max)
                 else 2 * max - 1)
    }
  }

  function Stored(buckets: Buckets, key: string): Option<Bucket> { if key in buckets then Some(buckets[key]) else None }

  lemma {:induction false} AccountedStep(bucket: Option<Bucket>, c: int, a: int, windowMs: nat, max: nat, now: int,
                                         at: int, next: Bucket)
    requires Accounted(bucket, c, a, windowMs, max, now) && now <= at && max >= 1 && windowMs >= 1
    requires next == if bucket.Some? && bucket.value.resetAt > at then bucket.value.(count := bucket.value.count + 1)
                     else Bucket(1, at + windowMs)
    ensures Accounted(Some(next), c + if a <= at < a + windowMs && next.count <= max then 1 else 0,
                      a, windowMs, max, at)
  {
  }

  lemma {:induction false} AllowedFrom(p: Policy, buckets: Buckets, requests: seq<Request>, rawKey: string, a: int,
                                       c: int, now: int)
    requires Usable(p)
    requires Monotone(requests, now)
    requires Accounted(Stored(buckets, KeyOf(rawKey, p)), c, a, p.windowMs, LimitOf(rawKey, p), now)
    ensures c + AllowedIn(p, requests, Decisions(p, buckets, requests, None), KeyOf(rawKey, p), a)
      <= 2 * LimitOf(rawKey, p) - 1
    decreases |requests|
  {
    if requests != [] {
      var r := requests[0];
      var key := KeyOf(rawKey, p);
      var (d, next) := Step(p, buckets, r.rawKey, r.at, None);
      var counted := if KeyOf(r.rawKey, p) == key && a <= r.at < a + p.windowMs && d.allowed then 1 else 0;
      if KeyOf(r.rawKey, p) == key {
        SameKeySameMax(r.rawKey, rawKey, p);
        AccountedStep(Stored(buckets, key), c, a, p.windowMs, LimitOf(rawKey, p), now, r.at, next[key]);
      }
      AllowedFrom(p, next, requests[1..], rawKey, a, c + counted, r.at);
    }
  }

  lemma {:induction false} SameKeySameMax(x: string, y: string, p: Policy)
    requires KeyOf(x, p) == KeyOf(y, p)
    ensures Normalized(x) == Normalized(y)
  {
    var prefix := p.prefix + ":";
    assert KeyOf(x, p) == prefix + Normalized(x) && KeyOf(y, p) == prefix + Normalized(y);
    assert KeyOf(x, p)[|prefix|..] == Normalized(x) && KeyOf(y, p)[|prefix|..] == Normalized(y);
  }

  /** Over every run with a clock that never goes back, any half-open interval of one window length
      holds at most `2 * max - 1` allowed requests of a key. */
  lemma {:induction false} WindowBound(p: Policy, requests: seq<Request>, rawKey: string, a: int)
    requires Usable(p)
    requires Monotone(requests, if requests == [] then 0 else requests[0].at)
    ensures AllowedIn(p, requests, Decisions(p, map[], requests, Some(PRUNE_ABOVE)), KeyOf(rawKey, p), a)
      <= 2 * LimitOf(rawKey, p) - 1
  {
    PruningIsInvisible(p, requests);
    AllowedFrom(p, map[], requests, rawKey, a, 0, if requests == [] then 0 else requests[0].at);
  }

  // ---------------------------------------------------------------- the bound is reached

  function Repeat(rawKey: string, at: int, n: nat): (r: seq<Request>)
    ensures |r| == n && forall i :: 0 <= i < n ==> r[i].at == at
  {
    if n == 0 then [] else [Request(rawKey, at)] + Repeat(rawKey, at, n - 1)
  }

  lemma {:induction false} AllowedCons(p: Policy, buckets: Buckets, r: Request, rest: seq<Request>, key: string, a: int)
    ensures var (d, next) := Step(p, buckets, r.rawKey, r.at, None);
      AllowedIn(p, [r] + rest, Decisions(p, buckets, [r] + rest, None), key, a)
      == (if KeyOf(r.rawKey, p) == key && a <= r.at < a + p.windowMs && d.allowed then 1 else 0)
         + AllowedIn(p, rest, Decisions(p, next, rest, None), key, a)
  {
    assert ([r] + rest)[1..] == rest;
  }

  /** One request that still fits in the live bucket is allowed and counted. */
  lemma {:induction false} AllowedFirst(p: Policy, buckets: Buckets, rawKey: string, at: int, later: seq<Request>,
                                        a: int, key: string, bucket: Bucket)
    requires key == KeyOf(rawKey, p) && Live(buckets, key, at) == Some(bucket)
    requires bucket.count + 1 <= LimitOf(rawKey, p) && a <= at < a + p.windowMs
    ensures var all := [Request(rawKey, at)] + later;
      AllowedIn(p, all, Decisions(p, buckets, all, None), key, a)
      == 1 + AllowedIn(p, later, Decisions(p, buckets[key := bucket.(count := bucket.count + 1)], later, None), key, a)
  {
    AllowedCons(p, buckets, Request(rawKey, at), later, key, a);
    assert Step(p, buckets, rawKey, at, None).1 == buckets[key := bucket.(count := bucket.count + 1)];
  }

  lemma {:induction false} OneThenMore(rawKey: string, at: int, n: nat, rest: seq<Request>)
    requires n > 0
    ensures Repeat(rawKey, at, n) + rest == [Request(rawKey, at)] + (Repeat(rawKey, at, n - 1) + rest)
  {
  }

  lemma {:induction false} UpdatedTwice(buckets: Buckets, key: string, first: Bucket, second: Bucket)
    ensures buckets[key := first][key := second] == buckets[key := second]
  {
  }

  /** A burst that fits in the live bucket is allowed entirely. */
  lemma {:induction false} Burst(p: Policy, buckets: Buckets, rawKey: string, at: int, n: nat, rest: seq<Request>,
                                 a: int, key: string, bucket: Bucket)
    requires Usable(p)
    requires key == KeyOf(rawKey, p) && Live(buckets, key, at) == Some(bucket)
    requires bucket.count + n <= LimitOf(rawKey, p) && a <= at < a + p.windowMs
    ensures var all := Repeat(rawKey, at, n) + rest;
      AllowedIn(p, all, Decisions(p, buckets, all, None), key, a)
      == n + AllowedIn(p, rest, Decisions(p, buckets[key := bucket.(count := bucket.count + n)], rest, None), key, a)
    decreases n
  {
    if n == 0 {
      assert buckets[key := bucket] == buckets && Repeat(rawKey, at, n) + rest == rest;
    } else {
      var later := Repeat(rawKey, at, n - 1) + rest;
      var one := bucket.(count := bucket.count + 1);
      OneThenMore(rawKey, at, n, rest);
      AllowedFirst(p, buckets, rawKey, at, later, a, key, bucket);
      Burst(p, buckets[key := one], rawKey, at, n - 1, rest, a, key, one);
      UpdatedTwice(buckets, key, one, bucket.(count := bucket.count + n));
    }
  }

  /** One request opens a window, its allowance is spent just before it closes, and the next
      window's allowance right after: `2 * max - 1` requests within one window length. */
  ghost function WorstCase(rawKey: string, p: Policy): seq<Request>
    requires Usable(p)
  {
    var max, w := LimitOf(rawKey, p), p.windowMs;
    [Request(rawKey, 0)] + (Repeat(rawKey, w - 1, max - 1) + ([Request(rawKey, w)] + Repeat(rawKey, w, max - 1)))
  }

  /** A request that opens a window, then a burst within it. */
  lemma {:induction false} OpenedThen(p: Policy, buckets: Buckets, rawKey: string, start: int, at: int, n: nat,
                                      rest: seq<Request>, a: int)
    requires Usable(p)
    requires Live(buckets, KeyOf(rawKey, p), start).None? && start <= at < start + p.windowMs
    requires n + 1 == LimitOf(rawKey, p) && a <= at < a + p.windowMs
    ensures var key := KeyOf(rawKey, p);
      var all := [Request(rawKey, start)] + (Repeat(rawKey, at, n) + rest);
      AllowedIn(p, all, Decisions(p, buckets, all, None), key, a)
      == (if a <= start then 1 else 0) + n
         + AllowedIn(p, rest, Decisions(p, buckets[key := Bucket(n + 1, start + p.windowMs)], rest, None), key, a)
  {
    var key := KeyOf(rawKey, p);
    var one := Bucket(1, start + p.windowMs);
    var next := Step(p, buckets, rawKey, start, None).1;
    AllowedCons(p, buckets, Request(rawKey, start), Repeat(rawKey, at, n) + rest, key, a);
    Burst(p, next, rawKey, at, n, rest, a, key, one);
    assert next[key := one.(count := one.count + n)] == buckets[key := Bucket(n + 1, start + p.windowMs)];
  }

  lemma {:induction false} SecondWindow(p: Policy, buckets: Buckets, rawKey: string)
    requires Usable(p) && Live(buckets, KeyOf(rawKey, p), p.windowMs).None?
    ensures var second := [Request(rawKey, p.windowMs)] + Repeat(rawKey, p.windowMs, LimitOf(rawKey, p) - 1);
      AllowedIn(p, second, Decisions(p, buckets, second, None), KeyOf(rawKey, p), p.windowMs - 1) == LimitOf(rawKey, p)
  {
    var burst := Repeat(rawKey, p.windowMs, LimitOf(rawKey, p) - 1);
    assert burst + [] == burst;
    OpenedThen(p, buckets, rawKey, p.windowMs, p.windowMs, LimitOf(rawKey, p) - 1, [], p.windowMs - 1);
  }

  lemma {:induction false} WorstCaseMonotone(p: Policy, rawKey: string)
    requires Usable(p)
    ensures Monotone(WorstCase(rawKey, p), 0)
  {
  }

  lemma {:induction false} WindowBoundIsReached(p: Policy, rawKey: string)
    requires Usable(p)
    ensures Monotone(WorstCase(rawKey, p), 0)
    ensures AllowedIn(p, WorstCase(rawKey, p), Decisions(p, map[], WorstCase(rawKey, p), Some(PRUNE_ABOVE)),
                      KeyOf(rawKey, p), p.windowMs - 1)
      == 2 * LimitOf(rawKey, p) - 1
  {
    var max, w := LimitOf(rawKey, p), p.windowMs;
    WorstCaseMonotone(p, rawKey);
    PruningIsInvisible(p, WorstCase(rawKey, p));
    var filled: Buckets := map[KeyOf(rawKey, p) := Bucket(max, w)];
    SecondWindow(p, filled, rawKey);
    OpenedThen(p, map[], rawKey, 0, w - 1, max - 1, [Request(rawKey, w)] + Repeat(rawKey, w, max - 1), w - 1);
  }

  // ---------------------------------------------------------------- what a decision counts

  /** Requests of `key` among the first `n` at `since` or later. */
  function RequestsSince(p: Policy, requests: seq<Request>, key: string, since: int): nat {
    if requests == [] then 0
    else RequestsSince(p, requests[..|requests| - 1], key, since)
         + if KeyOf(requests[|requests| - 1].rawKey, p) == key && requests[|requests| - 1].at >= since then 1 else 0
  }

  /** The store after a run, keeping every bucket. */
  function After(p: Policy, requests: seq<Request>): Buckets {
    if requests == [] then map[]
    else
      var front, last := requests[..|requests| - 1], requests[|requests| - 1];
      Step(p, After(p, front), last.rawKey, last.at, None).1
  }

  lemma {:induction false} DecisionsNext(p: Policy, front: seq<Request>, r: Request, rest: seq<Request>)
    ensures Decisions(p, After(p, front), [r] + rest, None)
      == [Step(p, After(p, front), r.rawKey, r.at, None).0] + Decisions(p, After(p, front + [r]), rest, None)
  {
    var all := front + [r];
    assert all[..|all| - 1] == front && all[|all| - 1] == r && ([r] + rest)[1..] == rest;
  }

  lemma {:induction false} Regroup<T>(a: seq<T>, b: seq<T>, c: seq<T>)
    ensures a + b + c == a + (b + c)
  {
  }

  lemma {:induction false} DecisionsConcat(p: Policy, done: seq<Request>, rest: seq<Request>)
    ensures Decisions(p, map[], done + rest, None)
      == Decisions(p, map[], done, None) + Decisions(p, After(p, done), rest, None)
    decreases |done|
  {
    if done == [] {
      assert done + rest == rest;
    } else {
      var front, r := done[..|done| - 1], done[|done| - 1];
      var d := Step(p, After(p, front), r.rawKey, r.at, None).0;
      assert done == front + [r];
      Regroup(front, [r], rest);
      DecisionsConcat(p, front, [r] + rest);
      DecisionsNext(p, front, r, rest);
      DecisionsConcat(p, front, [r]);
      DecisionsNext(p, front, r, []);
      assert [r] + [] == [r] && [d] + [] == [d];
      Regroup(Decisions(p, map[], front, None), [d], Decisions(p, After(p, done), rest, None));
    }
  }

  ghost predicate OpenedBy(p: Policy, requests: seq<Request>, key: string, at: int) {
    exists i :: 0 <= i < |requests| && KeyOf(requests[i].rawKey, p) == key && requests[i].at == at
  }

  ghost predicate CountsSince(p: Policy, requests: seq<Request>, key: string, b: Bucket) {
    var start := b.resetAt - p.windowMs;
    b.count == RequestsSince(p, requests, key, start) && OpenedBy(p, requests, key, start)
  }

  lemma {:induction false} OpenedBySnoc(p: Policy, front: seq<Request>, r: Request, key: string, at: int)
    ensures OpenedBy(p, front, key, at) ==> OpenedBy(p, front + [r], key, at)
    ensures KeyOf(r.rawKey, p) == key && r.at == at ==> OpenedBy(p, front + [r], key, at)
  {
    var all := front + [r];
    assert all[|front|] == r;
    if OpenedBy(p, front, key, at) {
      var i :| 0 <= i < |front| && KeyOf(front[i].rawKey, p) == key && front[i].at == at;
      assert all[i] == front[i];
    }
  }

  lemma {:induction false} RequestsSinceSnoc(p: Policy, front: seq<Request>, r: Request, key: string, since: int)
    ensures RequestsSince(p, front + [r], key, since)
      == RequestsSince(p, front, key, since) + if KeyOf(r.rawKey, p) == key && r.at >= since then 1 else 0
  {
    var all := front + [r];
    assert all[..|all| - 1] == front;
  }

  lemma {:induction false} CountsOneMore(p: Policy, front: seq<Request>, r: Request, key: string, was: Bucket,
                                         b: Bucket)
    requires CountsSince(p, front, key, was) && was.resetAt - p.windowMs <= r.at && b.resetAt == was.resetAt
    requires b.count == was.count + if KeyOf(r.rawKey, p) == key then 1 else 0
    ensures CountsSince(p, front + [r], key, b)
  {
    OpenedBySnoc(p, front, r, key, b.resetAt - p.windowMs);
    RequestsSinceSnoc(p, front, r, key, b.resetAt - p.windowMs);
  }

  lemma {:induction false} NewWindowCounts(p: Policy, front: seq<Request>, r: Request, key: string, before: Buckets,
                                           b: Bucket)
    requires Usable(p) && before == After(p, front) && KeyOf(r.rawKey, p) == key && Live(before, key, r.at).None?
    requires key in before ==> CountsSince(p, front, key, before[key]) && before[key].resetAt - p.windowMs <= r.at
    requires b == Bucket(1, r.at + p.windowMs)
    ensures CountsSince(p, front + [r], key, b)
  {
    OpenedBySnoc(p, front, r, key, r.at);
    RequestsSinceSnoc(p, front, r, key, r.at);
    NoneSince(p, front, key, r.at, before);
  }

  lemma {:induction false} CountsSnoc(p: Policy, front: seq<Request>, r: Request, key: string, before: Buckets,
                                      b: Bucket)
    requires Usable(p)
    requires before == After(p, front)
    requires key in before ==> CountsSince(p, front, key, before[key]) && before[key].resetAt - p.windowMs <= r.at
    requires Stored(Step(p, before, r.rawKey, r.at, None).1, key) == Some(b)
    ensures CountsSince(p, front + [r], key, b) && b.resetAt - p.windowMs <= r.at
  {
    if KeyOf(r.rawKey, p) == key && Live(before, key, r.at).None? {
      NewWindowCounts(p, front, r, key, before, b);
    } else {
      CountsOneMore(p, front, r, key, before[key], b);
    }
  }

  /** Every stored bucket counts the requests since its window opened, and was opened by one. */
  lemma {:induction false} BucketCounts(p: Policy, requests: seq<Request>, from: int, key: string, after: Buckets)
    requires Usable(p)
    requires Monotone(requests, from) && after == After(p, requests) && key in after
    ensures CountsSince(p, requests, key, after[key])
    ensures after[key].resetAt - p.windowMs <= requests[|requests| - 1].at
    decreases |requests|
  {
    var n := |requests| - 1;
    var front, r := requests[..n], requests[n];
    var before := After(p, front);
    assert requests == front + [r];
    if key in before {
      BucketCounts(p, front, from, key, before);
      assert front[|front| - 1].at <= r.at;
    }
    CountsSnoc(p, front, r, key, before, after[key]);
  }

  /** When the last window has closed, no request of the key is as late as `at`. */
  lemma {:induction false} NoneSince(p: Policy, requests: seq<Request>, key: string, at: int, after: Buckets)
    requires Usable(p)
    requires after == After(p, requests) && (key !in after || after[key].resetAt <= at)
    ensures RequestsSince(p, requests, key, at) == 0
    decreases |requests|
  {
    if requests != [] {
      var n := |requests| - 1;
      var front, r := requests[..n], requests[n];
      var before := After(p, front);
      if KeyOf(r.rawKey, p) == key {
        assert after[key].resetAt > r.at;
      }
      if key in before && KeyOf(r.rawKey, p) == key && before[key].resetAt > r.at {
        assert after[key].resetAt == before[key].resetAt;
      }
      NoneSince(p, front, key, at, before);
    }
  }

  /** What a decision `d` on `r`, the last of the requests `done`, says about them. */
  ghost predicate Meant(p: Policy, done: seq<Request>, r: Request, d: Decision) {
    var start := d.resetAt - p.windowMs;
    var used := RequestsSince(p, done, d.key, start);
    && d.key == KeyOf(r.rawKey, p) && d.limit == LimitOf(r.rawKey, p)
    && start <= r.at < d.resetAt && OpenedBy(p, done, d.key, start)
    && (d.allowed <==> used <= d.limit)
    && d.remaining == Max(0, d.limit - used)
  }

  lemma {:induction false} StepMeaning(p: Policy, done: seq<Request>, r: Request, before: Buckets)
    requires var (d, next) := Step(p, before, r.rawKey, r.at, None);
      CountsSince(p, done, d.key, next[d.key]) && next[d.key].resetAt - p.windowMs <= r.at
    requires Usable(p)
    ensures Meant(p, done, r, Step(p, before, r.rawKey, r.at, None).0)
  {
  }

  /** A request is refused exactly when it is more than the limit's worth of its key since the
      request that opened the current window, and the decision reports how many are left. */
  lemma {:induction false} DecisionMeaning(p: Policy, requests: seq<Request>, n: nat)
    requires Usable(p) && n < |requests| && Monotone(requests, requests[0].at)
    ensures Meant(p, requests[..n + 1], requests[n], Decisions(p, map[], requests, Some(PRUNE_ABOVE))[n])
  {
    PruningIsInvisible(p, requests);
    DecisionAt(p, requests, n);
    var done, r, before := requests[..n + 1], requests[n], After(p, requests[..n]);
    var (d, next) := Step(p, before, r.rawKey, r.at, None);
    assert done[..n] == requests[..n];
    BucketCounts(p, done, requests[0].at, d.key, next);
    StepMeaning(p, done, r, before);
  }

  lemma {:induction false} DecisionAt(p: Policy, requests: seq<Request>, n: nat)
    requires n < |requests|
    ensures Decisions(p, map[], requests, None)[n]
      == Step(p, After(p, requests[..n]), requests[n].rawKey, requests[n].at, None).0
  {
    assert requests == requests[..n] + requests[n..];
    DecisionsConcat(p, requests[..n], requests[n..]);
  }

  // ---------------------------------------------------------------- several keys at once

  /** `selectMostRestrictiveDecision`: refused first, then fewest remaining, then latest reset. */
  predicate Stricter(a: Decision, b: Decision) {
    if a.allowed != b.allowed then !a.allowed
    else if a.remaining != b.remaining then a.remaining < b.remaining
    else a.resetAt > b.resetAt
  }

  /** The reducer, branch by branch. */
  function Choose(selected: Decision, current: Decision): Decision {
    if !selected.allowed && current.allowed then selected
    else if selected.allowed && !current.allowed then current
    else if current.remaining < selected.remaining then current
    else if current.remaining == selected.remaining && current.resetAt > selected.resetAt then current
    else selected
  }

  /** The first of the strictest decisions is chosen, so a request passes only if every key allows it;
      reducing no decisions at all throws. */
  method SelectMostRestrictiveDecision(decisions: seq<Decision>) returns (selected: Option<Decision>, ghost at: nat)
    ensures selected.None? <==> decisions == []
    ensures selected.Some? ==> at < |decisions| && selected.value == decisions[at]
    ensures selected.Some? ==> forall i :: 0 <= i < |decisions| ==> !Stricter(decisions[i], selected.value)
    ensures selected.Some? ==> forall i :: 0 <= i < at ==> Stricter(selected.value, decisions[i])
    ensures selected.Some? ==> (selected.value.allowed <==> forall d :: d in decisions ==> d.allowed)
  {
    if decisions == [] { return None, 0; }
    var chosen := decisions[0];
    at := 0;
    for n := 1 to |decisions|
      invariant at < n && chosen == decisions[at]
      invariant forall i :: 0 <= i < n ==> !Stricter(decisions[i], chosen)
      invariant forall i :: 0 <= i < at ==> Stricter(chosen, decisions[i])
    {
      var next := Choose(chosen, decisions[n]);
      if next != chosen { at := n; }
      chosen := next;
    }
    selected := Some(chosen);
  }
}
