/** Which limit a request key gets, and so which of its requests are refused. */
module RateLimitPolicies {
  import opened Common
  import opened RateLimit

  /** The route of a key is all that precedes its first colon. */
  lemma {:induction false} RouteOfKey(route: string, rest: string)
    requires ':' !in route
    ensures RouteBucket(route + ":" + rest) == route
  {
    if route != "" {
      assert (route + ":" + rest)[0] == route[0] && (route + ":" + rest)[1..] == route[1..] + ":" + rest;
      RouteOfKey(route[1..], rest);
    }
  }

  /** What an administrator gets: each route's own number if one is configured, and otherwise the general one, capped at
      20 for logins and 120 for refreshes. Configured numbers are brought into 1..100,000. */
  function RouteLimit(o: Options, route: string): nat {
    var general := ClampInteger(o.max, 1, 100_000, 600);
    match route
    case "auth-login" =>
      if o.authLoginMax.Some? then ClampInteger(o.authLoginMax.value, 1, 100_000, general) else Min(20, general)
    case "auth-refresh" =>
      if o.authRefreshMax.Some? then ClampInteger(o.authRefreshMax.value, 1, 100_000, general) else Min(120, general)
    case "webhook" =>
      if o.webhookMax.Some? then ClampInteger(o.webhookMax.value, 1, 100_000, general) else general
    case _ => general
  }

  /** An integer within the bounds passes through the clamp. */
  lemma {:induction false} ClampKeeps(n: nat, min: nat, max: nat, fallback: nat)
    requires min <= n <= max && min <= fallback <= max
    ensures ClampInteger(Finite(n as real), min, max, fallback) == n
  {
  }

  /** The limit of a key depends on its route alone, and is the route's. */
  lemma {:induction false} LimitByRoute(o: Options, route: string, rest: string)
    requires ':' !in route
    ensures LimitOf(route + ":" + rest, PolicyOf(o)) == RouteLimit(o, route)
  {
    var general := ClampInteger(o.max, 1, 100_000, 600);
    RouteOfKey(route, rest);
    assert Normalized(route + ":" + rest) == route + ":" + rest;
    ClampKeeps(Min(general, 20), 1, 100_000, general);
    ClampKeeps(Min(general, 120), 1, 100_000, general);
    ClampKeeps(general, 1, 100_000, general);
  }

  /** Options that configure nothing but the general limit and the window, as the middleware's defaults do. */
  function Plain(windowMs: Number, max: Number): Options { Options(windowMs, max, None, None, None, None) }

  /** By default: 20 logins, 120 refreshes and 600 of anything else a minute, under keys that begin with "wms:". */
  lemma {:induction false} DefaultLimits(o: Options, route: string, rest: string)
    requires o == Plain(Finite(60_000.0), Finite(600.0)) || o == Plain(NotFinite, NotFinite)
    requires ':' !in route
    ensures var p := PolicyOf(o);
      && p.windowMs == 60_000 && KeyOf(route + ":" + rest, p) == "wms:" + route + ":" + rest
      && LimitOf(route + ":" + rest, p) == if route == "auth-login" then 20 else if route == "auth-refresh" then 120
                                           else 600
  {
    LimitByRoute(o, route, rest);
    ClampKeeps(600, 1, 100_000, 600);
    ClampKeeps(60_000, 1_000, 86_400_000, 60_000);
  }

  /** A window is what was configured, cut to whole milliseconds and brought between a second and a day; a minute if
      what was configured is not finite. */
  lemma {:induction false} WindowLength(o: Options)
    ensures match o.windowMs
      case NotFinite => WindowMs(o) == 60_000
      case Finite(ms) =>
        if ms < 1000.0 then WindowMs(o) == 1000
        else if ms > 86400000.0 then WindowMs(o) == 86_400_000
        else WindowMs(o) as real <= ms < (WindowMs(o) + 1) as real
  {
  }

  /** A request without a key counts as one with the key "unknown", which has the general limit. */
  lemma {:induction false} MissingKey(o: Options)
    ensures KeyOf("", PolicyOf(o)) == KeyOf("unknown", PolicyOf(o))
    ensures LimitOf("", PolicyOf(o)) == LimitOf("unknown", PolicyOf(o)) == ClampInteger(o.max, 1, 100_000, 600)
  {
    NoRoute("unknown");
  }

  lemma {:induction false} NoRoute(rawKey: string)
    requires ':' !in rawKey
    ensures RouteBucket(rawKey) == rawKey
  {
    if rawKey != "" { NoRoute(rawKey[1..]); assert [rawKey[0]] + rawKey[1..] == rawKey; }
  }

  /** What a request leaves in the store: its own bucket one higher, or new with a whole window ahead of it, and the
      others as they were, unless there are then more than 10,000 and all that have expired go. */
  lemma {:induction false} StoreAfterRequest(p: Policy, buckets: Buckets, rawKey: string, now: int)
    ensures var after, key := Step(p, buckets, rawKey, now, Some(PRUNE_ABOVE)).1, KeyOf(rawKey, p);
      var own := if key in buckets && buckets[key].resetAt > now
                 then Bucket(buckets[key].count + 1, buckets[key].resetAt) else Bucket(1, now + p.windowMs);
      && (forall k :: k in after ==> after[k] == if k == key then own else if k in buckets then buckets[k] else own)
      && (|buckets.Keys + {key}| <= 10_000 ==> after.Keys == buckets.Keys + {key})
      && (|buckets.Keys + {key}| > 10_000 ==>
            forall k :: k in after <==> (k == key && own.resetAt > now)
                                        || (k != key && k in buckets && buckets[k].resetAt > now))
  {
    var key := KeyOf(rawKey, p);
    var updated := buckets[key := Bumped(buckets, key, now, p.windowMs)];
    assert updated.Keys == buckets.Keys + {key} && |updated| == |updated.Keys|;
  }

  // ---------------------------------------------------------------- which requests are refused

  /** Requests with the raw key `rawKey` at `since` or later. */
  function RequestsOf(requests: seq<Request>, rawKey: string, since: int): nat {
    if requests == [] then 0
    else RequestsOf(requests[..|requests| - 1], rawKey, since)
         + if requests[|requests| - 1].rawKey == rawKey && requests[|requests| - 1].at >= since then 1 else 0
  }

  predicate Keyed(rawKey: string) { ':' in rawKey }

  /** Keys of different raw keys differ, so their windows are separate. */
  lemma {:induction false} KeysApart(p: Policy, x: string, y: string)
    requires Keyed(y)
    ensures KeyOf(x, p) == KeyOf(y, p) <==> x == y
  {
    if KeyOf(x, p) == KeyOf(y, p) { SameKeySameMax(x, y, p); }
  }

  lemma {:induction false} CountsOwnRequests(p: Policy, requests: seq<Request>, rawKey: string, since: int)
    requires Keyed(rawKey)
    ensures RequestsSince(p, requests, KeyOf(rawKey, p), since) == RequestsOf(requests, rawKey, since)
    decreases |requests|
  {
    if requests != [] {
      CountsOwnRequests(p, requests[..|requests| - 1], rawKey, since);
      KeysApart(p, requests[|requests| - 1].rawKey, rawKey);
    }
  }

  ghost predicate RequestAt(requests: seq<Request>, rawKey: string, at: int) {
    exists i :: 0 <= i < |requests| && requests[i].rawKey == rawKey && requests[i].at == at
  }

  lemma {:induction false} OpenedByOwn(p: Policy, requests: seq<Request>, rawKey: string, at: int)
    requires Keyed(rawKey) && OpenedBy(p, requests, KeyOf(rawKey, p), at)
    ensures RequestAt(requests, rawKey, at)
  {
    var i :| 0 <= i < |requests| && KeyOf(requests[i].rawKey, p) == KeyOf(rawKey, p) && requests[i].at == at;
    KeysApart(p, requests[i].rawKey, rawKey);
  }

  /** What a decision on `r`, the last of the requests `done`, says of the requests with its own raw key. */
  ghost predicate Counts(windowMs: nat, limit: nat, done: seq<Request>, r: Request, d: Decision) {
    var start := d.resetAt - windowMs;
    var used := RequestsOf(done, r.rawKey, start);
    && start <= r.at < start + windowMs && RequestAt(done, r.rawKey, start)
    && d.limit == limit && (!d.allowed <==> used > limit) && d.remaining == Max(0, limit - used)
  }

  lemma {:induction false} MeansOwnRequests(p: Policy, done: seq<Request>, r: Request, d: Decision)
    requires Keyed(r.rawKey) && Meant(p, done, r, d)
    ensures Counts(p.windowMs, LimitOf(r.rawKey, p), done, r, d)
  {
    CountsOwnRequests(p, done, r.rawKey, d.resetAt - p.windowMs);
    OpenedByOwn(p, done, r.rawKey, d.resetAt - p.windowMs);
  }

  /** The n-th request with a key since the one that opened its window is refused exactly when n exceeds what the
      options give the key's route, whatever requests with other keys come between. */
  lemma {:induction false} RefusedBeyondRouteLimit(o: Options, requests: seq<Request>, n: nat, route: string,
                                                   rest: string)
    requires n < |requests| && Monotone(requests, requests[0].at)
    requires ':' !in route && requests[n].rawKey == route + ":" + rest
    ensures Counts(WindowMs(o), RouteLimit(o, route), requests[..n + 1], requests[n],
                   Decisions(PolicyOf(o), map[], requests, Some(PRUNE_ABOVE))[n])
  {
    var p := PolicyOf(o);
    EveryPolicyIsUsable(o);
    DecisionMeaning(p, requests, n);
    LimitByRoute(o, route, rest);
    assert requests[n].rawKey[|route|] == ':';
    MeansOwnRequests(p, requests[..n + 1], requests[n], Decisions(p, map[], requests, Some(PRUNE_ABOVE))[n]);
  }
}
