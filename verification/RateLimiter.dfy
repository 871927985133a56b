/** The inbound API rate limiter of backend/main.py over the token bucket of
    backend/utils/rate_limiter.py.

    Each call reads the clock once; a run is a sequence of calls at non-decreasing times.
    The limiter throws away the buckets of clients it has not seen for a while.  `Forever`
    is the limiter that never does, and is what the evicting one must be equal to. */
module RateLimiter {

  /** What the settings come to: bucket capacity, tokens per second, and the idle time after
      which a client is forgotten. */
  datatype Limits = Limits(capacity: real, rate: real, staleAfter: real)

  type Policy = p: Limits | p.capacity >= 1.0 && p.rate > 0.0 && p.staleAfter >= 300.0
    witness Limits(1.0, 1.0, 300.0)

  function PolicyOf(burst: int, requestsPerWindow: int, windowSeconds: int): Policy {
    Limits(Max(1, burst) as real,
           Max(1, requestsPerWindow) as real / Max(1, windowSeconds) as real,
           Max(300, windowSeconds * 20) as real)
  }

  /** An idle client's bucket is full again by the time it can be evicted. */
  predicate RefillsBeforeEviction(p: Policy) {
    p.rate * p.staleAfter >= p.capacity
  }

  function Max(a: int, b: int): int { if a >= b then a else b }
  function Min(a: real, b: real): real { if a <= b then a else b }

  // ----- Token bucket ----------------------------------------------------------

  datatype Bucket = Bucket(tokens: real, lastRefill: real)

  /** Tokens that drip in between two instants. */
  function Drip(p: Policy, from: real, to: real): real {
    (to - from) * p.rate
  }

  lemma DripGrows(p: Policy, from: real, to: real)
    requires from <= to
    ensures Drip(p, from, to) >= 0.0
  {}

  lemma DripAdds(p: Policy, a: real, b: real, c: real)
    ensures Drip(p, a, b) + Drip(p, b, c) == Drip(p, a, c)
    ensures Drip(p, a, a) == 0.0
  {}

  function Refill(p: Policy, b: Bucket, now: real): Bucket {
    Bucket(Min(p.capacity, b.tokens + Drip(p, b.lastRefill, now)), now)
  }

  /** `wait` is the answer's wait_seconds, `remaining` the tokens left. */
  datatype Reply = Reply(allowed: bool, wait: real, remaining: real)

  /** One call on a bucket.  `consume` and `wait_time` refill again, which at the same
      instant changes nothing (RefillTwice). */
  function Take(p: Policy, b: Bucket, now: real): (Bucket, Reply) {
    var full := Refill(p, b, now);
    if full.tokens >= 1.0 then
      var left := full.tokens - 1.0;
      (Bucket(left, now), Reply(true, 0.0, left))
    else
      (full, Reply(false, (1.0 - full.tokens) / p.rate, full.tokens))
  }

  lemma RefillTwice(p: Policy, b: Bucket, now: real)
    ensures Refill(p, Refill(p, b, now), now) == Refill(p, b, now)
  {
    assert Drip(p, now, now) == 0.0;
  }

  function NewBucket(p: Policy, now: real): Bucket {
    Bucket(p.capacity, now)
  }

  // ----- Requests and the limiter that never forgets -----------------------------

  datatype Request = Request(client: string, at: real)

  function KeyOf(client: string): (key: string)
    ensures key != ""
  {
    if client == "" then "unknown" else client
  }

  predicate Ordered(rs: seq<Request>) {
    forall i, j :: 0 <= i < j < |rs| ==> rs[i].at <= rs[j].at
  }

  type Buckets = map<string, Bucket>

  function BucketOf(p: Policy, m: Buckets, key: string, now: real): Bucket {
    if key in m then m[key] else NewBucket(p, now)
  }

  function ForeverStep(p: Policy, m: Buckets, r: Request): (Buckets, Reply) {
    var key := KeyOf(r.client);
    var (b, reply) := Take(p, BucketOf(p, m, key, r.at), r.at);
    (m[key := b], reply)
  }

  function Forever(p: Policy, m: Buckets, rs: seq<Request>): (replies: seq<Reply>)
    ensures |replies| == |rs|
    decreases |rs|
  {
    if rs == [] then [] else
      var (m', reply) := ForeverStep(p, m, rs[0]);
      [reply] + Forever(p, m', rs[1..])
  }

  // ----- The limiter that evicts ---------------------------------------------------

  datatype State = State(buckets: Buckets, locks: set<string>, lastSeen: map<string, real>, lastCleanup: real)

  const FRESH := State(map[], {}, map[], 0.0)

  function StaleKeys(p: Policy, lastSeen: map<string, real>, now: real): set<string> {
    set k | k in lastSeen && now - lastSeen[k] >= p.staleAfter
  }

  function Cleanup(p: Policy, st: State, now: real): State {
    if now - st.lastCleanup < 60.0 then st else
      var stale := StaleKeys(p, st.lastSeen, now);
      State(st.buckets - stale, st.locks - stale, st.lastSeen - stale, now)
  }

  /** The call's bucket object stays in use after cleanup, whether or not its entry does. */
  function EvictingStep(p: Policy, st: State, r: Request): (State, Reply) {
    var key := KeyOf(r.client);
    var b := Refill(p, BucketOf(p, st.buckets, key, r.at), r.at);
    var seen := State(st.buckets[key := b], st.locks + {key}, st.lastSeen[key := r.at], st.lastCleanup);
    var kept := Cleanup(p, seen, r.at);
    var (b', reply) := Take(p, b, r.at);
    (if key in kept.buckets then kept.(buckets := kept.buckets[key := b']) else kept, reply)
  }

  function Evicting(p: Policy, st: State, rs: seq<Request>): (replies: seq<Reply>)
    ensures |replies| == |rs|
    decreases |rs|
  {
    if rs == [] then [] else
      var (st', reply) := EvictingStep(p, st, rs[0]);
      [reply] + Evicting(p, st', rs[1..])
  }

  function ForeverAfter(p: Policy, m: Buckets, rs: seq<Request>): Buckets
    decreases |rs|
  {
    if rs == [] then m else ForeverAfter(p, ForeverStep(p, m, rs[0]).0, rs[1..])
  }

  function EvictingAfter(p: Policy, st: State, rs: seq<Request>): State
    decreases |rs|
  {
    if rs == [] then st else EvictingAfter(p, EvictingStep(p, st, rs[0]).0, rs[1..])
  }

  lemma {:induction false} ForeverConcat(p: Policy, m: Buckets, a: seq<Request>, b: seq<Request>)
    ensures Forever(p, m, a + b) == Forever(p, m, a) + Forever(p, ForeverAfter(p, m, a), b)
    decreases |a|
  {
    if a == [] {
      assert a + b == b;
    } else {
      assert (a + b)[1..] == a[1..] + b;
      ForeverConcat(p, ForeverStep(p, m, a[0]).0, a[1..], b);
    }
  }

  lemma {:induction false} EvictingConcat(p: Policy, st: State, a: seq<Request>, b: seq<Request>)
    ensures Evicting(p, st, a + b) == Evicting(p, st, a) + Evicting(p, EvictingAfter(p, st, a), b)
    decreases |a|
  {
    if a == [] {
      assert a + b == b;
    } else {
      assert (a + b)[1..] == a[1..] + b;
      EvictingConcat(p, EvictingStep(p, st, a[0]).0, a[1..], b);
    }
  }

  /** Between calls the three maps name the same clients, and each was last refilled when
      it was last seen, no later than the clock. */
  ghost predicate Consistent(p: Policy, st: State, now: real) {
    && st.buckets.Keys == st.locks == st.lastSeen.Keys
    && forall k <- st.buckets ::
         && st.buckets[k].lastRefill == st.lastSeen[k] <= now
         && 0.0 <= st.buckets[k].tokens <= p.capacity
  }

  lemma TakeBounds(p: Policy, b: Bucket, now: real)
    requires 0.0 <= b.tokens <= p.capacity && b.lastRefill <= now
    ensures var (b', reply) := Take(p, b, now);
            && b'.lastRefill == now && b'.tokens == reply.remaining
            && 0.0 <= b'.tokens <= p.capacity
            && (!reply.allowed <==> reply.wait > 0.0)
  {
    DripGrows(p, b.lastRefill, now);
    var full := Refill(p, b, now);
    if full.tokens < 1.0 {
      DivPositive(1.0 - full.tokens, p.rate);
    }
  }

  lemma DivPositive(a: real, rate: real)
    requires rate > 0.0 && a > 0.0
    ensures a / rate > 0.0 && a / rate * rate == a
  {}

  /** Every call keeps the three maps in step, bounds the tokens, and never evicts its own caller. */
  lemma EvictingStepConsistent(p: Policy, st: State, r: Request)
    requires Consistent(p, st, r.at)
    ensures var (st', reply) := EvictingStep(p, st, r);
            && Consistent(p, st', r.at)
            && KeyOf(r.client) in st'.buckets
            && 0.0 <= reply.remaining <= p.capacity
  {
    var key := KeyOf(r.client);
    var b := BucketOf(p, st.buckets, key, r.at);
    TakeBounds(p, b, r.at);
    RefillTwice(p, b, r.at);
    TakeBounds(p, Refill(p, b, r.at), r.at);
  }

  /** Over every run the three maps share one key set and tokens stay within 0 and burst. */
  lemma {:induction false} EvictingRunConsistent(p: Policy, st: State, rs: seq<Request>, now: real, end: real)
    requires Consistent(p, st, now) && Ordered(rs) && now <= end && forall r <- rs :: now <= r.at <= end
    ensures Consistent(p, EvictingAfter(p, st, rs), end)
    ensures forall reply <- Evicting(p, st, rs) :: 0.0 <= reply.remaining <= p.capacity
    decreases |rs|
  {
    if rs != [] {
      TailOrdered(rs);
      EvictingStepConsistent(p, st, rs[0]);
      EvictingRunConsistent(p, EvictingStep(p, st, rs[0]).0, rs[1..], rs[0].at, end);
    }
  }

  /** In every run from a new limiter, whenever the next request comes. */
  lemma RunConsistent(p: Policy, rs: seq<Request>, next: Request)
    requires Ordered(rs + [next])
    ensures Consistent(p, EvictingAfter(p, FRESH, rs), next.at)
    ensures forall reply <- Evicting(p, FRESH, rs) :: 0.0 <= reply.remaining <= p.capacity
  {
    var all := rs + [next];
    assert all[|rs|] == next && forall i :: 0 <= i < |rs| ==> all[i] == rs[i];
    EvictingRunConsistent(p, FRESH, rs, if rs == [] then next.at else rs[0].at, next.at);
  }

  // ----- Eviction is invisible ---------------------------------------------------

  predicate FullBy(p: Policy, b: Bucket, now: real) {
    b.tokens + Drip(p, b.lastRefill, now) >= p.capacity
  }

  /** The never-forgetting limiter knows at least as many clients; the extra ones are full. */
  ghost predicate Simulates(p: Policy, st: State, m: Buckets, now: real) {
    && Consistent(p, st, now)
    && st.buckets.Keys <= m.Keys
    && (forall k <- st.buckets :: m[k] == st.buckets[k])
    && (forall k <- m :: k !in st.buckets ==> FullBy(p, m[k], now))
  }

  lemma SimulatesLater(p: Policy, st: State, m: Buckets, now: real, later: real)
    requires Simulates(p, st, m, now) && now <= later
    ensures Simulates(p, st, m, later)
  {
    forall k <- m | k !in st.buckets ensures FullBy(p, m[k], later) {
      DripAdds(p, m[k].lastRefill, now, later);
      DripGrows(p, now, later);
    }
  }

  lemma TakeAfterRefill(p: Policy, b: Bucket, now: real)
    ensures Take(p, Refill(p, b, now), now) == Take(p, b, now)
  {
    RefillTwice(p, b, now);
  }

  lemma FullTakesLikeNew(p: Policy, b: Bucket, now: real)
    requires FullBy(p, b, now)
    ensures Take(p, b, now) == Take(p, NewBucket(p, now), now)
  {}

  /** A client that cleanup may drop has a full bucket again. */
  lemma StaleIsFull(p: Policy, b: Bucket, now: real)
    requires RefillsBeforeEviction(p) && b.tokens >= 0.0 && now - b.lastRefill >= p.staleAfter
    ensures FullBy(p, b, now)
  {
    var idle := b.lastRefill + p.staleAfter;
    DripAdds(p, b.lastRefill, idle, now);
    DripGrows(p, idle, now);
  }

  lemma StepSimulates(p: Policy, st: State, m: Buckets, r: Request)
    requires RefillsBeforeEviction(p) && Simulates(p, st, m, r.at)
    ensures var (st', reply) := EvictingStep(p, st, r);
            var (m', reply') := ForeverStep(p, m, r);
            reply == reply' && Simulates(p, st', m', r.at)
  {
    var key := KeyOf(r.client);
    var (st', reply) := EvictingStep(p, st, r);
    var (m', reply') := ForeverStep(p, m, r);
    EvictingStepConsistent(p, st, r);
    TakeAfterRefill(p, BucketOf(p, st.buckets, key, r.at), r.at);
    if key in m && key !in st.buckets {
      FullTakesLikeNew(p, m[key], r.at);
    }
    forall k <- m' | k !in st'.buckets ensures FullBy(p, m'[k], r.at) {
      if k in st.buckets {
        StaleIsFull(p, st.buckets[k], r.at);
      }
    }
  }

  lemma {:induction false} RunSimulates(p: Policy, st: State, m: Buckets, rs: seq<Request>, now: real)
    requires RefillsBeforeEviction(p) && Simulates(p, st, m, now)
    requires Ordered(rs) && (rs != [] ==> now <= rs[0].at)
    ensures Evicting(p, st, rs) == Forever(p, m, rs)
    decreases |rs|
  {
    if rs != [] {
      SimulatesLater(p, st, m, now, rs[0].at);
      StepSimulates(p, st, m, rs[0]);
      RunSimulates(p, EvictingStep(p, st, rs[0]).0, ForeverStep(p, m, rs[0]).0, rs[1..], rs[0].at);
    }
  }

  // The other direction: a client that drains its bucket and stays away long enough to be
  // evicted comes back to a full bucket that a faithful limiter would not have given it.

  function Times(n: nat, r: Request): (rs: seq<Request>)
    ensures |rs| == n && forall q <- rs :: q == r
  {
    if n == 0 then [] else [r] + Times(n - 1, r)
  }

  function Drained(p: Policy, n: nat): Bucket {
    Bucket(p.capacity - n as real, 0.0)
  }

  /** After n calls by client "a" at time 0, and before any cleanup. */
  function DrainedState(p: Policy, n: nat): State {
    if n == 0 then FRESH else State(map["a" := Drained(p, n)], {"a"}, map["a" := 0.0], 0.0)
  }

  lemma DrainStep(p: Policy, n: nat)
    requires n as real + 1.0 <= p.capacity
    ensures EvictingStep(p, DrainedState(p, n), Request("a", 0.0)).0 == DrainedState(p, n + 1)
    ensures ForeverStep(p, DrainedState(p, n).buckets, Request("a", 0.0)).0 == DrainedState(p, n + 1).buckets
  {}

  lemma {:induction false} DrainRun(p: Policy, n: nat, k: nat)
    requires (n + k) as real <= p.capacity
    ensures var a := Times(k, Request("a", 0.0));
            && EvictingAfter(p, DrainedState(p, n), a) == DrainedState(p, n + k)
            && ForeverAfter(p, DrainedState(p, n).buckets, a) == DrainedState(p, n + k).buckets
    decreases k
  {
    if k > 0 {
      var a := Times(k, Request("a", 0.0));
      assert a[0] == Request("a", 0.0) && a[1..] == Times(k - 1, Request("a", 0.0));
      DrainStep(p, n);
      DrainRun(p, n + 1, k - 1);
    }
  }

  function Revealing(p: Policy, calls: nat): seq<Request> {
    Times(calls, Request("a", 0.0)) + [Request("b", p.staleAfter), Request("a", p.staleAfter)]
  }

  lemma RevealingOrdered(p: Policy, calls: nat)
    ensures Ordered(Revealing(p, calls))
  {
    var rs := Revealing(p, calls);
    forall i | 0 <= i < |rs| ensures rs[i].at == if i < calls then 0.0 else p.staleAfter {
      if i < calls { assert rs[i] in Times(calls, Request("a", 0.0)); }
    }
  }

  lemma EvictionShows(p: Policy, calls: nat)
    requires !RefillsBeforeEviction(p) && p.capacity == calls as real
    ensures Evicting(p, FRESH, Revealing(p, calls)) != Forever(p, map[], Revealing(p, calls))
  {
    var a, tail := Times(calls, Request("a", 0.0)), [Request("b", p.staleAfter), Request("a", p.staleAfter)];
    DrainRun(p, 0, calls);
    var c := DrainedState(p, calls);
    EvictedClientReturns(p, c, p.staleAfter);
    DifferAfter(p, a, tail, c);
  }

  lemma DifferAfter(p: Policy, a: seq<Request>, tail: seq<Request>, c: State)
    requires EvictingAfter(p, FRESH, a) == c && ForeverAfter(p, map[], a) == c.buckets
    requires Evicting(p, c, tail) != Forever(p, c.buckets, tail)
    ensures Evicting(p, FRESH, a + tail) != Forever(p, map[], a + tail)
  {
    EvictingConcat(p, FRESH, a, tail);
    ForeverConcat(p, map[], a, tail);
    DifferLate(Evicting(p, FRESH, a), Forever(p, map[], a), Evicting(p, c, tail), Forever(p, c.buckets, tail));
  }

  lemma DifferLate(a: seq<Reply>, b: seq<Reply>, x: seq<Reply>, y: seq<Reply>)
    requires |a| == |b| && x != y
    ensures a + x != b + y
  {
    assert x == (a + x)[|a|..] && y == (b + y)[|b|..];
  }

  lemma EvictedClientReturns(p: Policy, c: State, t: real)
    requires t == p.staleAfter && t * p.rate < p.capacity
    requires c == State(map["a" := Bucket(0.0, 0.0)], {"a"}, map["a" := 0.0], 0.0)
    ensures var tail := [Request("b", t), Request("a", t)];
            Evicting(p, c, tail)[1] != Forever(p, c.buckets, tail)[1]
  {
    var tail := [Request("b", t), Request("a", t)];
    var st, m := EvictingStep(p, c, tail[0]).0, ForeverStep(p, c.buckets, tail[0]).0;
    assert "a" !in st.buckets && m["a"] == Bucket(0.0, 0.0);
    RemainingAfterEviction(p, st, m, t);
    assert tail[1..] == [tail[1]];
    assert Evicting(p, c, tail)[1] == Evicting(p, st, [tail[1]])[0] == EvictingStep(p, st, tail[1]).1;
    assert Forever(p, c.buckets, tail)[1] == Forever(p, m, [tail[1]])[0] == ForeverStep(p, m, tail[1]).1;
  }

  lemma RemainingAfterEviction(p: Policy, st: State, m: Buckets, t: real)
    requires t * p.rate < p.capacity
    requires "a" !in st.buckets && "a" in m && m["a"] == Bucket(0.0, 0.0)
    ensures EvictingStep(p, st, Request("a", t)).1 != ForeverStep(p, m, Request("a", t)).1
  {}

  /** For all settings, the evicting limiter gives the same answers and remaining tokens as
      one that never forgets, on every run, exactly when rate * stale_after reaches the burst. */
  lemma EvictionInvisibleIff(burst: int, requestsPerWindow: int, windowSeconds: int)
    ensures var p := PolicyOf(burst, requestsPerWindow, windowSeconds);
            RefillsBeforeEviction(p) <==>
            forall rs: seq<Request> :: Ordered(rs) ==> Evicting(p, FRESH, rs) == Forever(p, map[], rs)
  {
    var p := PolicyOf(burst, requestsPerWindow, windowSeconds);
    if RefillsBeforeEviction(p) {
      forall rs: seq<Request> | Ordered(rs) ensures Evicting(p, FRESH, rs) == Forever(p, map[], rs) {
        EvictionInvisible(p, rs);
      }
    } else {
      RevealingOrdered(p, Max(1, burst));
      EvictionShows(p, Max(1, burst));
    }
  }

  lemma EvictionInvisible(p: Policy, rs: seq<Request>)
    requires RefillsBeforeEviction(p) && Ordered(rs)
    ensures Evicting(p, FRESH, rs) == Forever(p, map[], rs)
  {
    RunSimulates(p, FRESH, map[], rs, if rs == [] then 0.0 else rs[0].at);
  }

  /** The shipped settings (300 burst, 240 requests per 60 seconds) satisfy the condition. */
  lemma ShippedSettingsRefill()
    ensures PolicyOf(300, 240, 60) == Limits(300.0, 4.0, 1200.0) && RefillsBeforeEviction(PolicyOf(300, 240, 60))
  {}

  // ----- Clients do not touch each other ---------------------------------------------

  /** Requests without a client address count as one client, called "unknown". */
  predicate SameClient(a: string, b: string) {
    a == b || (a in {"", "unknown"} && b in {"", "unknown"})
  }

  lemma KeyIsClient(a: string, b: string)
    ensures KeyOf(a) == KeyOf(b) <==> SameClient(a, b)
  {}

  /** The requests of one client. */
  function Mine(rs: seq<Request>, c: string): seq<Request> {
    if rs == [] then []
    else (if SameClient(rs[0].client, c) then [rs[0]] else []) + Mine(rs[1..], c)
  }

  /** The answers to them. */
  function MyReplies(rs: seq<Request>, replies: seq<Reply>, c: string): seq<Reply>
    requires |rs| == |replies|
  {
    if rs == [] then []
    else (if SameClient(rs[0].client, c) then [replies[0]] else []) + MyReplies(rs[1..], replies[1..], c)
  }

  ghost predicate SameAt(m: Buckets, n: Buckets, key: string) {
    (key in m <==> key in n) && (key in m ==> m[key] == n[key])
  }

  lemma {:induction false} ForeverIsolates(p: Policy, m: Buckets, n: Buckets, rs: seq<Request>, c: string)
    requires SameAt(m, n, KeyOf(c))
    ensures MyReplies(rs, Forever(p, m, rs), c) == Forever(p, n, Mine(rs, c))
    decreases |rs|
  {
    if rs != [] {
      var r := rs[0];
      KeyIsClient(r.client, c);
      var (m', reply) := ForeverStep(p, m, r);
      assert Forever(p, m, rs)[1..] == Forever(p, m', rs[1..]);
      if SameClient(r.client, c) {
        var (n', reply') := ForeverStep(p, n, r);
        ForeverIsolates(p, m', n', rs[1..], c);
        assert ([r] + Mine(rs[1..], c))[1..] == Mine(rs[1..], c);
      } else {
        ForeverIsolates(p, m', n, rs[1..], c);
        assert [] + Mine(rs[1..], c) == Mine(rs[1..], c);
      }
    }
  }

  lemma {:induction false} MineOrdered(rs: seq<Request>, c: string)
    requires Ordered(rs)
    ensures Ordered(Mine(rs, c)) && forall r <- Mine(rs, c) :: r in rs
    decreases |rs|
  {
    if rs != [] {
      TailOrdered(rs);
      MineOrdered(rs[1..], c);
      var rest := Mine(rs[1..], c);
      forall i | 0 <= i < |rest| ensures rs[0].at <= rest[i].at {
        assert rest[i] in rs[1..];
      }
    }
  }

  /** In every run each client gets the answers, waits and remaining tokens it would get if it
      were alone, whatever the others do. */
  lemma ClientsAreIsolated(p: Policy, rs: seq<Request>, c: string)
    requires RefillsBeforeEviction(p) && Ordered(rs)
    ensures MyReplies(rs, Evicting(p, FRESH, rs), c) == Evicting(p, FRESH, Mine(rs, c))
  {
    MineOrdered(rs, c);
    EvictionInvisible(p, rs);
    EvictionInvisible(p, Mine(rs, c));
    ForeverIsolates(p, map[], map[], rs, c);
  }

  /** A call is admitted if and only if its client has a whole token; the answer to a denied one
      is the time until it will have. */
  lemma AnswerMeans(p: Policy, m: Buckets, r: Request)
    ensures var reply, level := ForeverStep(p, m, r).1, Level(p, m, KeyOf(r.client), r.at);
            && (reply.allowed <==> level >= 1.0)
            && (reply.allowed ==> reply.wait == 0.0 && reply.remaining == level - 1.0)
            && (!reply.allowed ==> reply.remaining == level && level + reply.wait * p.rate == 1.0)
  {
    var level := Level(p, m, KeyOf(r.client), r.at);
    if level < 1.0 {
      DivPositive(1.0 - level, p.rate);
    }
  }

  /** Who is forgotten: a call drops exactly the other clients not seen for stale_after, and
      only if the last such sweep is a minute or more ago. */
  lemma ForgottenIff(p: Policy, st: State, r: Request, key: string)
    requires Consistent(p, st, r.at)
    ensures var st' := EvictingStep(p, st, r).0;
            var swept := r.at - st.lastCleanup >= 60.0;
            && (key in st'.buckets <==>
                  || key == KeyOf(r.client)
                  || (key in st.buckets && !(swept && r.at - st.lastSeen[key] >= p.staleAfter)))
            && st'.lastCleanup == if swept then r.at else st.lastCleanup
  {}

  /** What the settings mean: at least one request of burst, one request per window, one second,
      and twenty windows or five minutes before a client is forgotten. */
  lemma PolicyMeans(burst: int, requestsPerWindow: int, windowSeconds: int)
    ensures var p := PolicyOf(burst, requestsPerWindow, windowSeconds);
            && p.capacity == (if burst < 1 then 1 else burst) as real
            && p.rate * (if windowSeconds < 1 then 1 else windowSeconds) as real
               == (if requestsPerWindow < 1 then 1 else requestsPerWindow) as real
            && p.staleAfter == if windowSeconds <= 15 then 300.0 else 20.0 * windowSeconds as real
  {
    var w := Max(1, windowSeconds) as real;
    DivTimes(Max(1, requestsPerWindow) as real, w);
  }

  lemma DivTimes(a: real, b: real)
    requires b > 0.0
    ensures a / b * b == a
  {}

  // ----- Admission bound -----------------------------------------------------------

  function Admitted(key: string, rs: seq<Request>, replies: seq<Reply>): real
    requires |rs| == |replies|
  {
    if rs == [] then 0.0
    else Cost(key, rs[0], replies[0]) + Admitted(key, rs[1..], replies[1..])
  }

  /** The tokens a client could have at time t; a client not yet known could have a full bucket. */
  function Level(p: Policy, m: Buckets, key: string, t: real): real {
    Refill(p, BucketOf(p, m, key, t), t).tokens
  }

  ghost predicate Past(p: Policy, m: Buckets, now: real) {
    forall k <- m :: m[k].lastRefill <= now && 0.0 <= m[k].tokens <= p.capacity
  }

  lemma LevelGrowth(p: Policy, m: Buckets, key: string, t: real, u: real)
    requires t <= u
    ensures Level(p, m, key, u) <= Level(p, m, key, t) + Drip(p, t, u)
    ensures Level(p, m, key, t) <= p.capacity
  {
    DripGrows(p, t, u);
    if key in m {
      DripAdds(p, m[key].lastRefill, t, u);
    } else {
      assert Drip(p, t, t) == 0.0 == Drip(p, u, u);
    }
  }

  lemma LevelNonNegative(p: Policy, m: Buckets, key: string, t: real)
    requires Past(p, m, t)
    ensures Level(p, m, key, t) >= 0.0
  {
    var b := BucketOf(p, m, key, t);
    DripGrows(p, b.lastRefill, t);
  }

  function Cost(key: string, r: Request, reply: Reply): real {
    if KeyOf(r.client) == key && reply.allowed then 1.0 else 0.0
  }

  /** An admitted call costs its own client one token; nobody else's level moves. */
  lemma LevelAfter(p: Policy, m: Buckets, key: string, r: Request)
    requires Past(p, m, r.at)
    ensures var (m', reply) := ForeverStep(p, m, r);
            Level(p, m', key, r.at) == Level(p, m, key, r.at) - Cost(key, r, reply)
  {
    var k := KeyOf(r.client);
    var b := BucketOf(p, m, k, r.at);
    TakeBounds(p, b, r.at);
    var (b', reply) := Take(p, b, r.at);
    assert Drip(p, b'.lastRefill, r.at) == 0.0;
  }

  lemma PastAfter(p: Policy, m: Buckets, r: Request)
    requires Past(p, m, r.at)
    ensures Past(p, ForeverStep(p, m, r).0, r.at)
  {
    TakeBounds(p, BucketOf(p, m, KeyOf(r.client), r.at), r.at);
  }

  /** From any state, the calls admitted for a key until `end` are paid for by the tokens it
      had at the start and those that dripped in since. */
  lemma {:induction false} AdmittedArePaidFor(p: Policy, m: Buckets, key: string, rs: seq<Request>, t: real, end: real)
    requires Past(p, m, t) && Ordered(rs) && t <= end
    requires forall r <- rs :: t <= r.at <= end
    ensures Admitted(key, rs, Forever(p, m, rs)) <= Level(p, m, key, t) + Drip(p, t, end)
    decreases |rs|
  {
    if rs == [] {
      DripGrows(p, t, end);
      LevelNonNegative(p, m, key, t);
    } else {
      var r := rs[0];
      var (m', reply) := ForeverStep(p, m, r);
      PastAfter(p, m, r);
      TailOrdered(rs);
      AdmittedArePaidFor(p, m', key, rs[1..], r.at, end);
      LevelGrowth(p, m, key, t, r.at);
      LevelAfter(p, m, key, r);
      AdmittedHead(p, m, key, rs);
      DripAdds(p, t, r.at, end);
    }
  }

  lemma AdmittedHead(p: Policy, m: Buckets, key: string, rs: seq<Request>)
    requires rs != []
    ensures var (m', reply) := ForeverStep(p, m, rs[0]);
            Admitted(key, rs, Forever(p, m, rs)) ==
            Cost(key, rs[0], reply) + Admitted(key, rs[1..], Forever(p, m', rs[1..]))
  {}

  lemma TailOrdered(rs: seq<Request>)
    requires Ordered(rs) && rs != []
    ensures Ordered(rs[1..]) && forall q <- rs[1..] :: rs[0].at <= q.at
  {}

  lemma {:induction false} ForeverAfterPast(p: Policy, m: Buckets, rs: seq<Request>, t: real, now: real)
    requires Past(p, m, t) && Ordered(rs) && t <= now && forall r <- rs :: t <= r.at <= now
    ensures Past(p, ForeverAfter(p, m, rs), now)
    decreases |rs|
  {
    if rs != [] {
      PastAfter(p, m, rs[0]);
      TailOrdered(rs);
      ForeverAfterPast(p, ForeverStep(p, m, rs[0]).0, rs[1..], rs[0].at, now);
    }
  }

  lemma ForeverSegment(p: Policy, rs: seq<Request>, i: nat, j: nat)
    requires i <= j <= |rs|
    ensures Forever(p, map[], rs)[i..j] == Forever(p, ForeverAfter(p, map[], rs[..i]), rs[i..j])
  {
    var m := ForeverAfter(p, map[], rs[..i]);
    assert rs == rs[..i] + (rs[i..j] + rs[j..]);
    ForeverConcat(p, map[], rs[..i], rs[i..j] + rs[j..]);
    ForeverConcat(p, m, rs[i..j], rs[j..]);
  }

  lemma SliceOrdered(rs: seq<Request>, i: nat, j: nat)
    requires Ordered(rs) && i < j <= |rs|
    ensures Ordered(rs[..i]) && forall r <- rs[..i] :: rs[0].at <= r.at <= rs[i].at
    ensures Ordered(rs[i..j]) && forall r <- rs[i..j] :: rs[i].at <= r.at <= rs[j - 1].at
    ensures rs[0].at <= rs[i].at <= rs[j - 1].at
  {}

  /** In every run and for every client, the calls admitted among rs[i..j] are at most
      burst + rate * (time between the first and the last of them). */
  lemma AdmissionBound(p: Policy, rs: seq<Request>, key: string, i: nat, j: nat)
    requires RefillsBeforeEviction(p) && Ordered(rs) && i < j <= |rs|
    ensures Admitted(key, rs[i..j], Evicting(p, FRESH, rs)[i..j])
         <= p.capacity + Drip(p, rs[i].at, rs[j - 1].at)
  {
    EvictionInvisible(p, rs);
    ForeverSegment(p, rs, i, j);
    ForeverBound(p, rs, key, i, j);
  }

  lemma ForeverBound(p: Policy, rs: seq<Request>, key: string, i: nat, j: nat)
    requires Ordered(rs) && i < j <= |rs|
    ensures Admitted(key, rs[i..j], Forever(p, ForeverAfter(p, map[], rs[..i]), rs[i..j]))
         <= p.capacity + Drip(p, rs[i].at, rs[j - 1].at)
  {
    SliceOrdered(rs, i, j);
    var m := ForeverAfter(p, map[], rs[..i]);
    ForeverAfterPast(p, map[], rs[..i], rs[0].at, rs[i].at);
    AdmittedArePaidFor(p, m, key, rs[i..j], rs[i].at, rs[j - 1].at);
    LevelGrowth(p, m, key, rs[i].at, rs[i].at);
  }

  // Without the condition the bound fails: the client above is admitted a second full burst.

  lemma {:induction false} DrainAdmits(p: Policy, st: State, t: real, n: nat, k: nat)
    requires BucketOf(p, st.buckets, "a", t) == Bucket(p.capacity - n as real, t)
    requires (n + k) as real <= p.capacity
    ensures var rs := Times(k, Request("a", t));
            Admitted("a", rs, Evicting(p, st, rs)) == k as real
    decreases k
  {
    if k > 0 {
      var rs := Times(k, Request("a", t));
      var (st', reply) := EvictingStep(p, st, Request("a", t));
      DrainedOnce(p, st, t, n);
      assert rs[1..] == Times(k - 1, Request("a", t));
      assert Evicting(p, st, rs)[1..] == Evicting(p, st', rs[1..]);
      DrainAdmits(p, st', t, n + 1, k - 1);
    }
  }

  lemma DrainedOnce(p: Policy, st: State, t: real, n: nat)
    requires BucketOf(p, st.buckets, "a", t) == Bucket(p.capacity - n as real, t) && n as real + 1.0 <= p.capacity
    ensures var (st', reply) := EvictingStep(p, st, Request("a", t));
            reply.allowed && BucketOf(p, st'.buckets, "a", t) == Bucket(p.capacity - (n + 1) as real, t)
  {}

  lemma {:induction false} AdmittedConcat(key: string, a: seq<Request>, b: seq<Request>, x: seq<Reply>, y: seq<Reply>)
    requires |a| == |x| && |b| == |y|
    ensures Admitted(key, a + b, x + y) == Admitted(key, a, x) + Admitted(key, b, y)
    decreases |a|
  {
    if a == [] {
      assert a + b == b && x + y == y;
    } else {
      assert (a + b)[1..] == a[1..] + b && (x + y)[1..] == x[1..] + y;
      AdmittedConcat(key, a[1..], b, x[1..], y);
    }
  }

  function TwoBursts(p: Policy, calls: nat): seq<Request> {
    Times(calls, Request("a", 0.0)) + ([Request("b", p.staleAfter)] + Times(calls, Request("a", p.staleAfter)))
  }

  lemma TwoBurstsOrdered(p: Policy, calls: nat)
    ensures Ordered(TwoBursts(p, calls))
  {
    var rs := TwoBursts(p, calls);
    forall i | 0 <= i < |rs| ensures rs[i].at == if i < calls then 0.0 else p.staleAfter {
      if i < calls {
        assert rs[i] in Times(calls, Request("a", 0.0));
      } else if i > calls {
        assert rs[i] in Times(calls, Request("a", p.staleAfter));
      }
    }
  }

  lemma TwoBurstsAdmitted(p: Policy, calls: nat)
    requires p.capacity == calls as real
    ensures Admitted("a", TwoBursts(p, calls), Evicting(p, FRESH, TwoBursts(p, calls))) >= 2.0 * p.capacity
  {
    var t := p.staleAfter;
    var first, second := Times(calls, Request("a", 0.0)), Times(calls, Request("a", t));
    var b := Request("b", t);
    DrainRun(p, 0, calls);
    var c := DrainedState(p, calls);
    var st := EvictingStep(p, c, b).0;
    assert "a" !in st.buckets;
    DrainAdmits(p, FRESH, 0.0, 0, calls);
    DrainAdmits(p, st, t, 0, calls);
    EvictingConcat(p, FRESH, first, [b] + second);
    AdmittedConcat("a", first, [b] + second, Evicting(p, FRESH, first), Evicting(p, c, [b] + second));
    EvictingOne(p, c, b, second);
    AdmittedConcat("a", [b], second, [EvictingStep(p, c, b).1], Evicting(p, st, second));
  }

  lemma EvictingOne(p: Policy, st: State, r: Request, rs: seq<Request>)
    ensures Evicting(p, st, [r] + rs) == [EvictingStep(p, st, r).1] + Evicting(p, EvictingStep(p, st, r).0, rs)
  {}

  ghost predicate Bounded(p: Policy, rs: seq<Request>, key: string, i: nat, j: nat)
    requires i < j <= |rs|
  {
    Admitted(key, rs[i..j], Evicting(p, FRESH, rs)[i..j]) <= p.capacity + Drip(p, rs[i].at, rs[j - 1].at)
  }

  /** For all settings: the admission bound holds for every run, client and interval exactly
      when rate * stale_after reaches the burst. */
  lemma AdmissionBoundIff(burst: int, requestsPerWindow: int, windowSeconds: int)
    ensures var p := PolicyOf(burst, requestsPerWindow, windowSeconds);
            RefillsBeforeEviction(p) <==>
            forall rs: seq<Request>, key: string, i: nat, j: nat ::
              Ordered(rs) && i < j <= |rs| ==> Bounded(p, rs, key, i, j)
  {
    var p := PolicyOf(burst, requestsPerWindow, windowSeconds);
    if RefillsBeforeEviction(p) {
      forall rs: seq<Request>, key: string, i: nat, j: nat | Ordered(rs) && i < j <= |rs|
        ensures Bounded(p, rs, key, i, j)
      {
        AdmissionBound(p, rs, key, i, j);
      }
    } else {
      var calls := Max(1, burst);
      var rs := TwoBursts(p, calls);
      TwoBurstsOrdered(p, calls);
      TwoBurstsExceed(p, calls);
      assert !Bounded(p, rs, "a", 0, |rs|);
    }
  }

  lemma TwoBurstsExceed(p: Policy, calls: nat)
    requires p.capacity == calls as real && !RefillsBeforeEviction(p)
    ensures var rs := TwoBursts(p, calls); |rs| > 0 && !Bounded(p, rs, "a", 0, |rs|)
  {
    var rs := TwoBursts(p, calls);
    TwoBurstsAdmitted(p, calls);
    var all := Evicting(p, FRESH, rs);
    assert rs[0..|rs|] == rs && all[0..|rs|] == all;
    assert rs[0].at == 0.0 by { assert rs[0] in Times(calls, Request("a", 0.0)); }
    assert rs[|rs| - 1].at == p.staleAfter by { assert rs[|rs| - 1] in Times(calls, Request("a", p.staleAfter)); }
    assert Drip(p, 0.0, p.staleAfter) < p.capacity;
  }

  // ----- Retry-After -----------------------------------------------------------------

  /** `max(1, int(wait_seconds + 0.999))` for a positive wait. */
  function RetryAfter(wait: real): int {
    Max(1, (wait + 0.999).Floor)
  }

  /** A denied bucket left alone admits the next call exactly when `wait` has passed. */
  lemma WaitIsExact(p: Policy, b: Bucket, t: real, u: real)
    requires 0.0 <= b.tokens < 1.0 && b.lastRefill == t <= u
    ensures Take(p, b, u).1.allowed <==> u - t >= (1.0 - b.tokens) / p.rate
  {
    var wait := (1.0 - b.tokens) / p.rate;
    assert wait * p.rate == 1.0 - b.tokens;
    if u - t >= wait {
      DripAdds(p, t, t + wait, u);
      DripGrows(p, t + wait, u);
      assert Drip(p, t, t + wait) == wait * p.rate;
    } else {
      DripAdds(p, t, u, t + wait);
      assert Drip(p, t, t + wait) == wait * p.rate;
      DripStrict(p, u, t + wait);
    }
  }

  lemma DripStrict(p: Policy, from: real, to: real)
    requires from < to
    ensures Drip(p, from, to) > 0.0
  {}

  /** The bucket of a client that makes no call is either untouched or forgotten. */
  lemma {:induction false} IdleClient(p: Policy, st: State, rs: seq<Request>, key: string)
    requires forall r <- rs :: KeyOf(r.client) != key
    ensures var st' := EvictingAfter(p, st, rs);
            key in st'.buckets ==> key in st.buckets && st'.buckets[key] == st.buckets[key]
    decreases |rs|
  {
    if rs != [] {
      IdleClient(p, EvictingStep(p, st, rs[0]).0, rs[1..], key);
    }
  }

  /** A denied client that stays away for retry_after plus one millisecond is admitted, for
      all settings and whatever other clients do meanwhile. */
  lemma RetryIsAdmitted(p: Policy, st: State, denied: Request, others: seq<Request>, retry: Request)
    requires Consistent(p, st, denied.at) && KeyOf(retry.client) == KeyOf(denied.client)
    requires forall r <- others :: KeyOf(r.client) != KeyOf(denied.client)
    requires !EvictingStep(p, st, denied).1.allowed
    requires retry.at >= denied.at + RetryAfter(EvictingStep(p, st, denied).1.wait) as real + 0.001
    ensures EvictingStep(p, EvictingAfter(p, EvictingStep(p, st, denied).0, others), retry).1.allowed
  {
    var key := KeyOf(denied.client);
    var (st1, reply) := EvictingStep(p, st, denied);
    DeniedBucket(p, st, denied);
    IdleClient(p, st1, others, key);
    RetryAfterCovers(reply.wait);
    RestedClient(p, EvictingAfter(p, st1, others), st1.buckets[key], retry);
  }

  /** A denied client that retries at exactly the time its header says is admitted if and only
      if it has been forgotten meanwhile or the header covers the wait, whatever others did. */
  lemma RetryOnTimeIff(p: Policy, st: State, denied: Request, others: seq<Request>, retry: Request)
    requires Consistent(p, st, denied.at) && KeyOf(retry.client) == KeyOf(denied.client)
    requires forall r <- others :: KeyOf(r.client) != KeyOf(denied.client)
    requires !EvictingStep(p, st, denied).1.allowed
    requires retry.at == denied.at + RetryAfter(EvictingStep(p, st, denied).1.wait) as real
    ensures var after := EvictingAfter(p, EvictingStep(p, st, denied).0, others);
            EvictingStep(p, after, retry).1.allowed <==>
            KeyOf(denied.client) !in after.buckets || HeaderCovers(EvictingStep(p, st, denied).1.wait)
  {
    var key := KeyOf(denied.client);
    var (st1, reply) := EvictingStep(p, st, denied);
    DeniedBucket(p, st, denied);
    IdleClient(p, st1, others, key);
    RetryAfterCovers(reply.wait);
    RestedClient(p, EvictingAfter(p, st1, others), st1.buckets[key], retry);
  }

  /** Both hold in every run from a new limiter. */
  lemma RetryInEveryRun(p: Policy, before: seq<Request>, denied: Request, others: seq<Request>, retry: Request)
    requires Ordered(before + [denied]) && KeyOf(retry.client) == KeyOf(denied.client)
    requires forall r <- others :: KeyOf(r.client) != KeyOf(denied.client)
    requires !EvictingStep(p, EvictingAfter(p, FRESH, before), denied).1.allowed
    ensures var (st, reply) := EvictingStep(p, EvictingAfter(p, FRESH, before), denied);
            var after := EvictingAfter(p, st, others);
            var told := denied.at + RetryAfter(reply.wait) as real;
            && (retry.at >= told + 0.001 ==> EvictingStep(p, after, retry).1.allowed)
            && (retry.at == told ==>
                  (EvictingStep(p, after, retry).1.allowed <==> KeyOf(denied.client) !in after.buckets || HeaderCovers(reply.wait)))
  {
    var st := EvictingAfter(p, FRESH, before);
    RunConsistent(p, before, denied);
    var told := denied.at + RetryAfter(EvictingStep(p, st, denied).1.wait) as real;
    if retry.at >= told + 0.001 {
      RetryIsAdmitted(p, st, denied, others, retry);
    } else if retry.at == told {
      RetryOnTimeIff(p, st, denied, others, retry);
    }
  }

  /** A client whose bucket is as it was when it was denied, or forgotten, is admitted if and
      only if it is forgotten or the wait has passed. */
  lemma RestedClient(p: Policy, st: State, b: Bucket, r: Request)
    requires 0.0 <= b.tokens < 1.0 && b.lastRefill <= r.at
    requires var key := KeyOf(r.client); key in st.buckets ==> st.buckets[key] == b
    ensures EvictingStep(p, st, r).1.allowed <==>
            KeyOf(r.client) !in st.buckets || r.at - b.lastRefill >= (1.0 - b.tokens) / p.rate
  {
    TakeAfterRefill(p, BucketOf(p, st.buckets, KeyOf(r.client), r.at), r.at);
    WaitIsExact(p, b, b.lastRefill, r.at);
    DripAdds(p, r.at, r.at, r.at);
  }

  lemma DeniedBucket(p: Policy, st: State, r: Request)
    requires Consistent(p, st, r.at) && !EvictingStep(p, st, r).1.allowed
    ensures var (st', reply) := EvictingStep(p, st, r);
            && KeyOf(r.client) in st'.buckets
            && var b := st'.buckets[KeyOf(r.client)];
               0.0 <= b.tokens < 1.0 && b.lastRefill == r.at && 0.0 < reply.wait == (1.0 - b.tokens) / p.rate
  {
    var b := BucketOf(p, st.buckets, KeyOf(r.client), r.at);
    EvictingStepConsistent(p, st, r);
    RefillTwice(p, b, r.at);
    TakeBounds(p, Refill(p, b, r.at), r.at);
  }

  /** At most one second, a whole number of seconds, or a millisecond past one. */
  predicate HeaderCovers(wait: real) {
    wait <= 1.0 || wait == wait.Floor as real || wait - wait.Floor as real >= 0.001
  }

  lemma RetryAfterCovers(wait: real)
    requires wait > 0.0
    ensures RetryAfter(wait) as real + 0.001 > wait
    ensures RetryAfter(wait) as real >= wait <==> HeaderCovers(wait)
  {
    var f := wait.Floor;
    if wait - f as real < 0.001 {
      FloorIs(wait + 0.999, f);
    } else {
      FloorIs(wait + 0.999, f + 1);
    }
  }

  lemma FloorIs(x: real, n: int)
    requires n as real <= x < n as real + 1.0
    ensures x.Floor == n
  {}

  /** The limiter with the one client "a", before its first cleanup. */
  function Solo(b: Bucket, seen: real): State {
    State(map["a" := b], {"a"}, map["a" := seen], 0.0)
  }

  lemma SoloStep(p: Policy, b: Bucket, seen: real, t: real)
    requires t < 60.0
    ensures EvictingStep(p, Solo(b, seen), Request("a", t)).0 == Solo(Take(p, b, t).0, t)
    ensures EvictingStep(p, Solo(b, seen), Request("a", t)).1 == Take(p, b, t).1
  {}

  /** Without the extra millisecond the promise fails: one request per two seconds, one
      admitted, a second call 0.9995 s later is told to retry after 1 s and is denied again. */
  lemma RetryAfterAloneFails()
    ensures var p := PolicyOf(1, 1, 2);
            var (st1, first) := EvictingStep(p, FRESH, Request("a", 0.0));
            var (st2, second) := EvictingStep(p, st1, Request("a", 0.9995));
            var (st3, third) := EvictingStep(p, st2, Request("a", 1.9995));
            first.allowed && !second.allowed && RetryAfter(second.wait) == 1 && !third.allowed
  {
    var p := PolicyOf(1, 1, 2);
    assert p == Limits(1.0, 0.5, 300.0);
    var b1, b2 := Bucket(0.0, 0.0), Bucket(0.49975, 0.9995);
    FirstCall(p);
    SoloStep(p, b1, 0.0, 0.9995);
    SoloStep(p, b2, 0.9995, 1.9995);
    LaterCalls(p);
    FloorIs(1.0005 + 0.999, 1);
  }

  lemma LaterCalls(p: Policy)
    requires p.capacity == 1.0 && p.rate == 0.5
    ensures Take(p, Bucket(0.0, 0.0), 0.9995).0 == Bucket(0.49975, 0.9995)
    ensures Take(p, Bucket(0.0, 0.0), 0.9995).1 == Reply(false, 1.0005, 0.49975)
    ensures !Take(p, Bucket(0.49975, 0.9995), 1.9995).1.allowed
  {
    assert Drip(p, 0.0, 0.9995) == 0.49975 && Drip(p, 0.9995, 1.9995) == 0.5;
    assert (1.0 - 0.49975) / p.rate == 1.0005;
  }

  lemma FirstCall(p: Policy)
    requires p.capacity == 1.0
    ensures EvictingStep(p, FRESH, Request("a", 0.0)).0 == Solo(Bucket(0.0, 0.0), 0.0)
    ensures EvictingStep(p, FRESH, Request("a", 0.0)).1 == Reply(true, 0.0, 0.0)
  {}

  // ----- The limiter object -------------------------------------------------------------

  class InboundApiRateLimiter {
    const policy: Policy
    var buckets: Buckets
    var locks: set<string>
    var lastSeen: map<string, real>
    var lastCleanup: real

    constructor (policy: Policy)
      ensures this.policy == policy && View() == FRESH
    {
      this.policy := policy;
      buckets, locks, lastSeen, lastCleanup := map[], {}, map[], 0.0;
    }

    ghost function View(): State
      reads this
    {
      State(buckets, locks, lastSeen, lastCleanup)
    }

    method LockFor(key: string)
      modifies `locks
      ensures locks == old(locks) + {key}
    {
      if key !in locks {
        locks := locks + {key};
      }
    }

    method BucketFor(key: string, now: real) returns (b: Bucket)
      modifies `buckets
      ensures b == BucketOf(policy, old(buckets), key, now) && buckets == old(buckets)[key := b]
    {
      if key in buckets {
        b := buckets[key];
        assert buckets == buckets[key := b];
      } else {
        b := NewBucket(policy, now);
        buckets := buckets[key := b];
      }
    }

    method CleanUp(now: real)
      modifies this
      ensures View() == Cleanup(policy, old(View()), now)
    {
      if now - lastCleanup < 60.0 {
        return;
      }
      var stale := StaleKeys(policy, lastSeen, now);
      var left := stale;
      while left != {}
        invariant left <= stale
        invariant buckets == old(buckets) - (stale - left)
        invariant locks == old(locks) - (stale - left)
        invariant lastSeen == old(lastSeen) - (stale - left)
        decreases left
      {
        var key :| key in left;
        lastSeen := lastSeen - {key};
        buckets := buckets - {key};
        locks := locks - {key};
        left := left - {key};
      }
      lastCleanup := now;
    }

    /** One call; every run of this method answers as `Evicting` does. */
    method Consume(client: string, now: real) returns (reply: Reply)
      modifies this
      ensures (View(), reply) == EvictingStep(policy, old(View()), Request(client, now))
    {
      var key := if client == "" then "unknown" else client;
      LockFor(key);
      var b := BucketFor(key, now);
      b := Refill(policy, b, now);
      buckets := buckets[key := b];
      assert buckets == old(buckets)[key := b];
      lastSeen := lastSeen[key := now];
      CleanUp(now);
      b := Refill(policy, b, now);
      RefillTwice(policy, BucketOf(policy, old(buckets), key, now), now);
      if b.tokens >= 1.0 {
        b := Bucket(b.tokens - 1.0, now);
        reply := Reply(true, 0.0, b.tokens);
      } else {
        reply := Reply(false, (1.0 - b.tokens) / policy.rate, b.tokens);
      }
      if key in buckets {
        buckets := buckets[key := b];
      }
    }
  }
}
