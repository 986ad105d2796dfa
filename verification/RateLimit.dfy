/**
  The sliding-window rate limiter: one Redis sorted set of request times per merchant,
  trimmed and extended on each request. Times are whole seconds.
 */
module RateLimit {
  import opened Prelude

  const WINDOW: int := 3600

  datatype Role = Superadmin | Admin | Merchant | Unlisted(name: string)

  /** A role without a limit of its own gets the merchant limit. */
  function LimitOf(role: Role): (limit: nat)
    ensures 0 < limit <= 10_000
    ensures (limit == 10_000 <==> role.Superadmin?) && (limit == 5_000 <==> role.Admin?)
    ensures limit == 1_000 <==> role.Merchant? || role.Unlisted?
  {
    match role
    case Superadmin => 10_000
    case Admin => 5_000
    case _ => 1_000
  }

  /** A sorted set, as its scores in ascending order, and the time its TTL runs out. */
  datatype SortedSet = SortedSet(scores: seq<int>, expiresAt: int)

  /** A merchant's sorted set, next to the whole history of its allowed request times, which no decision reads. */
  datatype Bucket = Bucket(sorted: SortedSet, granted: seq<int>)

  type State = map<string, Bucket>

  function BucketOf(s: State, merchant: string): Bucket {
    if merchant in s then s[merchant] else Bucket(SortedSet([], 0), [])
  }

  /** `evicted` says that Redis has dropped the key, which it may once its TTL has run out. */
  datatype Request = Request(merchant: string, role: Role, now: int, evicted: bool)

  datatype Reply =
    | Allowed(limit: nat, remaining: int, resetAt: int)
    | Denied(limit: nat, resetAt: int, retryAfter: int)

  /** The first index from `i` on with a score above `bound`. */
  function OlderFrom(scores: seq<int>, bound: int, i: nat): (n: nat)
    requires i <= |scores|
    ensures i <= n <= |scores|
    ensures forall k :: i <= k < n ==> scores[k] <= bound
    ensures n < |scores| ==> scores[n] > bound
    decreases |scores| - i
  {
    if i == |scores| || scores[i] > bound then i else OlderFrom(scores, bound, i + 1)
  }

  /** The number of leading scores up to `bound`. */
  function Older(scores: seq<int>, bound: int): (n: nat)
    ensures n <= |scores|
    ensures forall k :: 0 <= k < n ==> scores[k] <= bound
    ensures n < |scores| ==> scores[n] > bound
  {
    OlderFrom(scores, bound, 0)
  }

  /** What `ZREMRANGEBYSCORE key -inf bound` leaves of an ascending set. */
  function Trim(scores: seq<int>, bound: int): seq<int> {
    scores[Older(scores, bound)..]
  }

  /** `ZADD` of a new member. */
  function Insert(scores: seq<int>, now: int): seq<int> {
    var k := Older(scores, now);
    scores[..k] + [now] + scores[k..]
  }

  /** The scores Redis still has when a request arrives. */
  function Present(sorted: SortedSet, now: int, evicted: bool): seq<int> {
    if evicted && now >= sorted.expiresAt then [] else sorted.scores
  }

  /** The decision on a request that finds `kept` in the window. */
  function Decide(b: Bucket, kept: seq<int>, limit: nat, now: int): (Bucket, Reply)
    requires limit > 0
  {
    if |kept| >= limit then
      (b.(sorted := b.sorted.(scores := kept)), Denied(limit, kept[0] + WINDOW, kept[0] + WINDOW - now))
    else
      (Bucket(SortedSet(Insert(kept, now), now + WINDOW), b.granted + [now]),
       Allowed(limit, limit - |kept| - 1, now + WINDOW))
  }

  /** One request against its merchant's bucket. */
  function Touch(b: Bucket, limit: nat, now: int, evicted: bool): (Bucket, Reply)
    requires limit > 0
  {
    Decide(b, Trim(Present(b.sorted, now, evicted), now - WINDOW), limit, now)
  }

  function Step(s: State, r: Request): (State, Reply) {
    var (bucket, reply) := Touch(BucketOf(s, r.merchant), LimitOf(r.role), r.now, r.evicted);
    (s[r.merchant := bucket], reply)
  }

  class Limiter {
    var buckets: State

    constructor ()
      ensures buckets == map[]
    {
      buckets := map[];
    }

    method CheckApiKeyRateLimit(merchant: string, role: Role, now: int, evicted: bool) returns (reply: Reply)
      modifies this
      ensures (buckets, reply) == Step(old(buckets), Request(merchant, role, now, evicted))
    {
      var limit := LimitOf(role);
      var windowStart := now - WINDOW;
      var bucket := BucketOf(buckets, merchant);
      ghost var decision := Touch(bucket, limit, now, evicted);
      var scores := bucket.sorted.scores;
      if evicted && now >= bucket.sorted.expiresAt {
        scores := [];
      }

      scores := Trim(scores, windowStart);
      assert decision == Decide(bucket, scores, limit, now);
      var count := |scores|;
      if count >= limit {
        var oldestScore := if count >= 1 then scores[0] else now;
        var resetAt := oldestScore + WINDOW;
        bucket := bucket.(sorted := bucket.sorted.(scores := scores));
        reply := Denied(limit, resetAt, resetAt - now);
      } else {
        bucket := Bucket(SortedSet(Insert(scores, now), now + WINDOW), bucket.granted + [now]);
        reply := Allowed(limit, limit - count - 1, now + WINDOW);
      }
      assert decision == (bucket, reply);
      buckets := buckets[merchant := bucket];
    }
  }

  // ----- sorted histories -----

  predicate Sorted(s: seq<int>) {
    forall i, j :: 0 <= i <= j < |s| ==> s[i] <= s[j]
  }

  predicate AtMost(s: seq<int>, bound: int) {
    forall i :: 0 <= i < |s| ==> s[i] <= bound
  }

  lemma OlderIs(s: seq<int>, bound: int, n: nat)
    requires n <= |s|
    requires AtMost(s[..n], bound)
    requires n < |s| ==> s[n] > bound
    ensures Older(s, bound) == n && Trim(s, bound) == s[n..]
  {
    assert forall i :: 0 <= i < n ==> s[..n][i] == s[i];
  }

  lemma TrimNothing(s: seq<int>, bound: int)
    requires AtMost(s, bound)
    ensures Trim(s, bound) == []
  {
    assert s[..|s|] == s;
    OlderIs(s, bound, |s|);
  }

  lemma TrimTwice(s: seq<int>, early: int, late: int)
    requires early <= late
    ensures Trim(Trim(s, early), late) == Trim(s, late)
  {
    var k, n := Older(s, early), Older(s, late);
    assert s[k..][..n - k] == s[k..n];
    OlderIs(s[k..], late, n - k);
    assert s[k..][n - k..] == s[n..];
  }

  lemma TrimSnoc(s: seq<int>, x: int, bound: int)
    requires x > bound
    ensures Trim(s + [x], bound) == Trim(s, bound) + [x]
  {
    var n := Older(s, bound);
    assert (s + [x])[..n] == s[..n];
    OlderIs(s + [x], bound, n);
  }

  lemma SortedFrom(s: seq<int>, k: nat, bound: int)
    requires Sorted(s) && k <= |s|
    requires k < |s| ==> s[k] > bound
    ensures Sorted(s[k..])
    ensures forall i :: k <= i < |s| ==> s[i] > bound
  {
  }

  // ----- runs -----

  /** Time does not go back, from `clock` on. */
  predicate Clocked(requests: seq<Request>, clock: int)
    decreases |requests|
  {
    requests != [] ==> clock <= requests[0].now && Clocked(requests[1..], requests[0].now)
  }

  function EndClock(requests: seq<Request>, clock: int): int
    decreases |requests|
  {
    if requests == [] then clock else EndClock(requests[1..], requests[0].now)
  }

  function Run(s: State, requests: seq<Request>): State
    decreases |requests|
  {
    if requests == [] then s else Run(Step(s, requests[0]).0, requests[1..])
  }

  function Granted(s: State, m: string): seq<int> {
    BucketOf(s, m).granted
  }

  /** The stored set agrees with the history of grants, as seen from `clock` on. */
  predicate BucketOk(b: Bucket, clock: int) {
    var scores := b.sorted.scores;
    && Sorted(b.granted) && AtMost(b.granted, clock)
    && Sorted(scores) && AtMost(scores, clock) && AtMost(scores, b.sorted.expiresAt - WINDOW)
    && Trim(scores, clock - WINDOW) == Trim(b.granted, clock - WINDOW)
  }

  lemma BucketOkLater(b: Bucket, clock: int, now: int)
    requires BucketOk(b, clock) && clock <= now
    ensures BucketOk(b, now)
  {
    TrimTwice(b.sorted.scores, clock - WINDOW, now - WINDOW);
    TrimTwice(b.granted, clock - WINDOW, now - WINDOW);
  }

  /** Dropping a key whose TTL ran out takes nothing from the last hour. */
  lemma KeptIsRecentGrants(b: Bucket, now: int, evicted: bool)
    requires BucketOk(b, now)
    ensures Trim(Present(b.sorted, now, evicted), now - WINDOW) == Trim(b.granted, now - WINDOW)
  {
    if evicted && now >= b.sorted.expiresAt {
      TrimNothing(b.sorted.scores, now - WINDOW);
    }
  }

  /** Any `B + 1` consecutive grants span at least an hour. */
  predicate Spaced(h: seq<int>, B: nat) {
    forall i :: 0 <= i && i + B < |h| ==> h[i] + WINDOW <= h[i + B]
  }

  lemma TrimmedAgain(h: seq<int>, now: int)
    requires Sorted(h) && AtMost(h, now)
    ensures var kept := Trim(h, now - WINDOW);
            Sorted(kept) && AtMost(kept, now) && Trim(kept, now - WINDOW) == kept
  {
    SortedFrom(h, Older(h, now - WINDOW), now - WINDOW);
    TrimTwice(h, now - WINDOW, now - WINDOW);
  }

  /** A trimmed history, extended by `now`, is the extended history, trimmed. */
  lemma ExtendTrimmed(h: seq<int>, now: int)
    requires Sorted(h) && AtMost(h, now)
    ensures var kept := Trim(h, now - WINDOW);
            Trim(kept + [now], now - WINDOW) == Trim(h + [now], now - WINDOW)
  {
    var kept := Trim(h, now - WINDOW);
    TrimmedAgain(h, now);
    TrimSnoc(kept, now, now - WINDOW);
    TrimSnoc(h, now, now - WINDOW);
  }

  lemma SortedSnoc(h: seq<int>, now: int)
    requires Sorted(h) && AtMost(h, now)
    ensures Sorted(h + [now]) && AtMost(h + [now], now) && Insert(h, now) == h + [now]
  {
    assert h[..|h|] == h;
    OlderIs(h, now, |h|);
  }

  lemma DecideKeepsBucket(b: Bucket, kept: seq<int>, limit: nat, now: int)
    requires BucketOk(b, now) && limit > 0
    requires kept == Trim(b.granted, now - WINDOW)
    requires |kept| >= limit ==> AtMost(kept, b.sorted.expiresAt - WINDOW)
    ensures BucketOk(Decide(b, kept, limit, now).0, now)
  {
    TrimmedAgain(b.granted, now);
    ExtendTrimmed(b.granted, now);
    SortedSnoc(kept, now);
    SortedSnoc(b.granted, now);
  }

  /** A key that still shows grants was not dropped. */
  lemma KeptNotDropped(b: Bucket, now: int, evicted: bool)
    requires BucketOk(b, now)
    ensures AtMost(Trim(Present(b.sorted, now, evicted), now - WINDOW), b.sorted.expiresAt - WINDOW)
  {
  }

  lemma TouchKeepsBucket(b: Bucket, limit: nat, now: int, evicted: bool)
    requires BucketOk(b, now) && limit > 0
    ensures BucketOk(Touch(b, limit, now, evicted).0, now)
  {
    KeptIsRecentGrants(b, now, evicted);
    KeptNotDropped(b, now, evicted);
    DecideKeepsBucket(b, Trim(b.granted, now - WINDOW), limit, now);
  }

  /** Dropping an expired key goes unnoticed. */
  lemma EvictionUnseen(b: Bucket, limit: nat, now: int)
    requires BucketOk(b, now) && limit > 0
    ensures Touch(b, limit, now, true) == Touch(b, limit, now, false)
  {
    KeptIsRecentGrants(b, now, true);
    KeptIsRecentGrants(b, now, false);
  }

  lemma SpacedSnoc(h: seq<int>, now: int, B: nat, room: bool)
    requires Spaced(h, B)
    requires room ==> |Trim(h, now - WINDOW)| < B
    ensures room ==> Spaced(h + [now], B)
  {
    if room {
      var k := Older(h, now - WINDOW);
      forall i | 0 <= i && i + B < |h| + 1 ensures (h + [now])[i] + WINDOW <= (h + [now])[i + B] {
        if i + B == |h| {
          assert i < k;
        }
      }
    }
  }

  predicate SpacedBucket(b: Bucket, B: nat) {
    Spaced(b.granted, B) && |b.sorted.scores| <= B
  }

  /** With limits of at most `B` the set holds at most `B` scores, and grants stay spaced. */
  lemma DecideKeepsSpacing(b: Bucket, kept: seq<int>, limit: nat, now: int, B: nat)
    requires 0 < limit <= B && SpacedBucket(b, B)
    requires kept == Trim(b.granted, now - WINDOW) && |kept| <= B
    ensures SpacedBucket(Decide(b, kept, limit, now).0, B)
  {
    SpacedSnoc(b.granted, now, B, |kept| < limit);
    assert |Insert(kept, now)| == |kept| + 1;
  }

  lemma SpacedKeepsFew(h: seq<int>, now: int, B: nat)
    requires Spaced(h, B) && AtMost(h, now)
    ensures |Trim(h, now - WINDOW)| <= B
  {
    forall i | 0 <= i && i + B < |h| ensures h[i] <= now - WINDOW {
      assert h[i] + WINDOW <= h[i + B];
    }
  }

  lemma TouchKeepsSpacing(b: Bucket, limit: nat, now: int, evicted: bool, B: nat)
    requires BucketOk(b, now) && 0 < limit <= B && SpacedBucket(b, B)
    ensures SpacedBucket(Touch(b, limit, now, evicted).0, B)
  {
    KeptIsRecentGrants(b, now, evicted);
    SpacedKeepsFew(b.granted, now, B);
    DecideKeepsSpacing(b, Trim(b.granted, now - WINDOW), limit, now, B);
  }

  /** Every request of `m` has a limit of at most `B`. */
  predicate LimitsAtMost(requests: seq<Request>, m: string, B: nat) {
    forall i :: 0 <= i < |requests| && requests[i].merchant == m ==> LimitOf(requests[i].role) <= B
  }

  predicate Inv(s: State, clock: int, m: string, B: nat) {
    BucketOk(BucketOf(s, m), clock) && SpacedBucket(BucketOf(s, m), B)
  }

  lemma StepKeepsInv(s: State, r: Request, clock: int, m: string, B: nat)
    requires Inv(s, clock, m, B) && clock <= r.now
    requires r.merchant == m ==> LimitOf(r.role) <= B
    ensures Inv(Step(s, r).0, r.now, m, B)
  {
    var b := BucketOf(s, m);
    BucketOkLater(b, clock, r.now);
    if r.merchant == m {
      TouchKeepsBucket(b, LimitOf(r.role), r.now, r.evicted);
      TouchKeepsSpacing(b, LimitOf(r.role), r.now, r.evicted, B);
      assert BucketOf(Step(s, r).0, m) == Touch(b, LimitOf(r.role), r.now, r.evicted).0;
    } else {
      assert BucketOf(Step(s, r).0, m) == b;
    }
  }

  lemma {:induction false} RunKeepsInv(s: State, requests: seq<Request>, clock: int, m: string, B: nat)
    requires Inv(s, clock, m, B) && Clocked(requests, clock) && LimitsAtMost(requests, m, B)
    ensures Inv(Run(s, requests), EndClock(requests, clock), m, B)
    decreases |requests|
  {
    if requests != [] {
      StepKeepsInv(s, requests[0], clock, m, B);
      RunKeepsInv(Step(s, requests[0]).0, requests[1..], requests[0].now, m, B);
    }
  }

  // ----- every window of every run -----

  /** The number of grants with times in `(t - 3600, t]`. */
  function CountIn(h: seq<int>, t: int): nat {
    if h == [] then 0
    else CountIn(h[..|h| - 1], t) + if t - 3600 < h[|h| - 1] <= t then 1 else 0
  }

  lemma {:induction false} CountIsTrim(h: seq<int>, t: int)
    requires Sorted(h) && AtMost(h, t)
    ensures CountIn(h, t) == |Trim(h, t - WINDOW)|
    decreases |h|
  {
    if h != [] {
      var n, bound := |h| - 1, t - WINDOW;
      CountIsTrim(h[..n], t);
      assert h == h[..n] + [h[n]];
      if h[n] > bound {
        TrimSnoc(h[..n], h[n], bound);
      } else {
        TrimNothing(h, bound);
        TrimNothing(h[..n], bound);
      }
    }
  }

  lemma {:induction false} SpacedBoundsCount(h: seq<int>, t: int, B: nat)
    requires Sorted(h) && Spaced(h, B)
    ensures CountIn(h, t) <= B
    decreases |h|
  {
    if h != [] {
      var n := |h| - 1;
      if h[n] > t {
        SpacedBoundsCount(h[..n], t, B);
      } else {
        CountIsTrim(h, t);
        SortedFrom(h, Older(h, t - WINDOW), t - WINDOW);
        assert B <= n ==> h[n - B] + WINDOW <= h[n - B + B];
      }
    }
  }

  /** The time of `r` if it is an allowed request of `m`. */
  function AllowedTime(r: Request, reply: Reply, m: string): seq<int> {
    if r.merchant == m && reply.Allowed? then [r.now] else []
  }

  /** The times of the requests of `m` that a run allows. */
  function AllowedTimes(s: State, requests: seq<Request>, m: string): seq<int>
    decreases |requests|
  {
    if requests == [] then []
    else
      var (after, reply) := Step(s, requests[0]);
      AllowedTime(requests[0], reply, m) + AllowedTimes(after, requests[1..], m)
  }

  lemma TouchGrants(b: Bucket, limit: nat, now: int, evicted: bool)
    requires limit > 0
    ensures var (after, reply) := Touch(b, limit, now, evicted);
            after.granted == b.granted + if reply.Allowed? then [now] else []
  {
  }

  lemma StepGrants(s: State, r: Request, m: string)
    ensures Granted(Step(s, r).0, m) == Granted(s, m) + AllowedTime(r, Step(s, r).1, m)
  {
    TouchGrants(BucketOf(s, r.merchant), LimitOf(r.role), r.now, r.evicted);
  }

  lemma Regroup(a: seq<int>, b: seq<int>, c: seq<int>)
    ensures a + b + c == a + (b + c)
  {
  }

  lemma {:induction false} GrantedAreAllowed(s: State, requests: seq<Request>, m: string)
    ensures Granted(Run(s, requests), m) == Granted(s, m) + AllowedTimes(s, requests, m)
    decreases |requests|
  {
    if requests != [] {
      var (after, reply) := Step(s, requests[0]);
      StepGrants(s, requests[0], m);
      GrantedAreAllowed(after, requests[1..], m);
      Regroup(Granted(s, m), AllowedTime(requests[0], reply, m), AllowedTimes(after, requests[1..], m));
    }
  }

  /** The stored history of a merchant is the times of its allowed requests. */
  lemma HistoryIsAllowed(requests: seq<Request>, m: string)
    ensures Granted(Run(map[], requests), m) == AllowedTimes(map[], requests, m)
  {
    GrantedAreAllowed(map[], requests, m);
    assert Granted(map[], m) == [];
  }

  lemma WindowOfHistory(requests: seq<Request>, clock: int, m: string, B: nat, t: int)
    requires Clocked(requests, clock) && LimitsAtMost(requests, m, B)
    ensures CountIn(Granted(Run(map[], requests), m), t) <= B
  {
    RunKeepsInv(map[], requests, clock, m, B);
    SpacedBoundsCount(Granted(Run(map[], requests), m), t, B);
  }

  /** In every run and at every time `t`, at most the limit is allowed in the hour up to `t`. */
  lemma WindowNeverOverLimit(requests: seq<Request>, clock: int, m: string, B: nat, t: int)
    requires Clocked(requests, clock) && LimitsAtMost(requests, m, B)
    ensures CountIn(AllowedTimes(map[], requests, m), t) <= B
  {
    WindowOfHistory(requests, clock, m, B, t);
    HistoryIsAllowed(requests, m);
  }

  lemma AnyLimit(requests: seq<Request>, m: string)
    ensures LimitsAtMost(requests, m, 10_000)
  {
  }

  lemma BucketAfterRun(requests: seq<Request>, clock: int, m: string, now: int)
    requires Clocked(requests, clock) && EndClock(requests, clock) <= now
    ensures BucketOk(BucketOf(Run(map[], requests), m), now)
  {
    AnyLimit(requests, m);
    RunKeepsInv(map[], requests, clock, m, 10_000);
    BucketOkLater(BucketOf(Run(map[], requests), m), EndClock(requests, clock), now);
  }

  lemma SetOfHistory(b: Bucket, h: seq<int>, now: int, evicted: bool)
    requires BucketOk(b, now) && b.granted == h
    ensures Trim(Present(b.sorted, now, evicted), now - 3600) == Trim(h, now - 3600)
  {
    KeptIsRecentGrants(b, now, evicted);
  }

  /** Over every run the trimmed set is exactly the requests allowed in the last hour, whether or not Redis dropped the key. */
  lemma TrimmedSetIsRecentGrants(requests: seq<Request>, clock: int, m: string, now: int, evicted: bool)
    requires Clocked(requests, clock) && EndClock(requests, clock) <= now
    ensures var b := BucketOf(Run(map[], requests), m);
            Trim(Present(b.sorted, now, evicted), now - 3600) == Trim(AllowedTimes(map[], requests, m), now - 3600)
  {
    BucketAfterRun(requests, clock, m, now);
    HistoryIsAllowed(requests, m);
    SetOfHistory(BucketOf(Run(map[], requests), m), AllowedTimes(map[], requests, m), now, evicted);
  }

  /** `h[i]` is the oldest time of the hour before `now`. */
  predicate OldestRecent(h: seq<int>, now: int, i: nat) {
    i < |h| && h[i] > now - 3600 && forall k :: 0 <= k < i ==> h[k] <= now - 3600
  }

  /** The fields of a reply, as the history alone determines them. */
  ghost predicate ReplyFits(h: seq<int>, limit: int, now: int, reply: Reply) {
    match reply
    case Allowed(l, remaining, resetAt) =>
      CountIn(h, now) < limit == l && remaining == limit - CountIn(h, now) - 1 && resetAt == now + 3600
    case Denied(l, resetAt, retryAfter) =>
      && CountIn(h, now) >= limit == l && retryAfter == resetAt - now
      && exists i: nat :: OldestRecent(h, now, i) && resetAt == h[i] + 3600
  }

  lemma TouchReplies(b: Bucket, limit: nat, now: int, evicted: bool)
    requires BucketOk(b, now) && limit > 0
    ensures ReplyFits(b.granted, limit, now, Touch(b, limit, now, evicted).1)
  {
    KeptIsRecentGrants(b, now, evicted);
    CountIsTrim(b.granted, now);
    var k := Older(b.granted, now - 3600);
    if k < |b.granted| {
      assert OldestRecent(b.granted, now, k);
    }
  }

  lemma ReplyOfHistory(b: Bucket, h: seq<int>, limit: nat, now: int, evicted: bool)
    requires BucketOk(b, now) && b.granted == h && limit > 0
    ensures ReplyFits(h, limit, now, Touch(b, limit, now, evicted).1)
    ensures Touch(b, limit, now, true) == Touch(b, limit, now, false)
  {
    TouchReplies(b, limit, now, evicted);
    EvictionUnseen(b, limit, now);
  }

  function LimitFor(role: Role): int {
    match role
    case Superadmin => 10_000
    case Admin => 5_000
    case _ => 1_000
  }

  /** Over every run each reply follows from the merchant's history: whether it is allowed, its limit, what remains, and
      `resetAt`: an hour on, or for a denial an hour after the oldest request of the last hour. Whether Redis has dropped
      an expired key makes no difference. */
  lemma DecidedByHistory(requests: seq<Request>, clock: int, r: Request)
    requires Clocked(requests, clock) && EndClock(requests, clock) <= r.now
    ensures var s := Run(map[], requests);
            && ReplyFits(AllowedTimes(map[], requests, r.merchant), LimitFor(r.role), r.now, Step(s, r).1)
            && Step(s, r.(evicted := true)) == Step(s, r.(evicted := false))
  {
    var b, h := BucketOf(Run(map[], requests), r.merchant), AllowedTimes(map[], requests, r.merchant);
    BucketAfterRun(requests, clock, r.merchant, r.now);
    HistoryIsAllowed(requests, r.merchant);
    ReplyOfHistory(b, h, LimitOf(r.role), r.now, r.evicted);
  }

  lemma {:induction false} NoneRecent(h: seq<int>, t: int)
    requires AtMost(h, t - 3600)
    ensures CountIn(h, t) == 0
    decreases |h|
  {
    if h != [] {
      NoneRecent(h[..|h| - 1], t);
    }
  }

  lemma EmptyHourAllows(b: Bucket, limit: nat, now: int, evicted: bool)
    requires BucketOk(b, now) && AtMost(b.granted, now - 3600) && limit > 0
    ensures var reply := Touch(b, limit, now, evicted).1; reply.Allowed? && reply.remaining == limit - 1
  {
    NoneRecent(b.granted, now);
    TouchReplies(b, limit, now, evicted);
  }

  /** The merchant's bucket some time after an allowed request, nothing more being allowed. */
  lemma NothingMoreAllowed(s: State, r: Request, clock: int, during: seq<Request>, now: int)
    requires Inv(s, clock, r.merchant, 10_000) && clock <= r.now && Clocked(during, r.now) && EndClock(during, r.now) <= now
    requires AllowedTimes(Step(s, r).0, during, r.merchant) == []
    ensures var b := BucketOf(Run(Step(s, r).0, during), r.merchant);
            BucketOk(b, now) && AtMost(b.granted, r.now)
  {
    var after, m := Step(s, r).0, r.merchant;
    AnyLimit([r], m);
    AnyLimit(during, m);
    StepKeepsInv(s, r, clock, m, 10_000);
    RunKeepsInv(after, during, r.now, m, 10_000);
    GrantedAreAllowed(after, during, m);
    BucketOkLater(BucketOf(Run(after, during), m), EndClock(during, r.now), now);
  }

  /** What `resetAt` promises an allowed request: if nothing more is allowed after it, the full limit is there again. */
  lemma FullLimitAfterReset(before: seq<Request>, clock: int, r: Request, during: seq<Request>, next: Request)
    requires Clocked(before, clock) && EndClock(before, clock) <= r.now && Clocked(during, r.now)
    requires EndClock(during, r.now) <= next.now && next.merchant == r.merchant
    requires Step(Run(map[], before), r).1.Allowed? && next.now >= Step(Run(map[], before), r).1.resetAt
    requires AllowedTimes(Step(Run(map[], before), r).0, during, r.merchant) == []
    ensures var reply := Step(Run(Step(Run(map[], before), r).0, during), next).1;
            reply.Allowed? && reply.remaining == LimitOf(next.role) - 1
  {
    var s := Run(map[], before);
    AnyLimit(before, r.merchant);
    RunKeepsInv(map[], before, clock, r.merchant, 10_000);
    DecidedByHistory(before, clock, r);
    NothingMoreAllowed(s, r, EndClock(before, clock), during, next.now);
    EmptyHourAllows(BucketOf(Run(Step(s, r).0, during), r.merchant), LimitOf(next.role), next.now, next.evicted);
  }

  // ----- resetAt -----

  /** The set is full until `resetAt`. */
  predicate FullUntil(b: Bucket, limit: nat, resetAt: int) {
    && |b.sorted.scores| == limit > 0 && Sorted(b.sorted.scores)
    && b.sorted.scores[0] + WINDOW == resetAt
    && AtMost(b.sorted.scores, b.sorted.expiresAt - WINDOW)
  }

  lemma FullDenies(b: Bucket, limit: nat, now: int, evicted: bool, resetAt: int)
    requires FullUntil(b, limit, resetAt) && now < resetAt
    ensures Touch(b, limit, now, evicted) == (b, Denied(limit, resetAt, resetAt - now))
  {
    OlderIs(b.sorted.scores, now - WINDOW, 0);
    assert b.sorted.scores[0] <= b.sorted.expiresAt - WINDOW;
  }

  lemma FullAllowsAfter(b: Bucket, limit: nat, now: int, evicted: bool, resetAt: int)
    requires FullUntil(b, limit, resetAt) && now >= resetAt
    ensures Touch(b, limit, now, evicted).1.Allowed?
  {
  }

  lemma DenialFills(b: Bucket, limit: nat, now: int, evicted: bool)
    requires BucketOk(b, now) && |b.sorted.scores| <= limit && limit > 0
    requires Touch(b, limit, now, evicted).1.Denied?
    ensures var (full, denial) := Touch(b, limit, now, evicted);
            && FullUntil(full, limit, denial.resetAt)
            && 1 <= denial.retryAfter <= WINDOW && denial.resetAt == now + denial.retryAfter
  {
    SortedFrom(b.sorted.scores, Older(b.sorted.scores, now - WINDOW), now - WINDOW);
  }

  /** The replies `m` gets during a run. */
  function RepliesTo(s: State, requests: seq<Request>, m: string): seq<Reply>
    decreases |requests|
  {
    if requests == [] then []
    else
      var (after, reply) := Step(s, requests[0]);
      (if requests[0].merchant == m then [reply] else []) + RepliesTo(after, requests[1..], m)
  }

  predicate AllBefore(requests: seq<Request>, t: int) {
    forall i :: 0 <= i < |requests| ==> requests[i].now < t
  }

  predicate FixedLimit(requests: seq<Request>, m: string, limit: nat) {
    forall i :: 0 <= i < |requests| && requests[i].merchant == m ==> LimitOf(requests[i].role) == limit
  }

  predicate AllDenied(replies: seq<Reply>, resetAt: int) {
    forall i :: 0 <= i < |replies| ==> replies[i].Denied? && replies[i].resetAt == resetAt
  }

  lemma FullStep(s: State, r: Request, m: string, limit: nat, resetAt: int)
    requires FullUntil(BucketOf(s, m), limit, resetAt) && r.now < resetAt
    requires r.merchant == m ==> LimitOf(r.role) == limit
    ensures BucketOf(Step(s, r).0, m) == BucketOf(s, m)
    ensures r.merchant == m ==> Step(s, r).1 == Denied(limit, resetAt, resetAt - r.now)
  {
    if r.merchant == m {
      FullDenies(BucketOf(s, m), limit, r.now, r.evicted, resetAt);
    }
  }

  lemma DeniedAppend(a: seq<Reply>, b: seq<Reply>, resetAt: int)
    requires AllDenied(a, resetAt) && AllDenied(b, resetAt)
    ensures AllDenied(a + b, resetAt)
  {
  }

  lemma {:induction false} FullStaysFull(s: State, requests: seq<Request>, m: string, limit: nat, resetAt: int)
    requires FullUntil(BucketOf(s, m), limit, resetAt)
    requires FixedLimit(requests, m, limit) && AllBefore(requests, resetAt)
    ensures BucketOf(Run(s, requests), m) == BucketOf(s, m)
    ensures AllDenied(RepliesTo(s, requests, m), resetAt)
    decreases |requests|
  {
    if requests != [] {
      var r := requests[0];
      FullStep(s, r, m, limit, resetAt);
      var (after, reply) := Step(s, r);
      FullStaysFull(after, requests[1..], m, limit, resetAt);
      DeniedAppend(if r.merchant == m then [reply] else [], RepliesTo(after, requests[1..], m), resetAt);
    }
  }

  /** `resetAt` is exact: after a denial every request of the merchant before it is denied, with the same `resetAt`,
      and the first one at or after it is allowed; `retryAfter` lies in 1..3600. */
  lemma ResetIsExact(before: seq<Request>, clock: int, r: Request, during: seq<Request>, next: Request)
    requires Clocked(before, clock) && EndClock(before, clock) <= r.now
    requires FixedLimit(before, r.merchant, LimitOf(r.role)) && FixedLimit(during, r.merchant, LimitOf(r.role))
    requires Step(Run(map[], before), r).1.Denied?
    requires AllBefore(during, Step(Run(map[], before), r).1.resetAt)
    requires next.merchant == r.merchant && LimitOf(next.role) == LimitOf(r.role)
    requires next.now >= Step(Run(map[], before), r).1.resetAt
    ensures var (full, denial) := Step(Run(map[], before), r);
            && 1 <= denial.retryAfter <= 3600 && denial.resetAt == r.now + denial.retryAfter
            && AllDenied(RepliesTo(full, during, r.merchant), denial.resetAt)
            && Step(Run(full, during), next).1.Allowed?
  {
    var limit, s := LimitOf(r.role), Run(map[], before);
    RunKeepsInv(map[], before, clock, r.merchant, limit);
    BucketOkLater(BucketOf(s, r.merchant), EndClock(before, clock), r.now);
    DenialFills(BucketOf(s, r.merchant), limit, r.now, r.evicted);
    var (full, denial) := Step(s, r);
    FullStaysFull(full, during, r.merchant, limit, denial.resetAt);
    FullAllowsAfter(BucketOf(Run(full, during), r.merchant), limit, next.now, next.evicted, denial.resetAt);
  }
}
