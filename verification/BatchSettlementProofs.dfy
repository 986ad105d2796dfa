/** What batch settlement promises: of one batch, of one run, and of every run after it. */
module BatchSettlementProofs {
  import opened Prelude
  import opened BatchSettlement

  // ----- the order of time -----

  /** When a payment was confirmed, or else created. */
  function Moment(p: Payment): int {
    match p.confirmedAt
    case Some(t) => t
    case None => p.createdAt
  }

  predicate InOrder(s: seq<Payment>) {
    forall i, j :: 0 <= i < j < |s| ==> Moment(s[i]) <= Moment(s[j])
  }

  /** The payments of one moment, in their order. */
  function AtTime(s: seq<Payment>, t: int): seq<Payment> {
    if s == [] then []
    else if Moment(Last(s)) == t then AtTime(Front(s), t) + [Last(s)]
    else AtTime(Front(s), t)
  }

  lemma {:induction false} InsertKeepsOrder(s: seq<Payment>, p: Payment)
    requires InOrder(s)
    ensures InOrder(InsertByTime(s, p))
    ensures |InsertByTime(s, p)| == |s| + 1
    ensures forall q :: q in InsertByTime(s, p) <==> q == p || q in s
    decreases |s|
  {
    if s != [] && Moment(Last(s)) > Moment(p) {
      InsertKeepsOrder(Front(s), p);
      var r := InsertByTime(Front(s), p);
      assert forall q :: q in s <==> q in Front(s) || q == Last(s);
      forall i | 0 <= i < |r| ensures Moment(r[i]) <= Moment(Last(s)) {
        assert r[i] in r;
      }
    }
  }

  lemma {:induction false} InsertAtTime(s: seq<Payment>, p: Payment, t: int)
    ensures AtTime(InsertByTime(s, p), t) == if Moment(p) == t then AtTime(s, t) + [p] else AtTime(s, t)
    decreases |s|
  {
    if s == [] {
    } else if Moment(Last(s)) <= Moment(p) {
      assert Front(s + [p]) == s;
    } else {
      InsertAtTime(Front(s), p, t);
      var r := InsertByTime(Front(s), p);
      assert Front(r + [Last(s)]) == r;
    }
  }

  /** Sorting puts payments in order, and keeps the payments and the order among those of one moment. */
  lemma {:induction false} SortIsStable(s: seq<Payment>)
    ensures InOrder(SortByTime(s)) && |SortByTime(s)| == |s|
    ensures forall p :: p in SortByTime(s) <==> p in s
    ensures forall t :: AtTime(SortByTime(s), t) == AtTime(s, t)
    decreases |s|
  {
    if s != [] {
      SortIsStable(Front(s));
      InsertKeepsOrder(SortByTime(Front(s)), Last(s));
      assert forall q :: q in s <==> q in Front(s) || q == Last(s);
      forall t ensures AtTime(SortByTime(s), t) == AtTime(s, t) {
        InsertAtTime(SortByTime(Front(s)), Last(s), t);
      }
    }
  }

  lemma {:induction false} AtTimeLast(s: seq<Payment>, t: int)
    ensures AtTime(s, t) != [] ==> Last(AtTime(s, t)) in s && Moment(Last(AtTime(s, t))) == t
    decreases |s|
  {
    if s != [] {
      AtTimeLast(Front(s), t);
    }
  }

  lemma HasMoment(s: seq<Payment>) returns (t: int)
    ensures s != [] ==> AtTime(s, t) != []
  {
    t := if s == [] then 0 else Moment(Last(s));
  }

  lemma LastIsLatest(a: seq<Payment>, b: seq<Payment>)
    requires b != [] && InOrder(a) && a != [] && forall t :: AtTime(a, t) == AtTime(b, t)
    ensures Moment(Last(b)) <= Moment(Last(a))
  {
    var t := Moment(Last(b));
    assert AtTime(b, t) != [];
    AtTimeLast(a, t);
    assert AtTime(a, t) == AtTime(b, t);
  }

  /** A stable order is unique, so the previous lemma says exactly what sorting computes. */
  lemma {:induction false} StableOrderUnique(a: seq<Payment>, b: seq<Payment>)
    requires InOrder(a) && InOrder(b) && forall t :: AtTime(a, t) == AtTime(b, t)
    ensures a == b
    decreases |a|
  {
    if a == [] {
      var t := HasMoment(b);
      assert AtTime(a, t) == AtTime(b, t);
    } else {
      assert AtTime(a, Moment(Last(a))) == AtTime(b, Moment(Last(a)));
      LastIsLatest(a, b);
      LastIsLatest(b, a);
      assert Last(AtTime(a, Moment(Last(a)))) == Last(a) && Last(AtTime(b, Moment(Last(a)))) == Last(b);
      forall t ensures AtTime(Front(a), t) == AtTime(Front(b), t) {
        assert AtTime(a, t) == AtTime(b, t);
        if Moment(Last(a)) == t {
          assert AtTime(Front(a), t) == Front(AtTime(a, t));
          assert AtTime(Front(b), t) == Front(AtTime(b, t));
        }
      }
      StableOrderUnique(Front(a), Front(b));
      assert a == Front(a) + [Last(a)] && b == Front(b) + [Last(b)];
    }
  }

  // ----- where the batches end -----

  lemma {:induction false} TotalIsSum(s: seq<Payment>, o: nat, e: nat)
    requires o <= e <= |s|
    ensures Total(s[o..e]) == Sum(s, o, e)
    decreases e
  {
    if o < e {
      TotalIsSum(s, o, e - 1);
      assert Front(s[o..e]) == s[o..e - 1];
    }
  }

  /** The payments `s[o..e]` are due: 10 dollars together, 50 of them, or the oldest 15 minutes old at the reading taken
      for the last. */
  predicate Due(s: seq<Payment>, clock: nat -> int, base: nat, o: nat, e: nat)
    requires o < e <= |s|
  {
    Total(s[o..e]) >= 10_000_000 || e - o >= 50 || clock(base + e - 1) - Moment(s[o]) >= 900_000
  }

  lemma FiresIsDue(s: seq<Payment>, clock: nat -> int, base: nat, o: nat, e: nat)
    requires o < e <= |s|
    ensures Fires(s, clock, base, o, e) <==> Due(s, clock, base, o, e)
  {
    TotalIsSum(s, o, e);
  }

  /** Nothing that begins at `o` is due before `e`. */
  ghost predicate Quiet(s: seq<Payment>, clock: nat -> int, base: nat, o: nat, e: nat)
    requires e <= |s| + 1
  {
    forall k :: o < k < e ==> !Due(s, clock, base, o, k)
  }

  /** What begins at `o` is due at `e`, and not before. */
  ghost predicate FirstFires(s: seq<Payment>, clock: nat -> int, base: nat, o: nat, e: nat) {
    o < e <= |s| && Due(s, clock, base, o, e) && Quiet(s, clock, base, o, e)
  }

  /** Each batch ends as soon as it is due, and the open one is not due up to `n`. */
  ghost predicate IsGreedy(s: seq<Payment>, clock: nat -> int, base: nat, c: seq<nat>, n: nat)
    requires n <= |s|
  {
    && c != [] && c[0] == 0 && (forall i :: 0 <= i < |c| ==> c[i] <= n)
    && (forall i :: 0 < i < |c| ==> FirstFires(s, clock, base, c[i - 1], c[i]))
    && Quiet(s, clock, base, Last(c), n + 1)
  }

  lemma GreedyGrows(s: seq<Payment>, clock: nat -> int, base: nat, c: seq<nat>, n: nat)
    requires 0 < n <= |s| && IsGreedy(s, clock, base, c, n - 1)
    ensures if Due(s, clock, base, Last(c), n) then IsGreedy(s, clock, base, c + [n], n) else IsGreedy(s, clock, base, c, n)
  {
    if Due(s, clock, base, Last(c), n) {
      var d := c + [n];
      assert FirstFires(s, clock, base, Last(c), n);
      forall i | 0 < i < |d| ensures FirstFires(s, clock, base, d[i - 1], d[i]) {
        assert i < |c| ==> FirstFires(s, clock, base, c[i - 1], c[i]);
      }
    }
  }

  lemma {:induction false} CutsAreGreedy(s: seq<Payment>, clock: nat -> int, base: nat, n: nat)
    requires n <= |s|
    ensures IsGreedy(s, clock, base, Cuts(s, clock, base, n), n)
    decreases n
  {
    if n > 0 {
      CutsAreGreedy(s, clock, base, n - 1);
      GreedyGrows(s, clock, base, Cuts(s, clock, base, n - 1), n);
      FiresIsDue(s, clock, base, Last(Cuts(s, clock, base, n - 1)), n);
    }
  }

  lemma FirstFiresOnce(s: seq<Payment>, clock: nat -> int, base: nat, o: nat, e: nat, e': nat)
    requires FirstFires(s, clock, base, o, e) && FirstFires(s, clock, base, o, e')
    ensures e == e'
  {
  }

  lemma {:induction false} GreedyAgree(s: seq<Payment>, clock: nat -> int, base: nat, c: seq<nat>, d: seq<nat>, n: nat, i: nat)
    requires n <= |s| && IsGreedy(s, clock, base, c, n) && IsGreedy(s, clock, base, d, n)
    requires i < |c| && i < |d|
    ensures c[i] == d[i]
    decreases i
  {
    if i > 0 {
      GreedyAgree(s, clock, base, c, d, n, i - 1);
      FirstFiresOnce(s, clock, base, c[i - 1], c[i], d[i]);
    }
  }

  lemma NotQuiet(s: seq<Payment>, clock: nat -> int, base: nat, o: nat, e: nat, n: nat)
    requires FirstFires(s, clock, base, o, e) && e <= n <= |s|
    ensures !Quiet(s, clock, base, o, n + 1)
  {
  }

  lemma NoFurtherCut(s: seq<Payment>, clock: nat -> int, base: nat, c: seq<nat>, d: seq<nat>, n: nat)
    requires n <= |s| && IsGreedy(s, clock, base, c, n) && IsGreedy(s, clock, base, d, n)
    ensures |d| <= |c|
  {
    var i := |c|;
    if i < |d| {
      NotQuiet(s, clock, base, d[i - 1], d[i], n);
      GreedyAgree(s, clock, base, c, d, n, i - 1);
    }
  }

  /** The cut points are the greedy ones, and there is only one greedy choice. */
  lemma CutsExactly(s: seq<Payment>, clock: nat -> int, base: nat, c: seq<nat>, n: nat)
    requires n <= |s|
    ensures IsGreedy(s, clock, base, c, n) <==> c == Cuts(s, clock, base, n)
  {
    var d := Cuts(s, clock, base, n);
    CutsAreGreedy(s, clock, base, n);
    if IsGreedy(s, clock, base, c, n) {
      NoFurtherCut(s, clock, base, c, d, n);
      NoFurtherCut(s, clock, base, d, c, n);
      forall i | 0 <= i < |c| ensures c[i] == d[i] {
        GreedyAgree(s, clock, base, c, d, n, i);
      }
    }
  }

  // ----- batches of one merchant -----

  function Flat(batches: seq<seq<Payment>>): seq<Payment> {
    if batches == [] then [] else Flat(Front(batches)) + Last(batches)
  }

  lemma FlatOneMore(batches: seq<seq<Payment>>, batch: seq<Payment>)
    ensures Flat(batches + [batch]) == Flat(batches) + batch
  {
    assert Front(batches + [batch]) == batches;
  }

  lemma FlatStep(s: seq<Payment>, clock: nat -> int, base: nat, n: nat)
    requires 0 < n <= |s| && Flat(Batches(s, clock, base, n - 1)) == s[..Last(Cuts(s, clock, base, n - 1))]
    ensures Flat(Batches(s, clock, base, n)) == s[..Last(Cuts(s, clock, base, n))]
  {
    var o, made := Last(Cuts(s, clock, base, n - 1)), Batches(s, clock, base, n - 1);
    if Fires(s, clock, base, o, n) {
      FlatOneMore(made, s[o..n]);
      assert s[..o] + s[o..n] == s[..n];
    }
  }

  lemma {:induction false} FlatTo(s: seq<Payment>, clock: nat -> int, base: nat, n: nat)
    requires n <= |s|
    ensures Flat(Batches(s, clock, base, n)) == s[..Last(Cuts(s, clock, base, n))]
    decreases n
  {
    if n > 0 {
      FlatTo(s, clock, base, n - 1);
      FlatStep(s, clock, base, n);
    }
  }

  /** One merchant's batches followed by what is kept back are its payments in order: none is lost, doubled or moved. */
  lemma BatchesPartition(s: seq<Payment>, clock: nat -> int, base: nat)
    ensures Flat(Batches(s, clock, base, |s|)) + Tail(s, clock, base) == s
  {
    FlatTo(s, clock, base, |s|);
  }

  lemma {:induction false} OpenIsQuiet(s: seq<Payment>, clock: nat -> int, base: nat, n: nat)
    requires n <= |s|
    ensures var o := Last(Cuts(s, clock, base, n)); o < n ==> !Fires(s, clock, base, o, n)
    decreases n
  {
    if n > 0 {
      OpenIsQuiet(s, clock, base, n - 1);
    }
  }

  lemma NewBatchFirstFires(s: seq<Payment>, clock: nat -> int, base: nat, n: nat)
    requires 0 < n <= |s| && Fires(s, clock, base, Last(Cuts(s, clock, base, n - 1)), n)
    ensures FirstFires(s, clock, base, Last(Cuts(s, clock, base, n - 1)), n)
  {
    CutsAreGreedy(s, clock, base, n - 1);
    FiresIsDue(s, clock, base, Last(Cuts(s, clock, base, n - 1)), n);
  }

  lemma {:induction false} BatchFirstFires(s: seq<Payment>, clock: nat -> int, base: nat, n: nat, k: nat) returns (o: nat, e: nat)
    requires n <= |s| && k < |Batches(s, clock, base, n)|
    ensures FirstFires(s, clock, base, o, e) && Batches(s, clock, base, n)[k] == s[o..e]
    decreases n
  {
    if k < |Batches(s, clock, base, n - 1)| {
      o, e := BatchFirstFires(s, clock, base, n - 1, k);
    } else {
      o, e := Last(Cuts(s, clock, base, n - 1)), n;
      NewBatchFirstFires(s, clock, base, n);
    }
  }

  lemma DueAtFifty(s: seq<Payment>, clock: nat -> int, base: nat, o: nat, e: nat)
    requires FirstFires(s, clock, base, o, e)
    ensures e - o <= 50
  {
    if e - o > 50 {
      assert Due(s, clock, base, o, e - 1);
    }
  }

  /** Every flushed batch is due, with 50 payments at most: it totals at least 10 dollars, or has 50 payments, or its oldest
      payment was at least 15 minutes old at the reading taken for its last one. No proper prefix of it was due. */
  lemma BatchesFlushWhenDue(s: seq<Payment>, clock: nat -> int, base: nat, k: nat) returns (o: nat, e: nat)
    requires k < |Batches(s, clock, base, |s|)|
    ensures o < e <= |s| && Batches(s, clock, base, |s|)[k] == s[o..e]
    ensures Due(s, clock, base, o, e) && e - o <= 50
    ensures forall m :: o < m < e ==> !Due(s, clock, base, o, m)
  {
    o, e := BatchFirstFires(s, clock, base, |s|, k);
    DueAtFifty(s, clock, base, o, e);
  }

  /** What holds of a flushed batch. */
  predicate SoundBatch(s: seq<Payment>, b: seq<Payment>) {
    && 1 <= |b| <= 50 && Total(b) < 20_000_000
    && forall i :: 0 <= i < |b| ==> b[i] in s
  }

  predicate Small(s: seq<Payment>) {
    forall i :: 0 <= i < |s| ==> s[i].amountUsd < 10_000_000
  }

  lemma FiredIsSound(s: seq<Payment>, clock: nat -> int, base: nat, n: nat)
    requires 0 < n <= |s| && Small(s)
    ensures SoundBatch(s, s[Last(Cuts(s, clock, base, n - 1))..n])
  {
    var o := Last(Cuts(s, clock, base, n - 1));
    OpenIsQuiet(s, clock, base, n - 1);
    TotalIsSum(s, o, n);
    assert Sum(s, o, n) == Sum(s, o, n - 1) + s[n - 1].amountUsd;
    assert o == n - 1 ==> Sum(s, o, n - 1) == 0;
  }

  /** Every flushed batch has 1 to 50 payments totalling under 20 dollars. */
  lemma {:induction false} BatchesAreSound(s: seq<Payment>, clock: nat -> int, base: nat, n: nat)
    requires n <= |s| && Small(s)
    ensures forall i :: 0 <= i < |Batches(s, clock, base, n)| ==> SoundBatch(s, Batches(s, clock, base, n)[i])
    decreases n
  {
    if n > 0 {
      BatchesAreSound(s, clock, base, n - 1);
      FiredIsSound(s, clock, base, n);
    }
  }

  /** The clock never goes back. */
  ghost predicate Forward(clock: nat -> int) {
    forall i: nat, j: nat :: i <= j ==> clock(i) <= clock(j)
  }

  /** What is kept back totals under 10 dollars, has under 50 payments, and holds none that was 15 minutes old at the last reading. */
  lemma TailIsYoung(s: seq<Payment>, clock: nat -> int, base: nat)
    requires InOrder(s)
    ensures var t := Tail(s, clock, base);
            && Total(t) < 10_000_000 && |t| < 50
            && forall i :: 0 <= i < |t| ==> clock(base + |s| - 1) - Moment(t[i]) < 900_000
  {
    var o := Last(Cuts(s, clock, base, |s|));
    OpenIsQuiet(s, clock, base, |s|);
    TotalIsSum(s, o, |s|);
    assert s[o..|s|] == s[o..];
    forall i | 0 <= i < |s| - o ensures Moment(s[o]) <= Moment(s[o..][i]) {
      assert s[o..][i] == s[o + i];
    }
  }

  /** No batch needs approval: its net stays far below the limit. */
  lemma BatchNeedsNoApproval(s: seq<Payment>, b: seq<Payment>, merchantId: nat)
    requires SoundBatch(s, b)
    ensures Row(merchantId, Total(b)).status.Processing? && !Row(merchantId, Total(b)).requiresApproval
    ensures Row(merchantId, Total(b)).feeNano + Row(merchantId, Total(b)).netNano == 1000 * Total(b)
    ensures 1000 * Row(merchantId, Total(b)).feeNano == 15 * (1000 * Total(b))
  {
  }

  /** A payment under 10 dollars is left for a batch. Any other gets a settlement of its own, which waits for approval
      exactly from 10152.284264 dollars on and is queued otherwise. */
  lemma ApprovalExactlyFrom(s: State, p: Payment)
    ensures var after, id := Initiated(s, p), |s.settlements|;
            if p.amountUsd < 10_000_000 then after == s
            else
              && |after.settlements| == id + 1 && after.settlements[id].totalUsd == p.amountUsd
              && (after.settlements[id].requiresApproval <==> p.amountUsd >= 10_152_284_264)
              && if p.amountUsd >= 10_152_284_264 then after.queue == s.queue && after.alerts == s.alerts + [id]
                 else after.queue == s.queue + [id] && after.alerts == s.alerts
  {
    CreatedAlone(s, p);
  }

  // ----- rounding -----

  function FeesOf(batch: seq<Payment>): int {
    if batch == [] then 0 else FeesOf(Front(batch)) + Fee(Last(batch).amountUsd)
  }

  /** The rounded fees of `n` payments differ from their settlement's fee by at most `n / 2` micro-dollars. */
  lemma {:induction false} RoundingWithinHalf(batch: seq<Payment>, merchantId: nat)
    ensures var drift := 1000 * FeesOf(batch) - Row(merchantId, Total(batch)).feeNano;
            -500 * |batch| <= drift <= 500 * |batch|
    decreases |batch|
  {
    if batch != [] {
      RoundingWithinHalf(Front(batch), merchantId);
    }
  }

  /** The bound is reached, by any number of payments of 100 micro-dollars. */
  lemma {:induction false} RoundingBoundReached(batch: seq<Payment>, merchantId: nat)
    requires forall i :: 0 <= i < |batch| ==> batch[i].amountUsd == 100
    ensures 1000 * FeesOf(batch) - Row(merchantId, Total(batch)).feeNano == 500 * |batch|
    decreases |batch|
  {
    if batch != [] {
      RoundingBoundReached(Front(batch), merchantId);
    }
  }

  // ----- one run -----

  predicate NoTwins(s: seq<Payment>) {
    forall i, j :: 0 <= i < j < |s| ==> s[i].id != s[j].id
  }

  predicate Absent(s: seq<Payment>, id: nat) {
    forall i :: 0 <= i < |s| ==> s[i].id != id
  }

  lemma {:induction false} GroupIs(found: seq<Payment>, m: nat)
    ensures forall p :: p in Group(found, m) <==> p in found && p.merchantId == m
    ensures NoTwins(found) ==> NoTwins(Group(found, m))
    decreases |found|
  {
    if found != [] {
      GroupIs(Front(found), m);
      assert forall p :: p in found <==> p in Front(found) || p == Last(found);
      assert NoTwins(found) ==> Absent(Front(found), Last(found).id);
    }
  }

  predicate Distinct(ms: seq<nat>) {
    forall i, j :: 0 <= i < j < |ms| ==> ms[i] != ms[j]
  }

  lemma {:induction false} MerchantsAre(found: seq<Payment>)
    ensures Distinct(Merchants(found))
    ensures forall p :: p in found ==> p.merchantId in Merchants(found)
    decreases |found|
  {
    if found != [] {
      MerchantsAre(Front(found));
      assert forall p :: p in found <==> p in Front(found) || p == Last(found);
    }
  }

  /** `i` is where merchant `m` first appears. */
  predicate FirstAppears(found: seq<Payment>, m: nat, i: nat) {
    i < |found| && found[i].merchantId == m && forall k :: 0 <= k < i ==> found[k].merchantId != m
  }

  /** `firsts` says where each of the merchants `ms` first appears, in that order. */
  predicate InFirstOrder(found: seq<Payment>, ms: seq<nat>, firsts: seq<nat>) {
    && |firsts| == |ms|
    && (forall j :: 0 <= j < |ms| ==> FirstAppears(found, ms[j], firsts[j]))
    && (forall i, j :: 0 <= i < j < |firsts| ==> firsts[i] < firsts[j])
  }

  lemma StillInFirstOrder(found: seq<Payment>, ms: seq<nat>, firsts: seq<nat>)
    requires found != [] && InFirstOrder(Front(found), ms, firsts)
    ensures InFirstOrder(found, ms, firsts) && forall j :: 0 <= j < |firsts| ==> firsts[j] < |found| - 1
  {
    forall j | 0 <= j < |ms| ensures FirstAppears(found, ms[j], firsts[j]) && firsts[j] < |found| - 1 {
      assert FirstAppears(Front(found), ms[j], firsts[j]);
    }
  }

  lemma OneMoreInFirstOrder(found: seq<Payment>, ms: seq<nat>, firsts: seq<nat>, m: nat, i: nat)
    requires InFirstOrder(found, ms, firsts) && FirstAppears(found, m, i) && forall j :: 0 <= j < |firsts| ==> firsts[j] < i
    ensures InFirstOrder(found, ms + [m], firsts + [i])
  {
  }

  lemma NewMerchantIsFirst(found: seq<Payment>)
    requires found != [] && Last(found).merchantId !in Merchants(Front(found))
    ensures FirstAppears(found, Last(found).merchantId, |found| - 1)
  {
    MerchantsAre(Front(found));
    forall k | 0 <= k < |found| - 1 ensures found[k].merchantId != Last(found).merchantId {
      assert Front(found)[k] in Front(found);
    }
  }

  /** The merchants stand in the order of their first payments, as a `Map` keeps them. */
  lemma {:induction false} MerchantsInOrder(found: seq<Payment>) returns (firsts: seq<nat>)
    ensures InFirstOrder(found, Merchants(found), firsts)
    decreases |found|
  {
    firsts := [];
    if found != [] {
      firsts := MerchantsInOrder(Front(found));
      StillInFirstOrder(found, Merchants(Front(found)), firsts);
      if Last(found).merchantId !in Merchants(Front(found)) {
        NewMerchantIsFirst(found);
        OneMoreInFirstOrder(found, Merchants(Front(found)), firsts, Last(found).merchantId, |found| - 1);
        firsts := firsts + [|found| - 1];
      }
    }
  }

  /** A group keeps its payments in the order they were found. */
  lemma {:induction false} GroupInOrder(found: seq<Payment>, m: nat) returns (places: seq<nat>)
    ensures |places| == |Group(found, m)|
    ensures forall j :: 0 <= j < |places| ==> places[j] < |found| && found[places[j]] == Group(found, m)[j]
    ensures forall i, j :: 0 <= i < j < |places| ==> places[i] < places[j]
    decreases |found|
  {
    if found == [] {
      places := [];
    } else {
      places := GroupInOrder(Front(found), m);
      if Last(found).merchantId == m {
        places := places + [|found| - 1];
      }
    }
  }

  lemma {:induction false} InsertNoTwins(s: seq<Payment>, p: Payment)
    requires NoTwins(s) && Absent(s, p.id)
    ensures NoTwins(InsertByTime(s, p))
    ensures forall id :: Absent(s, id) && id != p.id ==> Absent(InsertByTime(s, p), id)
    decreases |s|
  {
    if s != [] && Moment(Last(s)) > Moment(p) {
      InsertNoTwins(Front(s), p);
      assert Absent(Front(s), Last(s).id) && Last(s).id != p.id;
      assert forall id :: Absent(s, id) ==> Absent(Front(s), id) && id != Last(s).id;
    }
  }

  lemma {:induction false} SortNoTwins(s: seq<Payment>)
    requires NoTwins(s)
    ensures NoTwins(SortByTime(s))
    ensures forall id :: Absent(s, id) ==> Absent(SortByTime(s), id)
    decreases |s|
  {
    if s != [] {
      SortNoTwins(Front(s));
      assert Absent(Front(s), Last(s).id);
      InsertNoTwins(SortByTime(Front(s)), Last(s));
      assert forall id :: Absent(s, id) ==> Absent(Front(s), id) && id != Last(s).id;
    }
  }

  lemma {:induction false} FlatAppend(a: seq<seq<Payment>>, b: seq<seq<Payment>>)
    ensures Flat(a + b) == Flat(a) + Flat(b)
    decreases |b|
  {
    if b == [] {
      assert a + b == a;
    } else {
      FlatAppend(a, Front(b));
      assert Front(a + b) == a + Front(b);
    }
  }

  /** The payments of a run that belong to the merchants in `ms`. */
  predicate From(found: seq<Payment>, ms: seq<nat>, s: seq<Payment>) {
    forall i :: 0 <= i < |s| ==> s[i] in found && s[i].merchantId in ms
  }

  lemma MerchantBatches(found: seq<Payment>, m: nat, clock: nat -> int, base: nat)
    requires NoTwins(found)
    ensures var s := SortByTime(Group(found, m));
            && Flat(Batches(s, clock, base, |s|)) <= s
            && NoTwins(Flat(Batches(s, clock, base, |s|)))
            && From(found, [m], Flat(Batches(s, clock, base, |s|)))
  {
    var s := SortByTime(Group(found, m));
    GroupIs(found, m);
    SortIsStable(Group(found, m));
    SortNoTwins(Group(found, m));
    BatchesPartition(s, clock, base);
    forall i | 0 <= i < |Flat(Batches(s, clock, base, |s|))|
      ensures Flat(Batches(s, clock, base, |s|))[i] in found && Flat(Batches(s, clock, base, |s|))[i].merchantId == m
    {
      assert Flat(Batches(s, clock, base, |s|))[i] == s[i];
      assert s[i] in s;
    }
  }

  lemma OtherMerchantsDiffer(found: seq<Payment>, ms: seq<nat>, m: nat, x: seq<Payment>, y: seq<Payment>)
    requires NoTwins(found) && m !in ms && From(found, ms, x) && From(found, [m], y)
    requires NoTwins(x) && NoTwins(y)
    ensures NoTwins(x + y)
  {
    forall i, j | 0 <= i < |x| && 0 <= j < |y| ensures x[i].id != y[j].id {
      assert x[i] in found && y[j] in found && x[i] != y[j];
    }
  }

  /** No payment is in two batches of a run, and every one of them was found. */
  lemma {:induction false} RunBatchesDisjoint(found: seq<Payment>, ms: seq<nat>, clock: nat -> int)
    requires NoTwins(found) && Distinct(ms)
    ensures NoTwins(Flat(BatchesFor(found, ms, clock))) && From(found, ms, Flat(BatchesFor(found, ms, clock)))
    decreases |ms|
  {
    if ms != [] {
      var m, front := Last(ms), Front(ms);
      RunBatchesDisjoint(found, front, clock);
      var s, base := SortByTime(Group(found, m)), Readings(found, front);
      MerchantBatches(found, m, clock, base);
      FlatAppend(BatchesFor(found, front, clock), Batches(s, clock, base, |s|));
      OtherMerchantsDiffer(found, front, m, Flat(BatchesFor(found, front, clock)), Flat(Batches(s, clock, base, |s|)));
      assert forall k :: k in front ==> k in ms;
    }
  }

  /** A batch of a run: sound, and of one merchant. */
  predicate SoundRunBatch(found: seq<Payment>, b: seq<Payment>) {
    SoundBatch(found, b) && forall i :: 0 <= i < |b| ==> b[i].merchantId == b[0].merchantId
  }

  predicate AllSound(found: seq<Payment>, batches: seq<seq<Payment>>) {
    forall i :: 0 <= i < |batches| ==> SoundRunBatch(found, batches[i])
  }

  lemma MerchantBatchesSound(found: seq<Payment>, m: nat, clock: nat -> int, base: nat)
    requires Small(found)
    ensures var s := SortByTime(Group(found, m)); AllSound(found, Batches(s, clock, base, |s|))
  {
    var s := SortByTime(Group(found, m));
    GroupIs(found, m);
    SortIsStable(Group(found, m));
    forall i | 0 <= i < |s| ensures s[i] in found && s[i].merchantId == m {
      assert s[i] in s;
    }
    BatchesAreSound(s, clock, base, |s|);
    forall i | 0 <= i < |Batches(s, clock, base, |s|)| ensures SoundRunBatch(found, Batches(s, clock, base, |s|)[i]) {
      assert SoundBatch(s, Batches(s, clock, base, |s|)[i]);
    }
  }

  lemma AllSoundAppend(found: seq<Payment>, a: seq<seq<Payment>>, b: seq<seq<Payment>>)
    requires AllSound(found, a) && AllSound(found, b)
    ensures AllSound(found, a + b)
  {
  }

  /** Every batch of a run is one merchant's, has 1 to 50 payments and totals under 20 dollars. */
  lemma {:induction false} RunBatchesSound(found: seq<Payment>, ms: seq<nat>, clock: nat -> int)
    requires Small(found)
    ensures AllSound(found, BatchesFor(found, ms, clock))
    decreases |ms|
  {
    if ms != [] {
      RunBatchesSound(found, Front(ms), clock);
      var s, base := SortByTime(Group(found, Last(ms))), Readings(found, Front(ms));
      MerchantBatchesSound(found, Last(ms), clock, base);
      AllSoundAppend(found, BatchesFor(found, Front(ms), clock), Batches(s, clock, base, |s|));
    }
  }

  // ----- the effect of a run -----

  predicate OthersKept(before: map<nat, Payment>, after: map<nat, Payment>, changed: seq<Payment>) {
    after.Keys == before.Keys && forall k :: k in before && Absent(changed, k) ==> after[k] == before[k]
  }

  lemma {:induction false} MarkAllKeepsOthers(payments: map<nat, Payment>, batch: seq<Payment>, id: nat)
    requires forall i :: 0 <= i < |batch| ==> batch[i].id in payments
    ensures OthersKept(payments, MarkAll(payments, batch, id), batch)
    decreases |batch|
  {
    if batch != [] {
      MarkAllKeepsOthers(payments, Front(batch), id);
      assert forall k :: Absent(batch, k) ==> Absent(Front(batch), k) && Last(batch).id != k;
    }
  }

  predicate MarkedIn(after: map<nat, Payment>, batch: seq<Payment>, k: nat) {
    forall i :: 0 <= i < |batch| ==> (batch[i].id in after && after[batch[i].id] == Marked(batch[i], k))
  }

  lemma {:induction false} MarkAllMarks(payments: map<nat, Payment>, batch: seq<Payment>, id: nat)
    requires NoTwins(batch)
    ensures MarkedIn(MarkAll(payments, batch, id), batch, id)
    decreases |batch|
  {
    if batch != [] {
      MarkAllMarks(payments, Front(batch), id);
      assert Absent(Front(batch), Last(batch).id);
    }
  }

  /** The payments of `batches` are rows of the table, each at most once and none linked to a settlement. */
  ghost predicate Ready(payments: map<nat, Payment>, batches: seq<seq<Payment>>) {
    var all := Flat(batches);
    && NoTwins(all)
    && (forall j :: 0 <= j < |batches| ==> batches[j] != [])
    && (forall i :: 0 <= i < |all| ==> all[i].id in payments && payments[all[i].id] == all[i] && all[i].settlementId == None)
  }

  predicate RowFor(row: Settlement, batch: seq<Payment>) {
    batch != [] && row == Row(batch[0].merchantId, Total(batch))
  }

  predicate RowsAdded(before: seq<Settlement>, after: seq<Settlement>, batches: seq<seq<Payment>>) {
    var n := |before|;
    && |after| == n + |batches| && after[..n] == before
    && forall j :: 0 <= j < |batches| ==> RowFor(after[n + j], batches[j])
  }

  predicate MembersMarked(after: map<nat, Payment>, batches: seq<seq<Payment>>, n: nat) {
    forall j :: 0 <= j < |batches| ==> MarkedIn(after, batches[j], n + j)
  }

  /** `after` has one settlement more for each batch, and exactly the batches' payments linked to them. */
  predicate Settles(before: State, after: State, batches: seq<seq<Payment>>) {
    && RowsAdded(before.settlements, after.settlements, batches)
    && OthersKept(before.payments, after.payments, Flat(batches))
    && MembersMarked(after.payments, batches, |before.settlements|)
  }

  lemma {:induction false} InFlat(batches: seq<seq<Payment>>, j: nat, i: nat) returns (k: nat)
    requires j < |batches| && i < |batches[j]|
    ensures k < |Flat(batches)| && Flat(batches)[k] == batches[j][i]
    decreases |batches|
  {
    if j == |batches| - 1 {
      k := |Flat(Front(batches))| + i;
    } else {
      k := InFlat(Front(batches), j, i);
    }
  }

  /** No payment of `x` is in `y`. */
  predicate Apart(x: seq<Payment>, y: seq<Payment>) {
    forall i :: 0 <= i < |x| ==> Absent(y, x[i].id)
  }

  lemma AbsentAppend(x: seq<Payment>, y: seq<Payment>, id: nat)
    ensures Absent(x + y, id) <==> Absent(x, id) && Absent(y, id)
  {
    if Absent(x + y, id) {
      assert forall i :: 0 <= i < |x| ==> (x + y)[i] == x[i];
      assert forall i :: 0 <= i < |y| ==> (x + y)[|x| + i] == y[i];
    }
  }

  lemma NoTwinsSplit(x: seq<Payment>, y: seq<Payment>)
    requires NoTwins(x + y)
    ensures NoTwins(x) && NoTwins(y) && Apart(x, y)
  {
    var z := x + y;
    assert forall i :: 0 <= i < |x| ==> z[i] == x[i];
    assert forall i :: 0 <= i < |y| ==> z[|x| + i] == y[i];
  }

  lemma ReadyFront(payments: map<nat, Payment>, batches: seq<seq<Payment>>)
    requires batches != [] && Ready(payments, batches)
    ensures Ready(payments, Front(batches)) && NoTwins(Last(batches)) && Apart(Flat(Front(batches)), Last(batches))
    ensures forall i :: 0 <= i < |Last(batches)| ==> Last(batches)[i].id in payments
  {
    var all, front, last := Flat(batches), Flat(Front(batches)), Last(batches);
    NoTwinsSplit(front, last);
    assert forall i :: 0 <= i < |front| ==> all[i] == front[i];
    assert forall i :: 0 <= i < |last| ==> all[|front| + i] == last[i];
  }

  lemma OthersKeptMore(p0: map<nat, Payment>, p1: map<nat, Payment>, p2: map<nat, Payment>, x: seq<Payment>, y: seq<Payment>)
    requires OthersKept(p0, p1, x) && OthersKept(p1, p2, y)
    ensures OthersKept(p0, p2, x + y)
  {
    forall k | k in p0 && Absent(x + y, k) ensures p2[k] == p0[k] {
      AbsentAppend(x, y, k);
    }
  }

  lemma MembersMarkedMore(p1: map<nat, Payment>, p2: map<nat, Payment>, batches: seq<seq<Payment>>, n: nat)
    requires batches != [] && MembersMarked(p1, Front(batches), n) && OthersKept(p1, p2, Last(batches))
    requires Apart(Flat(Front(batches)), Last(batches))
    requires MarkedIn(p2, Last(batches), n + |batches| - 1)
    ensures MembersMarked(p2, batches, n)
  {
    forall j | 0 <= j < |batches| - 1 ensures MarkedIn(p2, batches[j], n + j) {
      assert Front(batches)[j] == batches[j];
      assert MarkedIn(p1, Front(batches)[j], n + j);
      forall i | 0 <= i < |batches[j]|
        ensures batches[j][i].id in p2 && p2[batches[j][i].id] == Marked(batches[j][i], n + j)
      {
        var k := InFlat(Front(batches), j, i);
        assert Absent(Last(batches), batches[j][i].id);
      }
    }
  }

  lemma RowsAddedMore(before: seq<Settlement>, middle: seq<Settlement>, batches: seq<seq<Payment>>)
    requires batches != [] && Last(batches) != [] && RowsAdded(before, middle, Front(batches))
    ensures RowsAdded(before, middle + [Row(Last(batches)[0].merchantId, Total(Last(batches)))], batches)
  {
    var after := middle + [Row(Last(batches)[0].merchantId, Total(Last(batches)))];
    assert after[..|before|] == middle[..|before|];
    forall j | 0 <= j < |batches|
      ensures RowFor(after[|before| + j], batches[j])
    {
      if j < |batches| - 1 {
        assert RowFor(middle[|before| + j], Front(batches)[j]);
      }
    }
  }

  lemma CreatedParts(s: State, batch: seq<Payment>)
    requires batch != []
    ensures Created(s, batch).payments == MarkAll(s.payments, batch, |s.settlements|)
    ensures Created(s, batch).settlements == s.settlements + [Row(batch[0].merchantId, Total(batch))]
  {
  }

  lemma OthersOneMore(before: State, middle: State, batches: seq<seq<Payment>>, id: nat)
    requires batches != [] && Ready(before.payments, batches) && Settles(before, middle, Front(batches))
    ensures OthersKept(before.payments, MarkAll(middle.payments, Last(batches), id), Flat(batches))
  {
    ReadyFront(before.payments, batches);
    MarkAllKeepsOthers(middle.payments, Last(batches), id);
    OthersKeptMore(before.payments, middle.payments, MarkAll(middle.payments, Last(batches), id), Flat(Front(batches)), Last(batches));
  }

  lemma MembersOneMore(before: State, middle: State, batches: seq<seq<Payment>>, id: nat)
    requires batches != [] && Ready(before.payments, batches) && Settles(before, middle, Front(batches))
    requires id == |middle.settlements|
    ensures MembersMarked(MarkAll(middle.payments, Last(batches), id), batches, |before.settlements|)
  {
    ReadyFront(before.payments, batches);
    MarkAllKeepsOthers(middle.payments, Last(batches), id);
    MarkAllMarks(middle.payments, Last(batches), id);
    MembersMarkedMore(middle.payments, MarkAll(middle.payments, Last(batches), id), batches, |before.settlements|);
  }

  lemma SettlesOneMore(before: State, middle: State, batches: seq<seq<Payment>>)
    requires batches != [] && Ready(before.payments, batches) && Settles(before, middle, Front(batches))
    ensures Settles(before, Created(middle, Last(batches)), batches)
  {
    OthersOneMore(before, middle, batches, |middle.settlements|);
    MembersOneMore(before, middle, batches, |middle.settlements|);
    RowsAddedMore(before.settlements, middle.settlements, batches);
    CreatedParts(middle, Last(batches));
  }

  lemma {:induction false} SettleAllSettles(before: State, batches: seq<seq<Payment>>)
    requires Ready(before.payments, batches)
    ensures Settles(before, SettleAll(before, batches), batches)
    decreases |batches|
  {
    if batches != [] {
      ReadyFront(before.payments, batches);
      SettleAllSettles(before, Front(batches));
      SettlesOneMore(before, SettleAll(before, Front(batches)), batches);
    }
  }
}
