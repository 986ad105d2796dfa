/** What a run of batch settlement does to the tables, and what every run after it keeps. */
module BatchSettlementRuns {
  import opened Prelude
  import opened BatchSettlement
  import opened BatchSettlementProofs

  /** The batches of a run. */
  function RunBatches(found: seq<Payment>, clock: nat -> int): seq<seq<Payment>> {
    BatchesFor(found, Merchants(found), clock)
  }

  lemma RunIsReady(payments: map<nat, Payment>, found: seq<Payment>, clock: nat -> int)
    requires Finds(payments, found)
    ensures Ready(payments, RunBatches(found, clock)) && AllSound(found, RunBatches(found, clock))
  {
    MerchantsAre(found);
    RunBatchesDisjoint(found, Merchants(found), clock);
    RunBatchesSound(found, Merchants(found), clock);
    assert forall j :: 0 <= j < |RunBatches(found, clock)| ==> SoundRunBatch(found, RunBatches(found, clock)[j]);
  }

  /** A run adds one settlement for each batch and links exactly the batches' payments to them; no other row changes. */
  lemma RunSettles(s: State, found: seq<Payment>, clock: nat -> int)
    requires Finds(s.payments, found)
    ensures Settles(s, AfterRun(s, found, clock), RunBatches(found, clock))
  {
    RunIsReady(s.payments, found, clock);
    SettleAllSettles(s, RunBatches(found, clock));
  }

  // ----- nothing lost, nothing doubled -----

  /** What a run keeps back, merchant by merchant. */
  function KeptBack(found: seq<Payment>, ms: seq<nat>, clock: nat -> int): seq<Payment> {
    if ms == [] then [] else
      KeptBack(found, Front(ms), clock)
      + Tail(SortByTime(Group(found, Last(ms))), clock, Readings(found, Front(ms)))
  }

  lemma CountAppend(x: seq<Payment>, y: seq<Payment>, p: Payment)
    ensures multiset(x + y)[p] == multiset(x)[p] + multiset(y)[p]
  {
  }

  lemma CountLast(s: seq<Payment>, p: Payment)
    requires s != []
    ensures multiset(s)[p] == multiset(Front(s))[p] + if Last(s) == p then 1 else 0
  {
    assert s == Front(s) + [Last(s)];
  }

  lemma {:induction false} InsertCount(s: seq<Payment>, q: Payment, p: Payment)
    ensures multiset(InsertByTime(s, q))[p] == multiset(s)[p] + if q == p then 1 else 0
    decreases |s|
  {
    if s != [] && Moment(Last(s)) > Moment(q) {
      InsertCount(Front(s), q, p);
      CountLast(s, p);
      CountLast(InsertByTime(s, q), p);
    } else {
      CountLast(InsertByTime(s, q), p);
    }
  }

  lemma {:induction false} SortCount(s: seq<Payment>, p: Payment)
    ensures multiset(SortByTime(s))[p] == multiset(s)[p]
    decreases |s|
  {
    if s != [] {
      SortCount(Front(s), p);
      InsertCount(SortByTime(Front(s)), Last(s), p);
      CountLast(s, p);
    }
  }

  lemma {:induction false} GroupCount(found: seq<Payment>, m: nat, p: Payment)
    ensures multiset(Group(found, m))[p] == if p.merchantId == m then multiset(found)[p] else 0
    decreases |found|
  {
    if found != [] {
      GroupCount(Front(found), m, p);
      CountLast(found, p);
    }
  }

  lemma MerchantCount(found: seq<Payment>, m: nat, clock: nat -> int, base: nat, p: Payment)
    ensures var s := SortByTime(Group(found, m));
            multiset(Flat(Batches(s, clock, base, |s|)))[p] + multiset(Tail(s, clock, base))[p]
            == if p.merchantId == m then multiset(found)[p] else 0
  {
    var s := SortByTime(Group(found, m));
    SortCount(Group(found, m), p);
    GroupCount(found, m, p);
    BatchesPartition(s, clock, base);
    CountAppend(Flat(Batches(s, clock, base, |s|)), Tail(s, clock, base), p);
  }

  lemma {:induction false} RunCount(found: seq<Payment>, ms: seq<nat>, clock: nat -> int, p: Payment)
    requires Distinct(ms)
    ensures multiset(Flat(BatchesFor(found, ms, clock)))[p] + multiset(KeptBack(found, ms, clock))[p]
            == if p.merchantId in ms then multiset(found)[p] else 0
    decreases |ms|
  {
    if ms != [] {
      var front := Front(ms);
      var s, base := SortByTime(Group(found, Last(ms))), Readings(found, front);
      RunCount(found, front, clock, p);
      MerchantCount(found, Last(ms), clock, base, p);
      FlatAppend(BatchesFor(found, front, clock), Batches(s, clock, base, |s|));
      CountAppend(Flat(BatchesFor(found, front, clock)), Flat(Batches(s, clock, base, |s|)), p);
      CountAppend(KeptBack(found, front, clock), Tail(s, clock, base), p);
      assert p.merchantId in ms <==> p.merchantId in front || p.merchantId == Last(ms);
    }
  }

  /** The batches of a run together with what it keeps back are what it found. */
  lemma RunPartitions(found: seq<Payment>, clock: nat -> int)
    ensures multiset(Flat(RunBatches(found, clock))) + multiset(KeptBack(found, Merchants(found), clock)) == multiset(found)
  {
    MerchantsAre(found);
    forall p: Payment
      ensures multiset(Flat(RunBatches(found, clock)))[p] + multiset(KeptBack(found, Merchants(found), clock))[p] == multiset(found)[p]
    {
      RunCount(found, Merchants(found), clock, p);
    }
  }

  // ----- what is old enough is settled -----

  lemma OldInMerchantBatches(found: seq<Payment>, p: Payment, clock: nat -> int, base: nat)
    requires p in found && Forward(clock) && clock(0) - Moment(p) >= 900_000
    ensures var s := SortByTime(Group(found, p.merchantId)); p in Flat(Batches(s, clock, base, |s|))
  {
    var s := SortByTime(Group(found, p.merchantId));
    GroupIs(found, p.merchantId);
    SortIsStable(Group(found, p.merchantId));
    assert p in s;
    BatchesPartition(s, clock, base);
    TailIsYoung(s, clock, base);
    assert clock(0) <= clock(base + |s| - 1);
    assert p in Flat(Batches(s, clock, base, |s|)) + Tail(s, clock, base);
  }

  lemma {:induction false} OldInBatches(found: seq<Payment>, ms: seq<nat>, p: Payment, clock: nat -> int)
    requires p in found && p.merchantId in ms && Forward(clock) && clock(0) - Moment(p) >= 900_000
    ensures p in Flat(BatchesFor(found, ms, clock))
    decreases |ms|
  {
    var front := Front(ms);
    var s, base := SortByTime(Group(found, Last(ms))), Readings(found, front);
    FlatAppend(BatchesFor(found, front, clock), Batches(s, clock, base, |s|));
    if Last(ms) == p.merchantId {
      OldInMerchantBatches(found, p, clock, base);
    } else {
      OldInBatches(found, front, p, clock);
    }
  }

  lemma {:induction false} FlatIn(batches: seq<seq<Payment>>, k: nat) returns (j: nat, i: nat)
    requires k < |Flat(batches)|
    ensures j < |batches| && i < |batches[j]| && batches[j][i] == Flat(batches)[k]
    decreases |batches|
  {
    var n := |Flat(Front(batches))|;
    if k < n {
      j, i := FlatIn(Front(batches), k);
    } else {
      j, i := |batches| - 1, k - n;
    }
  }

  lemma MemberIsMarked(before: State, after: State, batches: seq<seq<Payment>>, p: Payment) returns (k: nat)
    requires Settles(before, after, batches) && p in Flat(batches)
    ensures |before.settlements| <= k < |after.settlements|
    ensures p.id in after.payments && after.payments[p.id] == Marked(p, k)
  {
    var f: nat :| f < |Flat(batches)| && Flat(batches)[f] == p;
    var j, i := FlatIn(batches, f);
    k := |before.settlements| + j;
    assert MarkedIn(after.payments, batches[j], k);
  }

  /** A payment that was eligible and 15 minutes old when a run began is being settled by a settlement of that run, at a fee of 1.5%. */
  lemma OldPaymentsAreSettled(s: State, found: seq<Payment>, clock: nat -> int, id: nat) returns (k: nat)
    requires Finds(s.payments, found) && Forward(clock)
    requires id in s.payments && s.payments[id].status.Confirmed? && s.payments[id].settlementId == None
    requires s.payments[id].amountUsd < 10_000_000 && clock(0) - Moment(s.payments[id]) >= 900_000
    ensures var after := AfterRun(s, found, clock);
            && |s.settlements| <= k < |after.settlements| && id in after.payments
            && var p, q := s.payments[id], after.payments[id];
            && q.status == Settling && q.settlementId == Some(k) && q.feeUsd.Some?
            && -500 <= 1000 * q.feeUsd.value - 15 * p.amountUsd <= 500
            && (q.id, q.merchantId, q.amountUsd, q.confirmedAt, q.createdAt)
               == (p.id, p.merchantId, p.amountUsd, p.confirmedAt, p.createdAt)
  {
    MerchantsAre(found);
    OldInBatches(found, Merchants(found), s.payments[id], clock);
    RunSettles(s, found, clock);
    k := MemberIsMarked(s, AfterRun(s, found, clock), RunBatches(found, clock), s.payments[id]);
  }

  lemma {:induction false} InBatchesIsFound(found: seq<Payment>, ms: seq<nat>, clock: nat -> int, k: nat)
    requires NoTwins(found) && Distinct(ms) && k < |Flat(BatchesFor(found, ms, clock))|
    ensures Flat(BatchesFor(found, ms, clock))[k] in found
  {
    RunBatchesDisjoint(found, ms, clock);
  }

  /** A run changes only payments that were confirmed, unlinked and under 10 dollars. */
  lemma RunChangesOnlyEligible(s: State, found: seq<Payment>, clock: nat -> int, id: nat)
    requires Finds(s.payments, found) && id in s.payments
    ensures id in AfterRun(s, found, clock).payments
    ensures AfterRun(s, found, clock).payments[id] != s.payments[id] ==>
              s.payments[id].status.Confirmed? && s.payments[id].settlementId == None && s.payments[id].amountUsd < 10_000_000
  {
    var all := Flat(RunBatches(found, clock));
    RunSettles(s, found, clock);
    if !Absent(all, id) {
      var k: nat :| k < |all| && all[k].id == id;
      MerchantsAre(found);
      InBatchesIsFound(found, Merchants(found), clock, k);
    }
  }

  lemma {:induction false} ReadingsUpTo(found: seq<Payment>, ms: seq<nat>, clock: nat -> int)
    ensures Readings(found, ms) == |Flat(BatchesFor(found, ms, clock))| + |KeptBack(found, ms, clock)|
    decreases |ms|
  {
    if ms != [] {
      var s, base := SortByTime(Group(found, Last(ms))), Readings(found, Front(ms));
      ReadingsUpTo(found, Front(ms), clock);
      SortIsStable(Group(found, Last(ms)));
      BatchesPartition(s, clock, base);
      FlatAppend(BatchesFor(found, Front(ms), clock), Batches(s, clock, base, |s|));
    }
  }

  /** A run reads the clock once for each payment found. */
  lemma OneReadingEach(found: seq<Payment>, clock: nat -> int)
    ensures Readings(found, Merchants(found)) == |found|
  {
    var batched, kept := Flat(RunBatches(found, clock)), KeptBack(found, Merchants(found), clock);
    ReadingsUpTo(found, Merchants(found), clock);
    RunPartitions(found, clock);
    assert |multiset(batched)| == |batched| && |multiset(kept)| == |kept| && |multiset(found)| == |found|;
  }

  // ----- queue and alerts -----

  lemma {:induction false} SettleAllQueues(s: State, found: seq<Payment>, batches: seq<seq<Payment>>)
    requires AllSound(found, batches)
    ensures var after := SettleAll(s, batches);
            && |after.settlements| == |s.settlements| + |batches|
            && after.queue == s.queue + seq(|batches|, i => |s.settlements| + i) && after.alerts == s.alerts
    decreases |batches|
  {
    if batches != [] {
      assert AllSound(found, Front(batches)) && SoundRunBatch(found, Last(batches));
      SettleAllQueues(s, found, Front(batches));
      BatchNeedsNoApproval(found, Last(batches), Last(batches)[0].merchantId);
    }
  }

  /** Every settlement of a run is queued for transfer, once and in order; none waits for approval. */
  lemma RunQueuesAll(s: State, found: seq<Payment>, clock: nat -> int)
    requires Finds(s.payments, found)
    ensures var after := AfterRun(s, found, clock);
            && after.queue == s.queue + seq(|RunBatches(found, clock)|, i => |s.settlements| + i)
            && after.alerts == s.alerts
  {
    RunIsReady(s.payments, found, clock);
    SettleAllQueues(s, found, RunBatches(found, clock));
  }

  // ----- the life of the tables -----

  function Ids(batch: seq<Payment>): (ids: seq<nat>)
    ensures |ids| == |batch|
  {
    if batch == [] then [] else Ids(Front(batch)) + [Last(batch).id]
  }

  function IdLists(batches: seq<seq<Payment>>): (lists: seq<seq<nat>>)
    ensures |lists| == |batches|
  {
    if batches == [] then [] else IdLists(Front(batches)) + [Ids(Last(batches))]
  }

  lemma {:induction false} IdsAt(batch: seq<Payment>)
    ensures forall i :: 0 <= i < |batch| ==> Ids(batch)[i] == batch[i].id
    decreases |batch|
  {
    if batch != [] {
      IdsAt(Front(batch));
    }
  }

  lemma {:induction false} IdListsAt(batches: seq<seq<Payment>>, j: nat)
    requires j < |batches|
    ensures IdLists(batches)[j] == Ids(batches[j])
    decreases |batches|
  {
    if j < |batches| - 1 {
      IdListsAt(Front(batches), j);
    }
  }

  function AmountOf(payments: map<nat, Payment>, ids: seq<nat>): int {
    if ids == [] then 0
    else AmountOf(payments, Front(ids)) + if Last(ids) in payments then payments[Last(ids)].amountUsd else 0
  }

  /** The payments `ids` are linked to settlement `k`, are its merchant's, and add up to its total. */
  predicate LinkedTo(payments: map<nat, Payment>, ids: seq<nat>, k: nat, row: Settlement) {
    && Distinct(ids)
    && (forall i :: 0 <= i < |ids| ==> ids[i] in payments)
    && (forall i :: 0 <= i < |ids| ==>
          payments[ids[i]].settlementId == Some(k) && payments[ids[i]].merchantId == row.merchantId)
    && AmountOf(payments, ids) == row.totalUsd
  }

  predicate LinkListed(link: Option<nat>, id: nat, members: seq<seq<nat>>) {
    link.Some? ==> (link.value < |members| && id in members[link.value])
  }

  predicate NoStrayLink(payments: map<nat, Payment>, members: seq<seq<nat>>) {
    forall id :: id in payments ==> LinkListed(payments[id].settlementId, id, members)
  }

  predicate AllLinked(payments: map<nat, Payment>, settlements: seq<Settlement>, members: seq<seq<nat>>, n: nat)
    requires n <= |members| && n <= |settlements|
  {
    forall k :: 0 <= k < n ==> LinkedTo(payments, members[k], k, settlements[k])
  }

  /** Settlement `k` has exactly the payments `members[k]`, for every `k`. */
  predicate Linked(payments: map<nat, Payment>, settlements: seq<Settlement>, members: seq<seq<nat>>) {
    && |members| == |settlements|
    && AllLinked(payments, settlements, members, |members|)
    && NoStrayLink(payments, members)
  }

  predicate SameLink(p: Payment, q: Payment) {
    q.settlementId == p.settlementId && q.merchantId == p.merchantId && q.amountUsd == p.amountUsd
  }

  /** Linked payments keep their link, merchant and amount. */
  predicate KeepsLinked(before: map<nat, Payment>, after: map<nat, Payment>) {
    forall id :: id in before && before[id].settlementId.Some? ==> (id in after && SameLink(before[id], after[id]))
  }

  lemma {:induction false} AmountKept(before: map<nat, Payment>, after: map<nat, Payment>, ids: seq<nat>)
    requires forall i :: 0 <= i < |ids| ==> ids[i] in before && ids[i] in after && before[ids[i]].amountUsd == after[ids[i]].amountUsd
    ensures AmountOf(after, ids) == AmountOf(before, ids)
    decreases |ids|
  {
    if ids != [] {
      AmountKept(before, after, Front(ids));
    }
  }

  lemma LinkedToKept(before: map<nat, Payment>, after: map<nat, Payment>, ids: seq<nat>, k: nat, row: Settlement, row': Settlement)
    requires KeepsLinked(before, after) && LinkedTo(before, ids, k, row)
    requires row'.merchantId == row.merchantId && row'.totalUsd == row.totalUsd
    ensures LinkedTo(after, ids, k, row')
  {
    forall i | 0 <= i < |ids| ensures ids[i] in after && before[ids[i]].amountUsd == after[ids[i]].amountUsd {
      assert before[ids[i]].settlementId == Some(k);
    }
    AmountKept(before, after, ids);
  }

  lemma {:induction false} AmountOfBatch(payments: map<nat, Payment>, batch: seq<Payment>, k: nat)
    requires MarkedIn(payments, batch, k)
    ensures AmountOf(payments, Ids(batch)) == Total(batch)
    decreases |batch|
  {
    if batch != [] {
      AmountOfBatch(payments, Front(batch), k);
      assert Front(Ids(batch)) == Ids(Front(batch));
      assert payments[Last(batch).id].amountUsd == Last(batch).amountUsd;
    }
  }

  lemma FlatAbsent(batches: seq<seq<Payment>>, id: nat)
    requires !Absent(Flat(batches), id)
    ensures exists j :: 0 <= j < |batches| && id in Ids(batches[j])
  {
    var k: nat :| k < |Flat(batches)| && Flat(batches)[k].id == id;
    var j, i := FlatIn(batches, k);
    IdsAt(batches[j]);
    assert Ids(batches[j])[i] == id;
  }

  lemma {:induction false} BatchNoTwins(batches: seq<seq<Payment>>, j: nat)
    requires NoTwins(Flat(batches)) && j < |batches|
    ensures NoTwins(batches[j])
    decreases |batches|
  {
    NoTwinsSplit(Flat(Front(batches)), Last(batches));
    if j < |batches| - 1 {
      BatchNoTwins(Front(batches), j);
    }
  }

  lemma SettlesKeepsLinked(before: State, after: State, batches: seq<seq<Payment>>)
    requires Ready(before.payments, batches) && Settles(before, after, batches)
    ensures KeepsLinked(before.payments, after.payments)
  {
    forall id | id in before.payments && before.payments[id].settlementId.Some?
      ensures id in after.payments && after.payments[id] == before.payments[id]
    {
      var all := Flat(batches);
      forall i | 0 <= i < |all| ensures all[i].id != id {
        assert before.payments[all[i].id].settlementId == None;
      }
    }
  }

  predicate OneMerchant(batch: seq<Payment>) {
    forall i :: 0 <= i < |batch| ==> batch[i].merchantId == batch[0].merchantId
  }

  lemma BatchLinked(payments: map<nat, Payment>, batch: seq<Payment>, k: nat, row: Settlement)
    requires NoTwins(batch) && OneMerchant(batch) && MarkedIn(payments, batch, k)
    requires RowFor(row, batch)
    ensures LinkedTo(payments, Ids(batch), k, row)
  {
    IdsAt(batch);
    AmountOfBatch(payments, batch, k);
  }

  lemma NewLinked(payments: map<nat, Payment>, rows: seq<Settlement>, batches: seq<seq<Payment>>, n: nat, j: nat)
    requires NoTwins(Flat(batches)) && MembersMarked(payments, batches, n)
    requires j < |batches| && OneMerchant(batches[j]) && n + j < |rows| && RowFor(rows[n + j], batches[j])
    ensures LinkedTo(payments, IdLists(batches)[j], n + j, rows[n + j])
  {
    BatchNoTwins(batches, j);
    IdListsAt(batches, j);
    BatchLinked(payments, batches[j], n + j, rows[n + j]);
  }

  predicate AllOneMerchant(batches: seq<seq<Payment>>) {
    forall j :: 0 <= j < |batches| ==> OneMerchant(batches[j])
  }

  /** The rows from `n` on are linked to `lists`. */
  predicate NewLinks(payments: map<nat, Payment>, rows: seq<Settlement>, lists: seq<seq<nat>>, n: nat)
    requires |rows| == n + |lists|
  {
    forall j :: 0 <= j < |lists| ==> LinkedTo(payments, lists[j], n + j, rows[n + j])
  }

  lemma NewAllLinked(payments: map<nat, Payment>, before: seq<Settlement>, rows: seq<Settlement>, batches: seq<seq<Payment>>)
    requires NoTwins(Flat(batches)) && AllOneMerchant(batches)
    requires RowsAdded(before, rows, batches) && MembersMarked(payments, batches, |before|)
    ensures NewLinks(payments, rows, IdLists(batches), |before|)
  {
    forall j | 0 <= j < |batches| ensures LinkedTo(payments, IdLists(batches)[j], |before| + j, rows[|before| + j]) {
      assert RowFor(rows[|before| + j], batches[j]);
      NewLinked(payments, rows, batches, |before|, j);
    }
  }

  lemma ChangedIsListed(before: State, after: State, batches: seq<seq<Payment>>, id: nat) returns (j: nat)
    requires Settles(before, after, batches) && !Absent(Flat(batches), id)
    ensures j < |batches| && id in Ids(batches[j])
    ensures id in after.payments && after.payments[id].settlementId == Some(|before.settlements| + j)
  {
    FlatAbsent(batches, id);
    j :| 0 <= j < |batches| && id in Ids(batches[j]);
    IdsAt(batches[j]);
    var i: nat :| i < |batches[j]| && batches[j][i].id == id;
    assert MarkedIn(after.payments, batches[j], |before.settlements| + j);
    assert after.payments[batches[j][i].id] == Marked(batches[j][i], |before.settlements| + j);
  }

  lemma ListedStays(link: Option<nat>, id: nat, members: seq<seq<nat>>, more: seq<seq<nat>>)
    requires LinkListed(link, id, members)
    ensures LinkListed(link, id, members + more)
  {
    assert link.Some? ==> (members + more)[link.value] == members[link.value];
  }

  lemma NoStrayAfter(before: State, after: State, batches: seq<seq<Payment>>, members: seq<seq<nat>>)
    requires Settles(before, after, batches) && |members| == |before.settlements|
    requires NoStrayLink(before.payments, members)
    ensures NoStrayLink(after.payments, members + IdLists(batches))
  {
    var all := members + IdLists(batches);
    forall id | id in after.payments ensures LinkListed(after.payments[id].settlementId, id, all) {
      if Absent(Flat(batches), id) {
        ListedStays(before.payments[id].settlementId, id, members, IdLists(batches));
      } else {
        var j := ChangedIsListed(before, after, batches, id);
        IdListsAt(batches, j);
        assert all[|members| + j] == Ids(batches[j]);
      }
    }
  }

  /** The rows so far keep what they are for. */
  predicate SameRows(rows: seq<Settlement>, rows': seq<Settlement>) {
    && |rows| <= |rows'|
    && forall k :: 0 <= k < |rows| ==> (rows'[k].merchantId == rows[k].merchantId && rows'[k].totalUsd == rows[k].totalUsd)
  }

  lemma OldLinked(before: map<nat, Payment>, after: map<nat, Payment>, rows: seq<Settlement>, rows': seq<Settlement>,
                  members: seq<seq<nat>>)
    requires KeepsLinked(before, after) && SameRows(rows, rows')
    requires |members| == |rows| && AllLinked(before, rows, members, |members|)
    ensures AllLinked(after, rows', members, |members|)
  {
    forall k | 0 <= k < |members| ensures LinkedTo(after, members[k], k, rows'[k]) {
      LinkedToKept(before, after, members[k], k, rows[k], rows'[k]);
    }
  }

  lemma SettlesSameRows(before: State, after: State, batches: seq<seq<Payment>>)
    requires Settles(before, after, batches)
    ensures SameRows(before.settlements, after.settlements)
  {
    var n := |before.settlements|;
    assert forall k :: 0 <= k < n ==> after.settlements[k] == after.settlements[..n][k];
  }

  lemma AllLinkedMore(payments: map<nat, Payment>, rows: seq<Settlement>, members: seq<seq<nat>>, more: seq<seq<nat>>)
    requires |rows| == |members| + |more| && AllLinked(payments, rows, members, |members|)
    requires NewLinks(payments, rows, more, |members|)
    ensures AllLinked(payments, rows, members + more, |rows|)
  {
    forall k | 0 <= k < |rows| ensures LinkedTo(payments, (members + more)[k], k, rows[k]) {
      if k >= |members| {
        assert LinkedTo(payments, more[k - |members|], |members| + (k - |members|), rows[|members| + (k - |members|)]);
      }
    }
  }

  lemma OldStayLinked(before: State, after: State, batches: seq<seq<Payment>>, members: seq<seq<nat>>)
    requires Ready(before.payments, batches) && Settles(before, after, batches)
    requires |members| == |before.settlements| && AllLinked(before.payments, before.settlements, members, |members|)
    ensures |members| <= |after.settlements| && AllLinked(after.payments, after.settlements, members, |members|)
  {
    SettlesKeepsLinked(before, after, batches);
    SettlesSameRows(before, after, batches);
    OldLinked(before.payments, after.payments, before.settlements, after.settlements, members);
  }

  /** Settling batches keeps the two tables in step. */
  lemma SettlingKeepsLinked(before: State, after: State, batches: seq<seq<Payment>>, members: seq<seq<nat>>)
    requires Ready(before.payments, batches) && Settles(before, after, batches)
    requires AllOneMerchant(batches)
    requires Linked(before.payments, before.settlements, members)
    ensures Linked(after.payments, after.settlements, members + IdLists(batches))
  {
    NoStrayAfter(before, after, batches, members);
    OldStayLinked(before, after, batches, members);
    NewAllLinked(after.payments, before.settlements, after.settlements, batches);
    AllLinkedMore(after.payments, after.settlements, members, IdLists(batches));
  }

  /** What happens to the tables: a run, a large payment settled on its own, or anything the rest of the service does to them. */
  datatype Event =
    | CronRun(found: seq<Payment>, clock: nat -> int)
    | Initiate(payment: Payment)
    | Outside(payments: map<nat, Payment>, settlements: seq<Settlement>)

  /** The rest of the service neither links payments nor touches what a linked payment or a settlement is for. */
  predicate OutsideMay(s: State, payments: map<nat, Payment>, settlements: seq<Settlement>) {
    && KeepsLinked(s.payments, payments)
    && (forall id :: id in payments && payments[id].settlementId.Some? ==>
          id in s.payments && s.payments[id].settlementId == payments[id].settlementId)
    && |settlements| == |s.settlements| && SameRows(s.settlements, settlements)
  }

  predicate Enabled(s: State, e: Event) {
    match e
    case CronRun(found, _) => Finds(s.payments, found)
    case Initiate(p) => p.id in s.payments && s.payments[p.id] == p && p.settlementId == None
    case Outside(payments, settlements) => OutsideMay(s, payments, settlements)
  }

  function After(s: State, e: Event): State {
    match e
    case CronRun(found, clock) => AfterRun(s, found, clock)
    case Initiate(p) => Initiated(s, p)
    case Outside(payments, settlements) => s.(payments := payments, settlements := settlements)
  }

  /** The batches an event settles. */
  function BatchesOf(e: Event): seq<seq<Payment>> {
    match e
    case CronRun(found, clock) => RunBatches(found, clock)
    case Initiate(p) => if p.amountUsd < 10_000_000 then [] else [[p]]
    case Outside(_, _) => []
  }

  lemma AloneIsReady(s: State, p: Payment)
    requires Enabled(s, Initiate(p)) && p.amountUsd >= 10_000_000
    ensures Ready(s.payments, [[p]]) && After(s, Initiate(p)) == SettleAll(s, [[p]])
  {
    assert Front([[p]]) == [];
    assert Flat([[p]]) == [p];
  }

  lemma EventSettles(s: State, e: Event)
    requires Enabled(s, e) && !e.Outside?
    ensures Ready(s.payments, BatchesOf(e)) && Settles(s, After(s, e), BatchesOf(e))
    ensures AllOneMerchant(BatchesOf(e))
  {
    match e
    case CronRun(found, clock) =>
      RunIsReady(s.payments, found, clock);
      RunSettles(s, found, clock);
    case Initiate(p) =>
      if p.amountUsd >= 10_000_000 {
        AloneIsReady(s, p);
        SettleAllSettles(s, [[p]]);
      }
  }

  lemma OutsideKeepsLinked(s: State, payments: map<nat, Payment>, settlements: seq<Settlement>, members: seq<seq<nat>>)
    requires OutsideMay(s, payments, settlements) && Linked(s.payments, s.settlements, members)
    ensures Linked(payments, settlements, members)
  {
    OldLinked(s.payments, payments, s.settlements, settlements, members);
  }

  lemma EventKeepsLinked(s: State, e: Event)
    requires Enabled(s, e)
    ensures KeepsLinked(s.payments, After(s, e).payments)
  {
    if !e.Outside? {
      EventSettles(s, e);
      SettlesKeepsLinked(s, After(s, e), BatchesOf(e));
    }
  }

  lemma EventKeepsTables(s: State, e: Event, members: seq<seq<nat>>)
    requires Enabled(s, e) && Linked(s.payments, s.settlements, members)
    ensures Linked(After(s, e).payments, After(s, e).settlements, members + IdLists(BatchesOf(e)))
  {
    if e.Outside? {
      OutsideKeepsLinked(s, e.payments, e.settlements, members);
      assert members + [] == members;
    } else {
      EventSettles(s, e);
      SettlingKeepsLinked(s, After(s, e), BatchesOf(e), members);
    }
  }

  predicate Step(s: State, e: Event, t: State) {
    Enabled(s, e) && t == After(s, e)
  }

  lemma StepKeepsTables(s: State, e: Event, t: State, members: seq<seq<nat>>)
    requires Step(s, e, t) && Linked(s.payments, s.settlements, members)
    ensures Linked(t.payments, t.settlements, members + IdLists(BatchesOf(e)))
  {
    EventKeepsTables(s, e, members);
  }

  lemma StepKeepsLinked(s: State, e: Event, t: State)
    requires Step(s, e, t)
    ensures KeepsLinked(s.payments, t.payments)
  {
    EventKeepsLinked(s, e);
  }

  /** `states` are the states that `events` lead through, from tables without settlements. */
  predicate History(states: seq<State>, events: seq<Event>) {
    && |states| == |events| + 1
    && states[0].settlements == [] && NoStrayLink(states[0].payments, [])
    && forall n :: 0 <= n < |events| ==> Step(states[n], events[n], states[n + 1])
  }

  /** The payments of every settlement after the first `n` events. */
  function MembersAfter(events: seq<Event>, n: nat): seq<seq<nat>>
    requires n <= |events|
  {
    if n == 0 then [] else MembersAfter(events, n - 1) + IdLists(BatchesOf(events[n - 1]))
  }

  /** At any time every settlement's total is the sum of exactly the payments linked to it, which are its merchant's. */
  lemma {:induction false} TablesAgree(states: seq<State>, events: seq<Event>, n: nat)
    requires History(states, events) && n <= |events|
    ensures Linked(states[n].payments, states[n].settlements, MembersAfter(events, n))
    decreases n
  {
    if n > 0 {
      TablesAgree(states, events, n - 1);
      assert Step(states[n - 1], events[n - 1], states[n - 1 + 1]);
      StepKeepsTables(states[n - 1], events[n - 1], states[n], MembersAfter(events, n - 1));
    }
  }

  lemma KeepsLinkedTrans(a: map<nat, Payment>, b: map<nat, Payment>, c: map<nat, Payment>)
    requires KeepsLinked(a, b) && KeepsLinked(b, c)
    ensures KeepsLinked(a, c)
  {
    forall id | id in a && a[id].settlementId.Some?
      ensures id in c && SameLink(a[id], c[id])
    {
      assert SameLink(a[id], b[id]);
    }
  }

  /** A payment once linked to a settlement is never settled again. */
  lemma {:induction false} SettledOnce(states: seq<State>, events: seq<Event>, m: nat, n: nat)
    requires History(states, events) && m <= n <= |events|
    ensures KeepsLinked(states[m].payments, states[n].payments)
    decreases n
  {
    if m < n {
      SettledOnce(states, events, m, n - 1);
      assert Step(states[n - 1], events[n - 1], states[n - 1 + 1]);
      StepKeepsLinked(states[n - 1], events[n - 1], states[n]);
      KeepsLinkedTrans(states[m].payments, states[n - 1].payments, states[n].payments);
    }
  }
}
