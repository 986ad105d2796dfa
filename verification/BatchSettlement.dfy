/**
  Batch settlement of small payments: every quarter of an hour the confirmed payments
  under ten dollars are grouped by merchant, put in order of time and cut greedily into
  batches. Amounts are whole micro-dollars, the fee and net of a settlement nano-dollars,
  and times milliseconds.
 */
module BatchSettlement {
  import opened Prelude

  const THRESHOLD: int := 10_000_000
  const MAX_COUNT: int := 50
  const BATCH_WINDOW: int := 15 * 60 * 1000
  const APPROVAL_NET: int := 10_000_000_000_000

  datatype PaymentStatus = Pending | Confirmed | Settling | Settled | Failed | Expired | Refunded

  datatype Payment = Payment(
    id: nat, merchantId: nat, amountUsd: int, status: PaymentStatus,
    confirmedAt: Option<int>, createdAt: int, settlementId: Option<nat>, feeUsd: Option<int>)

  datatype SettlementStatus = PendingApproval | Processing

  datatype Settlement = Settlement(
    merchantId: nat, totalUsd: int, feeNano: int, netNano: int,
    status: SettlementStatus, requiresApproval: bool)

  /** Both tables, the settlement queue and the alerts raised; a settlement's id is its row. */
  datatype State = State(payments: map<nat, Payment>, settlements: seq<Settlement>, queue: seq<nat>, alerts: seq<nat>)

  /** A payment's place in time. */
  function At(p: Payment): int {
    p.confirmedAt.GetOr(p.createdAt)
  }

  function Front<T>(s: seq<T>): seq<T>
    requires s != []
  {
    s[..|s| - 1]
  }

  function Last<T>(s: seq<T>): T
    requires s != []
  {
    s[|s| - 1]
  }

  // ----- one settlement -----

  function Total(batch: seq<Payment>): int {
    if batch == [] then 0 else Total(Front(batch)) + Last(batch).amountUsd
  }

  /** The settlement row of a batch: fee 1.5%, approval from 10000 dollars net. */
  function Row(merchantId: nat, totalUsd: int): Settlement {
    var feeNano := totalUsd * 15;
    var netNano := totalUsd * 1000 - feeNano;
    Settlement(merchantId, totalUsd, feeNano, netNano,
               if netNano >= APPROVAL_NET then PendingApproval else Processing, netNano >= APPROVAL_NET)
  }

  /** A payment's fee, 1.5% rounded to six places, halves up. */
  function Fee(amountUsd: int): int {
    (amountUsd * 15 + 500) / 1000
  }

  function Marked(p: Payment, settlementId: nat): Payment {
    p.(status := Settling, feeUsd := Some(Fee(p.amountUsd)), settlementId := Some(settlementId))
  }

  function MarkAll(payments: map<nat, Payment>, batch: seq<Payment>, settlementId: nat): map<nat, Payment> {
    if batch == [] then payments
    else MarkAll(payments, Front(batch), settlementId)[Last(batch).id := Marked(Last(batch), settlementId)]
  }

  /** What settling one batch makes of the state. */
  function Created(s: State, batch: seq<Payment>): State {
    if batch == [] then s else
      var id, row := |s.settlements|, Row(batch[0].merchantId, Total(batch));
      State(MarkAll(s.payments, batch, id), s.settlements + [row],
            if row.status.Processing? then s.queue + [id] else s.queue,
            if row.status.Processing? then s.alerts else s.alerts + [id])
  }

  /** What settling a confirmed payment on its own makes of the state; small ones wait for a batch. */
  function Initiated(s: State, p: Payment): State {
    if p.amountUsd < THRESHOLD then s else Created(s, [p])
  }

  lemma CreatedAlone(s: State, p: Payment)
    ensures MarkAll(s.payments, [p], |s.settlements|) == s.payments[p.id := Marked(p, |s.settlements|)]
    ensures Total([p]) == p.amountUsd
  {
    assert Front([p]) == [];
  }

  /** What settling batches in turn makes of the state. */
  function SettleAll(s: State, batches: seq<seq<Payment>>): State {
    if batches == [] then s else Created(SettleAll(s, Front(batches)), Last(batches))
  }

  // ----- one merchant -----

  /** `p` goes behind every payment that is not later, so that sorting is stable. */
  function InsertByTime(s: seq<Payment>, p: Payment): seq<Payment> {
    if s == [] then [p]
    else if At(Last(s)) <= At(p) then s + [p]
    else InsertByTime(Front(s), p) + [Last(s)]
  }

  function SortByTime(s: seq<Payment>): seq<Payment> {
    if s == [] then [] else InsertByTime(SortByTime(Front(s)), Last(s))
  }

  /** The amounts of `s[o..e]`. */
  function Sum(s: seq<Payment>, o: nat, e: nat): int
    requires o <= e <= |s|
    decreases e
  {
    if e == o then 0 else Sum(s, o, e - 1) + s[e - 1].amountUsd
  }

  predicate ShouldFlush(total: int, count: int, age: int) {
    total >= THRESHOLD || count >= MAX_COUNT || age >= BATCH_WINDOW
  }

  /** The batch `s[o..e]` is flushed when payment `e - 1` has joined it; the clock is read once per payment. */
  predicate Fires(s: seq<Payment>, clock: nat -> int, base: nat, o: nat, e: nat)
    requires o < e <= |s|
  {
    ShouldFlush(Sum(s, o, e), e - o, clock(base + e - 1) - At(s[o]))
  }

  /** Where the batches of the first `n` payments begin; the last one is still open. */
  function Cuts(s: seq<Payment>, clock: nat -> int, base: nat, n: nat): (c: seq<nat>)
    requires n <= |s|
    ensures c != [] && Last(c) <= n
    decreases n
  {
    if n == 0 then [0] else
      var c := Cuts(s, clock, base, n - 1);
      if Fires(s, clock, base, Last(c), n) then c + [n] else c
  }

  lemma SettleOneMore(s: State, batches: seq<seq<Payment>>, batch: seq<Payment>)
    ensures SettleAll(s, batches + [batch]) == Created(SettleAll(s, batches), batch)
  {
    assert Front(batches + [batch]) == batches;
  }

  /** The batches flushed for the first `n` of one merchant's payments in order. */
  function Batches(s: seq<Payment>, clock: nat -> int, base: nat, n: nat): seq<seq<Payment>>
    requires n <= |s|
    decreases n
  {
    if n == 0 then [] else
      var o := Last(Cuts(s, clock, base, n - 1));
      var made := Batches(s, clock, base, n - 1);
      if Fires(s, clock, base, o, n) then made + [s[o..n]] else made
  }

  /** What is kept back for the next run. */
  function Tail(s: seq<Payment>, clock: nat -> int, base: nat): seq<Payment> {
    s[Last(Cuts(s, clock, base, |s|))..]
  }

  /** Where the flushing loop stands after `n` payments. */
  ghost predicate FlushedTo(s: seq<Payment>, clock: nat -> int, base: nat, n: nat,
                            made: seq<seq<Payment>>, batch: seq<Payment>, total: int)
    requires n <= |s|
  {
    var o := Last(Cuts(s, clock, base, n));
    made == Batches(s, clock, base, n) && batch == s[o..n] && total == Sum(s, o, n)
  }

  lemma OnePaymentMore(s: seq<Payment>, clock: nat -> int, base: nat, n: nat,
                       made: seq<seq<Payment>>, batch: seq<Payment>, total: int)
    requires n < |s| && FlushedTo(s, clock, base, n, made, batch, total)
    requires !ShouldFlush(total + s[n].amountUsd, |batch| + 1, clock(base + n) - At((batch + [s[n]])[0]))
    ensures FlushedTo(s, clock, base, n + 1, made, batch + [s[n]], total + s[n].amountUsd)
  {
    var o := Last(Cuts(s, clock, base, n));
    assert batch + [s[n]] == s[o..n + 1];
  }

  lemma OneBatchMore(s: seq<Payment>, clock: nat -> int, base: nat, n: nat,
                     made: seq<seq<Payment>>, batch: seq<Payment>, total: int)
    requires n < |s| && FlushedTo(s, clock, base, n, made, batch, total)
    requires ShouldFlush(total + s[n].amountUsd, |batch| + 1, clock(base + n) - At((batch + [s[n]])[0]))
    ensures FlushedTo(s, clock, base, n + 1, made + [batch + [s[n]]], [], 0)
  {
    var o := Last(Cuts(s, clock, base, n));
    assert batch + [s[n]] == s[o..n + 1];
  }

  // ----- one run -----

  /** The merchants in order of first appearance, as a `Map` keeps its keys. */
  function Merchants(found: seq<Payment>): seq<nat> {
    if found == [] then [] else
      var ms := Merchants(Front(found));
      if Last(found).merchantId in ms then ms else ms + [Last(found).merchantId]
  }

  function Group(found: seq<Payment>, m: nat): seq<Payment> {
    if found == [] then [] else
      var g := Group(Front(found), m);
      if Last(found).merchantId == m then g + [Last(found)] else g
  }

  /** The number of clock readings taken for the merchants in `ms`. */
  function Readings(found: seq<Payment>, ms: seq<nat>): nat {
    if ms == [] then 0 else Readings(found, Front(ms)) + |Group(found, Last(ms))|
  }

  /** The batches flushed for the merchants in `ms`, in turn. */
  function BatchesFor(found: seq<Payment>, ms: seq<nat>, clock: nat -> int): seq<seq<Payment>> {
    if ms == [] then [] else
      var s := SortByTime(Group(found, Last(ms)));
      BatchesFor(found, Front(ms), clock) + Batches(s, clock, Readings(found, Front(ms)), |s|)
  }

  /** The payments a run selects. */
  predicate Eligible(p: Payment) {
    p.status == Confirmed && p.settlementId == None && p.amountUsd < THRESHOLD
  }

  /** `found` is the query's answer on a table keyed by id: the eligible rows, each once. */
  predicate Finds(payments: map<nat, Payment>, found: seq<Payment>) {
    && (forall id :: id in payments ==> payments[id].id == id)
    && (forall i :: 0 <= i < |found| ==> found[i].id in payments && payments[found[i].id] == found[i] && Eligible(found[i]))
    && (forall i, j :: 0 <= i < j < |found| ==> found[i].id != found[j].id)
    && (forall id :: id in payments && Eligible(payments[id]) ==> payments[id] in found)
  }

  /** What one run makes of the state. */
  function AfterRun(s: State, found: seq<Payment>, clock: nat -> int): State {
    SettleAll(s, BatchesFor(found, Merchants(found), clock))
  }

  lemma OneMerchantMore(found: seq<Payment>, keys: seq<nat>, j: nat, clock: nat -> int)
    requires j < |keys|
    ensures var group, base := Group(found, keys[j]), Readings(found, keys[..j]);
            && Readings(found, keys[..j + 1]) == base + |group|
            && BatchesFor(found, keys[..j + 1], clock) == BatchesFor(found, keys[..j], clock)
                 + Batches(SortByTime(group), clock, base, |SortByTime(group)|)
  {
    assert Front(keys[..j + 1]) == keys[..j];
  }

  lemma {:induction false} SettleMore(s: State, a: seq<seq<Payment>>, b: seq<seq<Payment>>)
    ensures SettleAll(s, a + b) == SettleAll(SettleAll(s, a), b)
    decreases |b|
  {
    if b == [] {
      assert a + b == a;
    } else {
      SettleMore(s, a, Front(b));
      assert Front(a + b) == a + Front(b);
    }
  }

  class SettlementsService {
    var payments: map<nat, Payment>
    var settlements: seq<Settlement>
    var queue: seq<nat>
    var alerts: seq<nat>

    constructor (payments: map<nat, Payment>)
      ensures Snapshot() == State(payments, [], [], [])
    {
      this.payments, settlements, queue, alerts := payments, [], [], [];
    }

    ghost function Snapshot(): State
      reads this
    {
      State(payments, settlements, queue, alerts)
    }

    method InitiateSettlement(payment: Payment)
      modifies this
      ensures Snapshot() == Initiated(old(Snapshot()), payment)
    {
      if payment.amountUsd < THRESHOLD {
        return;
      }
      var id, row := |settlements|, Row(payment.merchantId, payment.amountUsd);
      CreatedAlone(old(Snapshot()), payment);
      settlements := settlements + [row];
      payments := payments[payment.id := Marked(payment, id)];
      if !row.requiresApproval {
        queue := queue + [id];
      } else {
        alerts := alerts + [id];
      }
    }

    method CreateBatchSettlement(batch: seq<Payment>)
      modifies this
      ensures Snapshot() == Created(old(Snapshot()), batch)
    {
      if |batch| == 0 {
        return;
      }
      var totalUsd := 0;
      for i := 0 to |batch|
        invariant totalUsd == Total(batch[..i])
      {
        totalUsd := totalUsd + batch[i].amountUsd;
        assert Front(batch[..i + 1]) == batch[..i];
      }
      assert batch[..|batch|] == batch;

      var id, row := |settlements|, Row(batch[0].merchantId, totalUsd);
      settlements := settlements + [row];
      for i := 0 to |batch|
        invariant payments == MarkAll(old(payments), batch[..i], id)
        invariant settlements == old(settlements) + [row] && queue == old(queue) && alerts == old(alerts)
      {
        payments := payments[batch[i].id := Marked(batch[i], id)];
        assert Front(batch[..i + 1]) == batch[..i];
      }
      if row.status.Processing? {
        queue := queue + [id];
      } else {
        alerts := alerts + [id];
      }
    }

    method FlushMerchantBatch(group: seq<Payment>, clock: nat -> int, base: nat)
      modifies this
      ensures var s := SortByTime(group);
              Snapshot() == SettleAll(old(Snapshot()), Batches(s, clock, base, |s|))
    {
      var ordered := SortByTime(group);
      var batch: seq<Payment> := [];
      var runningTotal := 0;
      ghost var made: seq<seq<Payment>> := [];
      for n := 0 to |ordered|
        invariant FlushedTo(ordered, clock, base, n, made, batch, runningTotal)
        invariant Snapshot() == SettleAll(old(Snapshot()), made)
      {
        ghost var before, total := batch, runningTotal;
        batch := batch + [ordered[n]];
        runningTotal := runningTotal + ordered[n].amountUsd;
        if ShouldFlush(runningTotal, |batch|, clock(base + n) - At(batch[0])) {
          OneBatchMore(ordered, clock, base, n, made, before, total);
          SettleOneMore(old(Snapshot()), made, batch);
          CreateBatchSettlement(batch);
          made, batch, runningTotal := made + [batch], [], 0;
        } else {
          OnePaymentMore(ordered, clock, base, n, made, before, total);
        }
      }
    }

    method GroupByMerchant(found: seq<Payment>) returns (keys: seq<nat>, groups: map<nat, seq<Payment>>)
      ensures keys == Merchants(found)
      ensures forall m :: m in keys <==> m in groups
      ensures forall m :: m in groups ==> groups[m] == Group(found, m)
    {
      keys, groups := [], map[];
      for i := 0 to |found|
        invariant keys == Merchants(found[..i])
        invariant forall m :: m in keys <==> m in groups
        invariant forall m :: (if m in groups then groups[m] else []) == Group(found[..i], m)
      {
        assert Front(found[..i + 1]) == found[..i];
        var m := found[i].merchantId;
        var list := if m in groups then groups[m] else [];
        if m !in groups {
          keys := keys + [m];
        }
        groups := groups[m := list + [found[i]]];
      }
      assert found[..|found|] == found;
    }

    method BatchSmallConfirmedPayments(found: seq<Payment>, clock: nat -> int)
      modifies this
      ensures Snapshot() == AfterRun(old(Snapshot()), found, clock)
    {
      if |found| == 0 {
        return;
      }
      var keys, groups := GroupByMerchant(found);
      var base := 0;
      ghost var made: seq<seq<Payment>> := [];
      for j := 0 to |keys|
        invariant base == Readings(found, keys[..j]) && made == BatchesFor(found, keys[..j], clock)
        invariant Snapshot() == SettleAll(old(Snapshot()), made)
      {
        var group := groups[keys[j]];
        OneMerchantMore(found, keys, j, clock);
        ghost var more := Batches(SortByTime(group), clock, base, |SortByTime(group)|);
        SettleMore(old(Snapshot()), made, more);
        FlushMerchantBatch(group, clock, base);
        base, made := base + |group|, made + more;
      }
      assert keys[..|keys|] == keys;
    }
  }
}
