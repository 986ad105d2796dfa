/**
  The append-only settlement ledger: records by payment id, an index per merchant, and
  pages of 20 that must agree with both.
 */
module SettlementLedger {
  import opened Prelude

  datatype Record = Record(
    id: PaymentId, merchant: Address, amount: i128, fee: i128, net: i128, timestamp: nat, fiatRef: string)

  datatype Panic =
    | NotAdmin | AmountNotPositive | FeeNegative | NetNegative | Overflow | SumMismatch
    | AlreadyRecorded | IndexFull | MissingRecord

  const PAGE_SIZE: u32 := 20

  /** `log` is the sequence of published settlement_recorded events. */
  datatype State = State(records: map<PaymentId, Record>, index: map<Address, seq<PaymentId>>, log: seq<Record>)

  function Index(s: State, merchant: Address): seq<PaymentId> {
    if merchant in s.index then s.index[merchant] else []
  }

  /** `record_settlement`: what the call does, or why it panics. */
  function Append(admin: Address, s: State, caller: Address, r: Record): Result<State, Panic> {
    var ids := Index(s, r.merchant);
    :- Need(caller == admin, NotAdmin);
    :- Need(r.amount > 0, AmountNotPositive);
    :- Need(r.fee >= 0, FeeNegative);
    :- Need(r.net >= 0, NetNegative);
    :- Need(r.fee + r.net <= I128_MAX, Overflow);
    :- Need(r.fee + r.net == r.amount, SumMismatch);
    :- Need(r.id !in s.records, AlreadyRecorded);
    :- Need(|ids| < U32_MAX, IndexFull);
    Ok(State(s.records[r.id := r], s.index[r.merchant := ids + [r.id]], s.log + [r]))
  }

  /** The records behind a list of ids. */
  function Lookup(records: map<PaymentId, Record>, ids: seq<PaymentId>): Result<seq<Record>, Panic> {
    if ids == [] then Ok([])
    else
      var front :- Lookup(records, ids[..|ids| - 1]);
      var last := ids[|ids| - 1];
      if last in records then Ok(front + [records[last]]) else Err(MissingRecord)
  }

  /** `list_settlements`. */
  function Page(s: State, merchant: Address, page: u32): Result<seq<Record>, Panic> {
    var ids := Index(s, merchant);
    var start := SatMul(page, PAGE_SIZE);
    if start >= |ids| then Ok([])
    else if start + PAGE_SIZE > U32_MAX then Err(Overflow)
    else Lookup(s.records, ids[start..if start + PAGE_SIZE < |ids| then start + PAGE_SIZE else |ids|])
  }

  lemma LookupErrors(records: map<PaymentId, Record>, ids: seq<PaymentId>)
    ensures Lookup(records, ids).Err? ==> Lookup(records, ids) == Err(MissingRecord)
  {
  }

  lemma {:induction false} LookupMissing(records: map<PaymentId, Record>, ids: seq<PaymentId>, i: nat)
    requires i < |ids| && ids[i] !in records
    ensures Lookup(records, ids) == Err(MissingRecord)
    decreases |ids|
  {
    if i < |ids| - 1 {
      LookupMissing(records, ids[..|ids| - 1], i);
    } else {
      LookupErrors(records, ids[..|ids| - 1]);
    }
  }

  lemma LookupNext(records: map<PaymentId, Record>, ids: seq<PaymentId>, start: nat, i: nat, found: seq<Record>)
    requires start <= i < |ids| && Lookup(records, ids[start..i]) == Ok(found)
    ensures ids[i] in records ==> Lookup(records, ids[start..i + 1]) == Ok(found + [records[ids[i]]])
    ensures ids[start..i + 1][..i - start] == ids[start..i]
  {
    assert ids[start..i + 1][..i - start] == ids[start..i];
  }

  class Contract {
    const admin: Address
    var records: map<PaymentId, Record>
    var index: map<Address, seq<PaymentId>>
    ghost var log: seq<Record>

    ghost function Snapshot(): State
      reads this
    {
      State(records, index, log)
    }

    constructor (admin: Address)
      ensures this.admin == admin && Snapshot() == State(map[], map[], [])
    {
      this.admin := admin;
      records, index, log := map[], map[], [];
    }

    method RecordSettlement(caller: Address, id: PaymentId, merchant: Address, amount: i128, fee: i128, net: i128,
                            timestamp: nat, fiatRef: string)
      returns (r: Outcome<Panic>)
      modifies this
      ensures match Append(admin, old(Snapshot()), caller, Record(id, merchant, amount, fee, net, timestamp, fiatRef))
              case Ok(after) => r == Pass && Snapshot() == after
              case Err(e) => r == Fail(e) && Snapshot() == old(Snapshot())
    {
      if caller != admin { return Fail(NotAdmin); }
      if amount <= 0 { return Fail(AmountNotPositive); }
      if fee < 0 { return Fail(FeeNegative); }
      if net < 0 { return Fail(NetNegative); }
      if fee + net > I128_MAX { return Fail(Overflow); }
      if fee + net != amount { return Fail(SumMismatch); }
      if id in records { return Fail(AlreadyRecorded); }

      var ids: seq<PaymentId> := if merchant in index then index[merchant] else [];
      if |ids| >= U32_MAX { return Fail(IndexFull); }
      var record := Record(id, merchant, amount, fee, net, timestamp, fiatRef);
      records := records[id := record];
      ids := ids + [id];
      index := index[merchant := ids];
      log := log + [record];
      return Pass;
    }

    method ListSettlements(merchant: Address, page: u32) returns (r: Result<seq<Record>, Panic>)
      ensures r == Page(Snapshot(), merchant, page)
    {
      var ids: seq<PaymentId> := if merchant in index then index[merchant] else [];
      var total := |ids|;
      var start := SatMul(page, PAGE_SIZE);
      if start >= total { return Ok([]); }
      if start + PAGE_SIZE > U32_MAX { return Err(Overflow); }
      var end := if start + PAGE_SIZE < total then start + PAGE_SIZE else total;
      var results: seq<Record> := [];
      for i := start to end
        invariant Lookup(records, ids[start..i]) == Ok(results)
      {
        var id := ids[i];
        LookupNext(records, ids, start, i, results);
        if id !in records {
          LookupMissing(records, ids[start..end], i - start);
          return Err(MissingRecord);
        }
        results := results + [records[id]];
      }
      return Ok(results);
    }

    method SettlementCount(merchant: Address) returns (n: nat)
      ensures n == |Index(Snapshot(), merchant)|
    {
      n := if merchant in index then |index[merchant]| else 0;
    }
  }

  // ----- runs -----

  datatype Call = Call(caller: Address, record: Record)

  function Run(admin: Address, s: State, calls: seq<Call>): State
    decreases |calls|
  {
    if calls == [] then s
    else
      var r := Append(admin, s, calls[0].caller, calls[0].record);
      Run(admin, if r.Ok? then r.value else s, calls[1..])
  }

  const Empty: State := State(map[], map[], [])

  lemma {:induction false} RunAppend(admin: Address, s: State, calls: seq<Call>, more: seq<Call>)
    ensures Run(admin, s, calls + more) == Run(admin, Run(admin, s, calls), more)
    decreases |calls|
  {
    if calls == [] {
      assert calls + more == more;
    } else {
      assert (calls + more)[1..] == calls[1..] + more;
      var r := Append(admin, s, calls[0].caller, calls[0].record);
      RunAppend(admin, if r.Ok? then r.value else s, calls[1..], more);
    }
  }

  function OfMerchant(log: seq<Record>, merchant: Address): seq<Record> {
    if log == [] then []
    else
      var last := log[|log| - 1];
      OfMerchant(log[..|log| - 1], merchant) + if last.merchant == merchant then [last] else []
  }

  /** `found` lists the records behind `ids`, one by one. */
  predicate Matches(records: map<PaymentId, Record>, ids: seq<PaymentId>, found: seq<Record>) {
    && |found| == |ids|
    && forall i :: 0 <= i < |ids| ==> ids[i] in records && found[i] == records[ids[i]]
  }

  lemma {:induction false} LookupMatches(records: map<PaymentId, Record>, ids: seq<PaymentId>, found: seq<Record>)
    requires Matches(records, ids, found)
    ensures Lookup(records, ids) == Ok(found)
    decreases |ids|
  {
    if ids != [] {
      var n := |ids| - 1;
      LookupMatches(records, ids[..n], found[..n]);
      assert found == found[..n] + [found[n]];
    }
  }

  /** `ids` is a merchant's index, and `mine` its records. */
  predicate IndexFits(records: map<PaymentId, Record>, ids: seq<PaymentId>, mine: seq<Record>, merchant: Address) {
    && |ids| <= U32_MAX
    && (forall i, j :: 0 <= i < j < |ids| ==> ids[i] != ids[j])
    && Matches(records, ids, mine)
    && (forall i :: 0 <= i < |ids| ==> records[ids[i]].merchant == merchant)
  }

  predicate IndexOk(s: State, merchant: Address) {
    IndexFits(s.records, Index(s, merchant), OfMerchant(s.log, merchant), merchant)
  }

  predicate RecordOk(s: State, id: PaymentId)
    requires id in s.records
  {
    var r := s.records[id];
    && r.id == id && id in Index(s, r.merchant)
    && 0 < r.amount && 0 <= r.fee && 0 <= r.net && r.fee + r.net == r.amount
  }

  ghost predicate Inv(s: State) {
    && (forall m :: IndexOk(s, m))
    && (forall id :: id in s.records ==> RecordOk(s, id))
  }

  lemma OfMerchantSnoc(log: seq<Record>, r: Record, m: Address)
    ensures OfMerchant(log + [r], m) == OfMerchant(log, m) + if r.merchant == m then [r] else []
  {
    assert (log + [r])[..|log|] == log;
  }

  lemma StillFits(records: map<PaymentId, Record>, r: Record, ids: seq<PaymentId>, mine: seq<Record>, m: Address)
    requires IndexFits(records, ids, mine, m) && r.id !in records
    ensures IndexFits(records[r.id := r], ids, mine, m)
  {
  }

  lemma AppendElsewhere(admin: Address, s: State, caller: Address, r: Record, m: Address)
    requires Append(admin, s, caller, r).Ok? && IndexOk(s, m) && m != r.merchant
    ensures IndexOk(Append(admin, s, caller, r).value, m)
  {
    OfMerchantSnoc(s.log, r, m);
    StillFits(s.records, r, Index(s, m), OfMerchant(s.log, m), m);
    assert Index(Append(admin, s, caller, r).value, m) == Index(s, m);
  }

  lemma OneMoreStillFits(records: map<PaymentId, Record>, r: Record, ids: seq<PaymentId>, mine: seq<Record>)
    requires IndexFits(records, ids, mine, r.merchant) && r.id !in records && |ids| < U32_MAX
    ensures IndexFits(records[r.id := r], ids + [r.id], mine + [r], r.merchant)
  {
  }

  lemma AppendHere(admin: Address, s: State, caller: Address, r: Record)
    requires Append(admin, s, caller, r).Ok? && IndexOk(s, r.merchant)
    ensures IndexOk(Append(admin, s, caller, r).value, r.merchant)
  {
    OfMerchantSnoc(s.log, r, r.merchant);
    OneMoreStillFits(s.records, r, Index(s, r.merchant), OfMerchant(s.log, r.merchant));
    assert Index(Append(admin, s, caller, r).value, r.merchant) == Index(s, r.merchant) + [r.id];
  }

  lemma AppendKeepsIndex(admin: Address, s: State, caller: Address, r: Record, m: Address)
    requires Append(admin, s, caller, r).Ok? && Inv(s)
    ensures IndexOk(Append(admin, s, caller, r).value, m)
  {
    assert IndexOk(s, m);
    if m == r.merchant {
      AppendHere(admin, s, caller, r);
    } else {
      AppendElsewhere(admin, s, caller, r, m);
    }
  }

  lemma {:induction false} RunKeepsInv(admin: Address, s: State, calls: seq<Call>)
    requires Inv(s)
    ensures Inv(Run(admin, s, calls))
    decreases |calls|
  {
    if calls != [] {
      var r := Append(admin, s, calls[0].caller, calls[0].record);
      if r.Ok? {
        forall m ensures IndexOk(r.value, m) {
          AppendKeepsIndex(admin, s, calls[0].caller, calls[0].record, m);
        }
      }
      RunKeepsInv(admin, if r.Ok? then r.value else s, calls[1..]);
    }
  }

  lemma ReachableInv(admin: Address, calls: seq<Call>)
    ensures Inv(Run(admin, Empty, calls))
  {
    RunKeepsInv(admin, Empty, calls);
  }

  /** The merchant indexes partition the record keys: each key stands once, in the index its record names. */
  lemma IndexesPartitionRecords(admin: Address, calls: seq<Call>)
    ensures var s := Run(admin, Empty, calls);
            && (forall m, i, j :: 0 <= i < j < |Index(s, m)| ==> Index(s, m)[i] != Index(s, m)[j])
            && (forall id, m :: id in Index(s, m) <==> id in s.records && s.records[id].merchant == m)
  {
    ReachableInv(admin, calls);
    var s := Run(admin, Empty, calls);
    forall id, m ensures id in Index(s, m) <==> id in s.records && s.records[id].merchant == m {
      assert IndexOk(s, m);
    }
    forall m, i, j | 0 <= i < j < |Index(s, m)| ensures Index(s, m)[i] != Index(s, m)[j] {
      assert IndexOk(s, m);
    }
  }

  lemma {:induction false} RunKeepsRecords(admin: Address, s: State, calls: seq<Call>, id: PaymentId)
    requires id in s.records
    ensures id in Run(admin, s, calls).records && Run(admin, s, calls).records[id] == s.records[id]
    decreases |calls|
  {
    if calls != [] {
      var r := Append(admin, s, calls[0].caller, calls[0].record);
      RunKeepsRecords(admin, if r.Ok? then r.value else s, calls[1..], id);
    }
  }

  /** A record once written never changes, and its fee and net are non-negative parts of its positive amount. */
  lemma RecordsNeverChange(admin: Address, calls: seq<Call>, more: seq<Call>, id: PaymentId)
    requires id in Run(admin, Empty, calls).records
    ensures var r := Run(admin, Empty, calls).records[id];
            && id in Run(admin, Empty, calls + more).records && Run(admin, Empty, calls + more).records[id] == r
            && r.id == id && 0 < r.amount && 0 <= r.fee && 0 <= r.net && r.fee + r.net == r.amount
  {
    RunAppend(admin, Empty, calls, more);
    RunKeepsRecords(admin, Run(admin, Empty, calls), more, id);
    ReachableInv(admin, calls);
  }

  // ----- what is recorded -----

  /** The call is accepted after the records `before`: from the admin, with a positive amount that splits into fee and
      net, under a new id, while the merchant's index has room. */
  predicate Acceptable(admin: Address, before: seq<Record>, call: Call) {
    var r := call.record;
    && call.caller == admin && r.amount > 0 && r.fee >= 0 && r.net >= 0 && r.fee + r.net == r.amount
    && (forall k :: 0 <= k < |before| ==> before[k].id != r.id)
    && |OfMerchant(before, r.merchant)| < 4_294_967_295
  }

  /** The arguments of the calls accepted, in order, as the calls alone determine them. */
  function Accepted(admin: Address, calls: seq<Call>): seq<Record> {
    if calls == [] then []
    else
      var before, last := Accepted(admin, calls[..|calls| - 1]), calls[|calls| - 1];
      if Acceptable(admin, before, last) then before + [last.record] else before
  }

  /** The table holds exactly the records of the log. */
  ghost predicate TableIsLog(s: State) {
    && (forall k :: 0 <= k < |s.log| ==> s.log[k].id in s.records && s.records[s.log[k].id] == s.log[k])
    && (forall id :: id in s.records ==> exists k :: 0 <= k < |s.log| && s.log[k].id == id)
  }

  lemma AppendExactlyWhen(admin: Address, s: State, caller: Address, r: Record)
    requires Inv(s) && TableIsLog(s)
    ensures Append(admin, s, caller, r).Ok? <==> Acceptable(admin, s.log, Call(caller, r))
  {
    assert IndexOk(s, r.merchant);
    if r.id in s.records {
      var k :| 0 <= k < |s.log| && s.log[k].id == r.id;
    }
  }

  lemma AppendKeepsTable(admin: Address, s: State, caller: Address, r: Record)
    requires TableIsLog(s) && Append(admin, s, caller, r).Ok?
    ensures TableIsLog(Append(admin, s, caller, r).value) && Append(admin, s, caller, r).value.log == s.log + [r]
  {
    var t := Append(admin, s, caller, r).value;
    forall id | id in t.records ensures exists k :: 0 <= k < |t.log| && t.log[k].id == id {
      if id == r.id {
        assert t.log[|s.log|].id == id;
      } else {
        var k :| 0 <= k < |s.log| && s.log[k].id == id;
        assert t.log[k].id == id;
      }
    }
  }

  /** Over every run the log, and with it the table, holds exactly the arguments of the accepted calls, in order. */
  lemma {:induction false} LogIsAccepted(admin: Address, calls: seq<Call>)
    ensures var s := Run(admin, Empty, calls);
            s.log == Accepted(admin, calls) && TableIsLog(s)
    decreases |calls|
  {
    if calls != [] {
      var front, last := calls[..|calls| - 1], calls[|calls| - 1];
      var s := Run(admin, Empty, front);
      assert calls == front + [last];
      LogIsAccepted(admin, front);
      RunAppend(admin, Empty, front, [last]);
      assert [last][1..] == [];
      ReachableInv(admin, front);
      AppendExactlyWhen(admin, s, last.caller, last.record);
      if Append(admin, s, last.caller, last.record).Ok? {
        AppendKeepsTable(admin, s, last.caller, last.record);
      }
    }
  }

  /** The count of a merchant is the number of its accepted calls. */
  lemma CountIsAccepted(admin: Address, calls: seq<Call>, m: Address)
    ensures |Index(Run(admin, Empty, calls), m)| == |OfMerchant(Accepted(admin, calls), m)|
  {
    ReachableInv(admin, calls);
    LogIsAccepted(admin, calls);
    assert IndexOk(Run(admin, Empty, calls), m);
  }

  /** After an accepted call, in every continuation, the record under its id is the call's arguments. */
  lemma RecordIsArguments(admin: Address, calls: seq<Call>, call: Call, more: seq<Call>)
    requires Acceptable(admin, Accepted(admin, calls), call)
    ensures var s, r := Run(admin, Empty, calls + [call] + more), call.record;
            && r.id in s.records
            && (s.records[r.id].id, s.records[r.id].merchant, s.records[r.id].amount, s.records[r.id].fee)
               == (r.id, r.merchant, r.amount, r.fee)
            && (s.records[r.id].net, s.records[r.id].timestamp, s.records[r.id].fiatRef) == (r.net, r.timestamp, r.fiatRef)
  {
    var first := calls + [call];
    assert first[..|first| - 1] == calls;
    LogIsAccepted(admin, first);
    var log := Run(admin, Empty, first).log;
    assert log[|log| - 1] == call.record;
    RunAppend(admin, Empty, first, more);
    RunKeepsRecords(admin, Run(admin, Empty, first), more, call.record.id);
  }

  /** Why a call is refused: the first thing wrong. */
  lemma AppendRefusals(admin: Address, s: State, caller: Address, r: Record)
    ensures var result := Append(admin, s, caller, r);
            && (caller != admin ==> result == Err(NotAdmin))
            && (caller == admin && r.amount <= 0 ==> result == Err(AmountNotPositive))
            && (caller == admin && r.amount > 0 && r.fee < 0 ==> result == Err(FeeNegative))
            && (caller == admin && r.amount > 0 && r.fee >= 0 && r.net < 0 ==> result == Err(NetNegative))
            && (caller == admin && r.amount > 0 && r.fee >= 0 && r.net >= 0 && r.fee + r.net != r.amount ==>
                  result == Err(if r.fee + r.net > I128_MAX then Overflow else SumMismatch))
            && (caller == admin && r.amount > 0 && r.fee >= 0 && r.net >= 0 && r.fee + r.net == r.amount ==>
                  (r.id in s.records ==> result == Err(AlreadyRecorded)))
  {
  }

  // ----- pages -----

  lemma MatchesSlice(records: map<PaymentId, Record>, ids: seq<PaymentId>, found: seq<Record>, lo: nat, hi: nat)
    requires Matches(records, ids, found) && lo <= hi <= |ids|
    ensures Lookup(records, ids[lo..hi]) == Ok(found[lo..hi])
  {
    LookupMatches(records, ids[lo..hi], found[lo..hi]);
  }

  lemma PageOfIndex(s: State, m: Address, mine: seq<Record>, page: u32)
    requires IndexFits(s.records, Index(s, m), mine, m)
    ensures if page == 214_748_364 && |mine| > 4_294_967_280 then Page(s, m, page) == Err(Overflow)
            else Page(s, m, page) == Ok(mine[Min(20 * page, |mine|)..Min(20 * (page + 1), |mine|)])
  {
    MatchesSlice(s.records, Index(s, m), mine, Min(20 * page, |mine|), Min(20 * (page + 1), |mine|));
  }

  /** The page that starts at 4294967280 overflows `start + PAGE_SIZE`; every other page is a slice of the merchant's records. */
  lemma PageIsSlice(admin: Address, calls: seq<Call>, m: Address, page: u32)
    ensures var s := Run(admin, Empty, calls);
            var mine := OfMerchant(Accepted(admin, calls), m);
            if page == 214_748_364 && |mine| > 4_294_967_280 then Page(s, m, page) == Err(Overflow)
            else Page(s, m, page) == Ok(mine[Min(20 * page, |mine|)..Min(20 * (page + 1), |mine|)])
  {
    ReachableInv(admin, calls);
    LogIsAccepted(admin, calls);
    var s := Run(admin, Empty, calls);
    assert IndexOk(s, m);
    PageOfIndex(s, m, OfMerchant(s.log, m), page);
  }

  /** `n` settlements of one unit for one merchant, with ids 0, 1, ... */
  function Filling(admin: Address, m: Address, n: nat): seq<Call> {
    if n == 0 then [] else
      Filling(admin, m, n - 1) + [Call(admin, Record(PaymentId(n - 1), m, 1, 0, 1, 0, ""))]
  }

  lemma OneMoreFits(admin: Address, m: Address, s: State, k: nat, r: Record)
    requires k < U32_MAX && r == Record(PaymentId(k), m, 1, 0, 1, 0, "")
    requires |Index(s, m)| == |OfMerchant(s.log, m)| == k
    requires forall id :: id in s.records ==> id.key < k
    ensures var after := Append(admin, s, admin, r);
            && after.Ok?
            && |Index(after.value, m)| == |OfMerchant(after.value.log, m)| == k + 1
            && forall id :: id in after.value.records ==> id.key < k + 1
  {
    OfMerchantSnoc(s.log, r, m);
  }

  lemma {:induction false} FillingIsAccepted(admin: Address, m: Address, n: nat)
    requires n <= U32_MAX
    ensures var s := Run(admin, Empty, Filling(admin, m, n));
            && |Index(s, m)| == |OfMerchant(s.log, m)| == n
            && forall id :: id in s.records ==> id.key < n
    decreases n
  {
    if n > 0 {
      var calls := Filling(admin, m, n - 1);
      var last := Call(admin, Record(PaymentId(n - 1), m, 1, 0, 1, 0, ""));
      FillingIsAccepted(admin, m, n - 1);
      RunAppend(admin, Empty, calls, [last]);
      OneMoreFits(admin, m, Run(admin, Empty, calls), n - 1, last.record);
      assert [last][1..] == [];
    }
  }

  /** The overflowing page is reached by as many settlements of one merchant as a stored vector can index. */
  lemma OverflowIsReached(admin: Address, m: Address)
    ensures Page(Run(admin, Empty, Filling(admin, m, U32_MAX)), m, 214_748_364) == Err(Overflow)
  {
    FillingIsAccepted(admin, m, U32_MAX);
    LogIsAccepted(admin, Filling(admin, m, U32_MAX));
    PageIsSlice(admin, Filling(admin, m, U32_MAX), m, 214_748_364);
  }

  /** Pages 0, 1, ..., n - 1 one after the other. */
  function Pages(s: State, m: Address, n: nat): Result<seq<Record>, Panic>
    requires n <= U32_MAX + 1
  {
    if n == 0 then Ok([])
    else
      var front :- Pages(s, m, n - 1);
      var last :- Page(s, m, n - 1);
      Ok(front + last)
  }

  lemma NextPage(mine: seq<Record>, n: nat)
    ensures mine[..Min(20 * n, |mine|)] + mine[Min(20 * n, |mine|)..Min(20 * (n + 1), |mine|)] == mine[..Min(20 * (n + 1), |mine|)]
  {
  }

  lemma PagesStep(s: State, m: Address, n: nat, front: seq<Record>, last: seq<Record>)
    requires 0 < n <= U32_MAX + 1 && Pages(s, m, n - 1) == Ok(front) && Page(s, m, n - 1) == Ok(last)
    ensures Pages(s, m, n) == Ok(front + last)
  {
  }

  lemma {:induction false} PagesOfIndex(s: State, m: Address, mine: seq<Record>, n: nat)
    requires n <= U32_MAX + 1
    requires IndexFits(s.records, Index(s, m), mine, m) && |mine| <= 4_294_967_280
    ensures Pages(s, m, n) == Ok(mine[..Min(20 * n, |mine|)])
    decreases n
  {
    if n == 0 {
      assert mine[..Min(20 * n, |mine|)] == [];
    } else {
      PagesOfIndex(s, m, mine, n - 1);
      PageOfIndex(s, m, mine, n - 1);
      NextPage(mine, n - 1);
      PagesStep(s, m, n, Pages(s, m, n - 1).value, Page(s, m, n - 1).value);
    }
  }

  /** Paging loses, repeats and reorders nothing: the pages are the arguments of the merchant's accepted calls in order. */
  lemma PagesAreHistory(admin: Address, calls: seq<Call>, m: Address, n: nat)
    requires n <= U32_MAX + 1
    requires |OfMerchant(Accepted(admin, calls), m)| <= 4_294_967_280
    ensures var s := Run(admin, Empty, calls);
            var mine := OfMerchant(Accepted(admin, calls), m);
            Pages(s, m, n) == Ok(mine[..Min(20 * n, |mine|)])
  {
    var s := Run(admin, Empty, calls);
    ReachableInv(admin, calls);
    LogIsAccepted(admin, calls);
    assert IndexOk(s, m);
    PagesOfIndex(s, m, OfMerchant(s.log, m), n);
  }

  lemma {:induction false} OfMerchantPrefix(log: seq<Record>, more: seq<Record>, m: Address)
    ensures OfMerchant(log, m) <= OfMerchant(log + more, m)
    decreases |more|
  {
    if more == [] {
      assert log + more == log;
    } else {
      assert (log + more)[..|log + more| - 1] == log + more[..|more| - 1];
      OfMerchantPrefix(log, more[..|more| - 1], m);
    }
  }

  lemma {:induction false} RunExtendsLog(admin: Address, s: State, calls: seq<Call>)
    ensures s.log <= Run(admin, s, calls).log
    decreases |calls|
  {
    if calls != [] {
      var r := Append(admin, s, calls[0].caller, calls[0].record);
      RunExtendsLog(admin, if r.Ok? then r.value else s, calls[1..]);
    }
  }

  lemma SliceOfPrefix(a: seq<Record>, b: seq<Record>, lo: nat, hi: nat)
    requires a <= b && lo <= hi
    ensures var x, y := a[Min(lo, |a|)..Min(hi, |a|)], b[Min(lo, |b|)..Min(hi, |b|)];
            x <= y && (|x| == hi - lo ==> y == x)
  {
    assert a == b[..|a|];
    assert a[Min(lo, |a|)..Min(hi, |a|)] == b[Min(lo, |a|)..Min(hi, |a|)];
  }

  lemma FrozenSlices(admin: Address, early: seq<Call>, late: seq<Call>, m: Address, page: u32)
    requires OfMerchant(Run(admin, Empty, early).log, m) <= OfMerchant(Run(admin, Empty, late).log, m)
    ensures var before := Page(Run(admin, Empty, early), m, page);
            var after := Page(Run(admin, Empty, late), m, page);
            && (before.Ok? && after.Ok? ==> before.value <= after.value)
            && (before.Ok? && |before.value| == 20 ==> after == before)
  {
    var a, b := OfMerchant(Run(admin, Empty, early).log, m), OfMerchant(Run(admin, Empty, late).log, m);
    LogIsAccepted(admin, early);
    LogIsAccepted(admin, late);
    PageIsSlice(admin, early, m, page);
    PageIsSlice(admin, late, m, page);
    SliceOfPrefix(a, b, 20 * page, 20 * (page + 1));
    ReachableInv(admin, late);
    assert IndexOk(Run(admin, Empty, late), m);
  }

  /** Whatever is recorded later, a page only grows at its end, and a full page never changes. */
  lemma FullPagesAreFrozen(admin: Address, calls: seq<Call>, more: seq<Call>, m: Address, page: u32)
    ensures var before := Page(Run(admin, Empty, calls), m, page);
            var after := Page(Run(admin, Empty, calls + more), m, page);
            && (before.Ok? && after.Ok? ==> before.value <= after.value)
            && (before.Ok? && |before.value| == 20 ==> after == before)
  {
    var s, s' := Run(admin, Empty, calls), Run(admin, Empty, calls + more);
    RunAppend(admin, Empty, calls, more);
    RunExtendsLog(admin, s, more);
    assert s.log + s'.log[|s.log|..] == s'.log;
    OfMerchantPrefix(s.log, s'.log[|s.log|..], m);
    FrozenSlices(admin, calls, calls + more, m, page);
  }
}
