/**
  The tiered fee calculator: tier validation, the early-exit tier search, and a volume per
  merchant that restarts 172,800 ledgers after its window began.
 */
module FeeCalculator {
  import opened Prelude

  datatype Tier = Tier(threshold: i128, feeBps: u32)
  datatype Volume = Volume(windowStart: u32, amount: i128)

  datatype Panic =
    | NoTiers | ThresholdNegative | BpsTooHigh | ThresholdsNotIncreasing | BpsIncreasing
    | NotAdmin | AmountNotPositive | VolumeOverflow | FeeOverflow

  const WINDOW: u32 := 172_800
  const BPS_DENOMINATOR: i128 := 10_000

  /** One successful `calculate_fee`; `window` is the start of the window it was charged in. */
  datatype Charge = Charge(merchant: Address, window: u32, ledger: u32, amount: i128, fee: i128, bps: u32)

  datatype State = State(tiers: seq<Tier>, volumes: map<Address, Volume>, charges: seq<Charge>)

  // ----- tiers -----

  /** The accepted tier lists. */
  predicate TiersOk(tiers: seq<Tier>) {
    && tiers != []
    && (forall i :: 0 <= i < |tiers| ==> tiers[i].threshold >= 0 && tiers[i].feeBps <= 10_000)
    && (forall i, j :: 0 <= i < j < |tiers| ==> tiers[i].threshold < tiers[j].threshold && tiers[j].feeBps <= tiers[i].feeBps)
  }

  /** The first rule a tier breaks, from tier `i` on. */
  function CheckFrom(tiers: seq<Tier>, i: nat): Outcome<Panic>
    requires i <= |tiers|
    decreases |tiers| - i
  {
    if i == |tiers| then Pass
    else if tiers[i].threshold < 0 then Fail(ThresholdNegative)
    else if tiers[i].feeBps > 10_000 then Fail(BpsTooHigh)
    else if i > 0 && tiers[i].threshold <= tiers[i - 1].threshold then Fail(ThresholdsNotIncreasing)
    else if i > 0 && tiers[i].feeBps > tiers[i - 1].feeBps then Fail(BpsIncreasing)
    else CheckFrom(tiers, i + 1)
  }

  function Check(tiers: seq<Tier>): Outcome<Panic> {
    if tiers == [] then Fail(NoTiers) else CheckFrom(tiers, 0)
  }

  method ValidateTiers(tiers: seq<Tier>) returns (r: Outcome<Panic>)
    ensures r == Check(tiers)
  {
    if |tiers| == 0 { return Fail(NoTiers); }
    var prevThreshold, prevBps := -1, U32_MAX;
    for i := 0 to |tiers|
      invariant CheckFrom(tiers, 0) == CheckFrom(tiers, i)
      invariant prevThreshold == if i == 0 then -1 else tiers[i - 1].threshold
      invariant prevBps == if i == 0 then U32_MAX else tiers[i - 1].feeBps
    {
      var tier := tiers[i];
      if tier.threshold < 0 { return Fail(ThresholdNegative); }
      if tier.feeBps > 10_000 { return Fail(BpsTooHigh); }
      if tier.threshold <= prevThreshold { return Fail(ThresholdsNotIncreasing); }
      if tier.feeBps > prevBps { return Fail(BpsIncreasing); }
      prevThreshold := tier.threshold;
      prevBps := tier.feeBps;
    }
    return Pass;
  }

  /** What validation compares: a tier with its own bounds and with its predecessor. */
  predicate TierFits(tiers: seq<Tier>, i: nat)
    requires i < |tiers|
  {
    && tiers[i].threshold >= 0 && tiers[i].feeBps <= 10_000
    && (i > 0 ==> tiers[i - 1].threshold < tiers[i].threshold && tiers[i].feeBps <= tiers[i - 1].feeBps)
  }

  lemma {:induction false} CheckFromAccepts(tiers: seq<Tier>, i: nat)
    requires i <= |tiers|
    ensures CheckFrom(tiers, i).Pass? <==> forall k :: i <= k < |tiers| ==> TierFits(tiers, k)
    decreases |tiers| - i
  {
    if i < |tiers| {
      CheckFromAccepts(tiers, i + 1);
      if CheckFrom(tiers, i).Fail? && CheckFrom(tiers, i + 1).Pass? {
        assert !TierFits(tiers, i);
      }
    }
  }

  lemma {:induction false} FittingTiersOrdered(tiers: seq<Tier>, i: nat, j: nat)
    requires i < j < |tiers|
    requires forall k :: 0 <= k < |tiers| ==> TierFits(tiers, k)
    ensures tiers[i].threshold < tiers[j].threshold && tiers[j].feeBps <= tiers[i].feeBps
    decreases j
  {
    assert TierFits(tiers, j);
    if i < j - 1 {
      FittingTiersOrdered(tiers, i, j - 1);
    }
  }

  /** Validation accepts exactly the well-formed tier lists. */
  lemma CheckAcceptsExactly(tiers: seq<Tier>)
    ensures Check(tiers).Pass? <==> TiersOk(tiers)
  {
    if tiers != [] {
      CheckFromAccepts(tiers, 0);
      if Check(tiers).Pass? {
        assert forall k :: 0 <= k < |tiers| ==> TierFits(tiers, k);
        forall i, j | 0 <= i < j < |tiers|
          ensures tiers[i].threshold < tiers[j].threshold && tiers[j].feeBps <= tiers[i].feeBps
        {
          FittingTiersOrdered(tiers, i, j);
        }
      }
    }
  }

  /** The rule that a tier breaks, if it does: its own bounds first, then against its predecessor. */
  predicate Breaks(tiers: seq<Tier>, i: nat, e: Panic)
    requires i < |tiers|
  {
    if tiers[i].threshold < 0 then e == ThresholdNegative
    else if tiers[i].feeBps > 10_000 then e == BpsTooHigh
    else if i > 0 && tiers[i - 1].threshold >= tiers[i].threshold then e == ThresholdsNotIncreasing
    else i > 0 && tiers[i - 1].feeBps < tiers[i].feeBps && e == BpsIncreasing
  }

  lemma {:induction false} CheckFromReports(tiers: seq<Tier>, from: nat) returns (i: nat)
    requires from <= |tiers| && CheckFrom(tiers, from).Fail?
    ensures from <= i < |tiers| && Breaks(tiers, i, CheckFrom(tiers, from).error)
    ensures forall k :: from <= k < i ==> TierFits(tiers, k)
    decreases |tiers| - from
  {
    if TierFits(tiers, from) {
      i := CheckFromReports(tiers, from + 1);
    } else {
      i := from;
    }
  }

  /** Validation reports the first rule that the first unfitting tier breaks, and an empty list as such. */
  lemma CheckReportsFirst(tiers: seq<Tier>) returns (i: nat)
    requires Check(tiers).Fail?
    ensures tiers == [] ==> Check(tiers) == Fail(NoTiers)
    ensures tiers != [] ==> i < |tiers| && Breaks(tiers, i, Check(tiers).error) && forall k :: 0 <= k < i ==> TierFits(tiers, k)
  {
    i := 0;
    if tiers != [] {
      i := CheckFromReports(tiers, 0);
    }
  }

  /** The first tier from `i` on that the volume does not reach. */
  function ReachedFrom(tiers: seq<Tier>, volume: i128, i: nat): (n: nat)
    requires i <= |tiers|
    ensures i <= n <= |tiers|
    ensures forall k :: i <= k < n ==> tiers[k].threshold <= volume
    ensures n < |tiers| ==> tiers[n].threshold > volume
    decreases |tiers| - i
  {
    if i == |tiers| || volume < tiers[i].threshold then i else ReachedFrom(tiers, volume, i + 1)
  }

  /** How many leading tiers the early-exit scan accepts. */
  function Reached(tiers: seq<Tier>, volume: i128): (n: nat)
    ensures n <= |tiers|
    ensures forall k :: 0 <= k < n ==> tiers[k].threshold <= volume
    ensures n < |tiers| ==> tiers[n].threshold > volume
  {
    ReachedFrom(tiers, volume, 0)
  }

  function Select(tiers: seq<Tier>, volume: i128): u32
    requires tiers != []
  {
    var n := Reached(tiers, volume);
    tiers[if n == 0 then 0 else n - 1].feeBps
  }

  method SelectFeeBps(tiers: seq<Tier>, volume: i128) returns (bps: u32)
    requires tiers != []
    ensures bps == Select(tiers, volume)
  {
    bps := tiers[0].feeBps;
    for i := 0 to |tiers|
      invariant i <= Reached(tiers, volume)
      invariant bps == tiers[if i == 0 then 0 else i - 1].feeBps
    {
      if volume >= tiers[i].threshold {
        bps := tiers[i].feeBps;
      } else {
        break;
      }
    }
  }

  /** On accepted tiers the scan finds the cheapest tier reached, which the first tier stands in for when none is. */
  lemma SelectIsCheapestReached(tiers: seq<Tier>, volume: i128)
    requires TiersOk(tiers)
    ensures forall i :: 0 <= i < |tiers| && tiers[i].threshold <= volume ==> Select(tiers, volume) <= tiers[i].feeBps
    ensures (exists i :: 0 <= i < |tiers| && tiers[i].threshold <= volume) ==>
              exists i :: 0 <= i < |tiers| && tiers[i].threshold <= volume && Select(tiers, volume) == tiers[i].feeBps
    ensures (forall i :: 0 <= i < |tiers| ==> tiers[i].threshold > volume) ==> Select(tiers, volume) == tiers[0].feeBps
    ensures Select(tiers, volume) <= tiers[0].feeBps <= 10_000
  {
    var n := Reached(tiers, volume);
    if n < |tiers| {
      assert forall i :: n <= i < |tiers| ==> tiers[n].threshold <= tiers[i].threshold;
    }
    if n > 0 {
      assert tiers[n - 1].threshold <= volume;
    }
  }

  /** More volume never costs more basis points. */
  lemma SelectAntitone(tiers: seq<Tier>, low: i128, high: i128)
    requires TiersOk(tiers) && low <= high
    ensures Select(tiers, high) <= Select(tiers, low)
  {
    assert Reached(tiers, low) <= Reached(tiers, high);
  }

  // ----- charging -----

  /** The merchant's volume as any call sees it at ledger `now`. */
  function Current(s: State, merchant: Address, now: u32): Volume {
    if merchant !in s.volumes then Volume(now, 0)
    else if SatSub(now, s.volumes[merchant].windowStart) >= WINDOW then Volume(now, 0)
    else s.volumes[merchant]
  }

  datatype Call =
    | SetTiers(caller: Address, tiers: seq<Tier>)
    | CalculateFee(merchant: Address, amount: i128)
    | GetVolume(merchant: Address)

  /** The fee on an amount, rounded down. */
  function FeeOf(amount: int, bps: int): (fee: int)
    requires amount > 0 && bps >= 0
    ensures 0 <= fee <= amount * bps
  {
    amount * bps / BPS_DENOMINATOR
  }

  function Step(admin: Address, s: State, call: Call, now: u32): Result<State, Panic> {
    match call
    case SetTiers(caller, tiers) =>
      :- Need(caller == admin, NotAdmin);
      :- Check(tiers);
      Ok(s.(tiers := tiers))
    case CalculateFee(merchant, amount) =>
      :- Need(amount > 0, AmountNotPositive);
      var v := Current(s, merchant, now);
      :- Need(v.amount + amount <= I128_MAX, VolumeOverflow);
      var volume := v.amount + amount;
      :- Need(s.tiers != [], NoTiers);
      var bps := Select(s.tiers, volume);
      :- Need(amount * bps <= I128_MAX, FeeOverflow);
      Ok(s.(volumes := s.volumes[merchant := Volume(v.windowStart, volume)],
            charges := s.charges + [Charge(merchant, v.windowStart, now, amount, FeeOf(amount, bps), bps)]))
    case GetVolume(merchant) =>
      Ok(s.(volumes := if merchant in s.volumes then s.volumes[merchant := Current(s, merchant, now)] else s.volumes))
  }

  function After(admin: Address, s: State, call: Call, now: u32): State {
    var r := Step(admin, s, call, now);
    if r.Ok? then r.value else s
  }

  class Contract {
    const admin: Address
    var tiers: seq<Tier>
    var volumes: map<Address, Volume>
    ghost var charges: seq<Charge>

    ghost function Snapshot(): State
      reads this
    {
      State(tiers, volumes, charges)
    }

    constructor (admin: Address, tiers: seq<Tier>)
      requires Check(tiers).Pass?
      ensures this.admin == admin && Snapshot() == State(tiers, map[], [])
    {
      this.admin := admin;
      this.tiers := tiers;
      volumes := map[];
      charges := [];
    }

    method SetFeeTiers(caller: Address, tiers: seq<Tier>, now: u32) returns (r: Outcome<Panic>)
      modifies this
      ensures Snapshot() == After(admin, old(Snapshot()), SetTiers(caller, tiers), now)
      ensures r.Pass? <==> caller == admin && Check(tiers).Pass?
    {
      if caller != admin { return Fail(NotAdmin); }
      r := ValidateTiers(tiers);
      if r.Fail? { return r; }
      this.tiers := tiers;
    }

    /** Restarts a lapsed window and adds the amount; the new volume is stored and returned. */
    method UpdateAndGetVolume(merchant: Address, amount: i128, now: u32) returns (r: Result<i128, Panic>)
      requires amount > 0
      modifies this`volumes
      ensures var v := Current(old(Snapshot()), merchant, now);
              if v.amount + amount <= I128_MAX
              then r == Ok(v.amount + amount) && volumes == old(volumes)[merchant := Volume(v.windowStart, v.amount + amount)]
              else r == Err(VolumeOverflow) && volumes == old(volumes)
    {
      var data := if merchant in volumes then volumes[merchant] else Volume(now, 0);
      if SatSub(now, data.windowStart) >= WINDOW {
        data := data.(windowStart := now);
        data := data.(amount := 0);
      }
      if data.amount + amount > I128_MAX { return Err(VolumeOverflow); }
      data := data.(amount := data.amount + amount);
      volumes := volumes[merchant := data];
      return Ok(data.amount);
    }

    /** A panic after the volume was stored rolls the volume back. */
    method CalculateFee(merchant: Address, amount: i128, now: u32) returns (r: Result<(i128, i128, u32), Panic>)
      modifies this
      ensures Snapshot() == After(admin, old(Snapshot()), Call.CalculateFee(merchant, amount), now)
      ensures match Step(admin, old(Snapshot()), Call.CalculateFee(merchant, amount), now)
              case Err(e) => r == Err(e)
              case Ok(after) =>
                var charge := after.charges[|after.charges| - 1];
                r == Ok((charge.fee, amount - charge.fee, charge.bps))
    {
      if amount <= 0 { return Err(AmountNotPositive); }
      var before := volumes;
      ghost var window := Current(Snapshot(), merchant, now).windowStart;

      var updated := UpdateAndGetVolume(merchant, amount, now);
      if updated.Err? { return Err(updated.error); }
      if tiers == [] {
        volumes := before;
        return Err(NoTiers);
      }
      var bps := SelectFeeBps(tiers, updated.value);
      if amount * bps > I128_MAX {
        volumes := before;
        return Err(FeeOverflow);
      }
      var fee := FeeOf(amount, bps);
      var net := amount - fee;
      charges := charges + [Charge(merchant, window, now, amount, fee, bps)];
      return Ok((fee, net, bps));
    }

    method GetMerchantVolume(merchant: Address, now: u32) returns (v: Volume)
      modifies this
      ensures v == Current(old(Snapshot()), merchant, now)
      ensures Snapshot() == After(admin, old(Snapshot()), GetVolume(merchant), now)
    {
      v := if merchant in volumes then volumes[merchant] else Volume(now, 0);
      if SatSub(now, v.windowStart) >= WINDOW {
        v := v.(windowStart := now);
        v := v.(amount := 0);
        volumes := volumes[merchant := v];
      }
      assert merchant in old(volumes) && v == old(volumes)[merchant] ==> volumes[merchant := v] == volumes;
    }
  }

  // ----- runs -----

  datatype Timed = Timed(call: Call, now: u32)

  /** Ledger numbers never go back. */
  predicate Clocked(calls: seq<Timed>) {
    forall i, j :: 0 <= i <= j < |calls| ==> calls[i].now <= calls[j].now
  }

  function Run(admin: Address, s: State, calls: seq<Timed>): State
    decreases |calls|
  {
    if calls == [] then s else Run(admin, After(admin, s, calls[0].call, calls[0].now), calls[1..])
  }

  function Start(tiers: seq<Tier>): State {
    State(tiers, map[], [])
  }

  /** The merchant's amounts charged at ledger `from` or later. */
  function ChargedSince(charges: seq<Charge>, m: Address, from: u32): int {
    if charges == [] then 0
    else
      var last := charges[|charges| - 1];
      ChargedSince(charges[..|charges| - 1], m, from) + if last.merchant == m && last.ledger >= from then last.amount else 0
  }

  predicate ChargeOk(volumes: map<Address, Volume>, clock: u32, c: Charge) {
    && c.merchant in volumes
    && c.window <= c.ledger < c.window + WINDOW
    && c.ledger <= clock
    && c.window <= volumes[c.merchant].windowStart
    && (c.ledger >= volumes[c.merchant].windowStart <==> c.window == volumes[c.merchant].windowStart)
  }

  predicate ChargesOk(volumes: map<Address, Volume>, charges: seq<Charge>, clock: u32) {
    forall i :: 0 <= i < |charges| ==> ChargeOk(volumes, clock, charges[i])
  }

  predicate VolumeOk(v: Volume, charges: seq<Charge>, m: Address, clock: u32) {
    v.windowStart <= clock && v.amount == ChargedSince(charges, m, v.windowStart)
  }

  predicate Inv(s: State, clock: u32) {
    && ChargesOk(s.volumes, s.charges, clock)
    && forall m :: m in s.volumes ==> VolumeOk(s.volumes[m], s.charges, m, clock)
  }

  lemma {:induction false} ChargedSinceNothing(charges: seq<Charge>, m: Address, from: u32)
    requires forall i :: 0 <= i < |charges| && charges[i].merchant == m ==> charges[i].ledger < from
    ensures ChargedSince(charges, m, from) == 0
    decreases |charges|
  {
    if charges != [] {
      ChargedSinceNothing(charges[..|charges| - 1], m, from);
    }
  }

  lemma CurrentAgrees(s: State, m: Address, now: u32)
    requires Inv(s, now)
    ensures var v := Current(s, m, now);
            v.windowStart <= now && v.amount == ChargedSince(s.charges, m, v.windowStart)
            && (m in s.volumes ==> s.volumes[m].windowStart <= v.windowStart)
  {
    if m !in s.volumes || SatSub(now, s.volumes[m].windowStart) >= WINDOW {
      forall i | 0 <= i < |s.charges| && s.charges[i].merchant == m ensures s.charges[i].ledger < now {
        assert ChargeOk(s.volumes, now, s.charges[i]);
      }
      ChargedSinceNothing(s.charges, m, now);
    }
  }

  lemma ChargedSinceSnoc(charges: seq<Charge>, c: Charge, m: Address, from: u32)
    ensures ChargedSince(charges + [c], m, from)
         == ChargedSince(charges, m, from) + if c.merchant == m && c.ledger >= from then c.amount else 0
  {
    assert (charges + [c])[..|charges|] == charges;
  }

  /** The stored window may move to the one a call sees; the charges stay consistent with it. */
  lemma RestartKeepsCharges(s: State, m: Address, now: u32, amount: i128)
    requires Inv(s, now)
    ensures var v := Current(s, m, now);
            forall i :: 0 <= i < |s.charges| ==> ChargeOk(s.volumes[m := Volume(v.windowStart, amount)], now, s.charges[i])
  {
    var v := Current(s, m, now);
    forall i | 0 <= i < |s.charges| ensures ChargeOk(s.volumes[m := Volume(v.windowStart, amount)], now, s.charges[i]) {
      assert ChargeOk(s.volumes, now, s.charges[i]);
    }
  }

  /** `s'` is `s` after the charge `c`, leaving out how the fee is computed. */
  predicate Charged(s: State, s': State, c: Charge)
    requires s.tiers != []
  {
    var v := Current(s, c.merchant, c.ledger);
    && c.amount > 0 && v.amount + c.amount <= I128_MAX
    && c.window == v.windowStart
    && c.bps == Select(s.tiers, v.amount + c.amount)
    && s'.tiers == s.tiers
    && s'.volumes == s.volumes[c.merchant := Volume(v.windowStart, v.amount + c.amount)]
    && s'.charges == s.charges + [c]
  }

  lemma ChargeKeepsCharges(s: State, s': State, c: Charge)
    requires s.tiers != [] && Inv(s, c.ledger) && Charged(s, s', c)
    ensures ChargesOk(s'.volumes, s'.charges, c.ledger)
  {
    CurrentAgrees(s, c.merchant, c.ledger);
    RestartKeepsCharges(s, c.merchant, c.ledger, s'.volumes[c.merchant].amount);
    forall i | 0 <= i < |s'.charges| ensures ChargeOk(s'.volumes, c.ledger, s'.charges[i]) {
      if i < |s.charges| {
        assert s'.charges[i] == s.charges[i];
      }
    }
  }

  lemma ChargeKeepsVolume(s: State, s': State, c: Charge, m: Address)
    requires s.tiers != [] && Inv(s, c.ledger) && Charged(s, s', c) && m in s'.volumes
    ensures VolumeOk(s'.volumes[m], s'.charges, m, c.ledger)
  {
    CurrentAgrees(s, c.merchant, c.ledger);
    ChargedSinceSnoc(s.charges, c, m, s'.volumes[m].windowStart);
    assert m != c.merchant ==> VolumeOk(s.volumes[m], s.charges, m, c.ledger);
  }

  lemma ChargeKeepsInv(s: State, s': State, c: Charge)
    requires s.tiers != [] && Inv(s, c.ledger) && Charged(s, s', c)
    ensures Inv(s', c.ledger)
  {
    ChargeKeepsCharges(s, s', c);
    forall m | m in s'.volumes ensures VolumeOk(s'.volumes[m], s'.charges, m, c.ledger) {
      ChargeKeepsVolume(s, s', c, m);
    }
  }

  lemma StepKeepsInv(admin: Address, s: State, call: Call, now: u32)
    requires Inv(s, now)
    ensures Inv(After(admin, s, call, now), now)
  {
    match call {
      case SetTiers(_, _) =>
      case CalculateFee(m, amount) =>
        if Step(admin, s, call, now).Ok? {
          var s' := Step(admin, s, call, now).value;
          ChargeKeepsInv(s, s', s'.charges[|s.charges|]);
        }
      case GetVolume(m) =>
        CurrentAgrees(s, m, now);
        RestartKeepsCharges(s, m, now, Current(s, m, now).amount);
    }
  }

  function EndClock(calls: seq<Timed>, clock: u32): u32 {
    if calls == [] then clock else calls[|calls| - 1].now
  }

  lemma ClockAdvances(s: State, clock: u32, now: u32)
    requires Inv(s, clock) && clock <= now
    ensures Inv(s, now)
  {
    forall i | 0 <= i < |s.charges| ensures ChargeOk(s.volumes, now, s.charges[i]) {
      assert ChargeOk(s.volumes, clock, s.charges[i]);
    }
  }

  lemma {:induction false} RunKeepsInv(admin: Address, s: State, calls: seq<Timed>, clock: u32)
    requires Inv(s, clock) && Clocked(calls)
    requires forall i :: 0 <= i < |calls| ==> clock <= calls[i].now
    ensures Inv(Run(admin, s, calls), EndClock(calls, clock))
    decreases |calls|
  {
    if calls != [] {
      var now := calls[0].now;
      ClockAdvances(s, clock, now);
      StepKeepsInv(admin, s, calls[0].call, now);
      RunKeepsInv(admin, After(admin, s, calls[0].call, now), calls[1..], now);
    }
  }

  /** Over every run a stored volume is the sum charged since its window began, all inside 172,800 ledgers. */
  lemma VolumeIsWindowSum(admin: Address, tiers: seq<Tier>, calls: seq<Timed>, m: Address)
    requires Clocked(calls)
    requires m in Run(admin, Start(tiers), calls).volumes
    ensures var s := Run(admin, Start(tiers), calls);
            var v := s.volumes[m];
            && v.amount == ChargedSince(s.charges, m, v.windowStart)
            && forall i :: 0 <= i < |s.charges| && s.charges[i].merchant == m && s.charges[i].ledger >= v.windowStart
                 ==> s.charges[i].window == v.windowStart && s.charges[i].ledger < v.windowStart + 172_800
  {
    RunKeepsInv(admin, Start(tiers), calls, 0);
  }

  /** Where the merchant's window begins as seen at ledger `now`: a window lasts 172,800 ledgers. */
  function WindowAt(s: State, m: Address, now: u32): u32 {
    if m in s.volumes && now < s.volumes[m].windowStart + 172_800 then s.volumes[m].windowStart else now
  }

  lemma CurrentIs(s: State, m: Address, now: u32)
    requires Inv(s, now)
    ensures var w := WindowAt(s, m, now);
            Current(s, m, now) == Volume(w, Current(s, m, now).amount) && Current(s, m, now).amount == ChargedSince(s.charges, m, w)
  {
    CurrentAgrees(s, m, now);
    assert m in s.volumes ==> VolumeOk(s.volumes[m], s.charges, m, now);
  }

  /** Over every run, reading a volume shows the amounts charged since its window began, and stores a restart exactly when
      172,800 ledgers have passed. */
  lemma ReadingShowsWindow(admin: Address, tiers: seq<Tier>, calls: seq<Timed>, m: Address, now: u32)
    requires Clocked(calls) && EndClock(calls, 0) <= now
    ensures var s := Run(admin, Start(tiers), calls);
            var s' := After(admin, s, GetVolume(m), now);
            var w := WindowAt(s, m, now);
            && Current(s, m, now).windowStart == w && Current(s, m, now).amount == ChargedSince(s.charges, m, w)
            && s'.volumes.Keys == s.volumes.Keys && s'.tiers == s.tiers && s'.charges == s.charges
            && (forall k :: k in s.volumes ==>
                  s'.volumes[k] == (if k == m && now >= s.volumes[m].windowStart + 172_800 then Volume(now, 0) else s.volumes[k]))
  {
    var s := Run(admin, Start(tiers), calls);
    RunKeepsInv(admin, Start(tiers), calls, 0);
    ClockAdvances(s, EndClock(calls, 0), now);
    CurrentIs(s, m, now);
    assert m in s.volumes ==> VolumeOk(s.volumes[m], s.charges, m, now);
  }

  /** The admin sets accepted tiers; nobody else, and nothing else, changes them, and setting them changes nothing else. */
  lemma TiersChangeExactlyWhen(admin: Address, s: State, call: Call, now: u32)
    ensures var s' := After(admin, s, call, now);
            && s'.tiers == (if call.SetTiers? && call.caller == admin && TiersOk(call.tiers) then call.tiers else s.tiers)
            && (call.SetTiers? ==> s'.volumes == s.volumes && s'.charges == s.charges)
            && (call.SetTiers? && call.caller != admin ==> Step(admin, s, call, now) == Err(NotAdmin))
  {
    if call.SetTiers? {
      CheckAcceptsExactly(call.tiers);
    }
  }

  // ----- fees -----

  lemma MulBound(a: int, x: int, y: int)
    requires 0 <= a && 0 <= x <= y
    ensures 0 <= a * x <= a * y
  {
  }

  lemma FeeIsFloor(amount: int, bps: int)
    requires amount > 0 && 0 <= bps <= 10_000
    ensures var fee := FeeOf(amount, bps);
            0 <= fee <= amount && fee * 10_000 <= amount * bps < (fee + 1) * 10_000
  {
    MulBound(amount, bps, 10_000);
  }

  /** What a charge records in a state where the merchant's window has seen `v`. */
  lemma ChargeCosts(admin: Address, s: State, m: Address, amount: i128, now: u32)
    requires TiersOk(s.tiers) && Step(admin, s, CalculateFee(m, amount), now).Ok?
    ensures var v := Current(s, m, now);
            var s' := Step(admin, s, CalculateFee(m, amount), now).value;
            && amount > 0 && v.amount + amount <= I128_MAX
            && var bps := Select(s.tiers, v.amount + amount);
            && s'.volumes == s.volumes[m := Volume(v.windowStart, v.amount + amount)]
            && s'.charges == s.charges + [Charge(m, v.windowStart, now, amount, FeeOf(amount, bps), bps)]
  {
  }

  /** On accepted tiers every charge splits its amount into a fee of at most the whole and the rest. */
  lemma FeeWithinAmount(admin: Address, s: State, m: Address, amount: i128, now: u32)
    requires TiersOk(s.tiers) && Step(admin, s, CalculateFee(m, amount), now).Ok?
    ensures var s' := Step(admin, s, CalculateFee(m, amount), now).value;
            var c := s'.charges[|s'.charges| - 1];
            && s'.charges == s.charges + [c] && c.amount == amount
            && 0 <= c.fee <= amount
            && c.fee * 10_000 <= amount * c.bps < (c.fee + 1) * 10_000
            && c.bps <= s.tiers[0].feeBps
  {
    var volume := Current(s, m, now).amount + amount;
    ChargeCosts(admin, s, m, amount, now);
    SelectIsCheapestReached(s.tiers, volume);
    FeeIsFloor(amount, Select(s.tiers, volume));
  }

  predicate CheapestReached(tiers: seq<Tier>, volume: int, bps: u32) {
    && tiers != []
    && (forall i :: 0 <= i < |tiers| && tiers[i].threshold <= volume ==> bps <= tiers[i].feeBps)
    && (bps == tiers[0].feeBps || exists i :: 0 <= i < |tiers| && tiers[i].threshold <= volume && bps == tiers[i].feeBps)
  }

  /** There is only one such price. */
  lemma CheapestUnique(tiers: seq<Tier>, volume: i128, bps: u32)
    requires TiersOk(tiers) && CheapestReached(tiers, volume, bps)
    ensures bps == Select(tiers, volume)
  {
    SelectIsCheapestReached(tiers, volume);
    if tiers[0].threshold <= volume {
      assert Reached(tiers, volume) > 0;
    }
  }

  lemma {:induction false} RunKeepsTiers(admin: Address, s: State, calls: seq<Timed>)
    requires TiersOk(s.tiers)
    ensures TiersOk(Run(admin, s, calls).tiers)
    decreases |calls|
  {
    if calls != [] {
      if calls[0].call.SetTiers? {
        CheckAcceptsExactly(calls[0].call.tiers);
      }
      RunKeepsTiers(admin, After(admin, s, calls[0].call, calls[0].now), calls[1..]);
    }
  }

  /** `s'` is `s` after a charge of `amount` at `now`, priced and counted by the charges before it. */
  predicate ChargedRight(s: State, s': State, m: Address, amount: int, now: u32) {
    && |s'.charges| == |s.charges| + 1
    && var c := s'.charges[|s.charges|];
    var volume := ChargedSince(s.charges, m, c.window) + amount;
    && s'.charges == s.charges + [c] && s'.tiers == s.tiers
    && c.window == WindowAt(s, m, now) && (c.merchant, c.ledger, c.amount) == (m, now, amount)
    && s'.volumes.Keys == s.volumes.Keys + {m}
    && s'.volumes[m].windowStart == c.window && s'.volumes[m].amount == volume
    && (forall k :: k in s.volumes && k != m ==> s'.volumes[k] == s.volumes[k])
    && CheapestReached(s.tiers, volume, c.bps) && c.fee == amount * c.bps / 10_000
  }

  lemma ChargeIsRight(admin: Address, s: State, m: Address, amount: i128, now: u32)
    requires TiersOk(s.tiers) && Inv(s, now) && Step(admin, s, CalculateFee(m, amount), now).Ok?
    ensures ChargedRight(s, Step(admin, s, CalculateFee(m, amount), now).value, m, amount, now)
  {
    CurrentIs(s, m, now);
    ChargeCosts(admin, s, m, amount, now);
    SelectIsCheapestReached(s.tiers, Current(s, m, now).amount + amount);
  }

  lemma RunReady(admin: Address, tiers: seq<Tier>, calls: seq<Timed>, now: u32)
    requires Check(tiers).Pass? && Clocked(calls) && EndClock(calls, 0) <= now
    ensures var s := Run(admin, Start(tiers), calls);
            TiersOk(s.tiers) && Inv(s, now)
  {
    CheckAcceptsExactly(tiers);
    RunKeepsTiers(admin, Start(tiers), calls);
    RunKeepsInv(admin, Start(tiers), calls, 0);
    ClockAdvances(Run(admin, Start(tiers), calls), EndClock(calls, 0), now);
  }

  /** Over every run a charge costs the cheapest tier that the amounts of its window, its own included, have reached. */
  lemma FeeByWindowVolume(admin: Address, tiers: seq<Tier>, calls: seq<Timed>, m: Address, amount: i128, now: u32)
    requires Check(tiers).Pass? && Clocked(calls) && EndClock(calls, 0) <= now
    requires Step(admin, Run(admin, Start(tiers), calls), CalculateFee(m, amount), now).Ok?
    ensures var s := Run(admin, Start(tiers), calls);
            ChargedRight(s, Step(admin, s, CalculateFee(m, amount), now).value, m, amount, now)
  {
    RunReady(admin, tiers, calls, now);
    ChargeIsRight(admin, Run(admin, Start(tiers), calls), m, amount, now);
  }

  lemma ChargeOutcome(admin: Address, s: State, m: Address, amount: i128, now: u32, bps: u32)
    requires TiersOk(s.tiers) && Inv(s, now)
    requires CheapestReached(s.tiers, ChargedSince(s.charges, m, WindowAt(s, m, now)) + amount, bps)
    ensures var r := Step(admin, s, CalculateFee(m, amount), now);
            var volume := ChargedSince(s.charges, m, WindowAt(s, m, now)) + amount;
            && (r.Ok? <==> amount > 0 && volume <= I128_MAX && amount * bps <= I128_MAX)
            && (amount <= 0 ==> r == Err(AmountNotPositive))
            && (amount > 0 && volume > I128_MAX ==> r == Err(VolumeOverflow))
            && (amount > 0 && volume <= I128_MAX && amount * bps > I128_MAX ==> r == Err(FeeOverflow))
  {
    var volume := ChargedSince(s.charges, m, WindowAt(s, m, now)) + amount;
    CurrentIs(s, m, now);
    if 0 < amount && volume <= I128_MAX {
      CheapestUnique(s.tiers, volume, bps);
    }
  }

  /** Over every run a positive amount is charged unless the volume of its window or the product with its price, the
      cheapest reached, leaves an i128. */
  lemma ChargeExactlyWhen(admin: Address, tiers: seq<Tier>, calls: seq<Timed>, m: Address, amount: i128, now: u32, bps: u32)
    requires Check(tiers).Pass? && Clocked(calls) && EndClock(calls, 0) <= now
    requires var s := Run(admin, Start(tiers), calls);
             CheapestReached(s.tiers, ChargedSince(s.charges, m, WindowAt(s, m, now)) + amount, bps)
    ensures var s := Run(admin, Start(tiers), calls);
            var r := Step(admin, s, CalculateFee(m, amount), now);
            var volume := ChargedSince(s.charges, m, WindowAt(s, m, now)) + amount;
            && (r.Ok? <==> amount > 0 && volume <= I128_MAX && amount * bps <= I128_MAX)
            && (amount <= 0 ==> r == Err(AmountNotPositive))
            && (amount > 0 && volume > I128_MAX ==> r == Err(VolumeOverflow))
            && (amount > 0 && volume <= I128_MAX && amount * bps > I128_MAX ==> r == Err(FeeOverflow))
  {
    RunReady(admin, tiers, calls, now);
    ChargeOutcome(admin, Run(admin, Start(tiers), calls), m, amount, now, bps);
  }

  predicate NoSetTiers(calls: seq<Timed>) {
    forall i :: 0 <= i < |calls| ==> !calls[i].call.SetTiers?
  }

  /** Within one window of one merchant, what is charged later is never charged more basis points. */
  predicate BpsNeverRise(charges: seq<Charge>) {
    forall i, j :: 0 <= i < j < |charges| && charges[i].merchant == charges[j].merchant && charges[i].window == charges[j].window
      ==> charges[j].bps <= charges[i].bps
  }

  function SumFees(charges: seq<Charge>, m: Address, window: u32): int {
    if charges == [] then 0
    else
      var last := charges[|charges| - 1];
      SumFees(charges[..|charges| - 1], m, window) + if last.merchant == m && last.window == window then last.fee else 0
  }

  function SumAmounts(charges: seq<Charge>, m: Address, window: u32): int {
    if charges == [] then 0
    else
      var last := charges[|charges| - 1];
      SumAmounts(charges[..|charges| - 1], m, window) + if last.merchant == m && last.window == window then last.amount else 0
  }

  /** The charge was not cheaper than the tier its window has reached by now. */
  predicate FloorOk(tiers: seq<Tier>, volumes: map<Address, Volume>, c: Charge)
    requires tiers != []
  {
    && c.merchant in volumes
    && (c.window == volumes[c.merchant].windowStart ==> Select(tiers, volumes[c.merchant].amount) <= c.bps)
  }

  predicate BpsFloor(tiers: seq<Tier>, volumes: map<Address, Volume>, late: seq<Charge>)
    requires tiers != []
  {
    forall i :: 0 <= i < |late| ==> FloorOk(tiers, volumes, late[i])
  }

  /** The fees F of every window satisfy 10000 F <= bps * amounts. */
  ghost predicate FeesWithin(late: seq<Charge>, bps: u32) {
    forall m, w :: 10_000 * SumFees(late, m, w) <= bps * SumAmounts(late, m, w)
  }

  /** What holds of the charges `late` made since the tiers were last set. */
  ghost predicate FeesInv(tiers: seq<Tier>, s: State, late: seq<Charge>)
    requires tiers != []
  {
    && s.tiers == tiers
    && BpsNeverRise(late)
    && BpsFloor(tiers, s.volumes, late)
    && FeesWithin(late, tiers[0].feeBps)
  }

  lemma SumsSnoc(charges: seq<Charge>, c: Charge, m: Address, w: u32)
    ensures SumFees(charges + [c], m, w) == SumFees(charges, m, w) + if c.merchant == m && c.window == w then c.fee else 0
    ensures SumAmounts(charges + [c], m, w) == SumAmounts(charges, m, w) + if c.merchant == m && c.window == w then c.amount else 0
  {
    assert (charges + [c])[..|charges|] == charges;
  }

  lemma WindowBpsAbove(tiers: seq<Tier>, s: State, before: Charge, c: Charge)
    requires TiersOk(tiers) && ChargeOk(s.volumes, c.ledger, before) && FloorOk(tiers, s.volumes, before)
    requires before.merchant == c.merchant && before.window == Current(s, c.merchant, c.ledger).windowStart
    requires c.amount > 0 && Current(s, c.merchant, c.ledger).amount + c.amount <= I128_MAX
    ensures Select(tiers, Current(s, c.merchant, c.ledger).amount + c.amount) <= before.bps
  {
    var v := Current(s, c.merchant, c.ledger);
    SelectAntitone(tiers, v.amount, v.amount + c.amount);
  }

  lemma ChargeKeepsNeverRise(tiers: seq<Tier>, s: State, s': State, c: Charge, late: seq<Charge>)
    requires TiersOk(tiers) && s.tiers == tiers && Charged(s, s', c) && ChargesOk(s.volumes, late, c.ledger)
    requires BpsNeverRise(late) && BpsFloor(tiers, s.volumes, late)
    ensures BpsNeverRise(late + [c])
  {
    forall i | 0 <= i < |late| && late[i].merchant == c.merchant && late[i].window == c.window
      ensures c.bps <= late[i].bps
    {
      WindowBpsAbove(tiers, s, late[i], c);
    }
  }

  lemma ChargeKeepsFloorOf(tiers: seq<Tier>, s: State, s': State, c: Charge, before: Charge)
    requires TiersOk(tiers) && s.tiers == tiers && Charged(s, s', c)
    requires ChargeOk(s.volumes, c.ledger, before) && FloorOk(tiers, s.volumes, before)
    ensures FloorOk(tiers, s'.volumes, before)
  {
    if before.merchant == c.merchant && before.window == c.window {
      WindowBpsAbove(tiers, s, before, c);
    }
  }

  lemma ChargeKeepsFloor(tiers: seq<Tier>, s: State, s': State, c: Charge, late: seq<Charge>)
    requires TiersOk(tiers) && s.tiers == tiers && Charged(s, s', c) && ChargesOk(s.volumes, late, c.ledger)
    requires BpsFloor(tiers, s.volumes, late)
    ensures BpsFloor(tiers, s'.volumes, late + [c])
  {
    forall i | 0 <= i < |late + [c]| ensures FloorOk(tiers, s'.volumes, (late + [c])[i]) {
      if i < |late| {
        ChargeKeepsFloorOf(tiers, s, s', c, late[i]);
      }
    }
  }

  lemma Distribute(x: int, a: int, b: int)
    ensures x * (a + b) == x * a + x * b
  {
  }

  lemma ChargeKeepsSums(late: seq<Charge>, c: Charge, bps: u32)
    requires FeesWithin(late, bps) && 10_000 * c.fee <= bps * c.amount
    ensures FeesWithin(late + [c], bps)
  {
    forall a, w ensures 10_000 * SumFees(late + [c], a, w) <= bps * SumAmounts(late + [c], a, w) {
      SumsSnoc(late, c, a, w);
      Distribute(bps, SumAmounts(late, a, w), c.amount);
    }
  }

  lemma ChargeKeepsFees(tiers: seq<Tier>, s: State, s': State, c: Charge, late: seq<Charge>)
    requires TiersOk(tiers) && ChargesOk(s.volumes, late, c.ledger) && FeesInv(tiers, s, late) && Charged(s, s', c)
    requires 10_000 * c.fee <= tiers[0].feeBps * c.amount
    ensures FeesInv(tiers, s', late + [c])
  {
    ChargeKeepsNeverRise(tiers, s, s', c, late);
    ChargeKeepsFloor(tiers, s, s', c, late);
    ChargeKeepsSums(late, c, tiers[0].feeBps);
  }

  lemma ReadKeepsFees(admin: Address, tiers: seq<Tier>, s: State, m: Address, now: u32, late: seq<Charge>)
    requires TiersOk(tiers) && ChargesOk(s.volumes, late, now) && FeesInv(tiers, s, late)
    ensures FeesInv(tiers, After(admin, s, GetVolume(m), now), late)
  {
    var s' := After(admin, s, GetVolume(m), now);
    forall i | 0 <= i < |late| ensures FloorOk(tiers, s'.volumes, late[i]) {
      assert ChargeOk(s.volumes, now, late[i]) && FloorOk(tiers, s.volumes, late[i]);
    }
  }

  lemma CalculateKeepsFees(admin: Address, tiers: seq<Tier>, s: State, m: Address, amount: i128, now: u32, late: seq<Charge>)
    requires TiersOk(tiers) && ChargesOk(s.volumes, late, now) && FeesInv(tiers, s, late)
    requires Step(admin, s, CalculateFee(m, amount), now).Ok?
    ensures var s' := Step(admin, s, CalculateFee(m, amount), now).value;
            |s'.charges| == |s.charges| + 1 && s'.charges[..|s.charges|] == s.charges
            && FeesInv(tiers, s', late + [s'.charges[|s.charges|]])
  {
    var s' := Step(admin, s, CalculateFee(m, amount), now).value;
    var c := s'.charges[|s.charges|];
    FeeWithinAmount(admin, s, m, amount, now);
    MulBound(amount, c.bps, tiers[0].feeBps);
    ChargeKeepsFees(tiers, s, s', c, late);
  }

  lemma StepKeepsFees(admin: Address, tiers: seq<Tier>, s: State, call: Call, now: u32, from: nat)
    requires TiersOk(tiers) && Inv(s, now) && !call.SetTiers?
    requires from <= |s.charges| && FeesInv(tiers, s, s.charges[from..])
    ensures var s' := After(admin, s, call, now);
            from <= |s'.charges| && FeesInv(tiers, s', s'.charges[from..])
  {
    var late, s' := s.charges[from..], After(admin, s, call, now);
    assert ChargesOk(s.volumes, late, now);
    if call.GetVolume? {
      ReadKeepsFees(admin, tiers, s, call.merchant, now, late);
    } else if Step(admin, s, call, now).Ok? {
      CalculateKeepsFees(admin, tiers, s, call.merchant, call.amount, now, late);
      assert s'.charges == s.charges + [s'.charges[|s.charges|]];
      assert s'.charges[from..] == late + [s'.charges[|s.charges|]];
    }
  }

  lemma {:induction false} RunKeepsFees(admin: Address, tiers: seq<Tier>, s: State, calls: seq<Timed>, clock: u32, from: nat)
    requires TiersOk(tiers) && Inv(s, clock) && from <= |s.charges| && FeesInv(tiers, s, s.charges[from..])
    requires Clocked(calls) && NoSetTiers(calls)
    requires forall i :: 0 <= i < |calls| ==> clock <= calls[i].now
    ensures var s' := Run(admin, s, calls);
            from <= |s'.charges| && FeesInv(tiers, s', s'.charges[from..])
    decreases |calls|
  {
    if calls != [] {
      var now := calls[0].now;
      ClockAdvances(s, clock, now);
      StepKeepsFees(admin, tiers, s, calls[0].call, now, from);
      StepKeepsInv(admin, s, calls[0].call, now);
      RunKeepsFees(admin, tiers, After(admin, s, calls[0].call, now), calls[1..], now, from);
    }
  }

  lemma {:induction false} WindowSumsAgree(charges: seq<Charge>, m: Address, window: u32)
    requires forall i :: 0 <= i < |charges| && charges[i].merchant == m ==>
               (charges[i].ledger >= window <==> charges[i].window == window)
    ensures SumAmounts(charges, m, window) == ChargedSince(charges, m, window)
    decreases |charges|
  {
    if charges != [] {
      WindowSumsAgree(charges[..|charges| - 1], m, window);
    }
  }

  lemma CurrentWindowSum(s: State, m: Address, clock: u32)
    requires Inv(s, clock) && m in s.volumes
    ensures SumAmounts(s.charges, m, s.volumes[m].windowStart) == s.volumes[m].amount
  {
    var window := s.volumes[m].windowStart;
    forall i | 0 <= i < |s.charges| && s.charges[i].merchant == m
      ensures s.charges[i].ledger >= window <==> s.charges[i].window == window
    {
      assert ChargeOk(s.volumes, clock, s.charges[i]);
    }
    WindowSumsAgree(s.charges, m, window);
    assert VolumeOk(s.volumes[m], s.charges, m, clock);
  }

  /** After any run, while the tiers then stay fixed: of the charges made since, bps never rise within a window, and the
      fees F of every window satisfy 10000 F <= first-tier bps * amounts. The amounts of all charges of the current
      window are the stored volume. */
  lemma FeesOverWindow(admin: Address, tiers: seq<Tier>, calls: seq<Timed>, more: seq<Timed>, m: Address, window: u32)
    requires Check(tiers).Pass? && Clocked(calls) && Clocked(more) && NoSetTiers(more)
    requires forall i :: 0 <= i < |more| ==> EndClock(calls, 0) <= more[i].now
    ensures var s := Run(admin, Start(tiers), calls);
            var s' := Run(admin, s, more);
            && |s.charges| <= |s'.charges| && s.tiers != []
            && var late := s'.charges[|s.charges|..];
            && BpsNeverRise(late)
            && 10_000 * SumFees(late, m, window) <= s.tiers[0].feeBps * SumAmounts(late, m, window)
            && (m in s'.volumes && window == s'.volumes[m].windowStart
                ==> SumAmounts(s'.charges, m, window) == s'.volumes[m].amount)
  {
    var s := Run(admin, Start(tiers), calls);
    CheckAcceptsExactly(tiers);
    RunKeepsTiers(admin, Start(tiers), calls);
    RunKeepsInv(admin, Start(tiers), calls, 0);
    RunKeepsFees(admin, s.tiers, s, more, EndClock(calls, 0), |s.charges|);
    RunKeepsInv(admin, s, more, EndClock(calls, 0));
    if m in Run(admin, s, more).volumes {
      CurrentWindowSum(Run(admin, s, more), m, EndClock(more, EndClock(calls, 0)));
    }
  }
}
