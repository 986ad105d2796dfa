/**
  What the escrow keeps over every run: the log explains all balances, the contract's funds
  match its obligations, each payment is paid out exactly once, and no open payment is stuck.
 */
module PaymentEscrowProofs {
  import opened Prelude
  import opened PaymentEscrow

  // ----- runs -----

  /** A call and the ledger it executes at. */
  datatype Timed = Timed(call: Call, now: u32)

  /** Only the contract's own code can spend the contract's tokens. */
  predicate Legal(c: Config, call: Call) {
    match call
    case Deposit(customer, _, _, _, _, _, _) => customer != c.self
    case OutsideTransfer(_, from, _, _) => from != c.self
    case _ => true
  }

  predicate AllLegal(c: Config, calls: seq<Timed>) {
    forall i :: 0 <= i < |calls| ==> Legal(c, calls[i].call)
  }

  function Start(balances: Balances): State {
    State(map[], 0, balances, [])
  }

  function Run(c: Config, s: State, calls: seq<Timed>): State
    decreases |calls|
  {
    if calls == [] then s else Run(c, After(c, s, calls[0].call, calls[0].now), calls[1..])
  }

  // ----- reading the log -----

  datatype Meter =
    | Flow(token: Address, holder: Address)
    | Deposits(token: Address)
    | Payouts(token: Address)
    | DrainedOut(token: Address, self: Address)
    | Donated(token: Address, self: Address)
    | DepositOf(id: PaymentId)
    | ToMerchant(id: PaymentId)
    | ToCustomer(id: PaymentId)

  function Reading(m: Meter, e: Entry): int {
    match m
    case Flow(token, holder) =>
      if e.token == token
      then (if e.to == holder then e.amount else 0) - (if e.from == holder then e.amount else 0)
      else 0
    case Deposits(token) => if e.token == token && e.purpose.Deposited? then e.amount else 0
    case Payouts(token) =>
      if e.token == token && (e.purpose.PaidMerchant? || e.purpose.PaidCustomer?) then e.amount else 0
    case DrainedOut(token, self) =>
      if e.token == token && e.purpose.Drained? && e.to != self then e.amount else 0
    case Donated(token, self) =>
      if e.token == token && e.to == self && !e.purpose.Deposited? && !e.purpose.Drained? then e.amount else 0
    case DepositOf(id) => if e.purpose == Deposited(id) then e.amount else 0
    case ToMerchant(id) => if e.purpose == PaidMerchant(id) then e.amount else 0
    case ToCustomer(id) => if e.purpose == PaidCustomer(id) then e.amount else 0
  }

  function Total(m: Meter, log: seq<Entry>): int {
    if log == [] then 0 else Total(m, log[..|log| - 1]) + Reading(m, log[|log| - 1])
  }

  lemma TotalSnoc(m: Meter, log: seq<Entry>, e: Entry)
    ensures Total(m, log + [e]) == Total(m, log) + Reading(m, e)
  {
    assert (log + [e])[..|log|] == log;
  }

  // ----- what is owed -----

  function Owed(c: Config, p: Payment, token: Address): int {
    if c.TokenOf(p.asset) == token then p.amount - p.released else 0
  }

  /** The sum of `amount - released` over all payments held in `token`. */
  ghost function Outstanding(c: Config, payments: map<PaymentId, Payment>, token: Address): int {
    if payments == map[] then 0
    else
      var id :| id in payments;
      Owed(c, payments[id], token) + Outstanding(c, payments - {id}, token)
  }

  lemma {:induction false} OutstandingSplit(c: Config, payments: map<PaymentId, Payment>, token: Address, id: PaymentId)
    requires id in payments
    ensures Outstanding(c, payments, token) == Owed(c, payments[id], token) + Outstanding(c, payments - {id}, token)
    decreases |payments|
  {
    var first :| first in payments
      && Outstanding(c, payments, token) == Owed(c, payments[first], token) + Outstanding(c, payments - {first}, token);
    if first != id {
      OutstandingSplit(c, payments - {first}, token, id);
      OutstandingSplit(c, payments - {id}, token, first);
      assert payments - {first} - {id} == payments - {id} - {first};
    }
  }

  lemma OutstandingPut(c: Config, payments: map<PaymentId, Payment>, token: Address, id: PaymentId, p: Payment)
    ensures Outstanding(c, payments[id := p], token) == Outstanding(c, payments, token)
      + Owed(c, p, token) - (if id in payments then Owed(c, payments[id], token) else 0)
  {
    OutstandingSplit(c, payments[id := p], token, id);
    assert payments[id := p] - {id} == payments - {id};
    if id in payments {
      OutstandingSplit(c, payments, token, id);
    } else {
      assert payments - {id} == payments;
    }
  }

  // ----- payments -----

  predicate PaymentOk(p: Payment) {
    && 0 < p.amount
    && 0 <= p.released <= p.amount
    && (p.released < p.amount <==> p.Open())
    && p.disputeWindowEnd <= p.expiry
  }

  predicate PaymentsOk(s: State) {
    forall id :: id in s.payments ==> s.payments[id].id == id && PaymentOk(s.payments[id])
  }

  // ----- the six things a call can do -----

  datatype Kind =
    | Still
    | Depositing(id: PaymentId)
    | Paying(id: PaymentId, toMerchant: bool, amount: nat)
    | Disputing(id: PaymentId, reason: string)
    | Draining(now: u32)
    | Donating

  /** `s'` is `s` after the one movement `e`, as far as tokens and the log go. */
  ghost predicate Moved(s: State, s': State, e: Entry) {
    && s'.log == s.log + [e]
    && forall t, h :: Balance(s'.balances, t, h) == Balance(s.balances, t, h) + Reading(Flow(t, h), e)
  }

  function Paid(p: Payment, toMerchant: bool, amount: nat): Payment
    requires p.released + amount <= p.amount
    requires 0 <= p.released
  {
    var released := p.released + amount;
    var status := if !toMerchant then Expired else if released == p.amount then Released else p.status;
    p.(released := released, status := status)
  }

  ghost predicate Effect(c: Config, s: State, s': State, kind: Kind) {
    match kind
    case Still => s' == s
    case Depositing(id) =>
      && id !in s.payments && id in s'.payments
      && var p := s'.payments[id];
      && s'.payments == s.payments[id := p] && s'.lastDrain == s.lastDrain
      && p.id == id && p.status.Pending? && p.released == 0 && PaymentOk(p) && p.customer != c.self
      && Moved(s, s', Entry(Deposited(id), c.TokenOf(p.asset), p.customer, c.self, p.amount))
    case Paying(id, toMerchant, amount) =>
      && id in s.payments
      && var p := s.payments[id];
      && p.Open() && 0 < amount && 0 <= p.released && p.released + amount <= p.amount
      && ((toMerchant && p.status.Pending?) || p.released + amount == p.amount)
      && s'.payments == s.payments[id := Paid(p, toMerchant, amount)] && s'.lastDrain == s.lastDrain
      && Moved(s, s', Entry(if toMerchant then PaidMerchant(id) else PaidCustomer(id), c.TokenOf(p.asset), c.self,
                            if toMerchant then p.merchant else p.customer, amount))
    case Disputing(id, reason) =>
      && id in s.payments && s.payments[id].status.Pending?
      && s' == s.(payments := s.payments[id := s.payments[id].(status := Disputed, disputeReason := Some(reason))])
    case Draining(now) =>
      && s'.payments == s.payments && s'.lastDrain == now
      && (s.lastDrain == 0 || SatAdd(s.lastDrain, c.cooldown) <= now)
      && Moved(s, s', Entry(Drained(now), c.usdcToken, c.self, c.treasury, Balance(s.balances, c.usdcToken, c.self)))
    case Donating =>
      && s'.payments == s.payments && s'.lastDrain == s.lastDrain
      && |s'.log| == |s.log| + 1
      && var e := s'.log[|s.log|];
      && e.purpose == Outside && e.from != c.self
      && Moved(s, s', e)
  }

  lemma MoveMoves(s: State, purpose: Purpose, token: Address, from: Address, to: Address, amount: nat)
    requires Move(s, purpose, token, from, to, amount).Ok?
    ensures var s' := Move(s, purpose, token, from, to, amount).value;
            s'.payments == s.payments && s'.lastDrain == s.lastDrain
            && Moved(s, s', Entry(purpose, token, from, to, amount))
  {
  }

  lemma DepositKind(c: Config, s: State, call: Call, now: u32)
    requires PaymentsOk(s) && Legal(c, call) && call.Deposit? && Step(c, s, call, now).Ok?
    ensures Effect(c, s, Step(c, s, call, now).value, Depositing(call.id))
  {
    MoveMoves(s, Deposited(call.id), c.TokenOf(call.asset), call.customer, c.self, call.amount);
    var moved := Move(s, Deposited(call.id), c.TokenOf(call.asset), call.customer, c.self, call.amount).value;
    var p := NewPayment(call.id, call.customer, call.merchant, call.amount, call.ttl, call.asset, now);
    assert Step(c, s, call, now).value == moved.(payments := moved.payments[call.id := p]);
  }

  lemma CloseKind(c: Config, s: State, id: PaymentId, toMerchant: bool, to: Address)
    requires PaymentsOk(s) && id in s.payments && s.payments[id].Open()
    requires to == if toMerchant then s.payments[id].merchant else s.payments[id].customer
    requires Close(c, s, id, s.payments[id], toMerchant, to).Ok?
    ensures Effect(c, s, Close(c, s, id, s.payments[id], toMerchant, to).value,
                   Paying(id, toMerchant, s.payments[id].Remaining()))
  {
    var p := s.payments[id];
    MoveMoves(s, if toMerchant then PaidMerchant(id) else PaidCustomer(id), c.TokenOf(p.asset), c.self, to, p.Remaining());
  }

  lemma PartialKind(c: Config, s: State, call: Call, now: u32)
    requires PaymentsOk(s) && call.ReleasePartial? && Step(c, s, call, now).Ok?
    ensures Effect(c, s, Step(c, s, call, now).value, Paying(call.id, true, call.amount))
  {
    var p := s.payments[call.id];
    MoveMoves(s, PaidMerchant(call.id), c.TokenOf(p.asset), c.self, p.merchant, call.amount);
  }

  lemma DrainKind(c: Config, s: State, call: Call, now: u32)
    requires call.EmergencyDrain? && Step(c, s, call, now).Ok?
    ensures Effect(c, s, Step(c, s, call, now).value, Draining(now))
  {
    MoveMoves(s, Drained(now), c.usdcToken, c.self, c.treasury, Balance(s.balances, c.usdcToken, c.self));
  }

  /** What is left of a payment. */
  function Rest(s: State, id: PaymentId): nat {
    if id in s.payments && s.payments[id].released < s.payments[id].amount
    then s.payments[id].amount - s.payments[id].released
    else 0
  }

  /** What each call does when it is accepted: whom it pays and how much. */
  function KindOf(s: State, call: Call, now: u32): Kind {
    match call
    case Deposit(_, id, _, _, _, _, _) => Depositing(id)
    case Release(_, id) => Paying(id, true, Rest(s, id))
    case ReleasePartial(_, id, amount) => Paying(id, true, if amount > 0 then amount else 0)
    case Expire(id) => Paying(id, false, Rest(s, id))
    case Refund(id) => Paying(id, false, Rest(s, id))
    case Dispute(_, id, reason) => Disputing(id, reason)
    case ResolveDispute(_, id, winner) => Paying(id, id in s.payments && winner == s.payments[id].merchant, Rest(s, id))
    case EmergencyDrain(_, _, _) => Draining(now)
    case OutsideTransfer(_, _, _, _) => Donating
  }

  lemma StepKind(c: Config, s: State, call: Call, now: u32) returns (kind: Kind)
    requires PaymentsOk(s) && Legal(c, call)
    ensures Effect(c, s, After(c, s, call, now), kind)
    ensures kind == if Step(c, s, call, now).Ok? then KindOf(s, call, now) else Still
  {
    var r := Step(c, s, call, now);
    if r.Err? { return Still; }
    match call {
      case Deposit(_, id, _, _, _, _, _) =>
        DepositKind(c, s, call, now);
        return Depositing(id);
      case Release(_, id) =>
        CloseKind(c, s, id, true, s.payments[id].merchant);
        return Paying(id, true, s.payments[id].Remaining());
      case ReleasePartial(_, id, amount) =>
        PartialKind(c, s, call, now);
        return Paying(id, true, amount);
      case Expire(id) =>
        CloseKind(c, s, id, false, s.payments[id].customer);
        return Paying(id, false, s.payments[id].Remaining());
      case Refund(id) =>
        CloseKind(c, s, id, false, s.payments[id].customer);
        return Paying(id, false, s.payments[id].Remaining());
      case Dispute(_, id, reason) =>
        return Disputing(id, reason);
      case ResolveDispute(_, id, winner) =>
        CloseKind(c, s, id, winner == s.payments[id].merchant, winner);
        return Paying(id, winner == s.payments[id].merchant, s.payments[id].Remaining());
      case EmergencyDrain(_, _, _) =>
        DrainKind(c, s, call, now);
        return Draining(now);
      case OutsideTransfer(token, from, to, quantity) =>
        MoveMoves(s, Outside, token, from, to, quantity);
        return Donating;
    }
  }

  // ----- the invariant -----

  /** Every balance is its initial value plus what the log moved. */
  ghost predicate Explained(initial: Balances, s: State) {
    forall t, h :: Balance(s.balances, t, h) == Balance(initial, t, h) + Total(Flow(t, h), s.log)
  }

  ghost predicate ObligationsLogged(c: Config, s: State) {
    forall t :: Outstanding(c, s.payments, t) == Total(Deposits(t), s.log) - Total(Payouts(t), s.log)
  }

  /** What the log says about one payment agrees with the stored payment. */
  predicate Audited(s: State, id: PaymentId) {
    var deposited, merchant, customer := Total(DepositOf(id), s.log), Total(ToMerchant(id), s.log), Total(ToCustomer(id), s.log);
    if id in s.payments then
      var p := s.payments[id];
      && deposited == p.amount
      && 0 <= merchant && 0 <= customer
      && merchant + customer == p.released
      && (customer > 0 <==> p.status.Expired?)
    else deposited == merchant == customer == 0
  }

  ghost predicate AllAudited(s: State) {
    forall id :: Audited(s, id)
  }

  predicate EntryOk(c: Config, payments: map<PaymentId, Payment>, e: Entry) {
    match e.purpose
    case Deposited(id) =>
      id in payments && e.from == payments[id].customer != c.self && e.to == c.self && e.token == c.TokenOf(payments[id].asset)
    case PaidMerchant(id) =>
      id in payments && e.from == c.self && e.to == payments[id].merchant && e.token == c.TokenOf(payments[id].asset)
    case PaidCustomer(id) =>
      id in payments && e.from == c.self && e.to == payments[id].customer && e.token == c.TokenOf(payments[id].asset)
    case Drained(_) => e.from == c.self && e.to == c.treasury && e.token == c.usdcToken
    case Outside => e.from != c.self
  }

  predicate EntriesOk(c: Config, s: State) {
    forall i :: 0 <= i < |s.log| ==> EntryOk(c, s.payments, s.log[i])
  }

  /** Two drains are a cooldown apart, unless the first was at ledger 0, which the contract reads as "never". */
  predicate DrainsSpaced(c: Config, log: seq<Entry>) {
    forall i, j :: 0 <= i < j < |log| && log[i].purpose.Drained? && log[j].purpose.Drained? && log[i].purpose.at != 0
      ==> SatAdd(log[i].purpose.at, c.cooldown) <= log[j].purpose.at
  }

  predicate LastDrainOk(s: State) {
    forall i :: 0 <= i < |s.log| && s.log[i].purpose.Drained? ==> s.log[i].purpose.at <= s.lastDrain
  }

  ghost predicate Inv(c: Config, initial: Balances, s: State) {
    && PaymentsOk(s)
    && Explained(initial, s)
    && ObligationsLogged(c, s)
    && AllAudited(s)
    && EntriesOk(c, s)
    && DrainsSpaced(c, s.log)
    && LastDrainOk(s)
  }

  lemma KeepsExplained(c: Config, initial: Balances, s: State, s': State, kind: Kind)
    requires Effect(c, s, s', kind) && Explained(initial, s)
    ensures Explained(initial, s')
  {
    if |s'.log| > |s.log| {
      var e := s'.log[|s.log|];
      assert s'.log == s.log + [e];
      forall t, h ensures Balance(s'.balances, t, h) == Balance(initial, t, h) + Total(Flow(t, h), s'.log) {
        TotalSnoc(Flow(t, h), s.log, e);
      }
    }
  }

  lemma KeepsObligations(c: Config, s: State, s': State, kind: Kind)
    requires Effect(c, s, s', kind) && ObligationsLogged(c, s)
    ensures ObligationsLogged(c, s')
  {
    forall t ensures Outstanding(c, s'.payments, t) == Total(Deposits(t), s'.log) - Total(Payouts(t), s'.log) {
      if |s'.log| > |s.log| {
        var e := s'.log[|s.log|];
        assert s'.log == s.log + [e];
        TotalSnoc(Deposits(t), s.log, e);
        TotalSnoc(Payouts(t), s.log, e);
      }
      match kind {
        case Depositing(id) => OutstandingPut(c, s.payments, t, id, s'.payments[id]);
        case Paying(id, _, _) => OutstandingPut(c, s.payments, t, id, s'.payments[id]);
        case Disputing(id, _) => OutstandingPut(c, s.payments, t, id, s'.payments[id]);
        case _ =>
      }
    }
  }

  lemma AuditSnoc(log: seq<Entry>, e: Entry, id: PaymentId)
    ensures Total(DepositOf(id), log + [e]) == Total(DepositOf(id), log) + Reading(DepositOf(id), e)
    ensures Total(ToMerchant(id), log + [e]) == Total(ToMerchant(id), log) + Reading(ToMerchant(id), e)
    ensures Total(ToCustomer(id), log + [e]) == Total(ToCustomer(id), log) + Reading(ToCustomer(id), e)
  {
    TotalSnoc(DepositOf(id), log, e);
    TotalSnoc(ToMerchant(id), log, e);
    TotalSnoc(ToCustomer(id), log, e);
  }

  lemma PayingKeepsAudited(c: Config, s: State, s': State, kind: Kind, id: PaymentId)
    requires kind.Paying? && Effect(c, s, s', kind) && PaymentsOk(s) && Audited(s, id)
    ensures Audited(s', id)
  {
    var e := s'.log[|s.log|];
    assert s'.log == s.log + [e];
    AuditSnoc(s.log, e, id);
  }

  lemma DepositKeepsAudited(c: Config, s: State, s': State, kind: Kind, id: PaymentId)
    requires kind.Depositing? && Effect(c, s, s', kind) && Audited(s, id)
    ensures Audited(s', id)
  {
    AuditSnoc(s.log, s'.log[|s.log|], id);
  }

  lemma OtherKeepsAudited(c: Config, s: State, s': State, kind: Kind, id: PaymentId)
    requires !kind.Depositing? && !kind.Paying? && Effect(c, s, s', kind) && Audited(s, id)
    ensures Audited(s', id)
  {
    if |s'.log| > |s.log| {
      assert s'.log == s.log + [s'.log[|s.log|]];
      AuditSnoc(s.log, s'.log[|s.log|], id);
    }
  }

  lemma KeepsAudited(c: Config, s: State, s': State, kind: Kind, id: PaymentId)
    requires Effect(c, s, s', kind) && PaymentsOk(s) && Audited(s, id)
    ensures Audited(s', id)
  {
    match kind
    case Depositing(_) => DepositKeepsAudited(c, s, s', kind, id);
    case Paying(_, _, _) => PayingKeepsAudited(c, s, s', kind, id);
    case _ => OtherKeepsAudited(c, s, s', kind, id);
  }

  lemma KeepsAllAudited(c: Config, s: State, s': State, kind: Kind)
    requires Effect(c, s, s', kind) && PaymentsOk(s) && AllAudited(s)
    ensures AllAudited(s')
  {
    forall id ensures Audited(s', id) {
      KeepsAudited(c, s, s', kind, id);
    }
  }

  lemma KeepsPayments(c: Config, s: State, s': State, kind: Kind)
    requires Effect(c, s, s', kind) && PaymentsOk(s)
    ensures PaymentsOk(s')
  {
  }

  lemma KeepsEntries(c: Config, s: State, s': State, kind: Kind)
    requires Effect(c, s, s', kind) && EntriesOk(c, s)
    ensures EntriesOk(c, s')
  {
    forall i | 0 <= i < |s'.log| ensures EntryOk(c, s'.payments, s'.log[i]) {
      if i < |s.log| {
        assert s'.log[i] == s.log[i];
      }
    }
  }

  lemma KeepsDrains(c: Config, s: State, s': State, kind: Kind)
    requires Effect(c, s, s', kind) && DrainsSpaced(c, s.log) && LastDrainOk(s)
    ensures DrainsSpaced(c, s'.log) && LastDrainOk(s')
  {
    assert forall i :: 0 <= i < |s.log| ==> s'.log[i] == s.log[i];
  }

  lemma EffectKeepsInv(c: Config, initial: Balances, s: State, s': State, kind: Kind)
    requires Inv(c, initial, s) && Effect(c, s, s', kind)
    ensures Inv(c, initial, s')
  {
    KeepsPayments(c, s, s', kind);
    KeepsExplained(c, initial, s, s', kind);
    KeepsObligations(c, s, s', kind);
    KeepsAllAudited(c, s, s', kind);
    KeepsEntries(c, s, s', kind);
    KeepsDrains(c, s, s', kind);
  }

  lemma KeepsInv(c: Config, initial: Balances, s: State, call: Call, now: u32)
    requires Inv(c, initial, s) && Legal(c, call)
    ensures Inv(c, initial, After(c, s, call, now))
  {
    var kind := StepKind(c, s, call, now);
    EffectKeepsInv(c, initial, s, After(c, s, call, now), kind);
  }

  lemma {:induction false} RunKeepsInv(c: Config, initial: Balances, s: State, calls: seq<Timed>)
    requires Inv(c, initial, s) && AllLegal(c, calls)
    ensures Inv(c, initial, Run(c, s, calls))
    decreases |calls|
  {
    if calls != [] {
      KeepsInv(c, initial, s, calls[0].call, calls[0].now);
      RunKeepsInv(c, initial, After(c, s, calls[0].call, calls[0].now), calls[1..]);
    }
  }

  lemma ReachableInv(c: Config, initial: Balances, calls: seq<Timed>)
    requires AllLegal(c, calls)
    ensures Inv(c, initial, Run(c, Start(initial), calls))
  {
    RunKeepsInv(c, initial, Start(initial), calls);
  }

  // ----- funds -----

  lemma {:induction false} SelfFlowSplits(c: Config, payments: map<PaymentId, Payment>, log: seq<Entry>, t: Address)
    requires forall i :: 0 <= i < |log| ==> EntryOk(c, payments, log[i])
    ensures Total(Flow(t, c.self), log) == Total(Deposits(t), log) - Total(Payouts(t), log)
      - Total(DrainedOut(t, c.self), log) + Total(Donated(t, c.self), log)
    decreases |log|
  {
    if log != [] {
      SelfFlowSplits(c, payments, log[..|log| - 1], t);
      assert EntryOk(c, payments, log[|log| - 1]);
    }
  }

  /** Conservation, per token address, over every run. */
  lemma FundsMatchObligations(c: Config, initial: Balances, calls: seq<Timed>, t: Address)
    requires AllLegal(c, calls)
    ensures var s := Run(c, Start(initial), calls);
            Balance(s.balances, t, c.self) + Total(DrainedOut(t, c.self), s.log)
            == Outstanding(c, s.payments, t) + Total(Donated(t, c.self), s.log) + Balance(initial, t, c.self)
  {
    ReachableInv(c, initial, calls);
    var s := Run(c, Start(initial), calls);
    SelfFlowSplits(c, s.payments, s.log, t);
  }

  predicate NeverDrained(log: seq<Entry>, t: Address) {
    forall i :: 0 <= i < |log| && log[i].token == t ==> !log[i].purpose.Drained?
  }

  lemma {:induction false} TotalSign(m: Meter, log: seq<Entry>)
    requires !m.Flow?
    ensures Total(m, log) >= 0
    ensures m.DrainedOut? && NeverDrained(log, m.token) ==> Total(m, log) == 0
    decreases |log|
  {
    if log != [] {
      TotalSign(m, log[..|log| - 1]);
    }
  }

  /** The contract can pay all it owes in a token exactly when drains took no more than outsiders gave. */
  lemma SolventExactlyWhen(c: Config, initial: Balances, calls: seq<Timed>, t: Address)
    requires AllLegal(c, calls)
    ensures var s := Run(c, Start(initial), calls);
            && (Outstanding(c, s.payments, t) <= Balance(s.balances, t, c.self)
                <==> Total(DrainedOut(t, c.self), s.log) <= Total(Donated(t, c.self), s.log) + Balance(initial, t, c.self))
            && (NeverDrained(s.log, t) ==> Outstanding(c, s.payments, t) <= Balance(s.balances, t, c.self))
            && (t != c.usdcToken ==> NeverDrained(s.log, t))
  {
    ReachableInv(c, initial, calls);
    var s := Run(c, Start(initial), calls);
    FundsMatchObligations(c, initial, calls, t);
    TotalSign(DrainedOut(t, c.self), s.log);
    TotalSign(Donated(t, c.self), s.log);
    assert forall i :: 0 <= i < |s.log| ==> EntryOk(c, s.payments, s.log[i]);
  }

  // ----- one payment's life -----

  /** What later calls can still change in a payment. */
  predicate Evolves(p: Payment, q: Payment) {
    && (q.id, q.amount, q.merchant, q.customer, q.expiry, q.disputeWindowEnd, q.asset)
       == (p.id, p.amount, p.merchant, p.customer, p.expiry, p.disputeWindowEnd, p.asset)
    && p.released <= q.released
    && (!p.Open() ==> q == p)
    && (p.status.Disputed? ==> !q.status.Pending? && q.disputeReason == p.disputeReason
                               && (q.status.Disputed? ==> q == p))
  }

  /** A disputed payment takes no partial payout: its next change closes it. */
  lemma EffectEvolves(c: Config, s: State, s': State, kind: Kind, id: PaymentId)
    requires Effect(c, s, s', kind) && PaymentsOk(s) && id in s.payments
    ensures id in s'.payments && Evolves(s.payments[id], s'.payments[id])
  {
  }

  /** Per payment, the log accounts for the whole deposit, and the status says who got it. */
  lemma PaymentAccounted(c: Config, initial: Balances, calls: seq<Timed>, id: PaymentId)
    requires AllLegal(c, calls)
    requires id in Run(c, Start(initial), calls).payments
    ensures var s := Run(c, Start(initial), calls);
            var p := s.payments[id];
            var merchant, customer := Total(ToMerchant(id), s.log), Total(ToCustomer(id), s.log);
            && p.id == id
            && merchant + customer + p.Remaining() == Total(DepositOf(id), s.log) == p.amount
            && 0 <= p.released <= p.amount
            && (p.released < p.amount <==> p.Open())
            && (p.Open() ==> customer == 0)
            && (p.status.Released? <==> merchant == p.amount)
            && (p.status.Expired? <==> customer > 0)
  {
    ReachableInv(c, initial, calls);
    var s := Run(c, Start(initial), calls);
    assert Audited(s, id);
  }

  lemma {:induction false} RunEvolves(c: Config, initial: Balances, s: State, calls: seq<Timed>, id: PaymentId)
    requires Inv(c, initial, s) && AllLegal(c, calls)
    requires id in s.payments
    ensures var s' := Run(c, s, calls); id in s'.payments && Evolves(s.payments[id], s'.payments[id])
    decreases |calls|
  {
    if calls != [] {
      var s1 := After(c, s, calls[0].call, calls[0].now);
      KeepsInv(c, initial, s, calls[0].call, calls[0].now);
      var kind := StepKind(c, s, calls[0].call, calls[0].now);
      EffectEvolves(c, s, s1, kind, id);
      RunEvolves(c, initial, s1, calls[1..], id);
    }
  }

  lemma {:induction false} RunAppend(c: Config, s: State, calls: seq<Timed>, more: seq<Timed>)
    ensures Run(c, s, calls + more) == Run(c, Run(c, s, calls), more)
    decreases |calls|
  {
    if calls == [] {
      assert calls + more == more;
    } else {
      assert (calls + more)[1..] == calls[1..] + more;
      RunAppend(c, After(c, s, calls[0].call, calls[0].now), calls[1..], more);
    }
  }

  /** Over every continuation of every run: terms are fixed, payouts only grow, and a closed payment never changes again. */
  lemma PaymentEvolves(c: Config, initial: Balances, calls: seq<Timed>, more: seq<Timed>, id: PaymentId)
    requires AllLegal(c, calls) && AllLegal(c, more)
    requires id in Run(c, Start(initial), calls).payments
    ensures var s, s' := Run(c, Start(initial), calls), Run(c, Start(initial), calls + more);
            id in s'.payments && Evolves(s.payments[id], s'.payments[id])
  {
    RunAppend(c, Start(initial), calls, more);
    ReachableInv(c, initial, calls);
    RunEvolves(c, initial, Run(c, Start(initial), calls), more, id);
  }

  // ----- progress -----

  lemma {:induction false} OutstandingNonNegative(c: Config, payments: map<PaymentId, Payment>, t: Address)
    requires forall id :: id in payments ==> PaymentOk(payments[id])
    ensures Outstanding(c, payments, t) >= 0
    decreases |payments|
  {
    if payments != map[] {
      var id :| id in payments;
      OutstandingSplit(c, payments, t, id);
      OutstandingNonNegative(c, payments - {id}, t);
    }
  }

  /** Absent drains of its token, what a payment is still owed is there to be paid. */
  lemma RemainingIsFunded(c: Config, initial: Balances, calls: seq<Timed>, id: PaymentId)
    requires AllLegal(c, calls)
    requires id in Run(c, Start(initial), calls).payments
    requires NeverDrained(Run(c, Start(initial), calls).log, c.TokenOf(Run(c, Start(initial), calls).payments[id].asset))
    ensures var s := Run(c, Start(initial), calls);
            var p := s.payments[id];
            && 0 <= p.Remaining() <= Balance(s.balances, c.TokenOf(p.asset), c.self)
            && (p.Remaining() > 0 <==> p.Open())
  {
    ReachableInv(c, initial, calls);
    var s := Run(c, Start(initial), calls);
    var t := c.TokenOf(s.payments[id].asset);
    SolventExactlyWhen(c, initial, calls, t);
    OutstandingSplit(c, s.payments, t, id);
    OutstandingNonNegative(c, s.payments - {id}, t);
  }

  predicate IsPayout(call: Call) {
    call.Release? || call.ReleasePartial? || call.Expire? || call.Refund? || call.ResolveDispute?
  }

  /** Absent drains of its token, no payout lacks funds, and "fully released" is only ever said of a Released payment. */
  lemma PayoutNeverShort(c: Config, initial: Balances, calls: seq<Timed>, call: Call, now: u32)
    requires AllLegal(c, calls)
    requires IsPayout(call) && call.id in Run(c, Start(initial), calls).payments
    requires NeverDrained(Run(c, Start(initial), calls).log, c.TokenOf(Run(c, Start(initial), calls).payments[call.id].asset))
    ensures var s := Run(c, Start(initial), calls);
            var r := Step(c, s, call, now);
            && r != Err(InsufficientFunds)
            && (r == Err(FullyReleased) ==> s.payments[call.id].status.Released?)
  {
    RemainingIsFunded(c, initial, calls, call.id);
  }

  /** What the payment is still owed is there, and it is something exactly while the payment is open. */
  predicate Funded(c: Config, s: State, p: Payment) {
    0 <= p.Remaining() <= Balance(s.balances, c.TokenOf(p.asset), c.self) && (p.Remaining() > 0 <==> p.Open())
  }

  predicate RoomFor(c: Config, s: State, p: Payment, to: Address) {
    HasRoom(s.balances, c.TokenOf(p.asset), c.self, to, p.Remaining())
  }

  lemma ReleaseExactlyWhen(c: Config, s: State, id: PaymentId, caller: Address, now: u32)
    requires id in s.payments && Funded(c, s, s.payments[id])
    ensures var p := s.payments[id];
            Step(c, s, Release(caller, id), now).Ok?
            <==> caller == c.admin && p.status.Pending? && now <= p.expiry && RoomFor(c, s, p, p.merchant)
  {
  }

  lemma RefundExactlyWhen(c: Config, s: State, id: PaymentId, now: u32)
    requires id in s.payments && Funded(c, s, s.payments[id])
    ensures var p := s.payments[id];
            && (Step(c, s, Refund(id), now).Ok? <==> p.status.Pending? && now > p.expiry && RoomFor(c, s, p, p.customer))
            && Step(c, s, Refund(id), now) == Step(c, s, Expire(id), now)
  {
  }

  lemma ResolveExactlyWhen(c: Config, s: State, id: PaymentId, caller: Address, winner: Address, now: u32)
    requires id in s.payments && Funded(c, s, s.payments[id])
    ensures var p := s.payments[id];
            Step(c, s, ResolveDispute(caller, id, winner), now).Ok?
            <==> caller == c.admin && p.status.Disputed? && winner in {p.customer, p.merchant} && RoomFor(c, s, p, winner)
  {
  }

  /** At every ledger an open payment has its way out, and the conditions of every way out are exact, for every caller. */
  lemma OpenPaymentHasWayOut(c: Config, initial: Balances, calls: seq<Timed>, id: PaymentId,
                             caller: Address, winner: Address, now: u32)
    requires AllLegal(c, calls)
    requires id in Run(c, Start(initial), calls).payments
    requires NeverDrained(Run(c, Start(initial), calls).log, c.TokenOf(Run(c, Start(initial), calls).payments[id].asset))
    ensures var s := Run(c, Start(initial), calls);
            var p := s.payments[id];
            && (p.status.Pending? <==> Releasable(p, now) != Expirable(p, now))
            && (Step(c, s, Release(caller, id), now).Ok?
                <==> caller == c.admin && p.status.Pending? && now <= p.expiry && RoomFor(c, s, p, p.merchant))
            && (Step(c, s, Refund(id), now).Ok? <==> p.status.Pending? && now > p.expiry && RoomFor(c, s, p, p.customer))
            && Step(c, s, Refund(id), now) == Step(c, s, Expire(id), now)
            && (Step(c, s, ResolveDispute(caller, id, winner), now).Ok?
                <==> caller == c.admin && p.status.Disputed? && winner in {p.customer, p.merchant} && RoomFor(c, s, p, winner))
  {
    var s := Run(c, Start(initial), calls);
    RemainingIsFunded(c, initial, calls, id);
    ReleaseExactlyWhen(c, s, id, caller, now);
    RefundExactlyWhen(c, s, id, now);
    ResolveExactlyWhen(c, s, id, caller, winner, now);
  }

  /** A partial release is allowed to the admin alone, for exactly the amounts still owed while the payment is releasable. */
  lemma PartialReleaseExactlyWhen(c: Config, initial: Balances, calls: seq<Timed>, id: PaymentId,
                                  caller: Address, amount: i128, now: u32)
    requires AllLegal(c, calls)
    requires id in Run(c, Start(initial), calls).payments
    requires NeverDrained(Run(c, Start(initial), calls).log, c.TokenOf(Run(c, Start(initial), calls).payments[id].asset))
    ensures var s := Run(c, Start(initial), calls);
            var p := s.payments[id];
            Step(c, s, ReleasePartial(caller, id, amount), now).Ok?
            <==> caller == c.admin && p.status.Pending? && now <= p.expiry && 0 < amount <= p.amount - p.released
                 && HasRoom(s.balances, c.TokenOf(p.asset), c.self, p.merchant, amount)
  {
    ReachableInv(c, initial, calls);
    RemainingIsFunded(c, initial, calls, id);
  }

  /** A dispute can only be opened while the payment is still releasable, never after expiry. */
  lemma DisputeOnlyBeforeExpiry(c: Config, initial: Balances, calls: seq<Timed>, caller: Address, id: PaymentId, reason: string, now: u32)
    requires AllLegal(c, calls)
    requires Step(c, Run(c, Start(initial), calls), Dispute(caller, id, reason), now).Ok?
    ensures var s := Run(c, Start(initial), calls);
            id in s.payments && Releasable(s.payments[id], now) && caller in {s.payments[id].customer, s.payments[id].merchant}
  {
    ReachableInv(c, initial, calls);
  }

  // ----- the terms of a deposit -----

  lemma DepositStores(c: Config, s: State, d: Call, now: u32)
    requires d.Deposit? && Step(c, s, d, now).Ok?
    ensures var s' := After(c, s, d, now);
            && d.id in s'.payments
            && var p := s'.payments[d.id];
            && (p.id, p.amount, p.merchant, p.customer, p.asset) == (d.id, d.amount, d.merchant, d.customer, d.asset)
            && p.expiry == Min(now + d.ttl, U32_MAX)
            && p.disputeWindowEnd == Min(Min(now + d.ttl, now + 51_840), U32_MAX)
  {
    MoveMoves(s, Deposited(d.id), c.TokenOf(d.asset), d.customer, c.self, d.amount);
  }

  lemma DisputeExactlyWhen(c: Config, s: State, id: PaymentId, caller: Address, reason: string, now: u32)
    requires id in s.payments
    ensures var p := s.payments[id];
            Step(c, s, Dispute(caller, id, reason), now).Ok?
            <==> p.status.Pending? && caller in {p.customer, p.merchant} && now <= p.disputeWindowEnd
  {
  }

  /** Whatever is called after a deposit, its terms decide until when the payment can be released or disputed, and by whom. */
  lemma DepositTermsHold(c: Config, initial: Balances, calls: seq<Timed>, d: Call, now: u32, more: seq<Timed>,
                         caller: Address, reason: string, later: u32)
    requires AllLegal(c, calls) && AllLegal(c, more)
    requires d.Deposit? && Legal(c, d) && Step(c, Run(c, Start(initial), calls), d, now).Ok?
    ensures var s := Run(c, After(c, Run(c, Start(initial), calls), d, now), more);
            && d.id in s.payments
            && var p := s.payments[d.id];
            && (p.id, p.amount, p.merchant, p.customer, p.asset) == (d.id, d.amount, d.merchant, d.customer, d.asset)
            && (Releasable(p, later) <==> p.status.Pending? && later <= Min(now + d.ttl, U32_MAX))
            && (Step(c, s, Dispute(caller, d.id, reason), later).Ok?
                <==> p.status.Pending? && caller in {d.customer, d.merchant}
                     && later <= Min(Min(now + d.ttl, now + 51_840), U32_MAX))
  {
    var s0 := Run(c, Start(initial), calls);
    var s1 := After(c, s0, d, now);
    ReachableInv(c, initial, calls);
    KeepsInv(c, initial, s0, d, now);
    DepositStores(c, s0, d, now);
    RunEvolves(c, initial, s1, more, d.id);
    DisputeExactlyWhen(c, Run(c, s1, more), d.id, caller, reason, later);
  }

  // ----- drains -----

  /** Over every run two drains are a cooldown apart, unless the earlier one ran at ledger 0. */
  lemma DrainsKeepCooldown(c: Config, initial: Balances, calls: seq<Timed>)
    requires AllLegal(c, calls)
    ensures DrainsSpaced(c, Run(c, Start(initial), calls).log)
  {
    ReachableInv(c, initial, calls);
  }

  predicate NoDrains(calls: seq<Timed>) {
    forall i :: 0 <= i < |calls| ==> !calls[i].call.EmergencyDrain?
  }

  lemma OnlyDrainsSetLast(c: Config, s: State, call: Call, now: u32)
    requires !call.EmergencyDrain?
    ensures After(c, s, call, now).lastDrain == s.lastDrain
  {
  }

  lemma {:induction false} LastDrainStays(c: Config, s: State, calls: seq<Timed>)
    requires NoDrains(calls)
    ensures Run(c, s, calls).lastDrain == s.lastDrain
    decreases |calls|
  {
    if calls != [] {
      OnlyDrainsSetLast(c, s, calls[0].call, calls[0].now);
      LastDrainStays(c, After(c, s, calls[0].call, calls[0].now), calls[1..]);
    }
  }

  lemma DrainExactlyWhen(c: Config, s: State, caller: Address, one: Address, two: Address, now: u32)
    ensures var amount := Balance(s.balances, c.usdcToken, c.self);
            Step(c, s, EmergencyDrain(caller, one, two), now).Ok?
            <==> one != two && one in c.signers && two in c.signers
                 && (s.lastDrain == 0 || SatAdd(s.lastDrain, c.cooldown) <= now)
                 && amount > 0 && HasRoom(s.balances, c.usdcToken, c.self, c.treasury, amount)
  {
  }

  /** After a drain at ledger `now` and anything but drains, the next drain waits for the cooldown, exactly unless
      `now` is 0, which the contract stores as "never drained". */
  lemma NextDrainExactlyWhen(c: Config, s: State, first: Call, now: u32, more: seq<Timed>,
                             caller: Address, one: Address, two: Address, later: u32)
    requires first.EmergencyDrain? && Step(c, s, first, now).Ok? && NoDrains(more)
    ensures var s' := Run(c, After(c, s, first, now), more);
            var amount := Balance(s'.balances, c.usdcToken, c.self);
            Step(c, s', EmergencyDrain(caller, one, two), later).Ok?
            <==> one != two && one in c.signers && two in c.signers
                 && (now == 0 || SatAdd(now, c.cooldown) <= later)
                 && amount > 0 && HasRoom(s'.balances, c.usdcToken, c.self, c.treasury, amount)
  {
    LastDrainStays(c, After(c, s, first, now), more);
    DrainExactlyWhen(c, Run(c, After(c, s, first, now), more), caller, one, two, later);
  }

  /** The exception is real: with any accepted configuration two drains can follow each other at ledger 0. */
  lemma DrainsMayRepeatAtZero(c: Config, caller: Address, giver: Address)
    requires c.Check().Pass? && giver != c.self && giver != c.treasury
    ensures var drain := EmergencyDrain(caller, c.signers[0], c.signers[1]);
            var s0 := Start(map[(c.usdcToken, c.self) := 1, (c.usdcToken, giver) := 1]);
            var s1 := After(c, s0, drain, 0);
            var s2 := After(c, s1, OutsideTransfer(c.usdcToken, giver, c.self, 1), 0);
            Step(c, s0, drain, 0).Ok? && Step(c, s2, drain, 0).Ok?
  {
    var drain := EmergencyDrain(caller, c.signers[0], c.signers[1]);
    var s0 := Start(map[(c.usdcToken, c.self) := 1, (c.usdcToken, giver) := 1]);
    DrainExactlyWhen(c, s0, caller, c.signers[0], c.signers[1], 0);
    var s1 := After(c, s0, drain, 0);
    DrainKind(c, s0, drain, 0);
    assert Balance(s1.balances, c.usdcToken, giver) == 1;
    var s2 := After(c, s1, OutsideTransfer(c.usdcToken, giver, c.self, 1), 0);
    MoveMoves(s1, Outside, c.usdcToken, giver, c.self, 1);
    DrainExactlyWhen(c, s2, caller, c.signers[0], c.signers[1], 0);
  }

  /** A drain moves the whole balance to the treasury, which may be the contract itself, and leaves the payments owed. */
  lemma DrainTakesAll(c: Config, s: State, caller: Address, signerOne: Address, signerTwo: Address, now: u32)
    requires Step(c, s, EmergencyDrain(caller, signerOne, signerTwo), now).Ok?
    ensures var s' := After(c, s, EmergencyDrain(caller, signerOne, signerTwo), now);
            var before := Balance(s.balances, c.usdcToken, c.self);
            && s'.payments == s.payments && before > 0
            && Balance(s'.balances, c.usdcToken, c.self) == (if c.treasury == c.self then before else 0)
            && Balance(s'.balances, c.usdcToken, c.treasury)
               == if c.treasury == c.self then before else Balance(s.balances, c.usdcToken, c.treasury) + before
  {
    DrainKind(c, s, EmergencyDrain(caller, signerOne, signerTwo), now);
  }

  /** After a drain to elsewhere the contract can pay what it owes in that token exactly if it owes nothing in it. */
  lemma DrainLeavesSolventExactlyWhen(c: Config, initial: Balances, calls: seq<Timed>,
                                      caller: Address, signerOne: Address, signerTwo: Address, now: u32)
    requires AllLegal(c, calls) && c.treasury != c.self
    requires Step(c, Run(c, Start(initial), calls), EmergencyDrain(caller, signerOne, signerTwo), now).Ok?
    ensures var s' := After(c, Run(c, Start(initial), calls), EmergencyDrain(caller, signerOne, signerTwo), now);
            Outstanding(c, s'.payments, c.usdcToken) <= Balance(s'.balances, c.usdcToken, c.self)
            <==> Outstanding(c, s'.payments, c.usdcToken) == 0
  {
    var s := Run(c, Start(initial), calls);
    ReachableInv(c, initial, calls);
    OutstandingNonNegative(c, s.payments, c.usdcToken);
    DrainTakesAll(c, s, caller, signerOne, signerTwo, now);
  }

  /** Every open payment in the drained token is then stranded: also one in the other asset, if that shares the token. */
  lemma DrainStrandsOpenPayments(c: Config, initial: Balances, calls: seq<Timed>,
                                 caller: Address, signerOne: Address, signerTwo: Address, now: u32,
                                 id: PaymentId, later: u32)
    requires AllLegal(c, calls) && c.treasury != c.self
    requires Step(c, Run(c, Start(initial), calls), EmergencyDrain(caller, signerOne, signerTwo), now).Ok?
    requires id in Run(c, Start(initial), calls).payments && Run(c, Start(initial), calls).payments[id].Open()
    requires c.TokenOf(Run(c, Start(initial), calls).payments[id].asset) == c.usdcToken
    ensures var s' := After(c, Run(c, Start(initial), calls), EmergencyDrain(caller, signerOne, signerTwo), now);
            && Outstanding(c, s'.payments, c.usdcToken) > Balance(s'.balances, c.usdcToken, c.self) == 0
            && (Releasable(s'.payments[id], later) ==> Step(c, s', Release(c.admin, id), later) == Err(InsufficientFunds))
            && (Expirable(s'.payments[id], later) ==> Step(c, s', Refund(id), later) == Err(InsufficientFunds))
  {
    var s := Run(c, Start(initial), calls);
    ReachableInv(c, initial, calls);
    OutstandingSplit(c, s.payments, c.usdcToken, id);
    OutstandingNonNegative(c, s.payments - {id}, c.usdcToken);
    DrainTakesAll(c, s, caller, signerOne, signerTwo, now);
  }
}
