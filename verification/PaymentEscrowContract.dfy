/** The escrow contract and the token contracts as objects, each method proved against `Step`. */
module PaymentEscrowContract {
  import opened Prelude
  import opened PaymentEscrow

  /** All token contracts together: a balance per token and holder. */
  class Tokens {
    var balances: Balances

    constructor (balances: Balances)
      ensures this.balances == balances
    {
      this.balances := balances;
    }

    method TransferFrom(token: Address, from: Address, to: Address, amount: nat) returns (r: Outcome<Panic>)
      modifies this
      ensures match Transfer(old(balances), token, from, to, amount)
              case Ok(after) => r == Pass && balances == after
              case Err(e) => r == Fail(e) && balances == old(balances)
    {
      if Balance(balances, token, from) < amount { return Fail(InsufficientFunds); }
      if from != to {
        if Balance(balances, token, to) + amount > I128_MAX { return Fail(BalanceOverflow); }
        balances := balances[(token, from) := Balance(balances, token, from) - amount];
        balances := balances[(token, to) := Balance(balances, token, to) + amount];
      }
      return Pass;
    }
  }

  class Contract {
    const config: Config
    const tokens: Tokens
    var payments: map<PaymentId, Payment>
    var lastDrain: u32
    ghost var log: seq<Entry>

    ghost function Snapshot(): State
      reads this, tokens
    {
      State(payments, lastDrain, tokens.balances, log)
    }

    constructor (config: Config, tokens: Tokens)
      requires config.Check().Pass?
      ensures this.config == config && this.tokens == tokens
      ensures Snapshot() == State(map[], 0, tokens.balances, [])
    {
      this.config := config;
      this.tokens := tokens;
      payments := map[];
      lastDrain := 0;
      log := [];
    }

    /** `__constructor`: a bad configuration deploys nothing. */
    static method Deploy(config: Config, tokens: Tokens) returns (r: Result<Contract, Panic>)
      ensures match config.Check()
              case Fail(e) => r == Err(e)
              case Pass => r.Ok? && fresh(r.value) && r.value.config == config && r.value.tokens == tokens
                           && r.value.Snapshot() == State(map[], 0, tokens.balances, [])
    {
      var check := config.Check();
      if check.Fail? { return Err(check.error); }
      var contract := new Contract(config, tokens);
      return Ok(contract);
    }

    method Deposit(customer: Address, id: PaymentId, merchant: Address, amount: i128, ttl: u32, asset: AssetType, approved: bool, now: u32)
      returns (r: Outcome<Panic>)
      modifies this, tokens
      ensures (Snapshot(), r) == Observe(config, old(Snapshot()), Call.Deposit(customer, id, merchant, amount, ttl, asset, approved), now)
    {
      if amount <= 0 { return Fail(AmountNotPositive); }
      if ttl == 0 { return Fail(TtlZero); }
      if ttl > MAX_TTL { return Fail(TtlTooLong); }
      if id in payments { return Fail(DuplicateId); }
      if !approved { return Fail(MerchantNotApproved); }

      var token := config.TokenOf(asset);
      r := tokens.TransferFrom(token, customer, config.self, amount);
      if r.Fail? { return r; }
      log := log + [Entry(Deposited(id), token, customer, config.self, amount)];

      var expiry := SatAdd(now, ttl);
      var windowEnd := SatAdd(now, MAX_DISPUTE_WINDOW);
      if expiry < windowEnd { windowEnd := expiry; }
      payments := payments[id := Payment(id, amount, 0, merchant, customer, Pending, expiry, windowEnd, None, asset)];
    }

    /** Pays `amount` of the payment's own token to `to`, and records why. */
    method TransferFromContract(to: Address, amount: nat, asset: AssetType, purpose: Purpose) returns (r: Outcome<Panic>)
      modifies this`log, tokens
      ensures match Move(old(Snapshot()), purpose, config.TokenOf(asset), config.self, to, amount)
              case Ok(after) => r == Pass && Snapshot() == after
              case Err(e) => r == Fail(e) && Snapshot() == old(Snapshot())
    {
      var token := config.TokenOf(asset);
      r := tokens.TransferFrom(token, config.self, to, amount);
      if r.Fail? { return r; }
      log := log + [Entry(purpose, token, config.self, to, amount)];
    }

    method Release(caller: Address, id: PaymentId, now: u32) returns (r: Outcome<Panic>)
      modifies this, tokens
      ensures (Snapshot(), r) == Observe(config, old(Snapshot()), Call.Release(caller, id), now)
    {
      if caller != config.admin { return Fail(NotAdmin); }
      if id !in payments { return Fail(PaymentNotFound); }
      var payment := payments[id];
      r := RequireReleasable(payment, now);
      if r.Fail? { return r; }
      var remaining := payment.Remaining();
      if remaining <= 0 { return Fail(FullyReleased); }

      r := TransferFromContract(payment.merchant, remaining, payment.asset, PaidMerchant(id));
      if r.Fail? { return r; }
      payment := payment.(released := payment.amount);
      payment := payment.(status := Released);
      payments := payments[id := payment];
    }

    method ReleasePartial(caller: Address, id: PaymentId, amount: i128, now: u32) returns (r: Outcome<Panic>)
      modifies this, tokens
      ensures (Snapshot(), r) == Observe(config, old(Snapshot()), Call.ReleasePartial(caller, id, amount), now)
    {
      if caller != config.admin { return Fail(NotAdmin); }
      if amount <= 0 { return Fail(ReleaseNotPositive); }
      if id !in payments { return Fail(PaymentNotFound); }
      var payment := payments[id];
      r := RequireReleasable(payment, now);
      if r.Fail? { return r; }
      var remaining := payment.Remaining();
      if remaining <= 0 { return Fail(FullyReleased); }
      if amount > remaining { return Fail(ReleaseTooLarge); }

      r := TransferFromContract(payment.merchant, amount, payment.asset, PaidMerchant(id));
      if r.Fail? { return r; }
      payment := payment.(released := payment.released + amount);
      if payment.released == payment.amount {
        payment := payment.(status := Released);
      }
      payments := payments[id := payment];
    }

    method Expire(id: PaymentId, now: u32) returns (r: Outcome<Panic>)
      modifies this, tokens
      ensures (Snapshot(), r) == Observe(config, old(Snapshot()), Call.Expire(id), now)
    {
      if id !in payments { return Fail(PaymentNotFound); }
      var payment := payments[id];
      r := RequireExpirable(payment, now);
      if r.Fail? { return r; }
      var remaining := payment.Remaining();
      if remaining <= 0 { return Fail(FullyReleased); }

      r := TransferFromContract(payment.customer, remaining, payment.asset, PaidCustomer(id));
      if r.Fail? { return r; }
      payment := payment.(released := payment.amount);
      payment := payment.(status := Expired);
      payments := payments[id := payment];
    }

    method Refund(id: PaymentId, now: u32) returns (r: Outcome<Panic>)
      modifies this, tokens
      ensures (Snapshot(), r) == Observe(config, old(Snapshot()), Call.Refund(id), now)
    {
      if id !in payments { return Fail(PaymentNotFound); }
      var payment := payments[id];
      r := RequireExpirable(payment, now);
      if r.Fail? { return r; }
      var remaining := payment.Remaining();
      if remaining <= 0 { return Fail(FullyReleased); }

      r := TransferFromContract(payment.customer, remaining, payment.asset, PaidCustomer(id));
      if r.Fail? { return r; }
      payment := payment.(released := payment.amount);
      payment := payment.(status := Expired);
      payments := payments[id := payment];
    }

    method Dispute(caller: Address, id: PaymentId, reason: string, now: u32) returns (r: Outcome<Panic>)
      modifies this, tokens
      ensures (Snapshot(), r) == Observe(config, old(Snapshot()), Call.Dispute(caller, id, reason), now)
    {
      if id !in payments { return Fail(PaymentNotFound); }
      var payment := payments[id];
      if payment.status == Disputed { return Fail(DisputeAlreadyOpen); }
      if payment.status != Pending { return Fail(NotPending); }
      if caller != payment.customer && caller != payment.merchant { return Fail(NotParticipant); }
      if now > payment.disputeWindowEnd { return Fail(WindowExpired); }

      payment := payment.(status := Disputed);
      payment := payment.(disputeReason := Some(reason));
      payments := payments[id := payment];
      return Pass;
    }

    method ResolveDispute(caller: Address, id: PaymentId, winner: Address, now: u32) returns (r: Outcome<Panic>)
      modifies this, tokens
      ensures (Snapshot(), r) == Observe(config, old(Snapshot()), Call.ResolveDispute(caller, id, winner), now)
    {
      if caller != config.admin { return Fail(NotAdmin); }
      if id !in payments { return Fail(PaymentNotFound); }
      var payment := payments[id];
      if payment.status != Disputed { return Fail(DisputeNotOpen); }
      if winner != payment.customer && winner != payment.merchant { return Fail(InvalidWinner); }
      var remaining := payment.Remaining();
      if remaining <= 0 { return Fail(FullyReleased); }

      r := TransferFromContract(winner, remaining, payment.asset,
                                if winner == payment.merchant then PaidMerchant(id) else PaidCustomer(id));
      if r.Fail? { return r; }
      payment := payment.(status := if winner == payment.merchant then Released else Expired);
      payment := payment.(released := payment.amount);
      payments := payments[id := payment];
    }

    method EmergencyDrain(caller: Address, signerOne: Address, signerTwo: Address, now: u32) returns (r: Result<nat, Panic>)
      modifies this, tokens
      ensures (Snapshot(), if r.Ok? then Pass else Fail(r.error))
              == Observe(config, old(Snapshot()), Call.EmergencyDrain(caller, signerOne, signerTwo), now)
      ensures r.Ok? ==> r.value == old(Balance(tokens.balances, config.usdcToken, config.self))
    {
      if signerOne == signerTwo { return Err(SignersNotDistinct); }
      if signerOne !in config.signers { return Err(NotSigner); }
      if signerTwo !in config.signers { return Err(NotSigner); }
      if lastDrain != 0 && now < SatAdd(lastDrain, config.cooldown) { return Err(CooldownActive); }

      var amount := Balance(tokens.balances, config.usdcToken, config.self);
      if amount <= 0 { return Err(NothingToDrain); }
      var moved := tokens.TransferFrom(config.usdcToken, config.self, config.treasury, amount);
      if moved.Fail? { return Err(moved.error); }
      log := log + [Entry(Drained(now), config.usdcToken, config.self, config.treasury, amount)];
      lastDrain := now;
      return Ok(amount);
    }
  }
}
