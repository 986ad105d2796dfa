/**
  The payment escrow contract: its state and what each external call does to it.

  A Soroban call is all-or-nothing, so a panic is an `Err` that leaves the state alone.
  `Step` specifies every call; the class in PaymentEscrowContract carries them out.
 */
module PaymentEscrow {
  import opened Prelude

  datatype AssetType = Xlm | Usdc
  datatype Status = Pending | Disputed | Released | Expired

  const MAX_DISPUTE_WINDOW: u32 := 51_840
  const MAX_TTL: u32 := 518_400

  datatype Payment = Payment(
    id: PaymentId,
    amount: i128,
    released: i128,
    merchant: Address,
    customer: Address,
    status: Status,
    expiry: u32,
    disputeWindowEnd: u32,
    disputeReason: Option<string>,
    asset: AssetType)
  {
    function Remaining(): i128 {
      SatSub128(amount, released)
    }

    predicate Open() {
      status.Pending? || status.Disputed?
    }
  }

  datatype Panic =
    | DefaultTtlZero | CooldownZero | SignerCount | SignersNotUnique
    | AmountNotPositive | TtlZero | TtlTooLong | DuplicateId | MerchantNotApproved
    | NotAdmin | PaymentNotFound | DisputeIsOpen | FullyReleased | PaymentExpired
    | ReleaseNotPositive | ReleaseTooLarge | NotPending | NotYetExpired
    | DisputeAlreadyOpen | NotParticipant | WindowExpired | DisputeNotOpen | InvalidWinner
    | SignersNotDistinct | NotSigner | CooldownActive | NothingToDrain
    | InsufficientFunds | BalanceOverflow

  /** What the constructor stores, together with the contract's own address. */
  datatype Config = Config(
    self: Address,
    admin: Address,
    xlmToken: Address,
    usdcToken: Address,
    defaultTtl: u32,
    signers: seq<Address>,
    treasury: Address,
    cooldown: u32)
  {
    function TokenOf(asset: AssetType): Address {
      if asset.Xlm? then xlmToken else usdcToken
    }

    /** The constructor's checks, in its order. */
    function Check(): Outcome<Panic> {
      if defaultTtl == 0 then Fail(DefaultTtlZero)
      else if cooldown == 0 then Fail(CooldownZero)
      else if |signers| != 3 then Fail(SignerCount)
      else if signers[0] == signers[1] || signers[0] == signers[2] || signers[1] == signers[2] then Fail(SignersNotUnique)
      else Pass
    }
  }

  /** Why tokens moved. */
  datatype Purpose =
    | Deposited(id: PaymentId)
    | PaidMerchant(id: PaymentId)
    | PaidCustomer(id: PaymentId)
    | Drained(at: u32)
    | Outside

  /** One token movement; the log of them is the contract's audit trail. */
  datatype Entry = Entry(purpose: Purpose, token: Address, from: Address, to: Address, amount: nat)

  type Balances = map<(Address, Address), nat>

  function Balance(balances: Balances, token: Address, holder: Address): nat {
    if (token, holder) in balances then balances[(token, holder)] else 0
  }

  /** Whether the receiver's balance can take the amount; a transfer to oneself changes nothing. */
  predicate HasRoom(balances: Balances, token: Address, from: Address, to: Address, amount: int) {
    from == to || Balance(balances, token, to) + amount <= I128_MAX
  }

  /** A token contract's `transfer`: all or nothing, with balances kept inside an i128. */
  function Transfer(balances: Balances, token: Address, from: Address, to: Address, amount: nat)
    : (r: Result<Balances, Panic>)
    ensures r.Ok? <==> amount <= Balance(balances, token, from) && HasRoom(balances, token, from, to, amount)
    ensures r.Err? ==> (r.error == InsufficientFunds <==> Balance(balances, token, from) < amount)
    ensures r.Ok? ==>
              (forall t, h :: Balance(r.value, t, h) == Balance(balances, t, h)
                + (if t == token && h == to then amount else 0) - (if t == token && h == from then amount else 0))
  {
    if Balance(balances, token, from) < amount then Err(InsufficientFunds)
    else if !HasRoom(balances, token, from, to, amount) then Err(BalanceOverflow)
    else if from == to then Ok(balances)
    else
      var debited := balances[(token, from) := Balance(balances, token, from) - amount];
      Ok(debited[(token, to) := Balance(balances, token, to) + amount])
  }

  datatype State = State(
    payments: map<PaymentId, Payment>,
    lastDrain: u32,
    balances: Balances,
    log: seq<Entry>)

  datatype Call =
    | Deposit(customer: Address, id: PaymentId, merchant: Address, amount: i128, ttl: u32, asset: AssetType, approved: bool)
    | Release(caller: Address, id: PaymentId)
    | ReleasePartial(caller: Address, id: PaymentId, amount: i128)
    | Expire(id: PaymentId)
    | Refund(id: PaymentId)
    | Dispute(caller: Address, id: PaymentId, reason: string)
    | ResolveDispute(caller: Address, id: PaymentId, winner: Address)
    | EmergencyDrain(caller: Address, signerOne: Address, signerTwo: Address)
    | OutsideTransfer(token: Address, from: Address, to: Address, quantity: nat)

  predicate Releasable(p: Payment, now: u32) {
    p.status.Pending? && now <= p.expiry
  }

  predicate Expirable(p: Payment, now: u32) {
    p.status.Pending? && now > p.expiry
  }

  function RequireReleasable(p: Payment, now: u32): (r: Outcome<Panic>)
    ensures r.Pass? <==> Releasable(p, now)
    ensures r == Fail(FullyReleased) <==> p.status.Released?
  {
    match p.status
    case Disputed => Fail(DisputeIsOpen)
    case Released => Fail(FullyReleased)
    case Expired => Fail(PaymentExpired)
    case Pending => if now > p.expiry then Fail(PaymentExpired) else Pass
  }

  function RequireExpirable(p: Payment, now: u32): (r: Outcome<Panic>)
    ensures r.Pass? <==> Expirable(p, now)
    ensures r == Fail(FullyReleased) <==> p.status.Released?
  {
    match p.status
    case Disputed => Fail(DisputeIsOpen)
    case Released => Fail(FullyReleased)
    case Expired => Fail(NotPending)
    case Pending => if now <= p.expiry then Fail(NotYetExpired) else Pass
  }

  function RequireDisputable(p: Payment, caller: Address, now: u32): Outcome<Panic> {
    if p.status.Disputed? then Fail(DisputeAlreadyOpen)
    else if !p.status.Pending? then Fail(NotPending)
    else if caller != p.customer && caller != p.merchant then Fail(NotParticipant)
    else if now > p.disputeWindowEnd then Fail(WindowExpired)
    else Pass
  }

  function RequireDrainable(c: Config, lastDrain: u32, signerOne: Address, signerTwo: Address, now: u32): Outcome<Panic> {
    if signerOne == signerTwo then Fail(SignersNotDistinct)
    else if signerOne !in c.signers || signerTwo !in c.signers then Fail(NotSigner)
    else if lastDrain != 0 && now < SatAdd(lastDrain, c.cooldown) then Fail(CooldownActive)
    else Pass
  }

  function NewPayment(id: PaymentId, customer: Address, merchant: Address, amount: i128, ttl: u32, asset: AssetType, now: u32)
    : Payment
  {
    var expiry := SatAdd(now, ttl);
    var windowEnd := SatAdd(now, MAX_DISPUTE_WINDOW);
    Payment(id, amount, 0, merchant, customer, Pending, expiry,
            if expiry < windowEnd then expiry else windowEnd, None, asset)
  }

  /** Moves tokens and records the movement. */
  function Move(s: State, purpose: Purpose, token: Address, from: Address, to: Address, amount: nat): Result<State, Panic> {
    var balances :- Transfer(s.balances, token, from, to, amount);
    Ok(s.(balances := balances, log := s.log + [Entry(purpose, token, from, to, amount)]))
  }

  /** Pays `amount` of payment `id` out of the contract and stores the payment as `after`. */
  function PayOut(c: Config, s: State, id: PaymentId, to: Address, amount: i128, purpose: Purpose, after: Payment): Result<State, Panic>
    requires amount > 0
  {
    var moved :- Move(s, purpose, c.TokenOf(after.asset), c.self, to, amount);
    Ok(moved.(payments := moved.payments[id := after]))
  }

  /** Pays out all that is left of payment `p` and closes it. */
  function Close(c: Config, s: State, id: PaymentId, p: Payment, toMerchant: bool, to: Address): Result<State, Panic> {
    var status := if toMerchant then Released else Expired;
    var purpose := if toMerchant then PaidMerchant(id) else PaidCustomer(id);
    :- Need(p.Remaining() > 0, FullyReleased);
    PayOut(c, s, id, to, p.Remaining(), purpose, p.(released := p.amount, status := status))
  }

  function Find(s: State, id: PaymentId): Result<Payment, Panic> {
    if id in s.payments then Ok(s.payments[id]) else Err(PaymentNotFound)
  }

  /** What one external call, made at ledger `now`, does. */
  function Step(c: Config, s: State, call: Call, now: u32): Result<State, Panic> {
    match call
    case Deposit(customer, id, merchant, amount, ttl, asset, approved) =>
      :- Need(amount > 0, AmountNotPositive);
      :- Need(ttl != 0, TtlZero);
      :- Need(ttl <= MAX_TTL, TtlTooLong);
      :- Need(id !in s.payments, DuplicateId);
      :- Need(approved, MerchantNotApproved);
      var moved :- Move(s, Deposited(id), c.TokenOf(asset), customer, c.self, amount);
      Ok(moved.(payments := moved.payments[id := NewPayment(id, customer, merchant, amount, ttl, asset, now)]))
    case Release(caller, id) =>
      :- Need(caller == c.admin, NotAdmin);
      var p :- Find(s, id);
      :- RequireReleasable(p, now);
      Close(c, s, id, p, true, p.merchant)
    case ReleasePartial(caller, id, amount) =>
      :- Need(caller == c.admin, NotAdmin);
      :- Need(amount > 0, ReleaseNotPositive);
      var p :- Find(s, id);
      :- RequireReleasable(p, now);
      :- Need(p.Remaining() > 0, FullyReleased);
      :- Need(amount <= p.Remaining(), ReleaseTooLarge);
      var released := p.released + amount;
      PayOut(c, s, id, p.merchant, amount, PaidMerchant(id),
             p.(released := released, status := if released == p.amount then Released else p.status))
    case Expire(id) =>
      var p :- Find(s, id);
      :- RequireExpirable(p, now);
      Close(c, s, id, p, false, p.customer)
    case Refund(id) =>
      var p :- Find(s, id);
      :- RequireExpirable(p, now);
      Close(c, s, id, p, false, p.customer)
    case Dispute(caller, id, reason) =>
      var p :- Find(s, id);
      :- RequireDisputable(p, caller, now);
      Ok(s.(payments := s.payments[id := p.(status := Disputed, disputeReason := Some(reason))]))
    case ResolveDispute(caller, id, winner) =>
      :- Need(caller == c.admin, NotAdmin);
      var p :- Find(s, id);
      :- Need(p.status.Disputed?, DisputeNotOpen);
      :- Need(winner == p.customer || winner == p.merchant, InvalidWinner);
      Close(c, s, id, p, winner == p.merchant, winner)
    case EmergencyDrain(_, signerOne, signerTwo) =>
      :- RequireDrainable(c, s.lastDrain, signerOne, signerTwo, now);
      var amount := Balance(s.balances, c.usdcToken, c.self);
      :- Need(amount > 0, NothingToDrain);
      var moved :- Move(s, Drained(now), c.usdcToken, c.self, c.treasury, amount);
      Ok(moved.(lastDrain := now))
    case OutsideTransfer(token, from, to, quantity) =>
      Move(s, Outside, token, from, to, quantity)
  }

  /** The state after the call: a panic rolls everything back. */
  function After(c: Config, s: State, call: Call, now: u32): State {
    var r := Step(c, s, call, now);
    if r.Ok? then r.value else s
  }

  /** What a caller sees: the new state and whether the call panicked. */
  function Observe(c: Config, s: State, call: Call, now: u32): (State, Outcome<Panic>) {
    var r := Step(c, s, call, now);
    (After(c, s, call, now), if r.Ok? then Pass else Fail(r.error))
  }
}
