/** Who may call what: exact acceptance, what a refused call panics with, and by whose calls money leaves. */
module PaymentEscrowCalls {
  import opened Prelude
  import opened PaymentEscrow
  import opened PaymentEscrowProofs

  // ----- acceptance -----

  /** A configuration deploys exactly with a positive TTL and cooldown and three different signers. */
  lemma DeploysExactlyWhen(c: Config)
    ensures c.Check().Pass?
            <==> c.defaultTtl > 0 && c.cooldown > 0 && |c.signers| == 3
                 && c.signers[0] != c.signers[1] && c.signers[1] != c.signers[2] && c.signers[2] != c.signers[0]
    ensures c.defaultTtl == 0 ==> c.Check() == Fail(DefaultTtlZero)
    ensures c.defaultTtl > 0 && c.cooldown == 0 ==> c.Check() == Fail(CooldownZero)
    ensures c.defaultTtl > 0 && c.cooldown > 0 && |c.signers| != 3 ==> c.Check() == Fail(SignerCount)
  {
  }

  /** The token a payment of an asset is in. */
  lemma AssetsHaveTheirTokens(c: Config)
    ensures c.TokenOf(Xlm) == c.xlmToken && c.TokenOf(Usdc) == c.usdcToken
  {
  }

  /** A deposit is accepted exactly with a positive amount, a TTL of at most 518,400 ledgers, a new id, an approved
      merchant, and the funds; a refused one says the first thing wrong. */
  lemma DepositExactlyWhen(c: Config, s: State, d: Call, now: u32)
    requires d.Deposit?
    ensures var token := if d.asset.Xlm? then c.xlmToken else c.usdcToken;
            var r := Step(c, s, d, now);
            && (r.Ok? <==> d.amount > 0 && 0 < d.ttl <= 518_400 && d.id !in s.payments && d.approved
                           && d.amount <= Balance(s.balances, token, d.customer)
                           && HasRoom(s.balances, token, d.customer, c.self, d.amount))
            && (d.amount <= 0 ==> r == Err(AmountNotPositive))
            && (d.amount > 0 && d.ttl == 0 ==> r == Err(TtlZero))
            && (d.amount > 0 && d.ttl > 518_400 ==> r == Err(TtlTooLong))
            && (d.amount > 0 && 0 < d.ttl <= 518_400 && d.id in s.payments ==> r == Err(DuplicateId))
            && (d.amount > 0 && 0 < d.ttl <= 518_400 && d.id !in s.payments && !d.approved ==> r == Err(MerchantNotApproved))
  {
  }

  // ----- refusals -----

  /** Only the admin releases, in whole or in part, and resolves disputes, whatever the state. */
  lemma OnlyAdminDecides(c: Config, s: State, call: Call, now: u32)
    requires call.Release? || call.ReleasePartial? || call.ResolveDispute?
    requires call.caller != c.admin
    ensures Step(c, s, call, now) == Err(NotAdmin) && After(c, s, call, now) == s
  {
  }

  lemma ReleaseRefusals(c: Config, s: State, id: PaymentId, now: u32)
    ensures var r := Step(c, s, Release(c.admin, id), now);
            && (id !in s.payments ==> r == Err(PaymentNotFound))
            && (id in s.payments ==>
                  var p := s.payments[id];
                  && (p.status.Disputed? ==> r == Err(DisputeIsOpen))
                  && (p.status.Released? ==> r == Err(FullyReleased))
                  && (p.status.Expired? || (p.status.Pending? && now > p.expiry) ==> r == Err(PaymentExpired)))
  {
  }

  lemma PartialReleaseRefusals(c: Config, s: State, id: PaymentId, amount: i128, now: u32)
    ensures var r := Step(c, s, ReleasePartial(c.admin, id, amount), now);
            && (amount <= 0 ==> r == Err(ReleaseNotPositive))
            && (amount > 0 && id !in s.payments ==> r == Err(PaymentNotFound))
            && (amount > 0 && id in s.payments ==>
                  var p := s.payments[id];
                  && (p.status.Disputed? ==> r == Err(DisputeIsOpen))
                  && (p.status.Released? ==> r == Err(FullyReleased))
                  && (p.status.Expired? || (p.status.Pending? && now > p.expiry) ==> r == Err(PaymentExpired))
                  && (p.status.Pending? && now <= p.expiry && PaymentOk(p) && amount > p.amount - p.released
                      ==> r == Err(ReleaseTooLarge)))
  {
  }

  lemma RefundRefusals(c: Config, s: State, id: PaymentId, now: u32)
    ensures var r := Step(c, s, Refund(id), now);
            && r == Step(c, s, Expire(id), now)
            && (id !in s.payments ==> r == Err(PaymentNotFound))
            && (id in s.payments ==>
                  var p := s.payments[id];
                  && (p.status.Disputed? ==> r == Err(DisputeIsOpen))
                  && (p.status.Released? ==> r == Err(FullyReleased))
                  && (p.status.Expired? ==> r == Err(NotPending))
                  && (p.status.Pending? && now <= p.expiry ==> r == Err(NotYetExpired)))
  {
  }

  lemma DisputeRefusals(c: Config, s: State, id: PaymentId, caller: Address, reason: string, now: u32)
    ensures var r := Step(c, s, Dispute(caller, id, reason), now);
            && (id !in s.payments ==> r == Err(PaymentNotFound))
            && (id in s.payments ==>
                  var p := s.payments[id];
                  && (p.status.Disputed? ==> r == Err(DisputeAlreadyOpen))
                  && (!p.Open() ==> r == Err(NotPending))
                  && (p.status.Pending? && caller !in {p.customer, p.merchant} ==> r == Err(NotParticipant))
                  && (p.status.Pending? && caller in {p.customer, p.merchant} && now > p.disputeWindowEnd
                      ==> r == Err(WindowExpired)))
  {
  }

  lemma ResolveRefusals(c: Config, s: State, id: PaymentId, winner: Address, now: u32)
    ensures var r := Step(c, s, ResolveDispute(c.admin, id, winner), now);
            && (id !in s.payments ==> r == Err(PaymentNotFound))
            && (id in s.payments ==>
                  var p := s.payments[id];
                  && (!p.status.Disputed? ==> r == Err(DisputeNotOpen))
                  && (p.status.Disputed? && winner !in {p.customer, p.merchant} ==> r == Err(InvalidWinner)))
  {
  }

  lemma DrainRefusals(c: Config, s: State, caller: Address, one: Address, two: Address, now: u32)
    ensures var r := Step(c, s, EmergencyDrain(caller, one, two), now);
            && (one == two ==> r == Err(SignersNotDistinct))
            && (one != two && (one !in c.signers || two !in c.signers) ==> r == Err(NotSigner))
            && (one != two && one in c.signers && two in c.signers ==>
                  && (s.lastDrain != 0 && now < Min(s.lastDrain + c.cooldown, U32_MAX) ==> r == Err(CooldownActive))
                  && ((s.lastDrain == 0 || now >= Min(s.lastDrain + c.cooldown, U32_MAX)) ==>
                        (Balance(s.balances, c.usdcToken, c.self) == 0 ==> r == Err(NothingToDrain))))
  {
  }

  // ----- by whose calls money leaves -----

  /** The admin decides about `p`, or `p` has expired undisputed. */
  predicate MayPayOut(c: Config, p: Payment, call: Call, now: u32) {
    match call
    case Release(caller, id) => id == p.id && caller == c.admin
    case ReleasePartial(caller, id, _) => id == p.id && caller == c.admin
    case ResolveDispute(caller, id, _) => id == p.id && caller == c.admin && p.status.Disputed?
    case Expire(id) => id == p.id && p.status.Pending? && now > p.expiry
    case Refund(id) => id == p.id && p.status.Pending? && now > p.expiry
    case _ => false
  }

  predicate SignedDrain(c: Config, call: Call) {
    call.EmergencyDrain? && call.signerOne != call.signerTwo && call.signerOne in c.signers && call.signerTwo in c.signers
  }

  lemma PayoutIsAllowed(c: Config, s: State, call: Call, now: u32)
    requires PaymentsOk(s) && IsPayout(call) && Step(c, s, call, now).Ok?
    ensures call.id in s.payments && MayPayOut(c, s.payments[call.id], call, now)
  {
  }

  /** Over every run, money leaves a payment only by a call of the admin or after its expiry, and the contract's tokens
      leave only so or by a drain that two different signers signed. */
  lemma MoneyLeavesOnlyBy(c: Config, initial: Balances, calls: seq<Timed>, call: Call, now: u32, id: PaymentId, t: Address)
    requires AllLegal(c, calls) && Legal(c, call)
    requires id in Run(c, Start(initial), calls).payments
    ensures var s := Run(c, Start(initial), calls);
            var s' := After(c, s, call, now);
            && id in s'.payments
            && (s'.payments[id].released != s.payments[id].released ==> MayPayOut(c, s.payments[id], call, now))
            && (Balance(s'.balances, t, c.self) < Balance(s.balances, t, c.self) ==>
                  SignedDrain(c, call)
                  || (IsPayout(call) && call.id in s.payments && MayPayOut(c, s.payments[call.id], call, now)))
  {
    var s := Run(c, Start(initial), calls);
    ReachableInv(c, initial, calls);
    var kind := StepKind(c, s, call, now);
    if Step(c, s, call, now).Ok? {
      if IsPayout(call) {
        PayoutIsAllowed(c, s, call, now);
      } else if call.EmergencyDrain? {
        DrainExactlyWhen(c, s, call.caller, call.signerOne, call.signerTwo, now);
      }
    }
  }
}
