/** The order states a node stores for its sales and purchases, and the guarded steps it takes on
    them. Each step is atomic here; EscrowRace takes two of them apart. */
module OrderStates {
  type Coin = string

  datatype OrderState =
    | PENDING | AWAITING_PAYMENT | AWAITING_PICKUP | AWAITING_FULFILLMENT | PARTIALLY_FULFILLED | FULFILLED
    | COMPLETED | CANCELED | DECLINED | REFUNDED | DISPUTED | DECIDED | RESOLVED | PAYMENT_FINALIZED | PROCESSING_ERROR

  // ---------- sales ----------

  /** A sale's stored state, and the order's funding coins that are still unspent. */
  datatype Sale = Sale(state: OrderState, moderated: bool, unspent: set<Coin>)

  /** ok and sent say whether everything the step depends on outside the node went well. */
  datatype SaleStep =
    | Confirm(funded: bool, ok: bool)
    | Reject(sent: bool)
    | Refund(ok: bool)
    | Fulfill(listings: nat, ok: bool)
    | OpenDispute(disputeable: bool, sent: bool)
    | DisputeArrives(sent: bool)
    | ReleaseEscrow(disputeActive: bool, supported: bool, mature: bool, ok: bool)
    | ReleaseFunds(ok: bool)
    | Funding(coin: Coin)

  /** A contract is fulfilled when it holds as many fulfillments as listings. */
  predicate IsFulfilled(fulfillments: nat, listings: nat) {
    fulfillments >= listings
  }

  /** FulfillOrder puts the question to the message it has just built, which holds the new fulfillment
      and no listings. */
  function StoredByFulfill(listings: nat): OrderState {
    if IsFulfilled(1, 0) then FULFILLED else PARTIALLY_FULFILLED
  }

  /** The sale after a step; a refused or failed step changes nothing. */
  function SaleAfter(s: Sale, step: SaleStep): Sale {
    match step
    case Confirm(funded, ok) =>
      if s.state != PENDING || !funded || !ok then s
      else if s.moderated then s.(state := AWAITING_FULFILLMENT)
      else if s.unspent == {} then s
      else s.(state := AWAITING_FULFILLMENT, unspent := {})
    case Reject(sent) =>
      if s.state == PENDING && sent then s.(state := DECLINED) else s
    case Refund(ok) =>
      if (s.state == AWAITING_FULFILLMENT || s.state == PARTIALLY_FULFILLED) && ok then s.(state := REFUNDED) else s
    case Fulfill(listings, ok) =>
      if (s.state == AWAITING_FULFILLMENT || s.state == PARTIALLY_FULFILLED) && ok
      then s.(state := StoredByFulfill(listings)) else s
    case OpenDispute(disputeable, sent) =>
      if s.moderated && (s.state == PARTIALLY_FULFILLED || s.state == FULFILLED) && disputeable && sent
      then s.(state := DISPUTED) else s
    case DisputeArrives(sent) =>
      if s.state == COMPLETED || s.state == DISPUTED || s.state == DECIDED || s.state == RESOLVED || s.state == REFUNDED ||
         s.state == CANCELED || s.state == DECLINED || s.state == PROCESSING_ERROR || !sent
      then s else s.(state := DISPUTED)
    case ReleaseEscrow(disputeActive, supported, mature, ok) =>
      if (s.state == PENDING || s.state == FULFILLED || s.state == DISPUTED) && !disputeActive && supported && mature &&
         s.unspent != {} && ok
      then s.(state := PAYMENT_FINALIZED, unspent := {}) else s
    case ReleaseFunds(ok) =>
      if s.state == DECIDED && ok then s.(state := DECIDED, unspent := {}) else s
    case Funding(coin) => s.(unspent := s.unspent + {coin})
  }

  function SaleRun(s: Sale, steps: seq<SaleStep>): Sale
    decreases |steps|
  {
    if steps == [] then s else SaleRun(SaleAfter(s, steps[0]), steps[1..])
  }

  /** How often the stored state changes in a run. */
  function SaleChanges(s: Sale, steps: seq<SaleStep>): nat
    decreases |steps|
  {
    if steps == [] then 0
    else (if SaleAfter(s, steps[0]).state != s.state then 1 else 0) + SaleChanges(SaleAfter(s, steps[0]), steps[1..])
  }

  function Fundings(steps: seq<SaleStep>): nat {
    if steps == [] then 0 else (if steps[0].Funding? then 1 else 0) + Fundings(steps[1..])
  }

  /** No local step leaves these. */
  predicate Settled(state: OrderState) {
    state == COMPLETED || state == REFUNDED || state == CANCELED || state == DECLINED ||
    state == DECIDED || state == RESOLVED || state == PROCESSING_ERROR
  }

  function PhaseRank(state: OrderState): nat {
    match state
    case PENDING => 3
    case AWAITING_FULFILLMENT => 2
    case PARTIALLY_FULFILLED => 2
    case FULFILLED => 1
    case PAYMENT_FINALIZED => 1
    case AWAITING_PAYMENT => 1
    case AWAITING_PICKUP => 1
    case _ => 0
  }

  // ---------- the transition diagrams ----------

  datatype Call = Confirming | Rejecting | Refunding | Fulfilling | Opening | Receiving | Timeout | Deciding | Paying
                | Cancelling | Completing

  function SaleCall(step: SaleStep): Call {
    match step
    case Confirm(_, _) => Confirming
    case Reject(_) => Rejecting
    case Refund(_) => Refunding
    case Fulfill(_, _) => Fulfilling
    case OpenDispute(_, _) => Opening
    case DisputeArrives(_) => Receiving
    case ReleaseEscrow(_, _, _, _) => Timeout
    case ReleaseFunds(_) => Deciding
    case Funding(_) => Paying
  }

  const SALE_EDGES := {
    (PENDING, Confirming, AWAITING_FULFILLMENT), (PENDING, Rejecting, DECLINED),
    (AWAITING_FULFILLMENT, Refunding, REFUNDED), (PARTIALLY_FULFILLED, Refunding, REFUNDED),
    (AWAITING_FULFILLMENT, Fulfilling, FULFILLED), (PARTIALLY_FULFILLED, Fulfilling, FULFILLED),
    (PARTIALLY_FULFILLED, Opening, DISPUTED), (FULFILLED, Opening, DISPUTED),
    (PENDING, Receiving, DISPUTED), (AWAITING_PAYMENT, Receiving, DISPUTED), (AWAITING_PICKUP, Receiving, DISPUTED),
    (AWAITING_FULFILLMENT, Receiving, DISPUTED), (PARTIALLY_FULFILLED, Receiving, DISPUTED),
    (FULFILLED, Receiving, DISPUTED), (PAYMENT_FINALIZED, Receiving, DISPUTED),
    (PENDING, Timeout, PAYMENT_FINALIZED), (FULFILLED, Timeout, PAYMENT_FINALIZED), (DISPUTED, Timeout, PAYMENT_FINALIZED)
  }

  /** A step of a sale for which everything outside the node went well. */
  function GoodSaleStep(call: Call): SaleStep {
    match call
    case Confirming => Confirm(true, true)
    case Rejecting => Reject(true)
    case Refunding => Refund(true)
    case Fulfilling => Fulfill(1, true)
    case Opening => OpenDispute(true, true)
    case Receiving => DisputeArrives(true)
    case Timeout => ReleaseEscrow(false, true, true, true)
    case Deciding => ReleaseFunds(true)
    case _ => Funding("coin")
  }

  lemma {:induction false} SaleMovesAlongEdges(s: Sale, step: SaleStep)
    requires SaleAfter(s, step).state != s.state
    ensures (s.state, SaleCall(step), SaleAfter(s, step).state) in SALE_EDGES && (step.OpenDispute? ==> s.moderated)
  {
  }

  lemma {:induction false} SaleTakesEdge(from: OrderState, call: Call, to: OrderState, moderated: bool)
    requires (from, call, to) in SALE_EDGES && (call == Opening ==> moderated)
    ensures SaleCall(GoodSaleStep(call)) == call && SaleAfter(Sale(from, moderated, {"coin"}), GoodSaleStep(call)).state == to
  {
  }

  /** The transition diagram of a sale: which call takes it from which state to which. Only the opening of
      a dispute asks for a moderated order. */
  lemma {:induction false} SaleEdges(from: OrderState, call: Call, to: OrderState, moderated: bool)
    requires from != to
    ensures (exists s: Sale, step :: s.state == from && s.moderated == moderated && SaleCall(step) == call && SaleAfter(s, step).state == to) <==>
            (from, call, to) in SALE_EDGES && (call == Opening ==> moderated)
  {
    if (from, call, to) in SALE_EDGES && (call == Opening ==> moderated) {
      SaleTakesEdge(from, call, to, moderated);
      assert Sale(from, moderated, {"coin"}).state == from;
    }
    forall s: Sale, step | s.state == from && s.moderated == moderated && SaleCall(step) == call && SaleAfter(s, step).state == to
      ensures (from, call, to) in SALE_EDGES && (call == Opening ==> moderated)
    {
      SaleMovesAlongEdges(s, step);
    }
  }

  predicate Failed(step: SaleStep) {
    match step
    case Confirm(funded, ok) => !funded || !ok
    case Reject(sent) => !sent
    case Refund(ok) => !ok
    case Fulfill(_, ok) => !ok
    case OpenDispute(disputeable, sent) => !disputeable || !sent
    case DisputeArrives(sent) => !sent
    case ReleaseEscrow(disputeActive, supported, mature, ok) => disputeActive || !supported || !mature || !ok
    case ReleaseFunds(ok) => !ok
    case Funding(_) => false
  }

  /** A failure changes nothing, only a moderated sale can be disputed by its vendor, and the escrow is
      spent, all of it, exactly by a release, or by confirming an order that is not moderated. */
  lemma {:induction false} CoinsFollowTheState(s: Sale, step: SaleStep)
    ensures Failed(step) ==> SaleAfter(s, step) == s
    ensures step.OpenDispute? && SaleAfter(s, step) != s ==> s.moderated
    ensures SaleAfter(s, step).moderated == s.moderated
    ensures var s' := SaleAfter(s, step);
            if step.Funding? then s'.unspent == s.unspent + {step.coin}
            else if s'.state != s.state && (s'.state == PAYMENT_FINALIZED || (step.Confirm? && !s.moderated))
            then s.unspent != {} && s'.unspent == {}
            else if step.ReleaseFunds? && step.ok && s.state == DECIDED then s'.unspent == {}
            else s'.unspent == s.unspent
  {
  }

  /** State changes still possible without new funding: an unspent escrow is good for two more. */
  function ChangesLeft(s: Sale): nat {
    PhaseRank(s.state) + if s.unspent == {} then 0 else 2
  }

  /** The settled states are exactly those no local step leaves, whatever the coins. */
  lemma {:induction false} SettledIffNeverLeft(state: OrderState)
    ensures Settled(state) <==> forall s: Sale, step: SaleStep :: s.state == state ==> SaleAfter(s, step).state == state
  {
    if !Settled(state) {
      var s := Sale(state, true, {"coin"});
      assert SaleAfter(s, DisputeArrives(true)).state != state || SaleAfter(s, ReleaseEscrow(false, true, true, true)).state != state;
    }
  }

  lemma {:induction false} SettledForGood(s: Sale, steps: seq<SaleStep>)
    requires Settled(s.state)
    ensures SaleRun(s, steps).state == s.state
    decreases |steps|
  {
    if steps != [] {
      SettledIffNeverLeft(s.state);
      SettledForGood(SaleAfter(s, steps[0]), steps[1..]);
    }
  }

  lemma {:induction false} ChangePays(s: Sale, step: SaleStep)
    ensures SaleAfter(s, step).state != s.state ==> ChangesLeft(SaleAfter(s, step)) < ChangesLeft(s)
    ensures ChangesLeft(SaleAfter(s, step)) <= ChangesLeft(s) + if step.Funding? then 2 else 0
  {
  }

  /** A sale changes state at most as often as ChangesLeft says, and twice more for each coin that
      funds it on the way, although PAYMENT_FINALIZED and DISPUTED can follow each other. */
  lemma {:induction false} FinitelyManyChanges(s: Sale, steps: seq<SaleStep>)
    ensures SaleChanges(s, steps) <= ChangesLeft(s) + 2 * Fundings(steps)
    ensures SaleChanges(s, steps) <= 5 + 2 * Fundings(steps)
    decreases |steps|
  {
    if steps != [] {
      ChangePays(s, steps[0]);
      FinitelyManyChanges(SaleAfter(s, steps[0]), steps[1..]);
    }
  }

  lemma {:induction false} FirstStep(s: Sale, step: SaleStep, rest: seq<SaleStep>)
    ensures SaleChanges(s, [step] + rest) ==
            (if SaleAfter(s, step).state != s.state then 1 else 0) + SaleChanges(SaleAfter(s, step), rest)
    ensures Fundings([step] + rest) == (if step.Funding? then 1 else 0) + Fundings(rest)
  {
    assert ([step] + rest)[1..] == rest;
  }

  lemma {:induction false} CycleOnTheNextCoin(coin: Coin) returns (steps: seq<SaleStep>)
    ensures Fundings(steps) == 1 && SaleChanges(Sale(DISPUTED, true, {coin}), steps) == 4
  {
    var release, arrives := ReleaseEscrow(false, true, true, true), DisputeArrives(true);
    var spent, open := Sale(PAYMENT_FINALIZED, true, {}), Sale(DISPUTED, true, {coin});
    FirstStep(spent, arrives, []);
    FirstStep(open, release, [arrives] + []);
    steps := [release] + ([arrives] + []);
    FirstStep(Sale(DISPUTED, true, {}), Funding(coin), steps);
    steps := [Funding(coin)] + steps;
    FirstStep(spent, arrives, steps);
    steps := [arrives] + steps;
    FirstStep(open, release, steps);
    steps := [release] + steps;
  }

  /** The bound is met: a moderated order can go through five changes on one coin, and two more on the
      next. */
  lemma {:induction false} BoundIsMet(coin: Coin) returns (steps: seq<SaleStep>)
    ensures Fundings(steps) == 1 && SaleChanges(Sale(PENDING, true, {coin}), steps) == 7
  {
    steps := CycleOnTheNextCoin(coin);
    FirstStep(Sale(FULFILLED, true, {coin}), OpenDispute(true, true), steps);
    steps := [OpenDispute(true, true)] + steps;
    FirstStep(Sale(AWAITING_FULFILLMENT, true, {coin}), Fulfill(1, true), steps);
    steps := [Fulfill(1, true)] + steps;
    FirstStep(Sale(PENDING, true, {coin}), Confirm(true, true), steps);
    steps := [Confirm(true, true)] + steps;
  }

  /** Whatever the number of listings, a fulfillment is stored as the last one. That is right exactly
      when the contract then holds as many fulfillments as listings. */
  lemma {:induction false} FulfillSkipsPartial(listings: nat, earlier: nat)
    ensures StoredByFulfill(listings) == FULFILLED
    ensures StoredByFulfill(listings) == (if IsFulfilled(earlier + 1, listings) then FULFILLED else PARTIALLY_FULFILLED)
       <==> earlier + 1 >= listings
  {
  }

  /** So in no run does a sale enter PARTIALLY_FULFILLED, and every guard that asks for it is dead. */
  lemma {:induction false} NeverPartiallyFulfilled(s: Sale, steps: seq<SaleStep>, n: nat)
    requires s.state != PARTIALLY_FULFILLED && n <= |steps|
    ensures SaleRun(s, steps[..n]).state != PARTIALLY_FULFILLED
    decreases n
  {
    if n > 0 {
      assert steps[..n][0] == steps[0] && steps[..n][1..] == steps[1..][..n - 1];
      NeverPartiallyFulfilled(SaleAfter(s, steps[0]), steps[1..], n - 1);
    }
  }

  // ---------- purchases ----------

  datatype Purchase = Purchase(state: OrderState, moderated: bool)

  datatype PurchaseStep =
    | Cancel(records: nat, ok: bool)
    | Complete(fulfillments: nat, ok: bool)
    | BuyerOpensDispute(records: nat, disputeable: bool, sent: bool)
    | BuyerReceivesDispute(sent: bool)
    | BuyerReleasesFunds(ok: bool)

  function PurchaseAfter(p: Purchase, step: PurchaseStep): Purchase {
    match step
    case Cancel(records, ok) =>
      if (p.state == PENDING || p.state == PROCESSING_ERROR) && records > 0 && !p.moderated && ok
      then p.(state := CANCELED) else p
    case Complete(fulfillments, ok) =>
      if (p.state == FULFILLED || p.state == RESOLVED || p.state == PAYMENT_FINALIZED) &&
         !(fulfillments == 0 && p.moderated) && ok
      then p.(state := COMPLETED) else p
    case BuyerOpensDispute(records, disputeable, sent) =>
      if p.moderated && (p.state == AWAITING_FULFILLMENT || p.state == PENDING || p.state == PARTIALLY_FULFILLED ||
         p.state == FULFILLED || (p.state == PROCESSING_ERROR && records > 0)) && disputeable && sent
      then p.(state := DISPUTED) else p
    case BuyerReceivesDispute(sent) =>
      if p.state == AWAITING_PICKUP || p.state == FULFILLED || p.state == PAYMENT_FINALIZED || p.state == PROCESSING_ERROR
      then if sent then p.(state := DISPUTED) else p
      else p
    case BuyerReleasesFunds(ok) => if p.state == DECIDED && ok then p.(state := DECIDED) else p
  }

  function PurchaseRun(p: Purchase, steps: seq<PurchaseStep>): Purchase
    decreases |steps|
  {
    if steps == [] then p else PurchaseRun(PurchaseAfter(p, steps[0]), steps[1..])
  }

  function PurchaseChanges(p: Purchase, steps: seq<PurchaseStep>): nat
    decreases |steps|
  {
    if steps == [] then 0
    else (if PurchaseAfter(p, steps[0]).state != p.state then 1 else 0) + PurchaseChanges(PurchaseAfter(p, steps[0]), steps[1..])
  }

  /** The buyer's own steps change a purchase at most once, and never one that is over or disputed. */
  lemma {:induction false} PurchaseChangesOnce(p: Purchase, steps: seq<PurchaseStep>)
    ensures PurchaseChanges(p, steps) <= 1
    ensures p.state in {COMPLETED, REFUNDED, CANCELED, DECLINED, DISPUTED} ==>
              PurchaseChanges(p, steps) == 0 && PurchaseRun(p, steps).state == p.state
    decreases |steps|
  {
    if steps != [] { PurchaseChangesOnce(PurchaseAfter(p, steps[0]), steps[1..]); }
  }

  function PurchaseCall(step: PurchaseStep): Call {
    match step
    case Cancel(_, _) => Cancelling
    case Complete(_, _) => Completing
    case BuyerOpensDispute(_, _, _) => Opening
    case BuyerReceivesDispute(_) => Receiving
    case BuyerReleasesFunds(_) => Deciding
  }

  const PURCHASE_EDGES := {
    (PENDING, Cancelling, CANCELED), (PROCESSING_ERROR, Cancelling, CANCELED),
    (FULFILLED, Completing, COMPLETED), (RESOLVED, Completing, COMPLETED), (PAYMENT_FINALIZED, Completing, COMPLETED),
    (AWAITING_FULFILLMENT, Opening, DISPUTED), (PENDING, Opening, DISPUTED), (PARTIALLY_FULFILLED, Opening, DISPUTED),
    (FULFILLED, Opening, DISPUTED), (PROCESSING_ERROR, Opening, DISPUTED),
    (AWAITING_PICKUP, Receiving, DISPUTED), (FULFILLED, Receiving, DISPUTED),
    (PAYMENT_FINALIZED, Receiving, DISPUTED), (PROCESSING_ERROR, Receiving, DISPUTED)
  }

  function GoodPurchaseStep(call: Call): PurchaseStep {
    match call
    case Cancelling => Cancel(1, true)
    case Completing => Complete(1, true)
    case Opening => BuyerOpensDispute(1, true, true)
    case Receiving => BuyerReceivesDispute(true)
    case _ => BuyerReleasesFunds(true)
  }

  /** The transition diagram of a purchase: cancelling asks for an order that is not moderated, opening a
      dispute for one that is. */
  lemma {:induction false} PurchaseEdges(from: OrderState, call: Call, to: OrderState, moderated: bool)
    requires from != to
    ensures (exists p: Purchase, step ::
               p.state == from && p.moderated == moderated && PurchaseCall(step) == call && PurchaseAfter(p, step).state == to) <==>
            (from, call, to) in PURCHASE_EDGES && (call == Opening ==> moderated) && (call == Cancelling ==> !moderated)
  {
    if (from, call, to) in PURCHASE_EDGES && (call == Opening ==> moderated) && (call == Cancelling ==> !moderated) {
      var p := Purchase(from, moderated);
      assert PurchaseCall(GoodPurchaseStep(call)) == call && PurchaseAfter(p, GoodPurchaseStep(call)).state == to;
    }
  }

  /** What stops each of the buyer's calls, in any state. */
  lemma {:induction false} PurchaseNeeds(p: Purchase, step: PurchaseStep)
    requires PurchaseAfter(p, step) != p
    ensures step.Cancel? ==> !p.moderated && step.records > 0 && step.ok
    ensures step.Complete? ==> step.ok && (p.moderated ==> step.fulfillments > 0)
    ensures step.BuyerOpensDispute? ==> p.moderated && step.disputeable && step.sent && (p.state == PROCESSING_ERROR ==> step.records > 0)
    ensures step.BuyerReceivesDispute? ==> step.sent
    ensures PurchaseAfter(p, step).moderated == p.moderated
  {
  }
}
