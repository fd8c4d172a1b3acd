/** The vendor confirms and the buyer cancels the same offline direct order. Both hold a key to the
    1-of-2 escrow: the vendor writes the new state and then sweeps, the buyer sweeps and then writes
    the state, and the two run on different nodes, one sub-step at a time. */
module EscrowRace {
  import opened Wrappers

  type Coin = string

  datatype Sale = SalePending | SaleAwaitingFulfillment | SaleCanceled
  datatype Purchase = PurchasePending | PurchaseProcessingError | PurchaseAwaitingFulfillment | PurchaseCanceled

  /** What each side may take for the order's unspent funding when a call of its reads its records. */
  datatype Setup = Setup(funding: set<Coin>, vendorViews: set<set<Coin>>, buyerViews: set<set<Coin>>)

  /** Where the vendor's call is: past the guard, state written, sweep refused, coins swept. */
  datatype Vendor = VendorIdle | Guarded(inputs: set<Coin>) | Stored(inputs: set<Coin>) | Failed | Swept

  datatype Buyer = BuyerIdle | Cancelling(inputs: set<Coin>) | Taken | Notified

  datatype Outcome = NoCall | Confirmed | Refused

  datatype State = State(
    unspent: set<Coin>,
    sale: Sale, vendor: Vendor, vendorGot: set<Coin>, lastConfirm: Outcome,
    purchase: Purchase, buyer: Buyer, buyerGot: set<Coin>,
    confirmSent: bool, cancelSent: bool)

  function Start(c: Setup, purchase: Purchase): State {
    State(c.funding, SalePending, VendorIdle, {}, NoCall, purchase, BuyerIdle, {}, false, false)
  }

  datatype Step =
    | ConfirmReads(view: set<Coin>) | ConfirmStops | ConfirmStores | ConfirmGivesUp | ConfirmSweeps
    | ConfirmRecovers | ConfirmReturns(sent: bool)
    | CancelReads(view: set<Coin>) | CancelStops | CancelSweeps | CancelNotifies(sent: bool) | CancelStores(stored: bool)
    | ConfirmArrives | CancelArrives

  /** The ledger spends a set of coins once, as a whole. */
  predicate Accepts(unspent: set<Coin>, inputs: set<Coin>) {
    inputs != {} && inputs <= unspent
  }

  /** The state after a step, or None when the step cannot be taken. */
  function After(c: Setup, s: State, step: Step): Option<State> {
    match step
    // The handler reads the sale and refuses any state but PENDING.
    case ConfirmReads(view) =>
      if s.vendor.VendorIdle? && s.sale.SalePending? && view in c.vendorViews
      then Some(s.(vendor := Guarded(view))) else None
    // An error before anything is written.
    case ConfirmStops =>
      if s.vendor.Guarded? then Some(s.(vendor := VendorIdle, lastConfirm := Refused)) else None
    case ConfirmStores =>
      if s.vendor.Guarded? then Some(s.(vendor := Stored(s.vendor.inputs), sale := SaleAwaitingFulfillment)) else None
    // Undecodable records, no inputs, or no key.
    case ConfirmGivesUp =>
      if s.vendor.Stored? then Some(s.(vendor := Failed)) else None
    case ConfirmSweeps =>
      if !s.vendor.Stored? then None
      else if Accepts(s.unspent, s.vendor.inputs)
      then Some(s.(vendor := Swept, unspent := s.unspent - s.vendor.inputs, vendorGot := s.vendorGot + s.vendor.inputs))
      else Some(s.(vendor := Failed))
    // recoverState writes the old state back, whatever has been written since.
    case ConfirmRecovers =>
      if s.vendor.Failed? then Some(s.(vendor := VendorIdle, sale := SalePending, lastConfirm := Refused)) else None
    // A confirmation that cannot be sent is logged and the call still succeeds.
    case ConfirmReturns(sent) =>
      if s.vendor.Swept?
      then Some(s.(vendor := VendorIdle, lastConfirm := Confirmed, confirmSent := s.confirmSent || sent)) else None
    case CancelReads(view) =>
      if s.buyer.BuyerIdle? && (s.purchase.PurchasePending? || s.purchase.PurchaseProcessingError?) && view in c.buyerViews
      then Some(s.(buyer := Cancelling(view))) else None
    case CancelStops =>
      if s.buyer.Cancelling? then Some(s.(buyer := BuyerIdle)) else None
    case CancelSweeps =>
      if !s.buyer.Cancelling? then None
      else if Accepts(s.unspent, s.buyer.inputs)
      then Some(s.(buyer := Taken, unspent := s.unspent - s.buyer.inputs, buyerGot := s.buyerGot + s.buyer.inputs))
      else Some(s.(buyer := BuyerIdle))
    // A cancellation that cannot be sent fails the call before the state is written.
    case CancelNotifies(sent) =>
      if s.buyer.Taken? then Some(if sent then s.(buyer := Notified, cancelSent := true) else s.(buyer := BuyerIdle)) else None
    case CancelStores(stored) =>
      if s.buyer.Notified?
      then Some(s.(buyer := BuyerIdle, purchase := if stored then PurchaseCanceled else s.purchase)) else None
    // The other node's handler, which is not part of either call.
    case ConfirmArrives =>
      if s.confirmSent
      then Some(if s.purchase.PurchasePending? then s.(purchase := PurchaseAwaitingFulfillment) else s) else None
    case CancelArrives =>
      if s.cancelSent then Some(s.(sale := SaleCanceled)) else None
  }

  function Run(c: Setup, s: State, steps: seq<Step>): Option<State> {
    if steps == [] then Some(s)
    else
      var prev := Run(c, s, steps[..|steps| - 1]);
      if prev.None? then None else After(c, prev.value, steps[|steps| - 1])
  }

  ghost predicate Reachable(c: Setup, s: State) {
    exists purchase, steps ::
      (purchase == PurchasePending || purchase == PurchaseProcessingError) && Run(c, Start(c, purchase), steps) == Some(s)
  }

  /** Both calls have returned, the vendor is about to ship, and the buyer has taken the money back. */
  predicate Split(s: State) {
    s.vendor.VendorIdle? && s.buyer.BuyerIdle? && s.sale.SaleAwaitingFulfillment? && s.purchase.PurchaseCanceled?
  }

  // ---------- what every sub-step keeps ----------

  ghost predicate SweptBy(views: set<set<Coin>>, got: set<Coin>) {
    got != {} ==> exists v :: v in views && v != {} && v <= got
  }

  ghost predicate Inv(c: Setup, s: State) {
    && s.vendorGot !! s.buyerGot && s.unspent == c.funding - s.vendorGot - s.buyerGot
    && s.vendorGot <= c.funding && s.buyerGot <= c.funding
    && SweptBy(c.vendorViews, s.vendorGot) && SweptBy(c.buyerViews, s.buyerGot)
    && (s.vendor.Guarded? || s.vendor.Stored? ==> s.vendor.inputs in c.vendorViews)
    && (s.buyer.Cancelling? ==> s.buyer.inputs in c.buyerViews)
    && (if s.vendorGot != {}
        then !s.sale.SalePending? && (s.vendor.Swept? || (s.vendor.VendorIdle? && s.lastConfirm.Confirmed?))
        else !s.vendor.Swept? && !s.lastConfirm.Confirmed? && !s.confirmSent &&
             (s.vendor.VendorIdle? || s.vendor.Guarded? ==> !s.sale.SaleAwaitingFulfillment?))
    && (s.vendor.Stored? ==> !s.sale.SalePending?)
    && (s.sale.SaleCanceled? ==> s.cancelSent)
    && (s.purchase.PurchaseAwaitingFulfillment? ==> s.confirmSent)
    && (s.buyer.Taken? || s.buyer.Notified? || s.cancelSent || s.purchase.PurchaseCanceled? ==> s.buyerGot != {})
  }

  lemma {:induction false} AfterKeepsInv(c: Setup, s: State, step: Step)
    requires Inv(c, s) && After(c, s, step).Some?
    ensures Inv(c, After(c, s, step).value)
  {
  }

  lemma {:induction false} RunKeepsInv(c: Setup, s: State, steps: seq<Step>)
    requires Inv(c, s) && Run(c, s, steps).Some?
    ensures Inv(c, Run(c, s, steps).value)
  {
    if steps != [] {
      RunKeepsInv(c, s, steps[..|steps| - 1]);
      AfterKeepsInv(c, Run(c, s, steps[..|steps| - 1]).value, steps[|steps| - 1]);
    }
  }

  lemma {:induction false} ReachableInv(c: Setup, s: State)
    requires Reachable(c, s)
    ensures Inv(c, s)
  {
    var purchase, steps :|
      (purchase == PurchasePending || purchase == PurchaseProcessingError) && Run(c, Start(c, purchase), steps) == Some(s);
    RunKeepsInv(c, Start(c, purchase), steps);
  }

  // ---------- who ends up with what ----------

  lemma {:induction false} Extend(c: Setup, purchase: Purchase, steps: seq<Step>, s: State, step: Step) returns (longer: seq<Step>)
    requires Run(c, Start(c, purchase), steps) == Some(s) && After(c, s, step).Some?
    ensures longer == steps + [step] && Run(c, Start(c, purchase), longer) == After(c, s, step)
  {
    longer := steps + [step];
    assert longer[..|longer| - 1] == steps;
  }

  ghost predicate DisjointViews(c: Setup) {
    exists v, b :: v in c.vendorViews && b in c.buyerViews && v != {} && b != {} && v !! b &&
                   v <= c.funding && b <= c.funding
  }

  lemma {:induction false} ConfirmSucceeds(c: Setup, purchase: Purchase, v: set<Coin>, sent: bool) returns (steps: seq<Step>, s: State)
    requires v in c.vendorViews && v != {} && v <= c.funding
    ensures Run(c, Start(c, purchase), steps) == Some(s)
    ensures s == Start(c, purchase).(vendor := VendorIdle, lastConfirm := Confirmed, sale := SaleAwaitingFulfillment,
                                     unspent := c.funding - v, vendorGot := {} + v, confirmSent := sent)
  {
    s := Start(c, purchase);
    steps := Extend(c, purchase, [], s, ConfirmReads(v));
    s := s.(vendor := Guarded(v));
    steps := Extend(c, purchase, steps, s, ConfirmStores);
    s := s.(vendor := Stored(v), sale := SaleAwaitingFulfillment);
    steps := Extend(c, purchase, steps, s, ConfirmSweeps);
    s := s.(vendor := Swept, unspent := c.funding - v, vendorGot := {} + v);
    steps := Extend(c, purchase, steps, s, ConfirmReturns(sent));
    s := s.(vendor := VendorIdle, lastConfirm := Confirmed, confirmSent := sent);
  }

  lemma {:induction false} CancelTakes(c: Setup, purchase: Purchase, before: seq<Step>, from: State, b: set<Coin>)
    returns (steps: seq<Step>, s: State)
    requires Run(c, Start(c, purchase), before) == Some(from) && from.buyer.BuyerIdle?
    requires from.purchase.PurchasePending? || from.purchase.PurchaseProcessingError?
    requires b in c.buyerViews && Accepts(from.unspent, b)
    ensures Run(c, Start(c, purchase), steps) == Some(s)
    ensures s == from.(buyer := Taken, unspent := from.unspent - b, buyerGot := from.buyerGot + b)
  {
    s := from.(buyer := Cancelling(b));
    steps := Extend(c, purchase, before, from, CancelReads(b));
    steps := Extend(c, purchase, steps, s, CancelSweeps);
    s := from.(buyer := Taken, unspent := from.unspent - b, buyerGot := from.buyerGot + b);
  }

  lemma {:induction false} CancelFinishes(c: Setup, purchase: Purchase, before: seq<Step>, from: State)
    returns (steps: seq<Step>, s: State)
    requires Run(c, Start(c, purchase), before) == Some(from) && from.buyer.Taken?
    ensures Run(c, Start(c, purchase), steps) == Some(s)
    ensures s == from.(buyer := BuyerIdle, purchase := PurchaseCanceled, cancelSent := true)
  {
    s := from.(buyer := Notified, cancelSent := true);
    steps := Extend(c, purchase, before, from, CancelNotifies(true));
    steps := Extend(c, purchase, steps, s, CancelStores(true));
    s := from.(buyer := BuyerIdle, purchase := PurchaseCanceled, cancelSent := true);
  }

  lemma {:induction false} CancelSucceeds(c: Setup, purchase: Purchase, before: seq<Step>, from: State, b: set<Coin>)
    returns (steps: seq<Step>, s: State)
    requires Run(c, Start(c, purchase), before) == Some(from) && from.buyer.BuyerIdle?
    requires from.purchase.PurchasePending? || from.purchase.PurchaseProcessingError?
    requires b in c.buyerViews && Accepts(from.unspent, b)
    ensures Run(c, Start(c, purchase), steps) == Some(s)
    ensures s == from.(purchase := PurchaseCanceled, cancelSent := true, unspent := from.unspent - b, buyerGot := from.buyerGot + b)
  {
    var taken;
    steps, taken := CancelTakes(c, purchase, before, from, b);
    steps, s := CancelFinishes(c, purchase, steps, taken);
  }

  lemma {:induction false} DisjointViewsSplit(c: Setup) returns (s: State)
    requires DisjointViews(c)
    ensures Reachable(c, s) && Split(s)
  {
    var v, b :| v in c.vendorViews && b in c.buyerViews && v != {} && b != {} && v !! b && v <= c.funding && b <= c.funding;
    var steps, confirmed := ConfirmSucceeds(c, PurchasePending, v, false);
    steps, s := CancelSucceeds(c, PurchasePending, steps, confirmed, b);
  }

  /** A run can end with the vendor about to ship and the buyer refunded exactly when the two sides can
      be looking at two different parts of the funding. */
  lemma {:induction false} SplitIffDisjointViews(c: Setup)
    ensures (exists s :: Reachable(c, s) && Split(s)) <==> DisjointViews(c)
  {
    if DisjointViews(c) {
      var s := DisjointViewsSplit(c);
    }
    if s :| Reachable(c, s) && Split(s) {
      ReachableInv(c, s);
    }
  }

  /** When each sweep takes the whole funding, at most one side is ever paid: an order about to ship is
      paid for, and a canceled purchase leaves the vendor nothing and nothing to ship. */
  lemma {:induction false} WholeSweepsAgree(c: Setup, s: State)
    requires c.vendorViews == {c.funding} && c.buyerViews == {c.funding}
    requires Reachable(c, s)
    ensures s.vendorGot == {} || s.buyerGot == {}
    ensures s.vendorGot + s.buyerGot + s.unspent == c.funding
    ensures !Split(s)
    ensures s.vendor.VendorIdle? && s.sale.SaleAwaitingFulfillment? ==> s.vendorGot == c.funding != {}
    ensures s.buyer.BuyerIdle? && s.purchase.PurchaseCanceled? ==> s.buyerGot == c.funding != {}
    ensures s.purchase.PurchaseAwaitingFulfillment? ==> s.vendorGot == c.funding != {}
    ensures s.sale.SaleCanceled? ==> s.buyerGot == c.funding != {}
  {
    ReachableInv(c, s);
  }

  /** Both endings can come about: a confirmation that arrives leaves both sides about to ship and the
      vendor paid; a cancellation that arrives leaves both canceled and the buyer paid back, also where
      the order could not be processed. */
  lemma {:induction false} BothCanSucceed(c: Setup, coins: set<Coin>, purchase: Purchase) returns (confirmed: State, canceled: State)
    requires coins in c.vendorViews && coins in c.buyerViews && Accepts(c.funding, coins)
    requires purchase == PurchasePending || purchase == PurchaseProcessingError
    ensures Reachable(c, confirmed) && confirmed.vendor.VendorIdle? && confirmed.sale.SaleAwaitingFulfillment? && confirmed.vendorGot == coins
    ensures purchase == PurchasePending ==> confirmed.purchase.PurchaseAwaitingFulfillment?
    ensures Reachable(c, canceled) && canceled.sale.SaleCanceled? && canceled.purchase.PurchaseCanceled? && canceled.buyerGot == coins
  {
    var steps;
    steps, confirmed := ConfirmSucceeds(c, purchase, coins, true);
    steps := Extend(c, purchase, steps, confirmed, ConfirmArrives);
    confirmed := After(c, confirmed, ConfirmArrives).value;
    steps, canceled := CancelSucceeds(c, purchase, [], Start(c, purchase), coins);
    steps := Extend(c, purchase, steps, canceled, CancelArrives);
    canceled := canceled.(sale := SaleCanceled);
  }

  /** An error before anything is written can end either call exactly where its guard has been passed;
      it returns, and neither the stored states nor the coins have changed. */
  lemma {:induction false} StoppingIsClean(c: Setup, s: State)
    ensures After(c, s, ConfirmStops).Some? <==> s.vendor.Guarded?
    ensures After(c, s, CancelStops).Some? <==> s.buyer.Cancelling?
    ensures forall step :: (step == ConfirmStops || step == CancelStops) && After(c, s, step).Some? ==>
              var s' := After(c, s, step).value;
              s'.sale == s.sale && s'.purchase == s.purchase && s'.unspent == s.unspent && s'.vendorGot == s.vendorGot &&
              s'.buyerGot == s.buyerGot && s'.confirmSent == s.confirmSent && s'.cancelSent == s.cancelSent &&
              (if step == ConfirmStops then s'.vendor.VendorIdle? && s'.lastConfirm.Refused? && s'.buyer == s.buyer
               else s'.buyer.BuyerIdle? && s'.vendor == s.vendor && s'.lastConfirm == s.lastConfirm)
  {
  }

  /** A cancellation that is sent but cannot be stored cancels the sale and not the purchase. */
  lemma {:induction false} UnstoredCancelSplitsTheOrder(c: Setup, coins: set<Coin>) returns (s: State)
    requires coins in c.buyerViews && Accepts(c.funding, coins)
    ensures Reachable(c, s) && s.buyer.BuyerIdle? && s.vendor.VendorIdle? && s.buyerGot == coins
    ensures s.sale.SaleCanceled? && s.purchase.PurchasePending?
  {
    var steps, taken := CancelTakes(c, PurchasePending, [], Start(c, PurchasePending), coins);
    steps := Extend(c, PurchasePending, steps, taken, CancelNotifies(true));
    s := taken.(buyer := Notified, cancelSent := true);
    steps := Extend(c, PurchasePending, steps, s, CancelStores(false));
    s := s.(buyer := BuyerIdle);
    steps := Extend(c, PurchasePending, steps, s, CancelArrives);
    s := s.(sale := SaleCanceled);
  }

  /** A cancel call whose message cannot be sent has already taken the coins, and leaves the order as if
      it had not. */
  lemma {:induction false} UnsentCancelKeepsTheCoins(c: Setup, coins: set<Coin>) returns (s: State)
    requires coins in c.buyerViews && Accepts(c.funding, coins)
    ensures Reachable(c, s) && s.buyer.BuyerIdle? && s.buyerGot == coins && !s.cancelSent
    ensures s.purchase.PurchasePending? && s.sale.SalePending?
  {
    var steps, taken := CancelTakes(c, PurchasePending, [], Start(c, PurchasePending), coins);
    steps := Extend(c, PurchasePending, steps, taken, CancelNotifies(false));
    s := taken.(buyer := BuyerIdle);
  }

  /** With no cancel call under way, a purchase that is canceled or about to be shipped stays so, and no
      further coins are taken back. */
  lemma {:induction false} PurchaseSettles(c: Setup, s: State, steps: seq<Step>)
    requires s.buyer.BuyerIdle? && (s.purchase.PurchaseCanceled? || s.purchase.PurchaseAwaitingFulfillment?)
    requires Run(c, s, steps).Some?
    ensures var s' := Run(c, s, steps).value;
            s'.buyer.BuyerIdle? && s'.purchase == s.purchase && s'.buyerGot == s.buyerGot
  {
    if steps != [] {
      PurchaseSettles(c, s, steps[..|steps| - 1]);
    }
  }

  /** A confirmation that returns an error has swept nothing, and the sale is back in its old state
      unless a cancellation has reached the vendor. */
  lemma {:induction false} RefusedConfirm(c: Setup, s: State)
    requires Reachable(c, s) && s.vendor.VendorIdle? && s.lastConfirm.Refused?
    ensures s.vendorGot == {}
    ensures s.sale.SalePending? || (s.sale.SaleCanceled? && s.cancelSent && s.buyerGot != {})
  {
    ReachableInv(c, s);
  }

  /** A confirm call is past its guard and has not swept: it has a write of the sale to come. */
  predicate ConfirmUnderWay(s: State) {
    s.vendor.Guarded? || s.vendor.Stored? || s.vendor.Failed?
  }

  lemma {:induction false} CanceledStays(c: Setup, s: State, steps: seq<Step>)
    requires s.sale.SaleCanceled? && !ConfirmUnderWay(s) && Run(c, s, steps).Some?
    ensures Run(c, s, steps).value.sale.SaleCanceled? && !ConfirmUnderWay(Run(c, s, steps).value)
  {
    if steps != [] {
      CanceledStays(c, s, steps[..|steps| - 1]);
    }
  }

  lemma {:induction false} CanceledIsOverwritten(c: Setup, s: State) returns (steps: seq<Step>)
    requires ConfirmUnderWay(s)
    ensures Run(c, s, steps).Some? && !Run(c, s, steps).value.sale.SaleCanceled?
  {
    if s.vendor.Guarded? {
      steps := [ConfirmStores];
    } else if s.vendor.Stored? {
      steps := [ConfirmGivesUp, ConfirmRecovers];
      assert steps[..1] == [ConfirmGivesUp] && Run(c, s, [ConfirmGivesUp]) == After(c, s, ConfirmGivesUp);
    } else {
      steps := [ConfirmRecovers];
    }
    assert Run(c, s, []) == Some(s);
  }

  /** From any state an arrived cancellation can be written over exactly when a confirm call is past its
      guard and has not swept, or is recovering. */
  lemma {:induction false} CancellationLostIff(c: Setup, s: State)
    requires s.sale.SaleCanceled?
    ensures (exists steps :: Run(c, s, steps).Some? && !Run(c, s, steps).value.sale.SaleCanceled?) <==> ConfirmUnderWay(s)
  {
    if ConfirmUnderWay(s) {
      var steps := CanceledIsOverwritten(c, s);
    } else if steps :| Run(c, s, steps).Some? && !Run(c, s, steps).value.sale.SaleCanceled? {
      CanceledStays(c, s, steps);
    }
  }

  /** Recovery can lose a cancellation: the vendor's handler writes CANCELED during a confirm call, and
      the failed sweep then writes PENDING over it. */
  lemma {:induction false} RecoveryLosesCancellation(c: Setup) returns (s: State)
    requires c.funding != {} && c.funding in c.vendorViews && c.funding in c.buyerViews
    ensures Reachable(c, s) && s.vendor.VendorIdle? && s.buyer.BuyerIdle?
    ensures s.cancelSent && s.purchase.PurchaseCanceled? && s.buyerGot == c.funding && s.sale.SalePending?
  {
    var f := c.funding;
    s := Start(c, PurchasePending);
    var steps := Extend(c, PurchasePending, [], s, ConfirmReads(f));
    s := s.(vendor := Guarded(f));
    steps := Extend(c, PurchasePending, steps, s, ConfirmStores);
    s := s.(vendor := Stored(f), sale := SaleAwaitingFulfillment);
    steps, s := CancelSucceeds(c, PurchasePending, steps, s, f);
    steps := Extend(c, PurchasePending, steps, s, CancelArrives);
    s := s.(sale := SaleCanceled);
    steps := Extend(c, PurchasePending, steps, s, ConfirmSweeps);
    s := s.(vendor := Failed);
    steps := Extend(c, PurchasePending, steps, s, ConfirmRecovers);
    s := s.(vendor := VendorIdle, sale := SalePending, lastConfirm := Refused);
  }
}
