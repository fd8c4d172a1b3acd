/** Closing a dispute and releasing its funds: the moderator signs a transaction and writes down a payout,
    from which each party later rebuilds the transaction in order to sign it too. */
module DisputeClosing {
  import opened Wrappers
  import opened Decimals
  import opened Hexadecimal
  import opened DisputePayout

  type OrderID = string

  const TWO63 := 0x8000_0000_0000_0000
  const TWO64 := 0x1_0000_0000_0000_0000
  const LISTING_VERSION := 5
  const EXPIRY := 45 * 86_400
  const NANO := 1_000_000_000

  /** An amount is held in value, a uint64, or printed in bigValue; a positive value is the one read. */
  datatype Outpoint = Outpoint(hash: string, index: nat, value: nat, bigValue: string)

  datatype Input = Input(hash: seq<nat>, index: nat, value: int)

  datatype PaidTo = PaidTo(address: string, amount: nat, bigAmount: string)

  datatype Payout = Payout(inputs: seq<Outpoint>, buyer: Option<PaidTo>, vendor: Option<PaidTo>, moderator: Option<PaidTo>)

  datatype Tx = Tx(inputs: seq<Input>, outputs: seq<Output>)

  datatype Wallet = Wallet(own: Address, decode: string -> Option<Address>, show: Address -> string, isDust: int -> bool,
                           estimateFee: (seq<Input>, seq<Output>) -> int, moderatorFee: int -> Option<int>)

  datatype Contract = Contract(version: nat)

  datatype CaseState = Disputed | Resolved(payout: Payout) | Other

  /** The timestamp is in seconds. */
  datatype Case = Case(state: CaseState, timestamp: int, buyer: Option<Contract>, vendor: Option<Contract>,
                       buyerOutpoints: Option<seq<Outpoint>>, vendorOutpoints: Option<seq<Outpoint>>,
                       buyerAddress: string, vendorAddress: string)

  datatype Error = BadRatio | CaseNotFound | NotDisputed | Expired | NoVendorContract | NoOutpoints | InvalidAmount
                 | NoModeratorFee | BadAddress | NoOutputs | BadHash | NoInputs | Unsigned | Undelivered | Panic

  // ---------- machine integers ----------

  /** big.Int.Uint64: the low 64 bits of the magnitude. */
  function Uint64(n: int): nat {
    (if n < 0 then -n else n) % TWO64
  }

  function Int64(n: nat): int {
    if n % TWO64 < TWO63 then n % TWO64 else n % TWO64 - TWO64
  }

  // ---------- what is signed ----------

  /** A contract of an older schema has its amounts moved into value. */
  function Normalized(o: Outpoint, version: nat): Option<Outpoint> {
    if version >= LISTING_VERSION || o.bigValue == "" then Some(o)
    else if Parse(o.bigValue).None? then None
    else Some(o.(value := Uint64(Parse(o.bigValue).value), bigValue := ""))
  }

  function AllNormalized(os: seq<Outpoint>, version: nat): Option<seq<Outpoint>> {
    if forall o :: o in os ==> Normalized(o, version).Some?
    then Some(seq(|os|, i requires 0 <= i < |os| => assert os[i] in os; Normalized(os[i], version).value))
    else None
  }

  function ValueOf(o: Outpoint): Option<int> {
    if o.value > 0 then Some(Int64(o.value)) else Parse(o.bigValue)
  }

  function TotalOf(os: seq<Outpoint>): Option<int> {
    if os == [] then Some(0)
    else
      var front, v := TotalOf(os[..|os| - 1]), ValueOf(os[|os| - 1]);
      if front.None? || v.None? then None else Some(front.value + v.value)
  }

  function InputOf(o: Outpoint): Option<Input> {
    if HexDecode(o.hash).None? || ValueOf(o).None? then None
    else Some(Input(HexDecode(o.hash).value, o.index, ValueOf(o).value))
  }

  function InputsOf(os: seq<Outpoint>): Option<seq<Input>> {
    if os == [] then Some([])
    else
      var front, last := InputsOf(os[..|os| - 1]), InputOf(os[|os| - 1]);
      if front.None? || last.None? then None else Some(front.value + [last.value])
  }

  // ---------- what is written down ----------

  function WrittenOutput(kept: map<Role, Output>, r: Role, version: nat, show: Address -> string): Option<PaidTo> {
    if r !in kept then None
    else if version >= LISTING_VERSION then Some(PaidTo(show(kept[r].address), 0, Print(kept[r].value)))
    else Some(PaidTo(show(kept[r].address), Uint64(kept[r].value), ""))
  }

  function Written(points: seq<Outpoint>, kept: map<Role, Output>, version: nat, show: Address -> string): Payout {
    Payout(points, WrittenOutput(kept, Buyer, version, show), WrittenOutput(kept, Vendor, version, show),
           WrittenOutput(kept, Moderator, version, show))
  }

  // ---------- closing ----------

  predicate VendorMajority(ratio: Ratio) {
    ratio.vendor > ratio.buyer
  }

  function Refusal(c: Case, ratio: Ratio, now: int): Option<Error> {
    if !ValidRatio(ratio) then Some(BadRatio)
    else if !c.state.Disputed? then Some(NotDisputed)
    else if now >= (c.timestamp + EXPIRY) * NANO then Some(Expired)
    else if c.vendor.None? && ratio.vendor > 0.0 then Some(NoVendorContract)
    else if c.vendor.None? && c.buyer.None? then Some(Panic)
    else if PreferredOutpoints(c, ratio).None? then Some(NoOutpoints)
    else None
  }

  function PreferredVersion(c: Case, ratio: Ratio): nat {
    var preferred := if VendorMajority(ratio) || c.buyer.None? then c.vendor else c.buyer;
    if preferred.None? then 0 else preferred.value.version
  }

  function PreferredOutpoints(c: Case, ratio: Ratio): Option<seq<Outpoint>> {
    if VendorMajority(ratio) then if c.vendorOutpoints.Some? then c.vendorOutpoints else c.buyerOutpoints
    else if c.buyerOutpoints.Some? then c.buyerOutpoints else c.vendorOutpoints
  }

  predicate AddressesDecode(c: Case, ratio: Ratio, w: Wallet) {
    (ratio.buyer > 0.0 ==> w.decode(c.buyerAddress).Some?) && (ratio.vendor > 0.0 ==> w.decode(c.vendorAddress).Some?)
  }

  function AddressOf(c: Case, w: Wallet, r: Role): Address {
    match r
    case Moderator => w.own
    case Buyer => if w.decode(c.buyerAddress).Some? then w.decode(c.buyerAddress).value else w.own
    case Vendor => if w.decode(c.vendorAddress).Some? then w.decode(c.vendorAddress).value else w.own
  }

  datatype Plan = Plan(points: seq<Outpoint>, version: nat, inputs: seq<Input>, total: int, modFee: int,
                       gross: map<Role, Output>, txFee: int, kept: map<Role, Output>)

  function Listing(gross: map<Role, Output>): seq<Output> {
    At(gross, Moderator) + At(gross, Buyer) + At(gross, Vendor)
  }

  function Planned(c: Case, ratio: Ratio, w: Wallet, now: int): Result<Plan, Error> {
    if Refusal(c, ratio, now).Some? then Err(Refusal(c, ratio, now).value)
    else
      var version := PreferredVersion(c, ratio);
      var points := AllNormalized(PreferredOutpoints(c, ratio).value, version);
      if points.None? || TotalOf(points.value).None? then Err(InvalidAmount)
      else
        var total := TotalOf(points.value).value;
        if w.moderatorFee(total).None? then Err(NoModeratorFee)
        else if !AddressesDecode(c, ratio, w) then Err(BadAddress)
        else if InputsOf(points.value).None? then Err(BadHash)
        else if points.value == [] then Err(NoInputs)
        else if total == 0 then Err(Panic)
        else
          var modFee, inputs := w.moderatorFee(total).value, InputsOf(points.value).value;
          var gross := Gross(total, modFee, ratio, r => AddressOf(c, w, r));
          var txFee := w.estimateFee(inputs, Listing(gross));
          Ok(Plan(points.value, version, inputs, total, modFee, gross, txFee, Kept(gross, total, txFee, w.isDust)))
  }

  /** The source normalizes the case's outpoints where they are. */
  method Normalize(outpoints: array<Outpoint>, version: nat) returns (ok: bool)
    modifies outpoints
    ensures ok <==> AllNormalized(old(outpoints[..]), version).Some?
    ensures ok ==> outpoints[..] == AllNormalized(old(outpoints[..]), version).value
  {
    ghost var was := outpoints[..];
    for i := 0 to outpoints.Length
      invariant forall j :: 0 <= j < i ==> Normalized(was[j], version) == Some(outpoints[j])
      invariant forall j :: i <= j < outpoints.Length ==> outpoints[j] == was[j]
    {
      var o := Normalized(outpoints[i], version);
      if o.None? {
        assert was[i] in was;
        return false;
      }
      outpoints[i] := o.value;
    }
    ok := true;
  }

  method TotalOut(outpoints: seq<Outpoint>) returns (total: Option<int>)
    ensures total == TotalOf(outpoints)
  {
    var sum := 0;
    for i := 0 to |outpoints|
      invariant TotalOf(outpoints[..i]) == Some(sum)
    {
      assert outpoints[..i + 1][..i] == outpoints[..i];
      var v := ValueOf(outpoints[i]);
      if v.None? {
        NoTotalPast(outpoints, i + 1);
        return None;
      }
      sum := sum + v.value;
    }
    assert outpoints[..|outpoints|] == outpoints;
    total := Some(sum);
  }

  lemma {:induction false} NoTotalPast(os: seq<Outpoint>, n: nat)
    requires n <= |os| && TotalOf(os[..n]).None?
    ensures TotalOf(os).None?
    decreases |os| - n
  {
    if n < |os| {
      assert os[..n + 1][..n] == os[..n];
      NoTotalPast(os, n + 1);
    } else {
      assert os[..n] == os;
    }
  }

  method CreateInputs(outpoints: seq<Outpoint>) returns (inputs: Option<seq<Input>>)
    ensures inputs == InputsOf(outpoints)
  {
    var made := [];
    for i := 0 to |outpoints|
      invariant InputsOf(outpoints[..i]) == Some(made)
    {
      assert outpoints[..i + 1][..i] == outpoints[..i];
      var input := InputOf(outpoints[i]);
      if input.None? {
        NoInputsPast(outpoints, i + 1);
        return None;
      }
      made := made + [input.value];
    }
    assert outpoints[..|outpoints|] == outpoints;
    inputs := Some(made);
  }

  lemma {:induction false} NoInputsPast(os: seq<Outpoint>, n: nat)
    requires n <= |os| && InputsOf(os[..n]).None?
    ensures InputsOf(os).None?
    decreases |os| - n
  {
    if n < |os| {
      assert os[..n + 1][..n] == os[..n];
      NoInputsPast(os, n + 1);
    } else {
      assert os[..n] == os;
    }
  }

  lemma {:induction false} InputsAreAsMany(os: seq<Outpoint>)
    requires InputsOf(os).Some?
    ensures |InputsOf(os).value| == |os|
  {
    if os != [] {
      InputsAreAsMany(os[..|os| - 1]);
    }
  }

  /** The moderator's node: its cases and its wallet. */
  class ModeratorNode {
    var cases: map<OrderID, Case>
    const wallet: Wallet

    constructor (cases: map<OrderID, Case>, wallet: Wallet)
      ensures this.cases == cases && this.wallet == wallet
    {
      this.cases, this.wallet := cases, wallet;
    }

    /** The payout that is to be signed, and its outputs in the order in which they are. */
    method Prepare(c: Case, ratio: Ratio, now: int) returns (r: Result<Plan, Error>, outs: seq<Output>)
      ensures r == Planned(c, ratio, wallet, now)
      ensures r.Ok? ==> Lists(outs, r.value.kept)
    {
      if Refusal(c, ratio, now).Some? {
        return Err(Refusal(c, ratio, now).value), [];
      }
      var version, preferred := PreferredVersion(c, ratio), PreferredOutpoints(c, ratio).value;
      var outpoints := new Outpoint[|preferred|](i requires 0 <= i < |preferred| => preferred[i]);
      assert outpoints[..] == preferred;
      var ok := Normalize(outpoints, version);
      if !ok {
        return Err(InvalidAmount), [];
      }
      var points := outpoints[..];
      var total := TotalOut(points);
      if total.None? {
        return Err(InvalidAmount), [];
      }
      var modFee := wallet.moderatorFee(total.value);
      if modFee.None? {
        return Err(NoModeratorFee), [];
      }
      if !AddressesDecode(c, ratio, wallet) {
        return Err(BadAddress), [];
      }
      var outputs, gross := CreateOutputs(total.value, modFee.value, ratio, role => AddressOf(c, wallet, role));
      if outputs == [] {
        SomeoneIsOwed(total.value, modFee.value, ratio, role => AddressOf(c, wallet, role));
        return Err(NoOutputs), [];
      }
      var inputs := CreateInputs(points);
      if inputs.None? {
        return Err(BadHash), [];
      }
      InputsAreAsMany(points);
      if inputs.value == [] {
        return Err(NoInputs), [];
      }
      if total.value == 0 {
        return Err(Panic), [];
      }
      var txFee := wallet.estimateFee(inputs.value, outputs);
      var outMap;
      outMap, outs := SubtractFee(gross, total.value, txFee, wallet.isDust);
      r := Ok(Plan(points, version, inputs.value, total.value, modFee.value, gross, txFee, outMap));
    }

    /** signs says whether the contract's keys and scripts can be read and the signatures made, reaches
        whose message is accepted for delivery. On an error nothing is stored, although the buyer has
        been told when only the vendor cannot be reached. */
    method CloseDispute(orderID: OrderID, ratio: Ratio, now: int, signs: bool, reaches: Role -> bool)
      returns (r: Result<Tx, Error>, told: set<Role>)
      modifies this
      ensures r.Err? ==> cases == old(cases)
      ensures r.Err? <==> !ValidRatio(ratio) || orderID !in old(cases)
                          || Planned(old(cases)[orderID], ratio, wallet, now).Err?
                          || !signs || !reaches(Buyer) || !reaches(Vendor)
      ensures r.Err? && ValidRatio(ratio) && orderID in old(cases) ==>
                var planned := Planned(old(cases)[orderID], ratio, wallet, now);
                r.error == if planned.Err? then planned.error else if !signs then Unsigned else Undelivered
      ensures told == if r.Ok? then {Buyer, Vendor} else if r.error == Undelivered && reaches(Buyer) then {Buyer} else {}
      ensures r.Ok? ==>
                var plan := Planned(old(cases)[orderID], ratio, wallet, now).value;
                && r.value.inputs == plan.inputs && Lists(r.value.outputs, plan.kept)
                && PaysTheRightOnes(old(cases)[orderID], wallet, plan.kept)
                && (forall o :: o in r.value.outputs ==> exists role :: role in plan.kept && plan.kept[role] == o)
                && cases == old(cases)[orderID := old(cases)[orderID].(
                              state := Resolved(Written(plan.points, plan.kept, plan.version, wallet.show)))]
    {
      if !ValidRatio(ratio) {
        return Err(BadRatio), {};
      }
      if orderID !in cases {
        return Err(CaseNotFound), {};
      }
      var planned, outs := Prepare(cases[orderID], ratio, now);
      if planned.Err? {
        return Err(planned.error), {};
      }
      if !signs {
        return Err(Unsigned), {};
      }
      if !reaches(Buyer) {
        return Err(Undelivered), {};
      }
      if !reaches(Vendor) {
        return Err(Undelivered), {Buyer};
      }
      var plan := planned.value;
      var payout := Written(plan.points, plan.kept, plan.version, wallet.show);
      PlansPayTheRightOnes(cases[orderID], ratio, wallet, now);
      OutputsAreKept(outs, plan.kept);
      cases := cases[orderID := cases[orderID].(state := Resolved(payout))];
      r, told := Ok(Tx(plan.inputs, outs)), {Buyer, Vendor};
    }
  }

  lemma {:induction false} SomeoneIsOwed(total: int, modFee: int, ratio: Ratio, address: Role -> Address)
    requires ValidRatio(ratio)
    ensures Listing(Gross(total, modFee, ratio, address)) != []
  {
    var gross := Gross(total, modFee, ratio, address);
    assert Buyer in gross || Vendor in gross;
  }

  // ---------- releasing ----------

  /** The released input's amount is the printed one; an amount held only in value is printed first. */
  function UpgradedPoint(o: Outpoint): Outpoint {
    if o.value != 0 && o.bigValue == "" then o.(bigValue := Print(o.value)) else o
  }

  function UpgradedOutput(p: PaidTo): PaidTo {
    if p.amount != 0 && p.bigAmount == "" then PaidTo(p.address, 0, Print(Int64(p.amount))) else p
  }

  function RebuiltInput(o: Outpoint): Option<Input> {
    var o := UpgradedPoint(o);
    if HexDecode(TrimPrefix(o.hash)).None? || Parse(o.bigValue).None? then None
    else Some(Input(HexDecode(TrimPrefix(o.hash)).value, o.index, Parse(o.bigValue).value))
  }

  function RebuiltInputs(os: seq<Outpoint>): Option<seq<Input>> {
    if os == [] then Some([])
    else
      var front, last := RebuiltInputs(os[..|os| - 1]), RebuiltInput(os[|os| - 1]);
      if front.None? || last.None? then None else Some(front.value + [last.value])
  }

  /** The output for one party, if the payout has one for it. */
  function RebuiltOutput(p: Option<PaidTo>, decode: string -> Option<Address>): Option<seq<Output>> {
    if p.None? then Some([])
    else
      var p := UpgradedOutput(p.value);
      if decode(p.address).None? || Parse(p.bigAmount).None? then None
      else Some([Output(decode(p.address).value, Parse(p.bigAmount).value)])
  }

  function Rebuilt(p: Payout, decode: string -> Option<Address>): Option<Tx> {
    var inputs := RebuiltInputs(p.inputs);
    var buyer, vendor, moderator := RebuiltOutput(p.buyer, decode), RebuiltOutput(p.vendor, decode), RebuiltOutput(p.moderator, decode);
    if inputs.None? || inputs.value == [] || buyer.None? || vendor.None? || moderator.None? then None
    else Some(Tx(inputs.value, buyer.value + vendor.value + moderator.value))
  }

  method ReleaseFunds(p: Payout, decode: string -> Option<Address>) returns (tx: Option<Tx>)
    ensures tx == Rebuilt(p, decode)
  {
    var inputs := [];
    for i := 0 to |p.inputs|
      invariant RebuiltInputs(p.inputs[..i]) == Some(inputs)
    {
      assert p.inputs[..i + 1][..i] == p.inputs[..i];
      var input := RebuiltInput(p.inputs[i]);
      if input.None? {
        NoneRebuiltPast(p.inputs, i + 1);
        return None;
      }
      inputs := inputs + [input.value];
    }
    assert p.inputs[..|p.inputs|] == p.inputs;
    if inputs == [] {
      return None;
    }
    var buyer := RebuiltOutput(p.buyer, decode);
    if buyer.None? {
      return None;
    }
    var outputs := buyer.value;
    var vendor := RebuiltOutput(p.vendor, decode);
    if vendor.None? {
      return None;
    }
    outputs := outputs + vendor.value;
    var moderator := RebuiltOutput(p.moderator, decode);
    if moderator.None? {
      return None;
    }
    outputs := outputs + moderator.value;
    tx := Some(Tx(inputs, outputs));
  }

  lemma {:induction false} NoneRebuiltPast(os: seq<Outpoint>, n: nat)
    requires n <= |os| && RebuiltInputs(os[..n]).None?
    ensures RebuiltInputs(os).None?
    decreases |os| - n
  {
    if n < |os| {
      assert os[..n + 1][..n] == os[..n];
      NoneRebuiltPast(os, n + 1);
    } else {
      assert os[..n] == os;
    }
  }

  // ---------- the round trip ----------

  /** The signer and the releaser read the same amount. */
  predicate Agrees(o: Outpoint) {
    o.value == 0 || if o.bigValue == "" then o.value < TWO63 else Parse(o.bigValue) == Some(Int64(o.value))
  }

  /** The amount outlives being written down. */
  predicate Survives(value: int, version: nat) {
    version >= LISTING_VERSION || 1 <= value < TWO63
  }

  lemma {:induction false} InputAgrees(o: Outpoint)
    requires InputOf(o).Some? && o.value < TWO64
    ensures RebuiltInput(o) == InputOf(o) <==> Agrees(o)
  {
    NothingToTrim(o.hash);
    ParsePrint(o.value);
    assert o.value % TWO64 == o.value;
  }

  lemma {:induction false} InputsAgree(os: seq<Outpoint>)
    requires InputsOf(os).Some? && forall o :: o in os ==> o.value < TWO64
    ensures RebuiltInputs(os) == InputsOf(os) <==> forall o :: o in os ==> Agrees(o)
  {
    if os != [] {
      var front, last := os[..|os| - 1], os[|os| - 1];
      assert os == front + [last];
      InputsAgree(front);
      InputAgrees(last);
      if RebuiltInputs(os) == InputsOf(os) {
        var a, b := RebuiltInputs(front).value, InputsOf(front).value;
        assert a + [RebuiltInput(last).value] == b + [InputOf(last).value];
        LastSplits(a, RebuiltInput(last).value, b, InputOf(last).value);
      }
    }
  }

  lemma {:induction false} LastSplits<T>(a: seq<T>, x: T, b: seq<T>, y: T)
    requires a + [x] == b + [y]
    ensures a == b && x == y
  {
    assert |a + [x]| == |b + [y]|;
    assert a == (a + [x])[..|a|] == (b + [y])[..|b|] == b;
    assert x == (a + [x])[|a|];
  }

  lemma {:induction false} OutputSurvives(kept: map<Role, Output>, r: Role, version: nat, w: Wallet)
    requires r in kept ==> w.decode(w.show(kept[r].address)) == Some(kept[r].address) && Survives(kept[r].value, version)
    ensures RebuiltOutput(WrittenOutput(kept, r, version, w.show), w.decode) == Some(At(kept, r))
  {
    if r in kept {
      ParsePrint(kept[r].value);
      assert version < LISTING_VERSION ==> Int64(Uint64(kept[r].value)) == kept[r].value;
    }
  }

  /** The release rebuilds what was signed: the same inputs, and the same outputs in some order. */
  ghost predicate RebuildsSigned(plan: Plan, w: Wallet) {
    var tx := Rebuilt(Written(plan.points, plan.kept, plan.version, w.show), w.decode);
    tx.Some? && tx.value.inputs == plan.inputs && Lists(tx.value.outputs, plan.kept)
  }

  /** The fees a moderator's wallet and profile may ask of an escrow. */
  predicate FairFees(plan: Plan) {
    0 <= plan.modFee <= plan.total && 0 <= plan.txFee <= plan.total
  }

  /** Outpoints' values are uint64, and the wallet reads the addresses that it prints. */
  ghost predicate WellTyped(c: Case, ratio: Ratio, w: Wallet) {
    && (PreferredOutpoints(c, ratio).Some? ==> forall o :: o in PreferredOutpoints(c, ratio).value ==> o.value < TWO64)
    && (forall a: Address :: w.decode(w.show(a)) == Some(a))
  }

  function Worth(inputs: seq<Input>): int {
    if inputs == [] then 0 else Worth(inputs[..|inputs| - 1]) + inputs[|inputs| - 1].value
  }

  lemma {:induction false} InputsAreWorthTheTotal(os: seq<Outpoint>)
    requires InputsOf(os).Some? && TotalOf(os).Some?
    ensures Worth(InputsOf(os).value) == TotalOf(os).value
  {
    if os != [] {
      InputsAreWorthTheTotal(os[..|os| - 1]);
      var front := InputsOf(os[..|os| - 1]).value;
      assert InputsOf(os).value[..|front|] == front;
    }
  }

  lemma {:induction false} KeptAreNotNegative(c: Case, ratio: Ratio, w: Wallet, now: int, r: Role)
    requires Planned(c, ratio, w, now).Ok? && FairFees(Planned(c, ratio, w, now).value)
    ensures r in Planned(c, ratio, w, now).value.kept ==> Planned(c, ratio, w, now).value.kept[r].value >= 0
  {
    var plan := Planned(c, ratio, w, now).value;
    GrossGap(plan.total, plan.modFee, ratio, role => AddressOf(c, w, role));
    if r in plan.gross {
      NetShare(plan.gross[r].value, plan.total, plan.txFee);
    }
  }

  /** A closed dispute never pays out more than its inputs hold less the miner's fee. */
  lemma {:induction false} ClosingConserves(c: Case, ratio: Ratio, w: Wallet, now: int, tx: Tx)
    requires Planned(c, ratio, w, now).Ok? && FairFees(Planned(c, ratio, w, now).value)
    requires var plan := Planned(c, ratio, w, now).value; tx.inputs == plan.inputs && Lists(tx.outputs, plan.kept)
    ensures Sum(tx.outputs) + Planned(c, ratio, w, now).value.txFee <= Worth(tx.inputs)
  {
    var plan := Planned(c, ratio, w, now).value;
    InputsAreWorthTheTotal(plan.points);
    NeverOverspends(plan.total, plan.modFee, ratio, role => AddressOf(c, w, role), plan.txFee, w.isDust);
  }

  /** The parties are paid at the addresses they gave, the moderator at its own. */
  ghost predicate PaysTheRightOnes(c: Case, w: Wallet, kept: map<Role, Output>) {
    && (Buyer in kept ==> w.decode(c.buyerAddress) == Some(kept[Buyer].address))
    && (Vendor in kept ==> w.decode(c.vendorAddress) == Some(kept[Vendor].address))
    && (Moderator in kept ==> kept[Moderator].address == w.own)
    && (forall r :: r in kept ==> !w.isDust(kept[r].value))
  }

  lemma {:induction false} PlansPayTheRightOnes(c: Case, ratio: Ratio, w: Wallet, now: int)
    requires Planned(c, ratio, w, now).Ok?
    ensures PaysTheRightOnes(c, w, Planned(c, ratio, w, now).value.kept)
  {
  }

  /** A plan pays each role what it deserves, unless that is dust, and nobody without a share. */
  lemma {:induction false} PlansPayTheRightAmounts(c: Case, ratio: Ratio, w: Wallet, now: int, r: Role) returns (v: int)
    requires Planned(c, ratio, w, now).Ok? && FairFees(Planned(c, ratio, w, now).value)
    ensures var plan := Planned(c, ratio, w, now).value;
            w.moderatorFee(plan.total) == Some(plan.modFee) &&
            (HasShare(r, plan.modFee, ratio) ==> Deserves(r, v, plan.total, plan.modFee, ratio, plan.txFee)) &&
            (r in plan.kept <==> HasShare(r, plan.modFee, ratio) && !w.isDust(v)) && (r in plan.kept ==> plan.kept[r].value == v)
  {
    var plan := Planned(c, ratio, w, now).value;
    v := EachGetsItsShare(r, plan.total, plan.modFee, ratio, role => AddressOf(c, w, role), plan.txFee, w.isDust);
  }

  /** The written payout names each party's output by its role. */
  lemma {:induction false} WrittenByRole(c: Case, ratio: Ratio, w: Wallet, now: int)
    requires Planned(c, ratio, w, now).Ok? && forall a: Address :: w.decode(w.show(a)) == Some(a)
    ensures var plan := Planned(c, ratio, w, now).value;
            var payout := Written(plan.points, plan.kept, plan.version, w.show);
            payout.inputs == plan.points &&
            (payout.buyer.Some? <==> Buyer in plan.kept) && (payout.vendor.Some? <==> Vendor in plan.kept) &&
            (payout.moderator.Some? <==> Moderator in plan.kept) &&
            (payout.buyer.Some? ==> w.decode(payout.buyer.value.address) == w.decode(c.buyerAddress)) &&
            (payout.vendor.Some? ==> w.decode(payout.vendor.value.address) == w.decode(c.vendorAddress)) &&
            (payout.moderator.Some? ==> w.decode(payout.moderator.value.address) == Some(w.own))
  {
    PlansPayTheRightOnes(c, ratio, w, now);
  }

  lemma {:induction false} OutputsAreKept(outs: seq<Output>, kept: map<Role, Output>)
    requires Lists(outs, kept)
    ensures forall o :: o in outs ==> exists r :: r in kept && kept[r] == o
  {
    forall o | o in outs ensures exists r :: r in kept && kept[r] == o {
      assert o in multiset(outs);
      assert o in Listed(kept);
      if o in At(kept, Buyer) {
        assert kept[Buyer] == o;
      } else if o in At(kept, Vendor) {
        assert kept[Vendor] == o;
      } else {
        assert kept[Moderator] == o;
      }
    }
  }

  /** The coins and the contract of the party with the larger share are used, the buyer's when the shares
      are equal; the other's where there are none. */
  lemma {:induction false} TheLargerShareChooses(c: Case, ratio: Ratio, w: Wallet, now: int)
    requires Planned(c, ratio, w, now).Ok?
    ensures var plan := Planned(c, ratio, w, now).value;
            var chosen := if ratio.vendor > 50.0 then [c.vendorOutpoints, c.buyerOutpoints] else [c.buyerOutpoints, c.vendorOutpoints];
            var os := if chosen[0].Some? then chosen[0] else chosen[1];
            os.Some? && |plan.inputs| == |os.value| && |plan.points| == |os.value| &&
            (forall i :: 0 <= i < |os.value| ==> Normalized(os.value[i], plan.version) == Some(plan.points[i])) &&
            (forall i :: 0 <= i < |os.value| ==> plan.inputs[i].index == os.value[i].index && HexDecode(os.value[i].hash) == Some(plan.inputs[i].hash)) &&
            (ratio.vendor > 50.0 ==> c.vendor == Some(Contract(plan.version))) &&
            (ratio.vendor <= 50.0 ==> (if c.buyer.Some? then c.buyer else c.vendor) == Some(Contract(plan.version)))
  {
    var plan := Planned(c, ratio, w, now).value;
    InputsAreAsMany(plan.points);
    forall i | 0 <= i < |plan.points|
      ensures plan.inputs[i].index == plan.points[i].index && HexDecode(plan.points[i].hash) == Some(plan.inputs[i].hash)
    {
      InputAt(plan.points, i);
    }
  }

  lemma {:induction false} InputAt(os: seq<Outpoint>, i: nat)
    requires InputsOf(os).Some? && i < |os|
    ensures i < |InputsOf(os).value| && InputOf(os[i]) == Some(InputsOf(os).value[i])
  {
    var front := os[..|os| - 1];
    InputsAreAsMany(front);
    if i < |front| { InputAt(front, i); }
  }

  /** An older contract's printed amount below 2^64 becomes the value it stands for. */
  lemma {:induction false} OldAmountsMove(o: Outpoint, n: int, version: nat)
    requires Parse(o.bigValue) == Some(n)
    ensures version >= 5 ==> Normalized(o, version) == Some(o)
    ensures version < 5 ==> Normalized(o, version).Some? && Normalized(o, version).value.value == (if n < 0 then -n else n) % 0x1_0000_0000_0000_0000
    ensures version < 5 && 0 <= n < 0x1_0000_0000_0000_0000 ==> Normalized(o, version) == Some(Outpoint(o.hash, o.index, n, ""))
  {
    assert Parse("") == None;
  }

  /** Exactly when a dispute can be closed. */
  lemma {:induction false} ClosesIff(c: Case, ratio: Ratio, w: Wallet, now: int)
    ensures Planned(c, ratio, w, now).Ok? <==>
            (&& ratio.buyer + ratio.vendor == 100.0 && ratio.buyer >= 0.0 && ratio.vendor >= 0.0
             && c.state == Disputed && now < (c.timestamp + 45 * 24 * 3600) * 1_000_000_000
             && (c.vendor.Some? || (c.buyer.Some? && ratio.vendor == 0.0))
             && Coins(c, ratio).Some? && Coins(c, ratio).value != []
             && (forall o :: o in Coins(c, ratio).value ==> HexDecode(o.hash).Some? && ValueOf(o).Some?)
             && TotalOf(Coins(c, ratio).value).Some? && TotalOf(Coins(c, ratio).value).value != 0
             && w.moderatorFee(TotalOf(Coins(c, ratio).value).value).Some?
             && (ratio.buyer > 0.0 ==> w.decode(c.buyerAddress).Some?) && (ratio.vendor > 0.0 ==> w.decode(c.vendorAddress).Some?))
  {
    if Coins(c, ratio).Some? {
      TotalIff(Coins(c, ratio).value);
      InputsIff(Coins(c, ratio).value);
    }
  }

  /** The coins a resolution spends, those listed by the party with the larger share if it listed any, in
      the form its contract's schema asks for. */
  function Coins(c: Case, ratio: Ratio): Option<seq<Outpoint>> {
    var listed := if ratio.vendor > 50.0 then [c.vendorOutpoints, c.buyerOutpoints] else [c.buyerOutpoints, c.vendorOutpoints];
    var held := if ratio.vendor > 50.0 || c.buyer.None? then c.vendor else c.buyer;
    var coins := if listed[0].Some? then listed[0] else listed[1];
    if coins.None? || held.None? then None else AllNormalized(coins.value, held.value.version)
  }

  /** What each refusal means before any coin is looked at, and then. The other errors are not a plan's. */
  lemma {:induction false} EarlyRefusalsMean(c: Case, ratio: Ratio, now: int)
    requires Refusal(c, ratio, now).Some?
    ensures match Refusal(c, ratio, now).value
            case BadRatio => ratio.buyer + ratio.vendor != 100.0 || ratio.buyer < 0.0 || ratio.vendor < 0.0
            case NotDisputed => !c.state.Disputed?
            case Expired => now >= (c.timestamp + 45 * 24 * 3600) * 1_000_000_000
            case NoVendorContract => c.vendor.None? && ratio.vendor > 0.0
            case NoOutpoints => c.buyerOutpoints.None? && c.vendorOutpoints.None?
            case Panic => c.buyer.None? && c.vendor.None?
            case _ => false
  {
  }

  lemma {:induction false} LateRefusalsMean(c: Case, ratio: Ratio, w: Wallet, now: int)
    requires Refusal(c, ratio, now).None? && Planned(c, ratio, w, now).Err?
    ensures var coins := Coins(c, ratio);
            match Planned(c, ratio, w, now).error
            case InvalidAmount => coins.None? || exists o :: o in coins.value && ValueOf(o).None?
            case NoModeratorFee => coins.Some? && w.moderatorFee(TotalOr0(coins.value)).None?
            case BadAddress => (ratio.buyer > 0.0 && w.decode(c.buyerAddress).None?) || (ratio.vendor > 0.0 && w.decode(c.vendorAddress).None?)
            case BadHash => coins.Some? && exists o :: o in coins.value && HexDecode(o.hash).None?
            case NoInputs => coins == Some([])
            case Panic => coins.Some? && coins.value != [] && TotalOr0(coins.value) == 0
            case _ => false
  {
    var coins := Coins(c, ratio);
    assert PreferredOutpoints(c, ratio).Some? && coins == AllNormalized(PreferredOutpoints(c, ratio).value, PreferredVersion(c, ratio));
    if coins.Some? {
      TotalIff(coins.value);
      InputsIff(coins.value);
    }
  }

  function TotalOr0(os: seq<Outpoint>): int {
    if TotalOf(os).None? then 0 else TotalOf(os).value
  }

  lemma {:induction false} TotalIff(os: seq<Outpoint>)
    ensures TotalOf(os).Some? <==> forall o :: o in os ==> ValueOf(o).Some?
  {
    if os != [] {
      TotalIff(os[..|os| - 1]);
      assert forall o :: o in os <==> o in os[..|os| - 1] || o == os[|os| - 1];
    }
  }

  lemma {:induction false} InputsIff(os: seq<Outpoint>)
    ensures InputsOf(os).Some? <==> forall o :: o in os ==> HexDecode(o.hash).Some? && ValueOf(o).Some?
  {
    if os != [] {
      InputsIff(os[..|os| - 1]);
      assert forall o :: o in os <==> o in os[..|os| - 1] || o == os[|os| - 1];
    }
  }

  lemma {:induction false} PointsAreTyped(c: Case, ratio: Ratio, w: Wallet, now: int)
    requires WellTyped(c, ratio, w) && Planned(c, ratio, w, now).Ok?
    ensures forall o :: o in Planned(c, ratio, w, now).value.points ==> o.value < TWO64
  {
  }

  /** Amounts written the old way come back below 2^63. */
  lemma {:induction false} OldAmountsAreSmall(kept: map<Role, Output>, r: Role, version: nat, w: Wallet, o: Output)
    requires version < LISTING_VERSION
    requires var out := RebuiltOutput(WrittenOutput(kept, r, version, w.show), w.decode); out.Some? && o in out.value
    ensures o.value < TWO63
  {
    ParsePrint(Int64(Uint64(kept[r].value)));
    assert Parse("") == None;
  }

  lemma {:induction false} OutputsSurvive(kept: map<Role, Output>, version: nat, w: Wallet, points: seq<Outpoint>, inputs: seq<Input>)
    requires forall a: Address :: w.decode(w.show(a)) == Some(a)
    requires forall r :: r in kept ==> kept[r].value >= 0 && Survives(kept[r].value, version)
    requires RebuiltInputs(points) == Some(inputs) && inputs != []
    ensures Rebuilt(Written(points, kept, version, w.show), w.decode) == Some(Tx(inputs, Listed(kept)))
  {
    OutputSurvives(kept, Buyer, version, w);
    OutputSurvives(kept, Vendor, version, w);
    OutputSurvives(kept, Moderator, version, w);
  }

  lemma {:induction false} OldRebuiltAreSmall(kept: map<Role, Output>, version: nat, w: Wallet, points: seq<Outpoint>, o: Output)
    requires version < LISTING_VERSION
    requires var tx := Rebuilt(Written(points, kept, version, w.show), w.decode); tx.Some? && o in tx.value.outputs
    ensures o.value < TWO63
  {
    if o in RebuiltOutput(WrittenOutput(kept, Buyer, version, w.show), w.decode).value {
      OldAmountsAreSmall(kept, Buyer, version, w, o);
    } else if o in RebuiltOutput(WrittenOutput(kept, Vendor, version, w.show), w.decode).value {
      OldAmountsAreSmall(kept, Vendor, version, w, o);
    } else {
      OldAmountsAreSmall(kept, Moderator, version, w, o);
    }
  }

  lemma {:induction false} OutputLost(kept: map<Role, Output>, version: nat, w: Wallet, points: seq<Outpoint>, r: Role)
    requires forall a: Address :: w.decode(w.show(a)) == Some(a)
    requires r in kept && kept[r].value >= 0 && !Survives(kept[r].value, version)
    ensures var tx := Rebuilt(Written(points, kept, version, w.show), w.decode); tx.None? || kept[r] !in tx.value.outputs
  {
    if kept[r].value == 0 {
      assert RebuiltOutput(WrittenOutput(kept, r, version, w.show), w.decode).None? by { assert Parse("") == None; }
    } else if Rebuilt(Written(points, kept, version, w.show), w.decode).Some? {
      if kept[r] in Rebuilt(Written(points, kept, version, w.show), w.decode).value.outputs {
        OldRebuiltAreSmall(kept, version, w, points, kept[r]);
      }
    }
  }

  lemma {:induction false} ListsHolds(outs: seq<Output>, m: map<Role, Output>, r: Role)
    requires Lists(outs, m) && r in m
    ensures m[r] in outs
  {
    assert m[r] in At(m, r) && m[r] in Listed(m);
    assert m[r] in multiset(Listed(m));
  }

  lemma {:induction false} PlanRebuildsIff(plan: Plan, w: Wallet)
    requires InputsOf(plan.points) == Some(plan.inputs) && plan.inputs != [] && forall a: Address :: w.decode(w.show(a)) == Some(a)
    requires forall o :: o in plan.points ==> o.value < TWO64
    requires forall r :: r in plan.kept ==> plan.kept[r].value >= 0
    ensures RebuildsSigned(plan, w) <==>
              ((forall o :: o in plan.points ==> Agrees(o)) && (forall r :: r in plan.kept ==> Survives(plan.kept[r].value, plan.version)))
  {
    InputsAgree(plan.points);
    if r :| r in plan.kept && !Survives(plan.kept[r].value, plan.version) {
      OutputLost(plan.kept, plan.version, w, plan.points, r);
      if RebuildsSigned(plan, w) {
        ListsHolds(Rebuilt(Written(plan.points, plan.kept, plan.version, w.show), w.decode).value.outputs, plan.kept, r);
      }
    } else if forall o :: o in plan.points ==> Agrees(o) {
      OutputsSurvive(plan.kept, plan.version, w, plan.points, plan.inputs);
      ListedIsListed(plan.kept);
    }
  }

  /** Exactly when close then release is a round trip. */
  lemma {:induction false} ReleaseRebuildsIff(c: Case, ratio: Ratio, w: Wallet, now: int)
    requires Planned(c, ratio, w, now).Ok? && FairFees(Planned(c, ratio, w, now).value) && WellTyped(c, ratio, w)
    ensures var plan := Planned(c, ratio, w, now).value;
            RebuildsSigned(plan, w) <==>
              ((forall o :: o in plan.points ==> Agrees(o)) && (forall r :: r in plan.kept ==> Survives(plan.kept[r].value, plan.version)))
  {
    var plan := Planned(c, ratio, w, now).value;
    PointsAreTyped(c, ratio, w, now);
    InputsAreAsMany(plan.points);
    forall r | r in plan.kept ensures plan.kept[r].value >= 0 { KeptAreNotNegative(c, ratio, w, now, r); }
    PlanRebuildsIff(plan, w);
  }

  lemma {:induction false} ListedIsListed(m: map<Role, Output>)
    ensures Lists(Listed(m), m)
  {
    var b, v := At(m, Buyer), At(m, Vendor);
    if Vendor in m { SumAdds(b, m[Vendor]); }
    assert Sum(b) == ValueAt(m, Buyer) && Sum(b + v) == ValueAt(m, Buyer) + ValueAt(m, Vendor);
    if Moderator in m { SumAdds(b + v, m[Moderator]); }
  }

  /** For contracts of the current schema, whose outpoints print their amounts, it always is. */
  lemma {:induction false} CurrentSchemaRoundTrips(c: Case, ratio: Ratio, w: Wallet, now: int)
    requires Planned(c, ratio, w, now).Ok? && FairFees(Planned(c, ratio, w, now).value) && WellTyped(c, ratio, w)
    requires PreferredVersion(c, ratio) >= LISTING_VERSION
    requires forall o :: o in PreferredOutpoints(c, ratio).value ==> o.value == 0
    ensures RebuildsSigned(Planned(c, ratio, w, now).value, w)
  {
    assert Planned(c, ratio, w, now).value.points == PreferredOutpoints(c, ratio).value;
    ReleaseRebuildsIff(c, ratio, w, now);
  }

  // ---------- one escrow of 2^63 units ----------

  const HALF := Outpoint("", 0, 0x4000_0000_0000_0000, "")

  /** A dispute over two coins, of a contract of the given schema. */
  function TwoCoins(version: nat): Case {
    Case(Disputed, 0, Some(Contract(version)), None, Some([HALF, HALF]), None, "x", "")
  }

  /** A wallet that prints an address as so many x's, asks no fee and takes nothing for dust. */
  function PlainWallet(): Wallet {
    Wallet(0, (s: string) => Some(|s|), (a: Address) => seq(a, _ => 'x'), _ => false, (_, _) => 0, _ => Some(0))
  }

  lemma {:induction false} TwoCoinsAdd(points: seq<Outpoint>)
    requires points == [HALF, HALF]
    ensures TotalOf(points) == Some(TWO63) && InputsOf(points).Some?
  {
    var one := points[..1];
    assert one[..0] == [] && one[0] == points[1] == HALF;
    assert TotalOf(one[..0]) == Some(0) && InputsOf(one[..0]) == Some([]);
    assert InputOf(HALF).Some? && InputsOf(one).Some?;
    assert TotalOf(one) == Some(HALF.value);
  }

  lemma {:induction false} TwoCoinsArePlanned(version: nat)
    ensures var plan := Planned(TwoCoins(version), Ratio(100.0, 0.0), PlainWallet(), 0);
            plan.Ok? && plan.value.total == TWO63 && plan.value.modFee == 0 && plan.value.txFee == 0 &&
            plan.value.version == version && plan.value.points == [HALF, HALF] &&
            plan.value.kept == map[Buyer := Output(1, TWO63)]
  {
    var c, ratio, w := TwoCoins(version), Ratio(100.0, 0.0), PlainWallet();
    assert Refusal(c, ratio, 0) == None;
    assert AllNormalized([HALF, HALF], version).Some? && AllNormalized([HALF, HALF], version).value == [HALF, HALF];
    TwoCoinsAdd([HALF, HALF]);
    var gross := Gross(TWO63, 0, ratio, r => AddressOf(c, w, r));
    assert gross == map[Buyer := Output(1, TWO63)] by {
      assert Owed(TWO63, 0, ratio, Buyer) == Some(TWO63);
    }
    assert Net(TWO63, TWO63, 0) == TWO63;
  }

  /** Close then release is a round trip for this escrow under the current schema, and is not under any
      older one: the buyer's 2^63 units come back negative. */
  lemma {:induction false} OldSchemaLosesAnAmount(version: nat)
    ensures var plan := Planned(TwoCoins(version), Ratio(100.0, 0.0), PlainWallet(), 0);
            plan.Ok? && FairFees(plan.value) && WellTyped(TwoCoins(version), Ratio(100.0, 0.0), PlainWallet()) &&
            (RebuildsSigned(plan.value, PlainWallet()) <==> version >= LISTING_VERSION)
  {
    TwoCoinsArePlanned(version);
    TwoCoinsAreTyped(version);
    ReleaseRebuildsIff(TwoCoins(version), Ratio(100.0, 0.0), PlainWallet(), 0);
    var kept: map<Role, Output> := map[Buyer := Output(1, TWO63)];
    assert Agrees(HALF) && kept[Buyer].value == TWO63;
  }

  lemma {:induction false} TwoCoinsAreTyped(version: nat)
    ensures WellTyped(TwoCoins(version), Ratio(100.0, 0.0), PlainWallet())
  {
  }
}
