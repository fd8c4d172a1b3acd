/** How a moderator divides an escrow: a moderator's fee, the buyer's and the vendor's shares of what is
    left, and the miner's fee taken from each in proportion. big.Float is read as an exact real. */
module DisputePayout {
  import opened Wrappers

  type Address = nat   // what the wallet decodes an address string to

  datatype Role = Moderator | Buyer | Vendor

  datatype Output = Output(address: Address, value: int)

  datatype Ratio = Ratio(buyer: real, vendor: real)   // percentages

  const ROLES := {Moderator, Buyer, Vendor}

  predicate ValidRatio(ratio: Ratio) {
    ratio.buyer + ratio.vendor == 100.0 && ratio.buyer >= 0.0 && ratio.vendor >= 0.0
  }

  predicate WholePercentages(ratio: Ratio) {
    ratio.buyer == ratio.buyer.Floor as real && ratio.vendor == ratio.vendor.Floor as real
  }

  /** A non-negative percentage loses its fraction before it is applied. */
  function Share(effective: int, percentage: real): int {
    effective * percentage.Floor / 100
  }

  function Owed(total: int, modFee: int, ratio: Ratio, role: Role): Option<int> {
    match role
    case Moderator => if modFee > 0 then Some(modFee) else None
    case Buyer => if ratio.buyer > 0.0 then Some(Share(total - modFee, ratio.buyer)) else None
    case Vendor => if ratio.vendor > 0.0 then Some(Share(total - modFee, ratio.vendor)) else None
  }

  /** The outputs before the miner's fee. */
  function Gross(total: int, modFee: int, ratio: Ratio, address: Role -> Address): map<Role, Output> {
    map r | r in ROLES && Owed(total, modFee, ratio, r).Some? :: Output(address(r), Owed(total, modFee, ratio, r).value)
  }

  function Truncated(x: real): int {
    if x >= 0.0 then x.Floor else -(-x).Floor
  }

  /** An output less its share of the miner's fee. */
  function Net(value: int, total: int, txFee: int): int
    requires total != 0
  {
    Truncated(value as real - value as real / total as real * txFee as real)
  }

  function Kept(gross: map<Role, Output>, total: int, txFee: int, isDust: int -> bool): map<Role, Output>
    requires total != 0
  {
    map r | r in gross && !isDust(Net(gross[r].value, total, txFee)) ::
      gross[r].(value := Net(gross[r].value, total, txFee))
  }

  function At(m: map<Role, Output>, r: Role): seq<Output> {
    if r in m then [m[r]] else []
  }

  /** The outputs in the order in which the parties rebuild them. */
  function Listed(m: map<Role, Output>): seq<Output> {
    At(m, Buyer) + At(m, Vendor) + At(m, Moderator)
  }

  function ValueAt(m: map<Role, Output>, r: Role): int {
    if r in m then m[r].value else 0
  }

  function Paid(m: map<Role, Output>): int {
    ValueAt(m, Moderator) + ValueAt(m, Buyer) + ValueAt(m, Vendor)
  }

  function Sum(outs: seq<Output>): int {
    if outs == [] then 0 else Sum(outs[..|outs| - 1]) + outs[|outs| - 1].value
  }

  lemma {:induction false} ListedParts(m: map<Role, Output>)
    ensures multiset(Listed(m)) == multiset(At(m, Buyer)) + multiset(At(m, Vendor)) + multiset(At(m, Moderator))
  {
  }

  lemma {:induction false} SameElsewhere(m: map<Role, Output>, r: Role, o: Output, q: Role)
    requires q != r
    ensures At(m[r := o], q) == At(m, q) && ValueAt(m[r := o], q) == ValueAt(m, q)
  {
  }

  lemma {:induction false} PaidAdds(m: map<Role, Output>, r: Role, o: Output)
    requires r !in m
    ensures Paid(m[r := o]) == Paid(m) + o.value
  {
    forall q: Role | q != r { SameElsewhere(m, r, o, q); }
  }

  lemma {:induction false} ListedAdds(m: map<Role, Output>, r: Role, o: Output)
    requires r !in m
    ensures multiset(Listed(m[r := o])) == multiset(Listed(m)) + multiset{o}
  {
    var m' := m[r := o];
    ListedParts(m);
    ListedParts(m');
    assert multiset(At(m, r)) == multiset{} && multiset(At(m', r)) == multiset{o};
    forall q: Role | q != r { SameElsewhere(m, r, o, q); }
  }

  lemma {:induction false} SumAdds(outs: seq<Output>, o: Output)
    ensures Sum(outs + [o]) == Sum(outs) + o.value && multiset(outs + [o]) == multiset(outs) + multiset{o}
  {
    assert (outs + [o])[..|outs|] == outs;
  }

  /** outs is what m holds, in some order. */
  ghost predicate Lists(outs: seq<Output>, m: map<Role, Output>) {
    multiset(outs) == multiset(Listed(m)) && Sum(outs) == Paid(m)
  }

  lemma {:induction false} ListsAdds(outs: seq<Output>, m: map<Role, Output>, r: Role, o: Output)
    requires r !in m && Lists(outs, m)
    ensures Lists(outs + [o], m[r := o])
  {
    ListedAdds(m, r, o);
    PaidAdds(m, r, o);
    SumAdds(outs, o);
  }

  // ---------- the two loops ----------

  /** The outputs, first as a list for the fee estimate and then by role. */
  method CreateOutputs(total: int, modFee: int, ratio: Ratio, address: Role -> Address)
    returns (outputs: seq<Output>, outMap: map<Role, Output>)
    ensures outMap == Gross(total, modFee, ratio, address)
    ensures outputs == At(outMap, Moderator) + At(outMap, Buyer) + At(outMap, Vendor)
  {
    outputs, outMap := [], map[];
    if modFee > 0 {
      var out := Output(address(Moderator), modFee);
      outputs, outMap := outputs + [out], outMap[Moderator := out];
    }
    var effective := total - modFee;
    if ratio.buyer > 0.0 {
      var out := Output(address(Buyer), effective * ratio.buyer.Floor / 100);
      outputs, outMap := outputs + [out], outMap[Buyer := out];
    }
    if ratio.vendor > 0.0 {
      var out := Output(address(Vendor), effective * ratio.vendor.Floor / 100);
      outputs, outMap := outputs + [out], outMap[Vendor := out];
    }
  }

  /** The fee comes off the outputs in any order, rewriting and deleting entries of the map that is being
      ranged over. What is signed is what the map keeps. */
  method SubtractFee(gross: map<Role, Output>, total: int, txFee: int, isDust: int -> bool)
    returns (outMap: map<Role, Output>, outs: seq<Output>)
    requires total != 0
    ensures outMap == Kept(gross, total, txFee, isDust)
    ensures Lists(outs, outMap)
  {
    outMap, outs := Prune(gross, v => Net(v, total, txFee), isDust);
  }

  predicate Settled(before: Output, done: map<Role, Output>, r: Role, net: int -> int, isDust: int -> bool) {
    if isDust(net(before.value)) then r !in done else r in done && done[r] == Output(before.address, net(before.value))
  }

  /** The map with todo still to be visited: done is what it keeps of the rest. */
  ghost predicate Pruning(gross: map<Role, Output>, outMap: map<Role, Output>, todo: set<Role>, done: map<Role, Output>,
                          net: int -> int, isDust: int -> bool) {
    && todo <= gross.Keys && todo !! done.Keys && done.Keys <= gross.Keys && outMap.Keys == todo + done.Keys
    && (forall r :: r in todo ==> outMap[r] == gross[r])
    && (forall r :: r in done ==> outMap[r] == done[r])
    && (forall r :: r in gross && r !in todo ==> Settled(gross[r], done, r, net, isDust))
  }

  lemma {:induction false} KeepingPrunes(gross: map<Role, Output>, outMap: map<Role, Output>, todo: set<Role>, done: map<Role, Output>,
                                         net: int -> int, isDust: int -> bool, r: Role, out: Output)
    requires Pruning(gross, outMap, todo, done, net, isDust) && r in todo
    requires out == Output(gross[r].address, net(gross[r].value)) && !isDust(out.value)
    ensures Pruning(gross, outMap[r := out], todo - {r}, done[r := out], net, isDust)
  {
    forall q | q in gross && q !in todo - {r} ensures Settled(gross[q], done[r := out], q, net, isDust) {
      assert q != r ==> Settled(gross[q], done, q, net, isDust);
    }
  }

  lemma {:induction false} DroppingPrunes(gross: map<Role, Output>, outMap: map<Role, Output>, todo: set<Role>, done: map<Role, Output>,
                                          net: int -> int, isDust: int -> bool, r: Role)
    requires Pruning(gross, outMap, todo, done, net, isDust) && r in todo && isDust(net(gross[r].value))
    ensures Pruning(gross, outMap - {r}, todo - {r}, done, net, isDust)
  {
    forall q | q in gross && q !in todo - {r} ensures Settled(gross[q], done, q, net, isDust) {
      assert q != r ==> Settled(gross[q], done, q, net, isDust);
    }
  }

  lemma {:induction false} AllPruned(gross: map<Role, Output>, outMap: map<Role, Output>, done: map<Role, Output>,
                                     net: int -> int, isDust: int -> bool)
    requires Pruning(gross, outMap, {}, done, net, isDust)
    ensures outMap == done == map r | r in gross && !isDust(net(gross[r].value)) :: gross[r].(value := net(gross[r].value))
  {
    assert forall r :: r in gross ==> Settled(gross[r], done, r, net, isDust);
  }

  method Prune(gross: map<Role, Output>, net: int -> int, isDust: int -> bool)
    returns (outMap: map<Role, Output>, outs: seq<Output>)
    ensures outMap == map r | r in gross && !isDust(net(gross[r].value)) :: gross[r].(value := net(gross[r].value))
    ensures Lists(outs, outMap)
  {
    outMap, outs := gross, [];
    var todo := outMap.Keys;
    ghost var done: map<Role, Output> := map[];
    while todo != {}
      invariant Pruning(gross, outMap, todo, done, net, isDust)
      invariant Lists(outs, done)
      decreases |todo|
    {
      var role :| role in todo;
      var out := Output(outMap[role].address, net(outMap[role].value));
      if !isDust(out.value) {
        ListsAdds(outs, done, role, out);
        KeepingPrunes(gross, outMap, todo, done, net, isDust, role, out);
        outMap, outs, done := outMap[role := out], outs + [out], done[role := out];
      } else {
        DroppingPrunes(gross, outMap, todo, done, net, isDust, role);
        outMap := outMap - {role};
      }
      todo := todo - {role};
    }
    AllPruned(gross, outMap, done, net, isDust);
  }

  // ---------- conservation ----------

  lemma {:induction false} NetReal(v: real, t: real, f: real)
    requires t > 0.0
    ensures (v - v / t * f) * t == v * (t - f)
  {
    var q := v / t;
    assert q * t == v;
    assert (q * t - q * f) * t == q * t * (t - f);
  }

  lemma {:induction false} CastProduct(a: int, b: int)
    ensures (a * b) as real == a as real * b as real
  {
  }

  lemma {:induction false} ScaleReal(a: real, b: real, t: real)
    requires t > 0.0
    ensures a <= b ==> a * t <= b * t
    ensures a < b ==> a * t < b * t
  {
  }

  lemma {:induction false} CastOrder(x: real, t: int, p: int, m: int)
    requires t > 0 && x * t as real == p as real
    ensures m as real <= x ==> t * m <= p
    ensures x < m as real ==> p < t * m
  {
    ScaleReal(m as real, x, t as real);
    ScaleReal(x, m as real, t as real);
    CastProduct(t, m);
  }

  lemma {:induction false} FloorBounds(x: real, t: int, p: int)
    requires t > 0 && p >= 0 && x * t as real == p as real
    ensures x >= 0.0 && t * x.Floor <= p < t * (x.Floor + 1)
  {
    CastOrder(x, t, p, 0);
    CastOrder(x, t, p, x.Floor);
    CastOrder(x, t, p, x.Floor + 1);
    assert (x.Floor + 1) as real == x.Floor as real + 1.0 > x;
  }

  lemma {:induction false} NetShare(value: int, total: int, txFee: int)
    requires 0 <= value && 0 < total && 0 <= txFee <= total
    ensures 0 <= Net(value, total, txFee)
    ensures total * Net(value, total, txFee) <= value * (total - txFee) < total * (Net(value, total, txFee) + 1)
  {
    NetReal(value as real, total as real, txFee as real);
    CastProduct(value, total - txFee);
    NetFloor(value as real - value as real / total as real * txFee as real, value, total, txFee);
  }

  lemma {:induction false} NetFloor(x: real, value: int, total: int, txFee: int)
    requires total > 0 && x == value as real - value as real / total as real * txFee as real
    requires x * total as real == (value * (total - txFee)) as real && value * (total - txFee) >= 0
    ensures 0 <= Net(value, total, txFee)
    ensures total * Net(value, total, txFee) <= value * (total - txFee) < total * (Net(value, total, txFee) + 1)
  {
    FloorBounds(x, total, value * (total - txFee));
    assert Net(value, total, txFee) == x.Floor;
  }

  lemma {:induction false} ShareBounds(effective: int, percentage: real)
    requires effective >= 0 && percentage >= 0.0
    ensures 0 <= Share(effective, percentage)
    ensures 100 * Share(effective, percentage) <= effective * percentage.Floor < 100 * Share(effective, percentage) + 100
  {
  }

  /** Before the miner's fee, all is shared out but for the percent that two fractional percentages lose
      between them, and one unit of rounding for each of the parties. */
  lemma {:induction false} GrossGap(total: int, modFee: int, ratio: Ratio, address: Role -> Address)
    requires 0 <= modFee <= total && ValidRatio(ratio)
    ensures var lost := if WholePercentages(ratio) then 0 else total - modFee;
            var gap := total - Paid(Gross(total, modFee, ratio, address));
            lost <= 100 * gap < lost + 200 && (lost == 0 ==> gap <= 1)
    ensures forall r :: r in Gross(total, modFee, ratio, address) ==> Gross(total, modFee, ratio, address)[r].value >= 0
  {
    var effective, b, v := total - modFee, ratio.buyer.Floor, ratio.vendor.Floor;
    var gross := Gross(total, modFee, ratio, address);
    ShareBounds(effective, ratio.buyer);
    ShareBounds(effective, ratio.vendor);
    FloorsAddUp(ratio);
    assert effective * b + effective * v == effective * (b + v);
    assert ValueAt(gross, Buyer) == Share(effective, ratio.buyer);
    assert ValueAt(gross, Vendor) == Share(effective, ratio.vendor);
    assert ValueAt(gross, Moderator) == modFee;
  }

  lemma {:induction false} FloorsAddUp(ratio: Ratio)
    requires ValidRatio(ratio)
    ensures ratio.buyer.Floor + ratio.vendor.Floor == if WholePercentages(ratio) then 100 else 99
  {
  }

  /** What one role's output comes to, over the total. */
  lemma {:induction false} KeptShare(gross: map<Role, Output>, r: Role, total: int, txFee: int, isDust: int -> bool)
    requires 0 < total && 0 <= txFee <= total && ValueAt(gross, r) >= 0
    ensures var kept := ValueAt(Kept(gross, total, txFee, isDust), r);
            0 <= total * kept <= ValueAt(gross, r) * (total - txFee) &&
            (Kept(gross, total, txFee, isDust).Keys == gross.Keys ==> ValueAt(gross, r) * (total - txFee) < total * (kept + 1))
  {
    if r in gross {
      NetShare(gross[r].value, total, txFee);
    }
  }

  lemma {:induction false} SharesAddUp(gross: map<Role, Output>, total: int, txFee: int, isDust: int -> bool)
    requires 0 < total && 0 <= txFee <= total && forall r :: r in gross ==> gross[r].value >= 0
    ensures var kept := Kept(gross, total, txFee, isDust);
            total * Paid(kept) <= Paid(gross) * (total - txFee) &&
            (kept.Keys == gross.Keys ==> Paid(gross) * (total - txFee) < total * (Paid(kept) + 3))
  {
    forall r: Role { KeptShare(gross, r, total, txFee, isDust); }
    ThreeAdd(total, total - txFee, ValueAt(gross, Moderator), ValueAt(gross, Buyer), ValueAt(gross, Vendor));
    var kept := Kept(gross, total, txFee, isDust);
    ThreeAdd(total, total - txFee, ValueAt(kept, Moderator), ValueAt(kept, Buyer), ValueAt(kept, Vendor));
    ThreeAdd(total, total - txFee, ValueAt(kept, Moderator) + 1, ValueAt(kept, Buyer) + 1, ValueAt(kept, Vendor) + 1);
  }

  lemma {:induction false} ThreeAdd(t: int, n: int, a: int, b: int, c: int)
    ensures a * n + b * n + c * n == (a + b + c) * n
    ensures t * a + t * b + t * c == t * (a + b + c)
  {
  }

  lemma {:induction false} Scale(a: int, b: int, n: int)
    requires a <= b && n >= 0
    ensures a * n <= b * n
  {
  }

  lemma {:induction false} Cancel(t: int, a: int, b: int)
    ensures t > 0 && t * a <= t * b ==> a <= b
    ensures t > 0 && t * a < t * b ==> a < b
  {
  }

  lemma {:induction false} TruncatesTowardZero(x: real)
    ensures Truncated(-x) == -Truncated(x)
    ensures x >= 0.0 ==> Truncated(x) as real <= x < Truncated(x) as real + 1.0
  {
  }

  /** g is e times a whole percentage, rounded down. */
  ghost predicate PercentOf(g: int, e: int, percent: int) {
    100 * g <= e * percent < 100 * g + 100
  }

  /** v is g less its share of the fee, rounded down. */
  ghost predicate LessFee(v: int, g: int, total: int, txFee: int) {
    total * v <= g * (total - txFee) < total * (v + 1)
  }

  /** What each is to have in the end: the moderator its fee, the parties their own percentages of the
      rest, and each less its share of the miner's fee. */
  ghost predicate Deserves(r: Role, v: int, total: int, modFee: int, ratio: Ratio, txFee: int) {
    match r
    case Moderator => LessFee(v, modFee, total, txFee)
    case Buyer => exists g :: PercentOf(g, total - modFee, ratio.buyer.Floor) && LessFee(v, g, total, txFee)
    case Vendor => exists g :: PercentOf(g, total - modFee, ratio.vendor.Floor) && LessFee(v, g, total, txFee)
  }

  predicate HasShare(r: Role, modFee: int, ratio: Ratio) {
    match r
    case Moderator => modFee > 0
    case Buyer => ratio.buyer > 0.0
    case Vendor => ratio.vendor > 0.0
  }

  /** Everyone with a share gets what it deserves at its own address, unless that is dust; nobody else
      gets anything. */
  lemma {:induction false} EachGetsItsShare(r: Role, total: int, modFee: int, ratio: Ratio, address: Role -> Address, txFee: int, isDust: int -> bool)
    returns (v: int)
    requires 0 < total && 0 <= modFee <= total && 0 <= txFee <= total && ValidRatio(ratio)
    ensures HasShare(r, modFee, ratio) ==> Deserves(r, v, total, modFee, ratio, txFee)
    ensures var kept := Kept(Gross(total, modFee, ratio, address), total, txFee, isDust);
            (r in kept <==> HasShare(r, modFee, ratio) && !isDust(v)) && (r in kept ==> kept[r] == Output(address(r), v))
  {
    var gross := Gross(total, modFee, ratio, address);
    GrossGap(total, modFee, ratio, address);
    v := 0;
    if r in gross {
      v := Net(gross[r].value, total, txFee);
      NetShare(gross[r].value, total, txFee);
      ShareBounds(total - modFee, ratio.buyer);
      ShareBounds(total - modFee, ratio.vendor);
      assert r == Buyer ==> PercentOf(gross[r].value, total - modFee, ratio.buyer.Floor);
      assert r == Vendor ==> PercentOf(gross[r].value, total - modFee, ratio.vendor.Floor);
      assert LessFee(v, gross[r].value, total, txFee);
    }
  }

  /** The payout never creates money and never underpays the miner, whatever is dropped as dust. */
  lemma {:induction false} NeverOverspends(total: int, modFee: int, ratio: Ratio, address: Role -> Address, txFee: int, isDust: int -> bool)
    requires 0 < total && 0 <= modFee <= total && 0 <= txFee <= total && ValidRatio(ratio)
    ensures Paid(Kept(Gross(total, modFee, ratio, address), total, txFee, isDust)) + txFee <= total
  {
    var gross := Gross(total, modFee, ratio, address);
    GrossGap(total, modFee, ratio, address);
    SharesAddUp(gross, total, txFee, isDust);
    Scale(Paid(gross), total, total - txFee);
    Cancel(total, Paid(Kept(gross, total, txFee, isDust)), total - txFee);
  }

  /** With whole percentages and no dust, the miner is overpaid by fewer than four units. */
  lemma {:induction false} WholePercentagesLoseUnderFour(total: int, modFee: int, ratio: Ratio, address: Role -> Address, txFee: int, isDust: int -> bool)
    requires 0 < total && 0 <= modFee <= total && 0 <= txFee <= total && ValidRatio(ratio) && WholePercentages(ratio)
    requires Kept(Gross(total, modFee, ratio, address), total, txFee, isDust).Keys == Gross(total, modFee, ratio, address).Keys
    ensures total - txFee - Paid(Kept(Gross(total, modFee, ratio, address), total, txFee, isDust)) < 4
  {
    var gross := Gross(total, modFee, ratio, address);
    var paid := Paid(Kept(gross, total, txFee, isDust));
    GrossGap(total, modFee, ratio, address);
    SharesAddUp(gross, total, txFee, isDust);
    Scale(total - 1, Paid(gross), total - txFee);
    assert (total - 1) * (total - txFee) == total * (total - txFee) - (total - txFee) >= total * (total - txFee - 1);
    Cancel(total, total - txFee - 1, paid + 3);
  }

  /** With fractional percentages the miner also gets the percent that is lost of what the parties were to
      share, so that no constant bounds what it is overpaid. */
  lemma {:induction false} FractionsLoseAPercent(total: int, modFee: int, ratio: Ratio, address: Role -> Address, txFee: int, isDust: int -> bool)
    requires 0 < total && 0 <= modFee <= total && 0 <= txFee <= total && ValidRatio(ratio) && !WholePercentages(ratio)
    ensures var excess := total - txFee - Paid(Kept(Gross(total, modFee, ratio, address), total, txFee, isDust));
            total * (100 * excess) >= (total - modFee) * (total - txFee)
  {
    var gross := Gross(total, modFee, ratio, address);
    var paid, net := Paid(Kept(gross, total, txFee, isDust)), total - txFee;
    GrossGap(total, modFee, ratio, address);
    SharesAddUp(gross, total, txFee, isDust);
    Scale(total - modFee, 100 * (total - Paid(gross)), net);
    LostPercent(total, net, Paid(gross), paid);
  }

  /** Nothing of this division is dust, and the miner gets fewer than four units over its fee. */
  ghost predicate LosesUnderFour(ratio: Ratio, total: int, modFee: int, address: Role -> Address, txFee: int, isDust: int -> bool)
    requires total > 0
  {
    var gross := Gross(total, modFee, ratio, address);
    var kept := Kept(gross, total, txFee, isDust);
    kept.Keys == gross.Keys ==> total - txFee - Paid(kept) < 4
  }

  /** The bound holds of every escrow, fee and dust rule exactly when both percentages are whole. */
  lemma {:induction false} UnderFourIffWhole(ratio: Ratio)
    requires ValidRatio(ratio)
    ensures WholePercentages(ratio) <==>
            forall total, modFee, address, txFee, isDust | total > 0 && 0 <= modFee <= total && 0 <= txFee <= total ::
              LosesUnderFour(ratio, total, modFee, address, txFee, isDust)
  {
    if WholePercentages(ratio) {
      forall total, modFee, address, txFee, isDust | total > 0 && 0 <= modFee <= total && 0 <= txFee <= total
        ensures LosesUnderFour(ratio, total, modFee, address, txFee, isDust)
      {
        var gross := Gross(total, modFee, ratio, address);
        if Kept(gross, total, txFee, isDust).Keys == gross.Keys {
          WholePercentagesLoseUnderFour(total, modFee, ratio, address, txFee, isDust);
        }
      }
    } else {
      FractionLosesFour(ratio);
    }
  }

  /** An escrow of 400 units without fees or dust already loses four. */
  lemma {:induction false} FractionLosesFour(ratio: Ratio)
    requires ValidRatio(ratio) && !WholePercentages(ratio)
    ensures !LosesUnderFour(ratio, 400, 0, _ => 0, 0, _ => false)
  {
    var gross := Gross(400, 0, ratio, _ => 0);
    assert Kept(gross, 400, 0, _ => false).Keys == gross.Keys;
    FractionsLoseAPercent(400, 0, ratio, _ => 0, 0, _ => false);
  }

  /** 33.5 to 66.5 of 1000 units pays 330 and 660. */
  lemma {:induction false} FractionExample(address: Role -> Address)
    ensures var gross := Gross(1000, 0, Ratio(33.5, 66.5), address);
            ValidRatio(Ratio(33.5, 66.5)) && gross.Keys == {Buyer, Vendor} &&
            gross[Buyer].value == 330 && gross[Vendor].value == 660
  {
    assert 33.5.Floor == 33 && 66.5.Floor == 66;
  }

  lemma {:induction false} LostPercent(t: int, n: int, g: int, p: int)
    requires t * p <= g * n
    ensures t * (100 * (n - p)) >= 100 * (t - g) * n
  {
    assert t * (n - p) == t * n - t * p >= t * n - g * n == (t - g) * n;
    assert t * (100 * (n - p)) == 100 * (t * (n - p));
    assert 100 * (t - g) * n == 100 * ((t - g) * n);
  }
}
