/** The part of ValidateOrder that matches the order's item hashes with the listings included in the
    contract, taking each matched hash out of the list it is ranging over. */
module OrderHashes {
  import opened SliceRange

  type Hash = string

  /** listing i is the first of the included listings with hash h. */
  ghost predicate FirstWithHash<L>(listings: seq<L>, hashOf: L -> Hash, h: Hash, i: int) {
    0 <= i < |listings| && hashOf(listings[i]) == h && forall j :: 0 <= j < i ==> hashOf(listings[j]) != h
  }

  /** Keep the first copy of every hash. */
  method CollectItemHashes(items: seq<Hash>) returns (hashes: seq<Hash>)
    ensures Distinct(hashes)
    ensures forall h :: h in hashes <==> h in items
  {
    hashes := [];
    for n := 0 to |items|
      invariant Distinct(hashes)
      invariant forall h :: h in hashes <==> h in items[..n]
    {
      var seen, k := false, 0;
      while k < |hashes| && !seen
        invariant k <= |hashes|
        invariant seen <==> items[n] in hashes[..k]
      {
        seen := hashes[k] == items[n];
        k := k + 1;
      }
      if !seen {
        hashes := hashes + [items[n]];
      }
    }
  }

  /** One listing's pass over the hashes still unmatched: it stays in bounds and takes out the
      listing's hash when it is there. */
  method TakeOut(hashes: seq<Hash>, id: Hash) returns (rest: seq<Hash>, found: bool)
    requires Distinct(hashes)
    ensures Distinct(rest)
    ensures forall h :: h in rest <==> h in hashes && h != id
    ensures found <==> id in hashes
  {
    var hit := (h: Hash) => h == id;
    var backing := new Hash[|hashes|](k requires 0 <= k < |hashes| => hashes[k]);
    assert backing[..] == hashes;
    var out := DeleteWhileRanging(backing, hit, false);
    ghost var hits := RangeDeleteRemovesTheHit(hashes, 0, hit, false);
    WithoutMembers(hashes, hit);
    rest, found := out.rest, out.hits != [];
  }

  /** The check passes exactly when every item's hash is the hash of an included listing, and then
      the map built on the way has the items' hashes as its keys, each with the first such listing. */
  method MatchListings<L>(items: seq<Hash>, listings: seq<L>, hashOf: L -> Hash)
    returns (ok: bool, listingMap: map<Hash, L>)
    ensures ok <==> forall h :: h in items ==> exists l :: l in listings && hashOf(l) == h
    ensures ok ==> forall h :: h in listingMap <==> h in items
    ensures forall h :: h in listingMap ==> exists i :: FirstWithHash(listings, hashOf, h, i) && listingMap[h] == listings[i]
  {
    var hashes := CollectItemHashes(items);
    listingMap := map[];
    for n := 0 to |listings|
      invariant Distinct(hashes)
      invariant forall h :: h in hashes <==> h in items && forall j :: 0 <= j < n ==> hashOf(listings[j]) != h
      invariant forall h :: h in listingMap <==> h in items && h !in hashes
      invariant forall h :: h in listingMap ==> exists i :: FirstWithHash(listings, hashOf, h, i) && listingMap[h] == listings[i]
    {
      var id := hashOf(listings[n]);
      var found;
      hashes, found := TakeOut(hashes, id);
      if found {
        assert FirstWithHash(listings, hashOf, id, n);
        listingMap := listingMap[id := listings[n]];
      }
    }
    ok := |hashes| == 0;
    if !ok {
      assert hashes[0] in hashes;
    }
  }
}
