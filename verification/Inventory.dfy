/** SetListingInventory: bring a listing's stored inventory in line with its SKUs. A row's primary
    key hashes the slug with the printed variant index appended, so rows of two slugs can share it. */
module Inventory {
  import opened Wrappers
  import opened Decimals

  type Slug = string

  datatype Row = Row(slug: Slug, variant: nat, count: int)

  /** The inventory table by the text whose SHA-256 is the primary key. */
  type Table = map<string, Row>

  function RowKey(slug: Slug, variant: nat): string {
    slug + Print(variant)
  }

  ghost predicate WellKeyed(t: Table) {
    forall key :: key in t ==> key == RowKey(t[key].slug, t[key].variant)
  }

  lemma {:induction false} RowKeyInjective(slug: Slug, i: nat, j: nat)
    requires RowKey(slug, i) == RowKey(slug, j)
    ensures i == j
  {
    assert RowKey(slug, i)[|slug|..] == Print(i) && RowKey(slug, j)[|slug|..] == Print(j);
    PrintInjective(i, j);
  }

  /** Inventory().Get: the stored variants of a slug. */
  function Stored(t: Table, slug: Slug): map<nat, int>
    requires WellKeyed(t)
  {
    map key | key in t && t[key].slug == slug :: t[key].variant := t[key].count
  }

  lemma {:induction false} StoredIsByKey(t: Table, slug: Slug)
    requires WellKeyed(t)
    ensures forall v :: v in Stored(t, slug) <==> RowKey(slug, v) in t && t[RowKey(slug, v)].slug == slug
    ensures forall v :: v in Stored(t, slug) ==> t[RowKey(slug, v)] == Row(slug, v, Stored(t, slug)[v])
  {
    forall v: nat | RowKey(slug, v) in t && t[RowKey(slug, v)].slug == slug
      ensures v in Stored(t, slug)
    {
      RowKeyInjective(slug, v, t[RowKey(slug, v)].variant);
    }
  }

  /** The keys under which the given variants of a slug are written. */
  ghost function KeysOf(slug: Slug, variants: map<nat, int>): set<string> {
    set v | v in variants :: RowKey(slug, v)
  }

  /** What reconciling leaves: the slug's wanted rows, and every row of another slug that none of
      the wanted rows displaced. */
  ghost predicate Reconciled(before: Table, after: Table, slug: Slug, want: map<nat, int>) {
    && (forall v :: v in want ==> RowKey(slug, v) in after && after[RowKey(slug, v)] == Row(slug, v, want[v]))
    && (forall key :: key in after && key !in KeysOf(slug, want) ==> key in before && before[key].slug != slug)
    && (forall key :: key in before && key !in KeysOf(slug, want) && before[key].slug != slug ==>
          key in after && after[key] == before[key])
  }

  /** A stored row of another slug has the key of a row that is about to be written. */
  ghost predicate Collides(t: Table, other: Slug, slug: Slug, want: map<nat, int>)
    requires WellKeyed(t)
  {
    exists v, i :: v in Stored(t, other) && i in want && RowKey(other, v) == RowKey(slug, i)
  }

  lemma {:induction false} ReconciledOwn(before: Table, after: Table, slug: Slug, want: map<nat, int>)
    requires WellKeyed(before) && WellKeyed(after) && Reconciled(before, after, slug, want)
    ensures Stored(after, slug) == want
  {
    StoredIsByKey(after, slug);
    forall v | v in Stored(after, slug) ensures v in want {
      var key := RowKey(slug, v);
      if key in KeysOf(slug, want) {
        var i :| i in want && key == RowKey(slug, i);
        RowKeyInjective(slug, v, i);
      }
    }
  }

  lemma {:induction false} CollisionDisplaces(before: Table, after: Table, slug: Slug, want: map<nat, int>, other: Slug)
    requires WellKeyed(before) && WellKeyed(after) && Reconciled(before, after, slug, want)
    requires other != slug && Collides(before, other, slug, want)
    ensures Stored(after, other) != Stored(before, other)
  {
    var v, i :| v in Stored(before, other) && i in want && RowKey(other, v) == RowKey(slug, i);
    StoredIsByKey(after, other);
    assert after[RowKey(slug, i)].slug == slug;
    assert v !in Stored(after, other);
  }

  lemma {:induction false} SameVariant(before: Table, after: Table, slug: Slug, want: map<nat, int>, other: Slug, v: nat)
    requires WellKeyed(before) && WellKeyed(after) && Reconciled(before, after, slug, want)
    requires other != slug && !Collides(before, other, slug, want)
    ensures v in Stored(after, other) <==> v in Stored(before, other)
    ensures v in Stored(before, other) ==> Stored(after, other)[v] == Stored(before, other)[v]
  {
    StoredIsByKey(before, other);
    StoredIsByKey(after, other);
    var key := RowKey(other, v);
    if key in KeysOf(slug, want) {
      var i :| i in want && key == RowKey(slug, i);
      assert after[key].slug == slug;
    }
  }

  /** Another slug keeps its inventory exactly when none of its rows has a written row's key. */
  lemma {:induction false} ReconciledOthers(before: Table, after: Table, slug: Slug, want: map<nat, int>, other: Slug)
    requires WellKeyed(before) && WellKeyed(after) && Reconciled(before, after, slug, want)
    requires other != slug
    ensures Stored(after, other) == Stored(before, other) <==> !Collides(before, other, slug, want)
  {
    if Collides(before, other, slug, want) {
      CollisionDisplaces(before, after, slug, want, other);
    } else {
      forall v: nat { SameVariant(before, after, slug, want, other, v); }
    }
  }

  /** Keys of two slugs meet exactly when the longer slug is the shorter one with the leading digits
      of the shorter one's variant index appended. */
  lemma {:induction false} CollisionShape(slug: Slug, i: nat, other: Slug, v: nat)
    requires |slug| <= |other|
    ensures RowKey(slug, i) == RowKey(other, v) <==>
            slug <= other && Print(i) == other[|slug|..] + Print(v)
    ensures RowKey(slug, i) == RowKey(other, v) ==> forall k :: |slug| <= k < |other| ==> IsDigit(other[k])
  {
    var key := RowKey(slug, i);
    assert key[|slug|..] == Print(i);
    if RowKey(slug, i) == RowKey(other, v) {
      assert other == key[..|other|] && slug == key[..|slug|];
      assert key[|slug|..] == other[|slug|..] + Print(v);
      forall k | |slug| <= k < |other| ensures IsDigit(other[k]) {
        assert other[k] == Print(i)[k - |slug|];
      }
    } else if slug <= other {
      assert RowKey(other, v) == slug + (other[|slug|..] + Print(v));
    }
  }

  /** "shirt" with variant 11 and "shirt1" with variant 1 share a key: storing the first listing's
      inventory removes the other listing's only row. */
  lemma {:induction false} SlugsCollide(count: int, want: int, after: Table)
    requires WellKeyed(after)
    requires Reconciled(map[RowKey("shirt1", 1) := Row("shirt1", 1, count)], after, "shirt", map[11 := want])
    ensures Stored(after, "shirt1") == map[]
  {
    assert Print(11) == "11" && Print(1) == "1";
    assert RowKey("shirt", 11) == "shirt11" == RowKey("shirt1", 1);
    StoredIsByKey(after, "shirt1");
    assert RowKey("shirt", 11) in KeysOf("shirt", map[11 := want]);
  }

  /** The table while the wanted rows are being written: done says which ones are. */
  ghost predicate Written(before: Table, now: Table, slug: Slug, want: map<nat, int>, done: set<nat>) {
    && (forall v :: v in done ==> v in want && RowKey(slug, v) in now && now[RowKey(slug, v)] == Row(slug, v, want[v]))
    && (forall key :: key in before && !KeyIn(key, slug, done) ==> key in now && now[key] == before[key])
    && (forall key :: key in now && !KeyIn(key, slug, done) ==> key in before)
  }

  ghost predicate KeyIn(key: string, slug: Slug, variants: set<nat>) {
    exists v :: v in variants && key == RowKey(slug, v)
  }

  ghost predicate Halfway(before: Table, now: Table, slug: Slug, want: map<nat, int>, todo: set<nat>, done: set<nat>) {
    todo + done == want.Keys && todo !! done && Written(before, now, slug, want, done)
  }

  lemma {:induction false} WriteOne(before: Table, now: Table, slug: Slug, want: map<nat, int>, todo: set<nat>, done: set<nat>, i: nat)
    requires Halfway(before, now, slug, want, todo, done) && i in todo
    ensures i in want && Halfway(before, now[RowKey(slug, i) := Row(slug, i, want[i])], slug, want, todo - {i}, done + {i})
  {
    assert i in want.Keys && i !in done;
    assert (todo - {i}) + (done + {i}) == want.Keys;
    forall v | v in done ensures RowKey(slug, v) != RowKey(slug, i) {
      if RowKey(slug, v) == RowKey(slug, i) { RowKeyInjective(slug, v, i); }
    }
    forall key | !KeyIn(key, slug, done + {i}) ensures !KeyIn(key, slug, done) && key != RowKey(slug, i) {
      assert i in done + {i};
    }
  }

  lemma {:induction false} StrikeOff(stale: map<nat, int>, currentInv: map<nat, int>, done: set<nat>, i: nat)
    requires stale.Keys == currentInv.Keys - done
    ensures (stale - {i}).Keys == currentInv.Keys - (done + {i})
    ensures i !in stale ==> stale.Keys == currentInv.Keys - (done + {i})
  {
  }

  /** Once everything wanted is written, deleting the slug's other rows reconciles the table. */
  lemma {:induction false} DeletingReconciles(before: Table, now: Table, after: Table, slug: Slug, want: map<nat, int>)
    requires WellKeyed(before) && WellKeyed(now) && Written(before, now, slug, want, want.Keys)
    requires after == Removed(now, slug, Stored(before, slug).Keys - want.Keys)
    ensures Reconciled(before, after, slug, want)
  {
    StoredIsByKey(before, slug);
    forall key ensures KeyIn(key, slug, want.Keys) <==> key in KeysOf(slug, want) {}
  }

  function Removed(t: Table, slug: Slug, variants: set<nat>): Table {
    map key | key in t && !(t[key].slug == slug && t[key].variant in variants) :: t[key]
  }

  datatype Listing = Listing(slug: Slug, skusValid: bool, inventory: Option<map<nat, int>>)

  datatype Failure = InvalidSkus | UnreadableInventory | PublishFailed

  /** Without SKUs the listing is in unlimited supply. */
  function Wanted(inventory: map<nat, int>): map<nat, int> {
    if |inventory| == 0 then map[0 := -1] else inventory
  }

  class InventoryStore {
    var rows: Table

    constructor ()
      ensures rows == map[]
    {
      rows := map[];
    }

    method Put(slug: Slug, variant: nat, count: int)
      requires WellKeyed(rows)
      modifies this
      ensures rows == old(rows)[RowKey(slug, variant) := Row(slug, variant, count)] && WellKeyed(rows)
    {
      rows := rows[RowKey(slug, variant) := Row(slug, variant, count)];
    }

    method Delete(slug: Slug, variant: nat)
      requires WellKeyed(rows)
      modifies this
      ensures rows == Removed(old(rows), slug, {variant}) && WellKeyed(rows)
    {
      rows := map key | key in rows && !(rows[key].slug == slug && rows[key].variant == variant) :: rows[key];
    }

    /** Write every wanted row, in any order, and strike it off the rows that were there before. */
    method WriteWanted(slug: Slug, want: map<nat, int>, currentInv: map<nat, int>) returns (stale: map<nat, int>)
      requires WellKeyed(rows)
      modifies this
      ensures WellKeyed(rows) && Written(old(rows), rows, slug, want, want.Keys)
      ensures stale.Keys == currentInv.Keys - want.Keys
    {
      stale := currentInv;
      var todo, done := want.Keys, {};
      ghost var before := rows;
      while todo != {}
        invariant WellKeyed(rows) && Halfway(before, rows, slug, want, todo, done)
        invariant stale.Keys == currentInv.Keys - done
        decreases |todo|
      {
        var i :| i in todo;
        WriteOne(before, rows, slug, want, todo, done, i);
        Put(slug, i, want[i]);
        StrikeOff(stale, currentInv, done, i);
        if i in stale {
          stale := stale - {i};
        }
        todo, done := todo - {i}, done + {i};
      }
      assert done == want.Keys;
    }

    method DeleteStale(slug: Slug, variants: set<nat>)
      requires WellKeyed(rows)
      modifies this
      ensures WellKeyed(rows) && rows == Removed(old(rows), slug, variants)
    {
      var todo, done := variants, {};
      assert Removed(rows, slug, done) == rows;
      while todo != {}
        invariant WellKeyed(rows) && todo + done == variants
        invariant rows == Removed(old(rows), slug, done)
        decreases |todo|
      {
        var i :| i in todo;
        Delete(slug, i);
        todo, done := todo - {i}, done + {i};
      }
      assert done == variants;
    }

    /** On success, and when only the final publishing fails, the slug's stored variants are the
        wanted ones and the rest of the table is as Reconciled says. */
    method SetListingInventory(l: Listing, publishOk: bool) returns (r: Result<(), Failure>)
      requires WellKeyed(rows)
      modifies this
      ensures WellKeyed(rows)
      ensures r == if !l.skusValid then Err(InvalidSkus)
                   else if l.inventory.None? then Err(UnreadableInventory)
                   else if !publishOk then Err(PublishFailed) else Ok(())
      ensures !l.skusValid || l.inventory.None? ==> rows == old(rows)
      ensures l.skusValid && l.inventory.Some? ==>
                Reconciled(old(rows), rows, l.slug, Wanted(l.inventory.value)) &&
                Stored(rows, l.slug) == Wanted(l.inventory.value)
      ensures l.skusValid && l.inventory == Some(map[]) ==> Stored(rows, l.slug) == map[0 := -1]
      ensures l.skusValid && l.inventory.Some? && l.inventory.value != map[] ==> Stored(rows, l.slug) == l.inventory.value
    {
      if !l.skusValid {
        return Err(InvalidSkus);
      }
      var currentInv := Stored(rows, l.slug);
      if l.inventory.None? {
        return Err(UnreadableInventory);
      }
      var want := Wanted(l.inventory.value);
      var stale := WriteWanted(l.slug, want, currentInv);
      ghost var now := rows;
      DeleteStale(l.slug, stale.Keys);
      DeletingReconciles(old(rows), now, rows, l.slug, want);
      ReconciledOwn(old(rows), rows, l.slug, want);
      r := if publishOk then Ok(()) else Err(PublishFailed);
    }
  }
}
