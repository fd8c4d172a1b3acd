/** Deleting from a slice while ranging over it. Go evaluates the range operand once, so the loop
    keeps visiting the old length of the backing array while each deletion shifts the array's tail
    left under it; the last cells then hold stale copies. */
module SliceRange {
  datatype Outcome<T> =
    | Panic                             // a slice bound was out of range
    | Done(rest: seq<T>, hits: seq<T>)  // what the slice now holds, and what the loop took out

  /** The backing array after append(s[:i], s[i+1:]...) on a slice of length len. */
  function ShiftLeft<T>(back: seq<T>, len: nat, i: nat): (shifted: seq<T>)
    requires i < len <= |back|
    ensures |shifted| == |back|
  {
    back[..i] + back[i + 1..len] + back[len - 1..]
  }

  /** The rest of the range loop from index i. With resetAtOne the loop replaces a one-element
      slice by a new empty one and breaks, as the post and listing indexes do. */
  function RangeDelete<T>(back: seq<T>, len: nat, i: nat, hit: T -> bool, resetAtOne: bool): Outcome<T>
    requires len <= |back| && i <= |back|
    decreases |back| - i
  {
    if i == |back| then Done(back[..len], [])
    else if !hit(back[i]) then RangeDelete(back, len, i + 1, hit, resetAtOne)
    else if resetAtOne && len == 1 then Done([], [back[i]])
    else if len < i + 1 then Panic
    else
      var rest := RangeDelete(ShiftLeft(back, len, i), len - 1, i + 1, hit, resetAtOne);
      if rest.Panic? then Panic else Done(rest.rest, [back[i]] + rest.hits)
  }

  /** The loop as it runs, in place: the array is the slice's backing array. */
  method DeleteWhileRanging<T(==)>(a: array<T>, hit: T -> bool, resetAtOne: bool) returns (out: Outcome<T>)
    modifies a
    ensures out == RangeDelete(old(a[..]), a.Length, 0, hit, resetAtOne)
    ensures out.Done? && out.rest != [] ==> |out.rest| <= a.Length && a[..|out.rest|] == out.rest
  {
    var len: nat, i: nat, hits: seq<T> := a.Length, 0, [];
    while i < a.Length
      invariant i <= a.Length && len <= a.Length
      invariant RangeDelete(old(a[..]), a.Length, 0, hit, resetAtOne) ==
                Prepend(hits, RangeDelete(a[..], len, i, hit, resetAtOne))
    {
      ghost var before := a[..];
      var d := a[i];
      if hit(d) {
        if resetAtOne && len == 1 {
          return Done([], hits + [d]);
        }
        if len < i + 1 {
          return Panic;
        }
        HitStep(hits, before, len, i, hit, resetAtOne);
        forall k | i <= k < len - 1 { a[k] := a[k + 1]; }
        assert a[..] == ShiftLeft(before, len, i);
        len := len - 1;
        hits := hits + [d];
      }
      i := i + 1;
    }
    out := Done(a[..len], hits);
  }

  ghost function Prepend<T>(hits: seq<T>, out: Outcome<T>): Outcome<T> {
    if out.Panic? then Panic else Done(out.rest, hits + out.hits)
  }

  lemma {:induction false} HitStep<T>(hits: seq<T>, back: seq<T>, len: nat, i: nat, hit: T -> bool, resetAtOne: bool)
    requires i < len <= |back| && hit(back[i]) && !(resetAtOne && len == 1)
    ensures Prepend(hits, RangeDelete(back, len, i, hit, resetAtOne)) ==
            Prepend(hits + [back[i]], RangeDelete(ShiftLeft(back, len, i), len - 1, i + 1, hit, resetAtOne))
  {
    var rest := RangeDelete(ShiftLeft(back, len, i), len - 1, i + 1, hit, resetAtOne);
    if rest.Done? {
      assert hits + ([back[i]] + rest.hits) == hits + [back[i]] + rest.hits;
    }
  }

  // ---------- what the loop should do ----------

  /** The elements that are not hits, in order. */
  function Without<T>(s: seq<T>, hit: T -> bool): seq<T> {
    if s == [] then []
    else if hit(s[0]) then Without(s[1..], hit)
    else [s[0]] + Without(s[1..], hit)
  }

  ghost predicate AtMostOneHit<T>(s: seq<T>, hit: T -> bool) {
    forall i, j :: 0 <= i < |s| && 0 <= j < |s| && hit(s[i]) && hit(s[j]) ==> i == j
  }

  lemma {:induction false} NoHitsLeft<T>(back: seq<T>, len: nat, i: nat, hit: T -> bool, resetAtOne: bool)
    requires len <= |back| && i <= |back|
    requires forall k :: i <= k < |back| ==> !hit(back[k])
    ensures RangeDelete(back, len, i, hit, resetAtOne) == Done(back[..len], [])
    decreases |back| - i
  {
    if i < |back| { NoHitsLeft(back, len, i + 1, hit, resetAtOne); }
  }

  lemma {:induction false} WithoutNoHits<T>(s: seq<T>, hit: T -> bool)
    requires forall k :: 0 <= k < |s| ==> !hit(s[k])
    ensures Without(s, hit) == s
  {
    if s != [] { WithoutNoHits(s[1..], hit); }
  }

  lemma {:induction false} WithoutOneHit<T>(s: seq<T>, i: nat, hit: T -> bool)
    requires i < |s| && hit(s[i])
    requires forall k :: 0 <= k < |s| && k != i ==> !hit(s[k])
    ensures Without(s, hit) == s[..i] + s[i + 1..]
  {
    if i == 0 {
      WithoutNoHits(s[1..], hit);
    } else {
      WithoutOneHit(s[1..], i - 1, hit);
      assert s[1..][..i - 1] == s[..i][1..] && s[1..][i..] == s[i + 1..];
    }
  }

  ghost predicate Distinct<T>(s: seq<T>) {
    forall i, j :: 0 <= i < j < |s| ==> s[i] != s[j]
  }

  lemma {:induction false} WithoutMembers<T>(s: seq<T>, hit: T -> bool)
    ensures forall x :: x in Without(s, hit) <==> x in s && !hit(x)
    ensures Distinct(s) ==> Distinct(Without(s, hit))
  {
    if s != [] {
      WithoutMembers(s[1..], hit);
      assert s == [s[0]] + s[1..];
    }
  }

  /** The visit that meets the only hit: the stale copy at the array's end is no hit either. */
  lemma {:induction false} VisitTheHit<T>(back: seq<T>, i: nat, hit: T -> bool, resetAtOne: bool)
    requires i < |back| && hit(back[i])
    requires forall k :: 0 <= k < |back| && k != i ==> !hit(back[k])
    ensures RangeDelete(back, |back|, i, hit, resetAtOne) == Done(back[..i] + back[i + 1..], [back[i]])
  {
    var shifted := ShiftLeft(back, |back|, i);
    forall k | i + 1 <= k < |back| ensures !hit(shifted[k]) {
      assert shifted[k] == back[if k < |back| - 1 then k + 1 else k];
    }
    NoHitsLeft(shifted, |back| - 1, i + 1, hit, resetAtOne);
    assert shifted[..|back| - 1] == back[..i] + back[i + 1..];
  }

  /** With at most one hit, the loop stays in bounds whatever the slice, takes exactly the hit out,
      and keeps the rest in order. */
  lemma {:induction false} RangeDeleteRemovesTheHit<T>(back: seq<T>, i: nat, hit: T -> bool, resetAtOne: bool)
    returns (hits: seq<T>)
    requires i <= |back| && AtMostOneHit(back, hit)
    requires forall k :: 0 <= k < i ==> !hit(back[k])
    ensures RangeDelete(back, |back|, i, hit, resetAtOne) == Done(Without(back, hit), hits)
    ensures if exists x :: x in back && hit(x) then |hits| == 1 && hits[0] in back && hit(hits[0]) else hits == []
    decreases |back| - i
  {
    if i == |back| {
      WithoutNoHits(back, hit);
      assert back[..|back|] == back;
      hits := [];
    } else if hit(back[i]) {
      VisitTheHit(back, i, hit, resetAtOne);
      WithoutOneHit(back, i, hit);
      hits := [back[i]];
    } else {
      hits := RangeDeleteRemovesTheHit(back, i + 1, hit, resetAtOne);
    }
  }

  /** With two hits the loop can go wrong in both ways: it panics on b, a, a when it takes out a,
      and on a, b, a it empties the slice although b is no hit. */
  lemma {:induction false} TwoHitsGoWrong<T>(a: T, b: T, hit: T -> bool)
    requires hit(a) && !hit(b)
    ensures RangeDelete([b, a, a], 3, 0, hit, true) == Panic
    ensures RangeDelete([a, b, a], 3, 0, hit, true) == Done([], [a, a, a])
  {
    var s := [b, a, a];
    assert RangeDelete(s, 3, 0, hit, true) == RangeDelete(s, 3, 1, hit, true);
    assert ShiftLeft(s, 3, 1) == s;
    assert RangeDelete(s, 2, 2, hit, true) == Panic;
    var t, t1, t2 := [a, b, a], [b, a, a], [b, a, a];
    assert ShiftLeft(t, 3, 0) == t1 && ShiftLeft(t1, 2, 1) == t2;
    assert RangeDelete(t2, 1, 2, hit, true) == Done([], [a]);
    assert RangeDelete(t1, 2, 1, hit, true) == Done([], [a, a]);
  }
}
