/** FetchGraph: a worklist walk of a directory object's links, with no visited set. The worklist is
    a Go map that is changed while it is ranged over, so the next key is taken to be any key. */
module GraphWalk {
  import opened Wrappers

  type Cid = string

  /** The local block store: the links of every block it holds. Reading a missing block fails. */
  type Store = map<Cid, seq<Cid>>

  ghost predicate IsPath(g: Store, p: seq<Cid>) {
    |p| > 0 && forall i :: 0 <= i < |p| - 1 ==> p[i] in g && p[i + 1] in g[p[i]]
  }

  ghost predicate PathFrom(g: Store, p: seq<Cid>, u: Cid, v: Cid) {
    IsPath(g, p) && p[0] == u && p[|p| - 1] == v
  }

  ghost predicate Reaches(g: Store, u: Cid, v: Cid) {
    exists p :: PathFrom(g, p, u, v)
  }

  ghost predicate OnCycle(g: Store, u: Cid) {
    exists p :: PathFrom(g, p, u, u) && |p| >= 2
  }

  /** No cycle can be reached from u. */
  ghost predicate AcyclicFrom(g: Store, u: Cid) {
    forall v :: Reaches(g, u, v) ==> !OnCycle(g, v)
  }

  // ---------- paths ----------

  lemma {:induction false} ReachesSelf(g: Store, u: Cid)
    ensures Reaches(g, u, u)
  {
    assert PathFrom(g, [u], u, u);
  }

  lemma {:induction false} ReachesTrans(g: Store, u: Cid, v: Cid, w: Cid)
    requires Reaches(g, u, v) && Reaches(g, v, w)
    ensures Reaches(g, u, w)
  {
    var p :| PathFrom(g, p, u, v);
    var q :| PathFrom(g, q, v, w);
    assert PathFrom(g, p + q[1..], u, w);
  }

  lemma {:induction false} ReachesLink(g: Store, u: Cid, v: Cid)
    requires u in g && v in g[u]
    ensures Reaches(g, u, v)
  {
    assert PathFrom(g, [u, v], u, v);
  }

  lemma {:induction false} LinkAndBackIsCycle(g: Store, u: Cid, v: Cid)
    requires u in g && v in g[u] && Reaches(g, v, u)
    ensures OnCycle(g, u)
  {
    var q :| PathFrom(g, q, v, u);
    assert PathFrom(g, [u] + q, u, u);
  }

  lemma {:induction false} AcyclicDown(g: Store, u: Cid, v: Cid)
    requires AcyclicFrom(g, u) && Reaches(g, u, v)
    ensures AcyclicFrom(g, v)
  {
    forall w | Reaches(g, v, w) ensures !OnCycle(g, w) { ReachesTrans(g, u, v, w); }
  }

  /** A set that holds u and every link of its members holds everything u reaches. */
  lemma {:induction false} ClosedHoldsReachable(g: Store, closed: set<Cid>, p: seq<Cid>)
    requires IsPath(g, p) && p[0] in closed
    requires forall x, y :: x in closed && x in g && y in g[x] ==> y in closed
    ensures p[|p| - 1] in closed
  {
    if |p| > 1 {
      assert IsPath(g, p[1..]);
      ClosedHoldsReachable(g, closed, p[1..]);
    }
  }

  // ---------- the measure ----------

  /** The stored blocks u reaches. */
  ghost function Below(g: Store, u: Cid): set<Cid> {
    set v | v in g.Keys && Reaches(g, u, v)
  }

  lemma {:induction false} BelowShrinks(g: Store, u: Cid, v: Cid)
    requires AcyclicFrom(g, u) && u in g && v in g[u]
    ensures AcyclicFrom(g, v) && |Below(g, v)| < |Below(g, u)|
  {
    ReachesLink(g, u, v);
    AcyclicDown(g, u, v);
    ReachesSelf(g, u);
    forall w | w in Below(g, v) ensures w in Below(g, u) - {u} {
      ReachesTrans(g, u, v, w);
      if w == u { LinkAndBackIsCycle(g, u, v); }
    }
    SubsetSize(Below(g, v), Below(g, u) - {u});
  }

  lemma {:induction false} SubsetSize(a: set<Cid>, b: set<Cid>)
    requires a <= b
    ensures |a| <= |b|
  {
    if a != {} {
      var x :| x in a;
      SubsetSize(a - {x}, b - {x});
    }
  }

  /** How often a block can be visited when it is queued once: itself, and each of its links. It is
      the number of downward paths that start at u. */
  ghost function Weight(g: Store, u: Cid): nat
    requires AcyclicFrom(g, u)
    decreases |Below(g, u)|, 1, 0
  {
    1 + if u in g then LinksWeight(g, u, |g[u]|) else 0
  }

  ghost function LinksWeight(g: Store, u: Cid, n: nat): nat
    requires AcyclicFrom(g, u) && u in g && n <= |g[u]|
    decreases |Below(g, u)|, 0, n
  {
    if n == 0 then 0
    else
      BelowShrinks(g, u, g[u][n - 1]);
      LinksWeight(g, u, n - 1) + Weight(g, g[u][n - 1])
  }

  ghost predicate AllAcyclic(g: Store, m: set<Cid>) {
    forall u :: u in m ==> AcyclicFrom(g, u)
  }

  ghost function Total(g: Store, m: set<Cid>): nat
    requires AllAcyclic(g, m)
  {
    if m == {} then 0
    else
      var u :| u in m;
      Weight(g, u) + Total(g, m - {u})
  }

  lemma {:induction false} TotalRemove(g: Store, m: set<Cid>, u: Cid)
    requires AllAcyclic(g, m) && u in m
    ensures Total(g, m) == Weight(g, u) + Total(g, m - {u})
  {
    var v :| v in m && Total(g, m) == Weight(g, v) + Total(g, m - {v});
    if u != v {
      TotalRemove(g, m - {v}, u);
      TotalRemove(g, m - {u}, v);
      assert m - {v} - {u} == m - {u} - {v};
    }
  }

  /** Queueing a block costs at most its weight: a block already queued is merged. */
  lemma {:induction false} TotalAdd(g: Store, m: set<Cid>, u: Cid)
    requires AllAcyclic(g, m) && AcyclicFrom(g, u)
    ensures AllAcyclic(g, m + {u})
    ensures Total(g, m + {u}) <= Total(g, m) + Weight(g, u)
  {
    if u in m {
      assert m + {u} == m;
    } else {
      TotalRemove(g, m + {u}, u);
      assert m + {u} - {u} == m;
    }
  }

  lemma {:induction false} TotalAddLinks(g: Store, m: set<Cid>, u: Cid, n: nat) returns (after: set<Cid>)
    requires u in g && n <= |g[u]| && AcyclicFrom(g, u) && AllAcyclic(g, m)
    ensures after == m + Elements(g[u][..n])
    ensures AllAcyclic(g, after) && Total(g, after) <= Total(g, m) + LinksWeight(g, u, n)
  {
    if n == 0 {
      after := m;
    } else {
      var before := TotalAddLinks(g, m, u, n - 1);
      BelowShrinks(g, u, g[u][n - 1]);
      TotalAdd(g, before, g[u][n - 1]);
      after := before + {g[u][n - 1]};
      ElementsSnoc(g[u], n);
    }
  }

  lemma {:induction false} ElementsSnoc(s: seq<Cid>, n: nat)
    requires 0 < n <= |s|
    ensures Elements(s[..n]) == Elements(s[..n - 1]) + {s[n - 1]}
  {
    assert s[..n] == s[..n - 1] + [s[n - 1]];
  }

  function Elements(s: seq<Cid>): set<Cid> {
    set x | x in s
  }

  // ---------- the walk, one key at a time ----------

  datatype Walk = Walk(m: set<Cid>, ret: seq<Cid>)

  /** One body of the range loop on a stored block: report k, drop it, queue its links. */
  function Visit(g: Store, w: Walk, k: Cid): Walk
    requires k in w.m && k in g
  {
    Walk(w.m - {k} + Elements(g[k]), w.ret + [k])
  }

  /** The walk after a sequence of chosen keys, when every choice was possible. */
  ghost function Run(g: Store, root: Cid, picks: seq<Cid>): Option<Walk> {
    if picks == [] then Some(Walk({root}, []))
    else
      var w, k := Run(g, root, picks[..|picks| - 1]), picks[|picks| - 1];
      if w.Some? && k in w.value.m && k in g then Some(Visit(g, w.value, k)) else None
  }

  ghost predicate Possible(g: Store, root: Cid, picks: seq<Cid>) {
    Run(g, root, picks).Some?
  }

  ghost predicate BoundedBy(g: Store, root: Cid, n: nat) {
    forall picks :: Possible(g, root, picks) ==> |picks| <= n
  }

  lemma {:induction false} VisitPays(g: Store, w: Walk, k: Cid)
    requires AllAcyclic(g, w.m) && k in w.m && k in g
    ensures AllAcyclic(g, Visit(g, w, k).m)
    ensures Total(g, Visit(g, w, k).m) < Total(g, w.m)
  {
    TotalRemove(g, w.m, k);
    assert g[k][..|g[k]|] == g[k];
    var after := TotalAddLinks(g, w.m - {k}, k, |g[k]|);
  }

  lemma {:induction false} RunPays(g: Store, root: Cid, picks: seq<Cid>)
    requires AcyclicFrom(g, root) && Possible(g, root, picks)
    ensures AllAcyclic(g, Run(g, root, picks).value.m)
    ensures |picks| + Total(g, Run(g, root, picks).value.m) <= Weight(g, root)
  {
    ReachesSelf(g, root);
    if picks == [] {
      TotalRemove(g, {root}, root);
      assert {root} - {root} == {};
    } else {
      RunPays(g, root, picks[..|picks| - 1]);
      VisitPays(g, Run(g, root, picks[..|picks| - 1]).value, picks[|picks| - 1]);
    }
  }

  /** While a cycle is reachable the worklist holds a key from which the cycle can still be walked. */
  ghost predicate Live(g: Store, u: Cid, k: Cid) {
    OnCycle(g, u) && Reaches(g, k, u)
  }

  lemma {:induction false} LiveHasLiveLink(g: Store, u: Cid, k: Cid) returns (next: Cid)
    requires Live(g, u, k)
    ensures k in g && next in g[k] && Live(g, u, next)
  {
    var p :| PathFrom(g, p, k, u);
    var c :| PathFrom(g, c, u, u) && |c| >= 2;
    var q := p + c[1..];
    assert PathFrom(g, q, k, u);
    next := q[1];
    assert PathFrom(g, q[1..], next, u);
  }

  lemma {:induction false} CycleGivesLongRuns(g: Store, root: Cid, u: Cid, n: nat) returns (picks: seq<Cid>, k: Cid)
    requires Live(g, u, root)
    ensures Possible(g, root, picks) && |picks| == n
    ensures k in Run(g, root, picks).value.m && Live(g, u, k)
  {
    if n == 0 {
      picks, k := [], root;
    } else {
      var front, j := CycleGivesLongRuns(g, root, u, n - 1);
      k := LiveHasLiveLink(g, u, j);
      picks := front + [j];
      assert picks[..|picks| - 1] == front;
    }
  }

  /** The walk's length is bounded, over every order of keys, exactly when no cycle is reachable. */
  lemma {:induction false} BoundedIffAcyclic(g: Store, root: Cid)
    ensures (exists n: nat :: BoundedBy(g, root, n)) <==> AcyclicFrom(g, root)
  {
    if AcyclicFrom(g, root) {
      forall picks | Possible(g, root, picks) ensures |picks| <= Weight(g, root) {
        RunPays(g, root, picks);
      }
      assert BoundedBy(g, root, Weight(g, root));
    } else {
      var u :| Reaches(g, root, u) && OnCycle(g, u);
      forall n: nat ensures !BoundedBy(g, root, n) {
        var picks, k := CycleGivesLongRuns(g, root, u, n + 1);
      }
    }
  }

  /** With a reachable cycle no order of keys ever empties the worklist. */
  lemma {:induction false} CycleNeverEmpties(g: Store, root: Cid, u: Cid, picks: seq<Cid>)
    requires Live(g, u, root) && Possible(g, root, picks)
    ensures exists k :: k in Run(g, root, picks).value.m && Live(g, u, k)
  {
    if picks == [] {
      assert root in Run(g, root, picks).value.m;
    } else {
      var front, j := picks[..|picks| - 1], picks[|picks| - 1];
      CycleNeverEmpties(g, root, u, front);
      var k :| k in Run(g, root, front).value.m && Live(g, u, k);
      if k == j {
        var next := LiveHasLiveLink(g, u, k);
        assert next in Run(g, root, picks).value.m;
      } else {
        assert k in Run(g, root, picks).value.m;
      }
    }
  }

  // ---------- the method ----------

  /** On success the CIDs returned are exactly those reachable from the root; the walk fails exactly
      when a reachable block is missing, and then the missing one was reported last. */
  method FetchGraph(g: Store, root: Cid) returns (ret: seq<Cid>, failed: bool)
    requires AcyclicFrom(g, root)
    ensures failed <==> exists u :: Reaches(g, root, u) && u !in g
    ensures !failed ==> forall u :: u in ret <==> Reaches(g, root, u)
    ensures failed ==> |ret| > 0 && ret[|ret| - 1] !in g && forall u :: u in ret ==> Reaches(g, root, u)
    ensures |ret| <= Weight(g, root)
  {
    ret := [];
    var m := {root};
    ReachesSelf(g, root);
    RunPays(g, root, []);
    while m != {}
      invariant AllAcyclic(g, m)
      invariant |ret| + Total(g, m) <= Weight(g, root)
      invariant forall u :: u in m || u in ret ==> Reaches(g, root, u)
      invariant root in m || root in ret
      invariant forall u :: u in ret ==> u in g && forall v :: v in g[u] ==> v in m || v in ret
      decreases Total(g, m)
    {
      var k :| k in m;
      ret := ret + [k];
      TotalRemove(g, m, k);
      if k !in g {
        return ret, true;
      }
      VisitPays(g, Walk(m, ret), k);
      forall v | v in g[k] ensures Reaches(g, root, v) {
        ReachesLink(g, k, v);
        ReachesTrans(g, root, k, v);
      }
      m := m - {k} + Elements(g[k]);
    }
    forall u | Reaches(g, root, u) ensures u in ret {
      var p :| PathFrom(g, p, root, u);
      ClosedHoldsReachable(g, Elements(ret), p);
    }
    failed := false;
  }
}
