/** The wallet's transaction list, newest first, one page at a time. */
module Paging {
  datatype Tx = Tx(txid: string, value: string)

  function Reverse(s: seq<Tx>): (r: seq<Tx>)
    ensures |r| == |s|
  {
    seq(|s|, k requires 0 <= k < |s| => s[|s| - 1 - k])
  }

  /** What follows the first transaction with the given id; nothing when there is none. */
  function After(s: seq<Tx>, txid: string): seq<Tx> {
    if s == [] then [] else if s[0].txid == txid then s[1..] else After(s[1..], txid)
  }

  function FirstOf(s: seq<Tx>, n: nat): seq<Tx> {
    if |s| <= n then s else s[..n]
  }

  /** The part of a page a limit lets through. -1 means no limit. Any other limit below 1 still lets
      one transaction through when there is no offset, because the limit is tested after the append. */
  function Limited(s: seq<Tx>, offsetId: string, limit: int): seq<Tx> {
    if limit == -1 then s
    else if limit >= 1 then FirstOf(s, limit)
    else if offsetId == "" && s != [] then s[..1]
    else []
  }

  function Page(newestFirst: seq<Tx>, offsetId: string, limit: int): seq<Tx> {
    Limited(if offsetId == "" then newestFirst else After(newestFirst, offsetId), offsetId, limit)
  }

  lemma {:induction false} AfterSkips(s: seq<Tx>, k: nat, txid: string)
    requires k <= |s| && forall j :: 0 <= j < k ==> s[j].txid != txid
    ensures After(s, txid) == After(s[k..], txid)
  {
    if k > 0 {
      AfterSkips(s[1..], k - 1, txid);
      assert s[1..][k - 1..] == s[k..];
    }
  }

  /** rev[k] for k < n are behind the loop; what it has collected when no limit has stopped it. */
  ghost function Collected(rev: seq<Tx>, n: nat, offsetId: string): seq<Tx>
    requires n <= |rev|
  {
    if offsetId == "" then rev[..n] else After(rev[..n], offsetId)
  }

  ghost predicate Passed(rev: seq<Tx>, n: nat, offsetId: string)
    requires n <= |rev|
  {
    exists j :: 0 <= j < n && rev[j].txid == offsetId
  }

  lemma {:induction false} AfterGrows(s: seq<Tx>, t: Tx, txid: string)
    ensures After(s + [t], txid) ==
            if exists j :: 0 <= j < |s| && s[j].txid == txid then After(s, txid) + [t] else []
  {
    if s != [] {
      assert (s + [t])[1..] == s[1..] + [t];
      AfterGrows(s[1..], t, txid);
      if s[0].txid != txid {
        assert (exists j :: 0 <= j < |s| && s[j].txid == txid) ==> exists j :: 0 <= j < |s[1..]| && s[1..][j].txid == txid by {
          if j :| 0 <= j < |s| && s[j].txid == txid { assert s[1..][j - 1].txid == txid; }
        }
      }
    }
  }

  lemma {:induction false} CollectedGrows(rev: seq<Tx>, n: nat, offsetId: string)
    requires n < |rev|
    ensures Collected(rev, n + 1, offsetId) ==
            if offsetId == "" || Passed(rev, n, offsetId) then Collected(rev, n, offsetId) + [rev[n]] else []
    ensures !Passed(rev, n, offsetId) && offsetId != "" ==> Collected(rev, n, offsetId) == []
  {
    assert rev[..n + 1] == rev[..n] + [rev[n]];
    AfterGrows(rev[..n], rev[n], offsetId);
    assert Passed(rev, n, offsetId) <==> exists j :: 0 <= j < |rev[..n]| && rev[..n][j].txid == offsetId;
    if !Passed(rev, n, offsetId) { AfterSkips(rev[..n], n, offsetId); }
  }

  /** What comes after n is only appended to what was collected by then. */
  lemma {:induction false} CollectedIsPrefix(rev: seq<Tx>, n: nat, offsetId: string)
    requires n <= |rev| && (Collected(rev, n, offsetId) != [] || offsetId == "")
    ensures Collected(rev, n, offsetId) <= Collected(rev, |rev|, offsetId)
    decreases |rev| - n
  {
    if n < |rev| {
      CollectedGrows(rev, n, offsetId);
      CollectedIsPrefix(rev, n + 1, offsetId);
    }
  }

  /** transactions[..p] is what is older than the offset: everything when there is none. */
  ghost predicate OlderThan(transactions: seq<Tx>, offsetId: string, p: nat) {
    if offsetId == "" then p == |transactions|
    else p < |transactions| && transactions[p].txid == offsetId && forall j :: p < j < |transactions| ==> transactions[j].txid != offsetId
  }

  /** How many of p older transactions fit in a page. A limit below 1, other than -1 for none, is only
      looked at after one transaction is in, or before the offset is found. */
  function PageSize(p: nat, offsetId: string, limit: int): nat {
    if limit == -1 || (limit >= 1 && p <= limit) then p
    else if limit >= 1 then limit
    else if offsetId == "" && p > 0 then 1 else 0
  }

  /** The first p transactions, newest first. */
  ghost predicate IsReversed(s: seq<Tx>, transactions: seq<Tx>, p: nat)
    requires p <= |transactions|
  {
    |s| == p && forall i :: 0 <= i < p ==> s[i] == transactions[p - 1 - i]
  }

  lemma {:induction false} AfterIsOlder(transactions: seq<Tx>, offsetId: string, p: nat)
    requires offsetId != "" && OlderThan(transactions, offsetId, p)
    ensures IsReversed(After(Reverse(transactions), offsetId), transactions, p)
  {
    var rev, n := Reverse(transactions), |transactions| - 1 - p;
    AfterSkips(rev, n, offsetId);
    assert rev[n..][0] == transactions[p] && rev[n..][1..] == rev[n + 1..];
  }

  lemma {:induction false} LimitCuts(s: seq<Tx>, transactions: seq<Tx>, offsetId: string, limit: int, p: nat)
    requires p <= |transactions| && IsReversed(s, transactions, p)
    ensures var page := Limited(s, offsetId, limit);
            |page| == PageSize(p, offsetId, limit) && forall i :: 0 <= i < |page| ==> page[i] == transactions[p - 1 - i]
  {
  }

  /** A page is what is older than the offset, newest first, cut off at the limit. */
  lemma {:induction false} PageIsOlder(transactions: seq<Tx>, offsetId: string, limit: int, p: nat)
    requires OlderThan(transactions, offsetId, p)
    ensures |Page(Reverse(transactions), offsetId, limit)| == PageSize(p, offsetId, limit)
    ensures forall i :: 0 <= i < PageSize(p, offsetId, limit) ==> Page(Reverse(transactions), offsetId, limit)[i] == transactions[p - 1 - i]
  {
    if offsetId != "" {
      AfterIsOlder(transactions, offsetId, p);
      LimitCuts(After(Reverse(transactions), offsetId), transactions, offsetId, limit, p);
    } else {
      LimitCuts(Reverse(transactions), transactions, offsetId, limit, p);
    }
  }

  lemma {:induction false} UnknownOffset(s: seq<Tx>, offsetId: string)
    requires forall t :: t in s ==> t.txid != offsetId
    ensures After(s, offsetId) == []
  {
    AfterSkips(s, |s|, offsetId);
  }

  /** txs is newest first, everything older than the offset, up to the limit. */
  ghost predicate IsPage(transactions: seq<Tx>, offsetId: string, limit: int, txs: seq<Tx>) {
    && (forall p: nat :: OlderThan(transactions, offsetId, p) ==>
          |txs| == PageSize(p, offsetId, limit) && forall i :: 0 <= i < |txs| ==> txs[i] == transactions[p - 1 - i])
    && (offsetId != "" && (forall t :: t in transactions ==> t.txid != offsetId) ==> txs == [])
  }

  lemma {:induction false} PageIsPage(transactions: seq<Tx>, offsetId: string, limit: int)
    ensures IsPage(transactions, offsetId, limit, Page(Reverse(transactions), offsetId, limit))
  {
    forall p: nat | OlderThan(transactions, offsetId, p)
      ensures |Page(Reverse(transactions), offsetId, limit)| == PageSize(p, offsetId, limit)
      ensures forall i :: 0 <= i < PageSize(p, offsetId, limit) ==> Page(Reverse(transactions), offsetId, limit)[i] == transactions[p - 1 - i]
    {
      PageIsOlder(transactions, offsetId, limit, p);
    }
    if offsetId != "" && forall t :: t in transactions ==> t.txid != offsetId {
      UnknownOffset(Reverse(transactions), offsetId);
    }
  }

  /** Without an offset or a limit, the page is the whole list, newest first. */
  lemma {:induction false} NoLimitIsAll(transactions: seq<Tx>, txs: seq<Tx>)
    requires IsPage(transactions, "", -1, txs)
    ensures |txs| == |transactions| && forall i :: 0 <= i < |txs| ==> txs[i] == transactions[|transactions| - 1 - i]
  {
    assert OlderThan(transactions, "", |transactions|);
  }

  lemma {:induction false} OneMore(rev: seq<Tx>, n: nat, offsetId: string)
    requires n < |rev|
    ensures Collected(rev, n + 1, offsetId) ==
            if offsetId == "" || Passed(rev, n, offsetId) then Collected(rev, n, offsetId) + [rev[n]] else Collected(rev, n, offsetId)
    ensures Passed(rev, n + 1, offsetId) <==> Passed(rev, n, offsetId) || rev[n].txid == offsetId
    ensures !Passed(rev, n, offsetId) && offsetId != "" ==> Collected(rev, n, offsetId) == []
  {
    CollectedGrows(rev, n, offsetId);
  }

  /** What the loop has when it stops: it has seen everything, or the limit was reached just now. */
  ghost predicate Stopped(rev: seq<Tx>, n: nat, offsetId: string, limit: int)
    requires n <= |rev|
  {
    if n == |rev| then limit == -1 || |Collected(rev, n, offsetId)| <= limit || n <= 1
    else limit != -1 && n > 0 && |Collected(rev, n, offsetId)| >= limit && (n == 1 || |Collected(rev, n, offsetId)| == limit)
  }

  lemma {:induction false} StoppedIsPage(rev: seq<Tx>, n: nat, offsetId: string, limit: int)
    requires n <= |rev| && Stopped(rev, n, offsetId, limit)
    ensures Collected(rev, n, offsetId) == Page(rev, offsetId, limit)
  {
    assert rev[..|rev|] == rev;
    if n > 0 { OneMore(rev, 0, offsetId); }
    if Collected(rev, n, offsetId) != [] || offsetId == "" { CollectedIsPrefix(rev, n, offsetId); }
  }

  /** Newest first, everything older than the offset, up to the limit; an offset that is not there gives
      nothing. */
  method GetTransactions(transactions: seq<Tx>, offsetId: string, limit: int) returns (txs: seq<Tx>)
    ensures txs == Page(Reverse(transactions), offsetId, limit)
    ensures IsPage(transactions, offsetId, limit, txs)
    ensures offsetId == "" && limit == -1 ==>
              |txs| == |transactions| && forall i :: 0 <= i < |txs| ==> txs[i] == transactions[|transactions| - 1 - i]
  {
    ghost var rev, n := Reverse(transactions), 0;
    txs := [];
    var passedOffset := false;
    var i := |transactions| - 1;
    while i >= 0
      invariant -1 <= i < |transactions| && n == |transactions| - 1 - i
      invariant txs == Collected(rev, n, offsetId)
      invariant passedOffset <==> Passed(rev, n, offsetId)
      invariant limit == -1 || |txs| < limit || n == 0
    {
      var t := transactions[i];
      assert t == rev[n];
      OneMore(rev, n, offsetId);
      if offsetId == "" || passedOffset {
        txs := txs + [t];
      }
      if t.txid == offsetId {
        passedOffset := true;
      }
      i, n := i - 1, n + 1;
      if |txs| >= limit && limit != -1 {
        break;
      }
    }
    StoppedIsPage(rev, n, offsetId, limit);
    PageIsPage(transactions, offsetId, limit);
    if offsetId == "" && limit == -1 { NoLimitIsAll(transactions, txs); }
  }

  // ---------- asking for page after page ----------

  ghost predicate GoodIds(s: seq<Tx>) {
    (forall i :: 0 <= i < |s| ==> s[i].txid != "") &&
    (forall i, j :: 0 <= i < j < |s| ==> s[i].txid != s[j].txid)
  }

  /** The wallet's list at each request: transactions are only ever appended. */
  ghost predicate OnlyGrows(first: seq<Tx>, lists: seq<seq<Tx>>) {
    forall i :: 0 <= i < |lists| ==> first <= lists[i] && GoodIds(lists[i])
  }

  /** The concatenated pages of a caller that passes each page's last id on as the next offset. */
  function Collect(lists: seq<seq<Tx>>, offsetId: string, limit: int): seq<Tx> {
    if lists == [] then []
    else
      var page := Page(Reverse(lists[0]), offsetId, limit);
      if page == [] then [] else page + Collect(lists[1..], page[|page| - 1].txid, limit)
  }

  /** Transactions appended since then only lengthen what precedes an old one. */
  lemma {:induction false} AfterInGrownList(first: seq<Tx>, list: seq<Tx>, k: nat)
    requires first <= list && GoodIds(list) && 0 < k <= |first|
    ensures After(Reverse(list), Reverse(first)[k - 1].txid) == Reverse(first)[k..]
  {
    var all, n := Reverse(list), |list| - |first| + k - 1;
    assert all[n] == Reverse(first)[k - 1];
    AfterSkips(all, n, all[n].txid);
    assert all[n..][0] == all[n] && all[n..][1..] == all[n + 1..];
    assert all[n + 1..] == Reverse(first)[k..];
  }

  lemma {:induction false} FirstOfSplit(s: seq<Tx>, m: nat, n: nat)
    ensures FirstOf(s, m + n) == FirstOf(s, m) + FirstOf(s[|FirstOf(s, m)|..], n)
  {
  }

  lemma {:induction false} NextPage(first: seq<Tx>, list: seq<Tx>, k: nat, limit: nat)
    requires first <= list && GoodIds(list) && 0 < k <= |first| && limit >= 1
    ensures Page(Reverse(list), Reverse(first)[k - 1].txid, limit) == FirstOf(Reverse(first)[k..], limit)
  {
    AfterInGrownList(first, list, k);
    assert Reverse(first)[k - 1] == list[|first| - k];
  }

  lemma {:induction false} TimesMore(limit: nat, n: nat)
    ensures limit * (n + 1) == limit + limit * n
  {
  }

  /** n pages cut off one after the other. */
  ghost function Pages(s: seq<Tx>, limit: nat, n: nat): seq<Tx> {
    if n == 0 then [] else FirstOf(s, limit) + Pages(s[|FirstOf(s, limit)|..], limit, n - 1)
  }

  lemma {:induction false} PagesAreFirst(s: seq<Tx>, limit: nat, n: nat)
    ensures Pages(s, limit, n) == FirstOf(s, limit * n)
  {
    if n > 0 {
      PagesAreFirst(s[|FirstOf(s, limit)|..], limit, n - 1);
      TimesMore(limit, n - 1);
      FirstOfSplit(s, limit, limit * (n - 1));
    }
  }

  lemma {:induction false} NoMorePages(s: seq<Tx>, limit: nat, n: nat)
    requires FirstOf(s, limit) == []
    ensures Pages(s, limit, n) == []
  {
    if n > 0 {
      assert s[|FirstOf(s, limit)|..] == s;
      NoMorePages(s, limit, n - 1);
    }
  }

  /** Each of the lists, asked for what follows one of rev's transactions, answers out of rev. */
  ghost predicate AllAnswer(rev: seq<Tx>, lists: seq<seq<Tx>>, limit: nat) {
    lists == [] || (AnswersFrom(rev, Reverse(lists[0]), limit) && AllAnswer(rev, lists[1..], limit))
  }

  ghost predicate AnswersFrom(rev: seq<Tx>, newestFirst: seq<Tx>, limit: nat) {
    forall k :: 0 < k <= |rev| ==> Page(newestFirst, rev[k - 1].txid, limit) == FirstOf(rev[k..], limit)
  }

  lemma {:induction false} GrownListsAnswer(first: seq<Tx>, lists: seq<seq<Tx>>, limit: nat)
    requires OnlyGrows(first, lists) && limit >= 1
    ensures AllAnswer(Reverse(first), lists, limit)
  {
    if lists != [] {
      forall k | 0 < k <= |first| ensures Page(Reverse(lists[0]), Reverse(first)[k - 1].txid, limit) == FirstOf(Reverse(first)[k..], limit) {
        NextPage(first, lists[0], k, limit);
      }
      GrownListsAnswer(first, lists[1..], limit);
    }
  }

  lemma {:induction false} CollectFrom(rev: seq<Tx>, lists: seq<seq<Tx>>, k: nat, limit: nat)
    requires AllAnswer(rev, lists, limit) && 0 < k <= |rev|
    ensures Collect(lists, rev[k - 1].txid, limit) == Pages(rev[k..], limit, |lists|)
  {
    if lists != [] {
      var page := FirstOf(rev[k..], limit);
      assert Page(Reverse(lists[0]), rev[k - 1].txid, limit) == page;
      if page != [] {
        var next := k + |page|;
        assert rev[k..][|page|..] == rev[next..] && page[|page| - 1] == rev[next - 1];
        CollectFrom(rev, lists[1..], next, limit);
      } else {
        NoMorePages(rev[k..], limit, |lists|);
      }
    }
  }

  lemma {:induction false} LimitGrows(limit: nat, n: nat)
    requires limit >= 1
    ensures limit * n >= n
  {
    if n > 0 { LimitGrows(limit, n - 1); }
  }

  /** Paging is lossless: the pages of n requests are together the newest limit * n transactions of
      the list the first request saw, in order, without loss or repeat, whatever is appended to the
      wallet in between; with |first| requests that is the whole list. */
  lemma {:induction false} PagesAreLossless(first: seq<Tx>, later: seq<seq<Tx>>, limit: nat)
    requires OnlyGrows(first, [first] + later) && limit >= 1
    ensures Collect([first] + later, "", limit) == FirstOf(Reverse(first), limit * (|later| + 1))
    ensures |later| + 1 >= |first| ==> Collect([first] + later, "", limit) == Reverse(first)
  {
    var n := |later| + 1;
    CollectAll(first, later, limit);
    PagesAreFirst(Reverse(first), limit, n);
    LimitGrows(limit, n);
  }

  lemma {:induction false} LaterGrow(first: seq<Tx>, later: seq<seq<Tx>>)
    requires OnlyGrows(first, [first] + later)
    ensures OnlyGrows(first, later)
  {
    assert forall i :: 0 <= i < |later| ==> later[i] == ([first] + later)[i + 1];
  }

  lemma {:induction false} CollectAll(first: seq<Tx>, later: seq<seq<Tx>>, limit: nat)
    requires OnlyGrows(first, [first] + later) && limit >= 1
    ensures Collect([first] + later, "", limit) == Pages(Reverse(first), limit, |later| + 1)
  {
    var rev := Reverse(first);
    var page := FirstOf(rev, limit);
    FirstPage(first, later, limit);
    if page != [] {
      LaterGrow(first, later);
      GrownListsAnswer(first, later, limit);
      CollectFrom(rev, later, |page|, limit);
    } else {
      NoMorePages(rev, limit, |later| + 1);
    }
  }

  lemma {:induction false} FirstPage(first: seq<Tx>, later: seq<seq<Tx>>, limit: nat)
    requires limit >= 1
    ensures var page := FirstOf(Reverse(first), limit);
            Collect([first] + later, "", limit) ==
              if page == [] then [] else page + Collect(later, page[|page| - 1].txid, limit)
  {
    assert ([first] + later)[1..] == later && ([first] + later)[0] == first;
  }
}
