/** Ratings are counted and averaged in three places: the ratings index, the listing index and the
    profile; a fourth figure is computed from the first on request. float32 is taken as real. */
module Ratings {
  import opened Wrappers

  type Slug = string

  const RATING_MIN := 1
  const RATING_MAX := 5

  /** A rating as it is saved; valid says whether its signatures check out. */
  datatype Rating = Rating(slug: Slug, hash: string, valid: bool, overall: int, quality: int, description: int,
                           deliverySpeed: int, customerService: int)
  datatype SavedRating = SavedRating(slug: Slug, count: nat, average: real, ratings: seq<string>)
  datatype ListingEntry = ListingEntry(slug: Slug, averageRating: real, ratingCount: nat)
  datatype Stats = Stats(ratingCount: nat, averageRating: real)

  /** A profile file may be missing, and a profile may have no statistics yet. */
  datatype Profile = NoProfile | Profile(stats: Option<Stats>)

  datatype Views = Views(index: seq<SavedRating>, listings: seq<ListingEntry>, profile: Profile)

  /** A running mean takes in one more score. */
  function Averaged(average: real, count: nat, overall: int): real {
    (average * count as real + overall as real) / (count + 1) as real
  }

  // ---------- the true figures ----------

  /** The scores given to one listing, or to all of them. */
  function ScoresOf(accepted: seq<Rating>, slug: Option<Slug>): seq<int> {
    if accepted == [] then []
    else
      var last := accepted[|accepted| - 1];
      ScoresOf(accepted[..|accepted| - 1], slug) + if slug.None? || last.slug == slug.value then [last.overall] else []
  }

  function HashesOf(accepted: seq<Rating>, slug: Slug): seq<string> {
    if accepted == [] then []
    else
      var last := accepted[|accepted| - 1];
      HashesOf(accepted[..|accepted| - 1], slug) + if last.slug == slug then [last.hash] else []
  }

  function Sum(s: seq<int>): int {
    if s == [] then 0 else Sum(s[..|s| - 1]) + s[|s| - 1]
  }

  function Mean(s: seq<int>): real {
    if s == [] then 0.0 else Sum(s) as real / |s| as real
  }

  ghost predicate TrueFigures(count: nat, average: real, scores: seq<int>) {
    count == |scores| && average == Mean(scores)
  }

  lemma {:induction false} TimesOver(x: real, n: real)
    requires n != 0.0
    ensures x / n * n == x
  {
  }

  lemma {:induction false} MeanTimesCount(s: seq<int>)
    ensures Mean(s) * |s| as real == Sum(s) as real
  {
    if s != [] { TimesOver(Sum(s) as real, |s| as real); }
  }

  /** Taking a score into a true mean gives the true mean of one score more. */
  lemma {:induction false} AveragedIsMean(count: nat, average: real, scores: seq<int>, overall: int)
    requires TrueFigures(count, average, scores)
    ensures TrueFigures(count + 1, Averaged(average, count, overall), scores + [overall])
  {
    MeanTimesCount(scores);
    assert (scores + [overall])[..|scores|] == scores;
  }

  ghost predicate InRange(scores: seq<int>) {
    forall i :: 0 <= i < |scores| ==> RATING_MIN <= scores[i] <= RATING_MAX
  }

  lemma {:induction false} SumInRange(scores: seq<int>)
    requires InRange(scores)
    ensures |scores| <= Sum(scores) <= 5 * |scores|
  {
    if scores != [] { SumInRange(scores[..|scores| - 1]); }
  }

  /** The mean of scores between 1 and 5 lies between 1 and 5. */
  lemma {:induction false} MeanInRange(scores: seq<int>)
    requires scores != [] && InRange(scores)
    ensures RATING_MIN as real <= Mean(scores) <= RATING_MAX as real
  {
    SumInRange(scores);
    DivBounds(Sum(scores) as real, |scores| as real);
  }

  lemma {:induction false} DivBounds(x: real, n: real)
    requires n > 0.0 && n <= x <= 5.0 * n
    ensures 1.0 <= x / n <= 5.0
  {
    var q := x / n;
    TimesOver(x, n);
    if q < 1.0 { LessTimes(q, 1.0, n); }
    if q > 5.0 { LessTimes(5.0, q, n); }
  }

  lemma {:induction false} LessTimes(x: real, y: real, n: real)
    requires x < y && n > 0.0
    ensures x * n < y * n
  {
  }

  // ---------- what one accepted rating does to each view ----------

  function Added(e: SavedRating, r: Rating): SavedRating {
    SavedRating(e.slug, e.count + 1, Averaged(e.average, e.count, r.overall), e.ratings + [r.hash])
  }

  /** updateRatingIndex: the first entry with the slug, or a new one at the end. */
  function IndexAfter(index: seq<SavedRating>, r: Rating): seq<SavedRating> {
    if index == [] then [SavedRating(r.slug, 1, r.overall as real, [r.hash])]
    else if index[0].slug == r.slug then [Added(index[0], r)] + index[1..]
    else [index[0]] + IndexAfter(index[1..], r)
  }

  predicate Listed(listings: seq<ListingEntry>, slug: Slug) {
    exists l :: l in listings && l.slug == slug
  }

  function Rated(l: ListingEntry, overall: int): ListingEntry {
    ListingEntry(l.slug, Averaged(l.averageRating, l.ratingCount, overall), l.ratingCount + 1)
  }

  /** updateRatingInListingIndex: the first entry with the slug moves to the end, updated. */
  function ListingsAfter(listings: seq<ListingEntry>, r: Rating): seq<ListingEntry>
    requires Listed(listings, r.slug)
  {
    if listings[0].slug == r.slug then listings[1..] + [Rated(listings[0], r.overall)]
    else
      assert Listed(listings[1..], r.slug) by {
        var l :| l in listings && l.slug == r.slug;
        assert l in listings[1..];
      }
      [listings[0]] + ListingsAfter(listings[1..], r)
  }

  function TotalCount(index: seq<SavedRating>): nat {
    if index == [] then 0 else TotalCount(index[..|index| - 1]) + index[|index| - 1].count
  }

  function TotalScore(index: seq<SavedRating>): real {
    if index == [] then 0.0
    else TotalScore(index[..|index| - 1]) + index[|index| - 1].count as real * index[|index| - 1].average
  }

  /** GetRatingCounts, and the figures GETRatings reports for all listings together. */
  function Aggregate(index: seq<SavedRating>): Stats
    requires index != [] ==> TotalCount(index) > 0
  {
    if index == [] then Stats(0, 0.0)
    else Stats(TotalCount(index), TotalScore(index) / TotalCount(index) as real)
  }

  /** The incremental part of updateProfileRatings. */
  function Incremented(s: Stats, overall: int): Stats {
    Stats(s.ratingCount + 1, Averaged(s.averageRating, s.ratingCount, overall))
  }

  /** One accepted rating; it stops short when its listing is not in the listing index. */
  function Accept(v: Views, r: Rating): Views
    requires TotalCount(IndexAfter(v.index, r)) > 0
  {
    var index := IndexAfter(v.index, r);
    if !Listed(v.listings, r.slug) then v.(index := index)
    else
      Views(index, ListingsAfter(v.listings, r),
            if v.profile.NoProfile? then NoProfile else Profile(Some(Aggregate(index))))
  }

  // ---------- all views agree ----------

  ghost predicate EntryTrue(e: SavedRating, accepted: seq<Rating>) {
    && e.count > 0 && e.ratings == HashesOf(accepted, e.slug)
    && TrueFigures(e.count, e.average, ScoresOf(accepted, Some(e.slug)))
  }

  ghost predicate Covers(index: seq<SavedRating>, accepted: seq<Rating>) {
    forall r :: r in accepted ==> exists i :: 0 <= i < |index| && index[i].slug == r.slug
  }

  ghost predicate IndexTrue(index: seq<SavedRating>, accepted: seq<Rating>) {
    && (forall i, j :: 0 <= i < |index| && 0 <= j < |index| && i != j ==> index[i].slug != index[j].slug)
    && (forall i :: 0 <= i < |index| ==> EntryTrue(index[i], accepted))
    && Covers(index, accepted)
    && TotalCount(index) == |ScoresOf(accepted, None)|
    && TotalScore(index) == Sum(ScoresOf(accepted, None)) as real
  }

  ghost predicate ListingTrue(l: ListingEntry, accepted: seq<Rating>) {
    TrueFigures(l.ratingCount, l.averageRating, ScoresOf(accepted, Some(l.slug)))
  }

  ghost predicate UniqueListings(listings: seq<ListingEntry>) {
    forall i, j :: 0 <= i < |listings| && 0 <= j < |listings| && i != j ==> listings[i].slug != listings[j].slug
  }

  ghost predicate ListingsTrue(listings: seq<ListingEntry>, accepted: seq<Rating>) {
    UniqueListings(listings) && forall l :: l in listings ==> ListingTrue(l, accepted)
  }

  ghost predicate ProfileTrue(profile: Profile, accepted: seq<Rating>) {
    profile.Profile? && profile.stats.Some? ==>
      TrueFigures(profile.stats.value.ratingCount, profile.stats.value.averageRating, ScoresOf(accepted, None))
  }

  ghost predicate InSync(v: Views, accepted: seq<Rating>) {
    IndexTrue(v.index, accepted) && ListingsTrue(v.listings, accepted) && ProfileTrue(v.profile, accepted)
  }

  // ---------- one accepted rating keeps the views in sync ----------

  /** Where IndexAfter puts the rating; |index| when it adds an entry. */
  lemma {:induction false} IndexAfterAt(index: seq<SavedRating>, r: Rating) returns (k: nat)
    ensures k <= |index| && forall i :: 0 <= i < k ==> index[i].slug != r.slug
    ensures k < |index| ==> index[k].slug == r.slug && IndexAfter(index, r) == index[k := Added(index[k], r)]
    ensures k == |index| ==> IndexAfter(index, r) == index + [SavedRating(r.slug, 1, r.overall as real, [r.hash])]
  {
    if index == [] || index[0].slug == r.slug {
      k := 0;
    } else {
      k := IndexAfterAt(index[1..], r);
      k := k + 1;
    }
  }

  lemma {:induction false} TotalsUpdate(index: seq<SavedRating>, k: nat, e: SavedRating)
    requires k < |index|
    ensures TotalCount(index[k := e]) == TotalCount(index) - index[k].count + e.count
    ensures TotalScore(index[k := e]) ==
            TotalScore(index) - index[k].count as real * index[k].average + e.count as real * e.average
  {
    var n := |index| - 1;
    if k == n {
      assert index[k := e][..n] == index[..n];
    } else {
      TotalsUpdate(index[..n], k, e);
      assert index[k := e][..n] == index[..n][k := e];
    }
  }

  lemma {:induction false} AddedScore(e: SavedRating, r: Rating)
    ensures Added(e, r).count as real * Added(e, r).average == e.count as real * e.average + r.overall as real
  {
    TimesOver(e.average * e.count as real + r.overall as real, (e.count + 1) as real);
  }

  lemma {:induction false} IndexTotals(index: seq<SavedRating>, r: Rating)
    ensures TotalCount(IndexAfter(index, r)) == TotalCount(index) + 1
    ensures TotalScore(IndexAfter(index, r)) == TotalScore(index) + r.overall as real
  {
    var k := IndexAfterAt(index, r);
    if k < |index| {
      TotalsUpdate(index, k, Added(index[k], r));
      AddedScore(index[k], r);
    } else {
      assert IndexAfter(index, r)[..|index|] == index;
    }
  }

  lemma {:induction false} ScoresGrow(accepted: seq<Rating>, r: Rating, slug: Option<Slug>)
    ensures ScoresOf(accepted + [r], slug) ==
            ScoresOf(accepted, slug) + if slug.None? || r.slug == slug.value then [r.overall] else []
    ensures slug.Some? ==>
              HashesOf(accepted + [r], slug.value) ==
              HashesOf(accepted, slug.value) + if r.slug == slug.value then [r.hash] else []
  {
    assert (accepted + [r])[..|accepted|] == accepted;
  }

  lemma {:induction false} NoScores(accepted: seq<Rating>, slug: Slug)
    requires forall r :: r in accepted ==> r.slug != slug
    ensures ScoresOf(accepted, Some(slug)) == [] && HashesOf(accepted, slug) == []
  {
    if accepted != [] { NoScores(accepted[..|accepted| - 1], slug); }
  }

  lemma {:induction false} SumGrows(s: seq<int>, x: int)
    ensures Sum(s + [x]) == Sum(s) + x
  {
    assert (s + [x])[..|s|] == s;
  }

  lemma {:induction false} AddedTrue(e: SavedRating, accepted: seq<Rating>, r: Rating)
    requires EntryTrue(e, accepted) && e.slug == r.slug
    ensures EntryTrue(Added(e, r), accepted + [r])
  {
    ScoresGrow(accepted, r, Some(r.slug));
    AveragedIsMean(e.count, e.average, ScoresOf(accepted, Some(r.slug)), r.overall);
  }

  lemma {:induction false} NewEntryTrue(accepted: seq<Rating>, r: Rating)
    requires forall q :: q in accepted ==> q.slug != r.slug
    ensures EntryTrue(SavedRating(r.slug, 1, r.overall as real, [r.hash]), accepted + [r])
  {
    ScoresGrow(accepted, r, Some(r.slug));
    NoScores(accepted, r.slug);
    AveragedIsMean(0, 0.0, [], r.overall);
  }

  lemma {:induction false} RatedTrue(l: ListingEntry, accepted: seq<Rating>, r: Rating)
    requires ListingTrue(l, accepted) && l.slug == r.slug
    ensures ListingTrue(Rated(l, r.overall), accepted + [r])
  {
    ScoresGrow(accepted, r, Some(r.slug));
    AveragedIsMean(l.ratingCount, l.averageRating, ScoresOf(accepted, Some(r.slug)), r.overall);
  }

  lemma {:induction false} OthersStayTrue(accepted: seq<Rating>, r: Rating)
    ensures forall e: SavedRating :: EntryTrue(e, accepted) && e.slug != r.slug ==> EntryTrue(e, accepted + [r])
    ensures forall l: ListingEntry :: ListingTrue(l, accepted) && l.slug != r.slug ==> ListingTrue(l, accepted + [r])
  {
    forall slug: Slug | slug != r.slug
      ensures ScoresOf(accepted + [r], Some(slug)) == ScoresOf(accepted, Some(slug))
      ensures HashesOf(accepted + [r], slug) == HashesOf(accepted, slug)
    {
      ScoresGrow(accepted, r, Some(slug));
    }
  }

  lemma {:induction false} CoversMore(index: seq<SavedRating>, accepted: seq<Rating>, r: Rating)
    requires Covers(index, accepted)
    ensures Covers(IndexAfter(index, r), accepted + [r])
  {
    var after := IndexAfter(index, r);
    var k := IndexAfterAt(index, r);
    forall q | q in accepted + [r] ensures exists i :: 0 <= i < |after| && after[i].slug == q.slug {
      if q.slug == r.slug {
        assert after[k].slug == q.slug;
      } else {
        var i :| 0 <= i < |index| && index[i].slug == q.slug;
        assert after[i].slug == q.slug;
      }
    }
  }

  lemma {:induction false} IndexStaysTrue(index: seq<SavedRating>, accepted: seq<Rating>, r: Rating)
    requires IndexTrue(index, accepted)
    ensures IndexTrue(IndexAfter(index, r), accepted + [r])
  {
    var k := IndexAfterAt(index, r);
    OthersStayTrue(accepted, r);
    if k < |index| {
      AddedTrue(index[k], accepted, r);
    } else {
      NewEntryTrue(accepted, r);
    }
    CoversMore(index, accepted, r);
    IndexTotals(index, r);
    ScoresGrow(accepted, r, None);
    SumGrows(ScoresOf(accepted, None), r.overall);
  }

  lemma {:induction false} ListingsAfterAt(listings: seq<ListingEntry>, r: Rating) returns (k: nat)
    requires Listed(listings, r.slug)
    ensures k < |listings| && listings[k].slug == r.slug && forall i :: 0 <= i < k ==> listings[i].slug != r.slug
    ensures ListingsAfter(listings, r) == listings[..k] + listings[k + 1..] + [Rated(listings[k], r.overall)]
  {
    if listings[0].slug == r.slug {
      k := 0;
    } else {
      var l :| l in listings && l.slug == r.slug;
      assert l in listings[1..];
      k := ListingsAfterAt(listings[1..], r);
      k := k + 1;
    }
  }

  lemma {:induction false} MovingKeepsUnique(listings: seq<ListingEntry>, k: nat, l: ListingEntry)
    requires UniqueListings(listings) && k < |listings| && l.slug == listings[k].slug
    ensures UniqueListings(listings[..k] + listings[k + 1..] + [l])
    ensures forall m :: m in listings[..k] + listings[k + 1..] ==> m in listings && m.slug != l.slug
  {
  }

  lemma {:induction false} ListingsStayTrue(listings: seq<ListingEntry>, accepted: seq<Rating>, r: Rating)
    requires ListingsTrue(listings, accepted) && Listed(listings, r.slug)
    ensures ListingsTrue(ListingsAfter(listings, r), accepted + [r])
  {
    var k := ListingsAfterAt(listings, r);
    var kept := listings[..k] + listings[k + 1..];
    MovingKeepsUnique(listings, k, Rated(listings[k], r.overall));
    OthersStayTrue(accepted, r);
    RatedTrue(listings[k], accepted, r);
    assert forall m :: m in kept + [Rated(listings[k], r.overall)] ==> m in kept || m == Rated(listings[k], r.overall);
  }

  lemma {:induction false} UnlistedStayTrue(listings: seq<ListingEntry>, accepted: seq<Rating>, r: Rating)
    requires ListingsTrue(listings, accepted) && !Listed(listings, r.slug)
    ensures ListingsTrue(listings, accepted + [r])
  {
    OthersStayTrue(accepted, r);
  }

  lemma {:induction false} AggregateTrue(index: seq<SavedRating>, accepted: seq<Rating>)
    requires IndexTrue(index, accepted)
    ensures index != [] ==> TotalCount(index) > 0
    ensures TrueFigures(Aggregate(index).ratingCount, Aggregate(index).averageRating, ScoresOf(accepted, None))
  {
    assert index != [] ==> EntryTrue(index[|index| - 1], accepted);
    if index == [] { assert ScoresOf(accepted, None) == []; }
  }

  lemma {:induction false} AcceptListed(v: Views, accepted: seq<Rating>, r: Rating)
    requires InSync(v, accepted) && Listed(v.listings, r.slug) && TotalCount(IndexAfter(v.index, r)) > 0
    ensures InSync(Accept(v, r), accepted + [r])
  {
    IndexStaysTrue(v.index, accepted, r);
    AggregateTrue(IndexAfter(v.index, r), accepted + [r]);
    ListingsStayTrue(v.listings, accepted, r);
  }

  lemma {:induction false} ProfileFallsBehind(profile: Profile, accepted: seq<Rating>, r: Rating)
    requires ProfileTrue(profile, accepted)
    ensures ProfileTrue(profile, accepted + [r]) <==> profile.NoProfile? || profile.stats.None?
  {
    ScoresGrow(accepted, r, None);
  }

  lemma {:induction false} AcceptUnlisted(v: Views, accepted: seq<Rating>, r: Rating)
    requires InSync(v, accepted) && !Listed(v.listings, r.slug) && TotalCount(IndexAfter(v.index, r)) > 0
    ensures InSync(Accept(v, r), accepted + [r]) <==> v.profile.NoProfile? || v.profile.stats.None?
  {
    var after := Accept(v, r);
    assert after == Views(IndexAfter(v.index, r), v.listings, v.profile);
    IndexStaysTrue(v.index, accepted, r);
    UnlistedStayTrue(v.listings, accepted, r);
    ProfileFallsBehind(v.profile, accepted, r);
  }

  /** After an accepted rating all views are in sync again exactly when its listing is in the listing
      index, or there are no profile statistics to fall behind. */
  lemma {:induction false} AcceptInSync(v: Views, accepted: seq<Rating>, r: Rating)
    requires InSync(v, accepted)
    ensures TotalCount(IndexAfter(v.index, r)) > 0
    ensures InSync(Accept(v, r), accepted + [r]) <==>
            Listed(v.listings, r.slug) || v.profile.NoProfile? || v.profile.stats.None?
    ensures Listed(v.listings, r.slug) && v.profile.Profile? ==>
              Accept(v, r).profile.Profile? && Accept(v, r).profile.stats.Some?
  {
    IndexTotals(v.index, r);
    if Listed(v.listings, r.slug) {
      AcceptListed(v, accepted, r);
    } else {
      AcceptUnlisted(v, accepted, r);
    }
  }

  lemma {:induction false} SameFigures(s: Stats, t: Stats, scores: seq<int>)
    requires TrueFigures(s.ratingCount, s.averageRating, scores) && TrueFigures(t.ratingCount, t.averageRating, scores)
    ensures s == t
  {
  }

  lemma {:induction false} IncrementTrue(s: Stats, scores: seq<int>, overall: int)
    requires TrueFigures(s.ratingCount, s.averageRating, scores)
    ensures TrueFigures(Incremented(s, overall).ratingCount, Incremented(s, overall).averageRating, scores + [overall])
  {
    AveragedIsMean(s.ratingCount, s.averageRating, scores, overall);
  }

  /** The profile's own increment already gives the figures that then overwrite it. */
  lemma {:induction false} IncrementIsRecomputed(v: Views, accepted: seq<Rating>, r: Rating)
    requires InSync(v, accepted) && v.profile.Profile? && v.profile.stats.Some?
    ensures TotalCount(IndexAfter(v.index, r)) > 0
    ensures Incremented(v.profile.stats.value, r.overall) == Aggregate(IndexAfter(v.index, r))
  {
    var s, index := v.profile.stats.value, IndexAfter(v.index, r);
    IndexStaysTrue(v.index, accepted, r);
    AggregateTrue(index, accepted + [r]);
    ScoresGrow(accepted, r, None);
    IncrementTrue(s, ScoresOf(accepted, None), r.overall);
    IndexTotals(v.index, r);
    SameFigures(Incremented(s, r.overall), Aggregate(index), ScoresOf(accepted + [r], None));
  }

  // ---------- runs ----------

  lemma {:induction false} StillListed(v: Views, r: Rating, slug: Slug)
    requires Listed(v.listings, r.slug) && Listed(v.listings, slug)
    ensures Listed(ListingsAfter(v.listings, r), slug)
  {
    var k := ListingsAfterAt(v.listings, r);
    var after := ListingsAfter(v.listings, r);
    var i :| 0 <= i < |v.listings| && v.listings[i].slug == slug;
    if slug == r.slug {
      assert after[|after| - 1] in after;
    } else {
      assert after[if i < k then i else i - 1] in after;
    }
  }

  /** The views after a run of accepted ratings. */
  ghost function AcceptAll(v: Views, rs: seq<Rating>): Views
    decreases |rs|
  {
    if rs == [] then v
    else
      IndexTotals(v.index, rs[0]);
      AcceptAll(Accept(v, rs[0]), rs[1..])
  }

  ghost predicate AllListed(listings: seq<ListingEntry>, rs: seq<Rating>) {
    forall r :: r in rs ==> Listed(listings, r.slug)
  }

  lemma {:induction false} AcceptFirst(v: Views, accepted: seq<Rating>, rs: seq<Rating>)
    requires InSync(v, accepted) && rs != [] && AllListed(v.listings, rs)
    ensures TotalCount(IndexAfter(v.index, rs[0])) > 0
    ensures InSync(Accept(v, rs[0]), accepted + [rs[0]]) && AllListed(Accept(v, rs[0]).listings, rs[1..])
  {
    AcceptInSync(v, accepted, rs[0]);
    forall r | r in rs[1..] ensures Listed(ListingsAfter(v.listings, rs[0]), r.slug) { StillListed(v, rs[0], r.slug); }
  }

  lemma {:induction false} AcceptAllFirst(v: Views, accepted: seq<Rating>, rs: seq<Rating>)
    requires rs != []
    ensures accepted + [rs[0]] + rs[1..] == accepted + rs
    ensures TotalCount(IndexAfter(v.index, rs[0])) > 0
    ensures AcceptAll(v, rs) == AcceptAll(Accept(v, rs[0]), rs[1..])
  {
    IndexTotals(v.index, rs[0]);
  }

  /** After any run of accepted ratings for existing listings, every view shows the true count and
      mean. */
  lemma {:induction false} RunsStayInSync(v: Views, accepted: seq<Rating>, rs: seq<Rating>)
    requires InSync(v, accepted) && AllListed(v.listings, rs)
    ensures InSync(AcceptAll(v, rs), accepted + rs)
    decreases |rs|
  {
    if rs == [] {
      assert accepted + rs == accepted;
    } else {
      AcceptFirst(v, accepted, rs);
      var next := Accept(v, rs[0]);
      RunsStayInSync(next, accepted + [rs[0]], rs[1..]);
      AcceptAllFirst(v, accepted, rs);
    }
  }

  /** The figures computed from the index on request are then the true ones too, with a mean between
      1 and 5. */
  lemma {:induction false} RunsAggregateTrue(v: Views, accepted: seq<Rating>, rs: seq<Rating>)
    requires InSync(v, accepted) && AllListed(v.listings, rs)
    requires accepted + rs != [] && InRange(ScoresOf(accepted + rs, None))
    ensures var index := AcceptAll(v, rs).index;
            TotalCount(index) > 0 &&
            TrueFigures(Aggregate(index).ratingCount, Aggregate(index).averageRating, ScoresOf(accepted + rs, None)) &&
            RATING_MIN as real <= Aggregate(index).averageRating <= RATING_MAX as real
  {
    RunsStayInSync(v, accepted, rs);
    AggregateTrue(AcceptAll(v, rs).index, accepted + rs);
    MeanInRange(ScoresOf(accepted + rs, None));
  }

  // ---------- the ratings of one order ----------

  predicate Scored(r: Rating) {
    && RATING_MIN <= r.overall <= RATING_MAX && RATING_MIN <= r.quality <= RATING_MAX
    && RATING_MIN <= r.description <= RATING_MAX && RATING_MIN <= r.deliverySpeed <= RATING_MAX
    && RATING_MIN <= r.customerService <= RATING_MAX
  }

  /** What becomes of one rating: one out of range is refused without an error. */
  datatype Verdict = Accepted | Refused | RefusedSilently

  predicate Saved(r: Rating) {
    r.valid && Scored(r)
  }

  function VerdictOn(v: Views, r: Rating): Verdict {
    if !r.valid then Refused
    else if !Scored(r) then RefusedSilently
    else if Listed(v.listings, r.slug) then Accepted
    else Refused
  }

  ghost function SaveOne(v: Views, r: Rating): Views {
    IndexTotals(v.index, r);
    if Saved(r) then Accept(v, r) else v
  }

  /** The views after an order's ratings; an error in one does not stop the rest. */
  ghost function SaveAll(v: Views, rs: seq<Rating>): Views {
    if rs == [] then v else SaveOne(SaveAll(v, rs[..|rs| - 1]), rs[|rs| - 1])
  }

  ghost function VerdictAt(v: Views, rs: seq<Rating>, i: nat): Verdict
    requires i < |rs|
  {
    VerdictOn(SaveAll(v, rs[..i]), rs[i])
  }

  /** The error returned is that of the last rating refused, which is none if it was out of range. */
  ghost function Fails(v: Views, rs: seq<Rating>): bool {
    if rs == [] then false
    else
      match VerdictAt(v, rs, |rs| - 1)
      case Accepted => Fails(v, rs[..|rs| - 1])
      case Refused => true
      case RefusedSilently => false
  }

  lemma {:induction false} VerdictOfPrefix(v: Views, rs: seq<Rating>, i: nat)
    requires i < |rs| - 1
    ensures VerdictAt(v, rs[..|rs| - 1], i) == VerdictAt(v, rs, i)
  {
    assert rs[..|rs| - 1][..i] == rs[..i];
  }

  /** Somebody learns of a refusal exactly when no rating out of range comes after the last other
      refusal: it would clear the error. */
  lemma {:induction false} FailsIff(v: Views, rs: seq<Rating>)
    ensures Fails(v, rs) <==>
            exists i :: 0 <= i < |rs| && VerdictAt(v, rs, i) == Refused &&
                        forall j :: i < j < |rs| ==> VerdictAt(v, rs, j) != RefusedSilently
  {
    if rs != [] {
      var n := |rs| - 1;
      var front := rs[..n];
      FailsIff(v, front);
      forall i | 0 <= i < n ensures VerdictAt(v, front, i) == VerdictAt(v, rs, i) { VerdictOfPrefix(v, rs, i); }
      if VerdictAt(v, rs, n) == Accepted && Fails(v, front) {
        var i :| 0 <= i < n && VerdictAt(v, front, i) == Refused && forall j :: i < j < n ==> VerdictAt(v, front, j) != RefusedSilently;
        assert VerdictAt(v, rs, i) == Refused;
        assert forall j :: i < j < |rs| ==> VerdictAt(v, rs, j) != RefusedSilently;
      }
      if i :| 0 <= i < |rs| && VerdictAt(v, rs, i) == Refused && forall j :: i < j < |rs| ==> VerdictAt(v, rs, j) != RefusedSilently {
        if i < n {
          assert VerdictAt(v, front, i) == Refused;
          assert forall j :: i < j < n ==> VerdictAt(v, front, j) != RefusedSilently;
        }
      }
    }
  }

  function SavedOf(rs: seq<Rating>): seq<Rating> {
    if rs == [] then [] else SavedOf(rs[..|rs| - 1]) + if Saved(rs[|rs| - 1]) then [rs[|rs| - 1]] else []
  }

  lemma {:induction false} AcceptAllLast(v: Views, rs: seq<Rating>, r: Rating)
    ensures TotalCount(IndexAfter(AcceptAll(v, rs).index, r)) > 0
    ensures AcceptAll(v, rs + [r]) == Accept(AcceptAll(v, rs), r)
    decreases |rs|
  {
    IndexTotals(AcceptAll(v, rs).index, r);
    if rs == [] {
      IndexTotals(v.index, r);
      assert (rs + [r])[1..] == [];
    } else {
      IndexTotals(v.index, rs[0]);
      assert (rs + [r])[0] == rs[0] && (rs + [r])[1..] == rs[1..] + [r];
      AcceptAllLast(Accept(v, rs[0]), rs[1..], r);
    }
  }

  lemma {:induction false} SavingAccepts(v: Views, rs: seq<Rating>)
    ensures SaveAll(v, rs) == AcceptAll(v, SavedOf(rs))
  {
    if rs != [] {
      var front := rs[..|rs| - 1];
      SavingAccepts(v, front);
      var r := rs[|rs| - 1];
      if Saved(r) {
        AcceptAllLast(v, SavedOf(front), r);
      } else {
        assert SavedOf(rs) == SavedOf(front);
      }
    }
  }

  /** An order's ratings, good and bad, for existing listings leave every view true to the good ones. */
  lemma {:induction false} OrdersStayInSync(v: Views, accepted: seq<Rating>, rs: seq<Rating>)
    requires InSync(v, accepted) && AllListed(v.listings, SavedOf(rs))
    ensures InSync(SaveAll(v, rs), accepted + SavedOf(rs))
  {
    SavingAccepts(v, rs);
    RunsStayInSync(v, accepted, SavedOf(rs));
  }

  lemma {:induction false} SavedScoresInRange(accepted: seq<Rating>, rs: seq<Rating>)
    requires InRange(ScoresOf(accepted, None))
    ensures InRange(ScoresOf(accepted + SavedOf(rs), None))
    ensures |ScoresOf(accepted + SavedOf(rs), None)| == |accepted| + |SavedOf(rs)|
  {
    if rs == [] {
      assert accepted + SavedOf(rs) == accepted;
      AllHaveScores(accepted);
    } else {
      var front, r := rs[..|rs| - 1], rs[|rs| - 1];
      SavedScoresInRange(accepted, front);
      if Saved(r) {
        assert accepted + SavedOf(rs) == (accepted + SavedOf(front)) + [r];
        ScoresGrow(accepted + SavedOf(front), r, None);
      } else {
        assert SavedOf(rs) == SavedOf(front);
      }
    }
  }

  lemma {:induction false} AllHaveScores(accepted: seq<Rating>)
    ensures |ScoresOf(accepted, None)| == |accepted|
  {
    if accepted != [] { AllHaveScores(accepted[..|accepted| - 1]); }
  }

  /** Whatever an order's ratings hold, the figures shown for all listings together stay between 1 and 5:
      the range is checked here and assumed only of what was there before. */
  lemma {:induction false} OrdersStayInRange(v: Views, accepted: seq<Rating>, rs: seq<Rating>)
    requires InSync(v, accepted) && AllListed(v.listings, SavedOf(rs)) && InRange(ScoresOf(accepted, None))
    requires accepted + SavedOf(rs) != []
    ensures var index := SaveAll(v, rs).index;
            TotalCount(index) == |accepted| + |SavedOf(rs)| && 1.0 <= Aggregate(index).averageRating <= 5.0
  {
    OrdersStayInSync(v, accepted, rs);
    SavedScoresInRange(accepted, rs);
    AggregateTrue(SaveAll(v, rs).index, accepted + SavedOf(rs));
    MeanInRange(ScoresOf(accepted + SavedOf(rs), None));
  }

  /** A rating is accepted unless its signatures, one of its five scores or its listing are amiss, and then
      counts once; one score out of range leaves every view as it was. */
  lemma {:induction false} AcceptedIff(v: Views, r: Rating)
    ensures (VerdictOn(v, r) == Accepted) <==>
            (r.valid && (exists l :: l in v.listings && l.slug == r.slug) &&
             forall score :: score in [r.overall, r.quality, r.description, r.deliverySpeed, r.customerService] ==> 1 <= score <= 5)
    ensures (exists score :: score in [r.overall, r.quality, r.description, r.deliverySpeed, r.customerService] && !(1 <= score <= 5)) ==>
              SaveOne(v, r) == v
    ensures VerdictOn(v, r) == Accepted ==> TotalCount(SaveOne(v, r).index) == TotalCount(v.index) + 1
  {
    var scores := [r.overall, r.quality, r.description, r.deliverySpeed, r.customerService];
    assert scores[0] in scores && scores[1] in scores && scores[2] in scores && scores[3] in scores && scores[4] in scores;
    IndexTotals(v.index, r);
  }

  // ---------- the code, on the stored views ----------

  class RatingStore {
    var index: seq<SavedRating>
    var listings: seq<ListingEntry>
    var profile: Profile

    constructor (listings: seq<ListingEntry>, profile: Profile)
      ensures Current() == Views([], listings, profile)
    {
      this.index, this.listings, this.profile := [], listings, profile;
    }

    ghost function Current(): Views
      reads this
    {
      Views(index, listings, profile)
    }

    method UpdateRatingIndex(r: Rating)
      modifies this`index
      ensures index == IndexAfter(old(index), r)
    {
      ghost var k := IndexAfterAt(index, r);
      var exists', i := false, 0;
      while i < |index| && !exists'
        invariant i <= |index|
        invariant !exists' ==> index == old(index) && i <= k
        invariant exists' ==> index == IndexAfter(old(index), r)
        decreases |index| - i, !exists'
      {
        var d := index[i];
        if r.slug == d.slug {
          assert i == k;
          var total := d.average * d.count as real + r.overall as real;
          index := index[i := SavedRating(d.slug, d.count + 1, total / (d.count + 1) as real, d.ratings + [r.hash])];
          assert index[i] == Added(d, r);
          exists' := true;
        } else {
          i := i + 1;
        }
      }
      if !exists' {
        index := index + [SavedRating(r.slug, 1, r.overall as real, [r.hash])];
      }
    }

    method UpdateRatingInListingIndex(r: Rating) returns (ok: bool)
      modifies this`listings
      ensures ok <==> Listed(old(listings), r.slug)
      ensures listings == if ok then ListingsAfter(old(listings), r) else old(listings)
    {
      var i := 0;
      while i < |listings| && listings[i].slug != r.slug
        invariant i <= |listings| && forall j :: 0 <= j < i ==> listings[j].slug != r.slug
      {
        i := i + 1;
      }
      ok := i < |listings|;
      if ok {
        assert listings[i] in listings;
        ghost var k := ListingsAfterAt(listings, r);
        listings := listings[..i] + listings[i + 1..] + [Rated(listings[i], r.overall)];
      }
    }

    method GetRatingCounts() returns (s: Stats)
      requires index != [] ==> TotalCount(index) > 0
      ensures s == Aggregate(index)
    {
      var ratingCount: nat, totalRating := 0, 0.0;
      for i := 0 to |index|
        invariant ratingCount == TotalCount(index[..i]) && totalRating == TotalScore(index[..i])
      {
        assert index[..i + 1][..i] == index[..i];
        ratingCount := ratingCount + index[i].count;
        totalRating := totalRating + index[i].count as real * index[i].average;
      }
      assert index[..|index|] == index;
      s := if index == [] then Stats(0, 0.0) else Stats(ratingCount, totalRating / ratingCount as real);
    }

    method UpdateProfileRatings(r: Rating)
      requires index != [] && TotalCount(index) > 0
      modifies this`profile
      ensures profile == if old(profile).NoProfile? then NoProfile else Profile(Some(Aggregate(index)))
    {
      if profile.NoProfile? {
        return;
      }
      var stats := if profile.stats.Some? then Incremented(profile.stats.value, r.overall) else Stats(0, 0.0);
      var counts := GetRatingCounts();
      profile := Profile(Some(if counts != stats then counts else stats));
    }

    /** An accepted rating reaches every view that Accept says it does; a rejected one reaches none. */
    method SaveRating(r: Rating) returns (verdict: Verdict)
      modifies this
      ensures Current() == SaveOne(old(Current()), r) && verdict == VerdictOn(old(Current()), r)
      ensures (exists score :: score in [r.overall, r.quality, r.description, r.deliverySpeed, r.customerService] && !(1 <= score <= 5)) ==>
                Current() == old(Current()) && verdict != Accepted
    {
      AcceptedIff(Current(), r);
      IndexTotals(index, r);
      if !r.valid {
        return Refused;
      }
      if !Scored(r) {
        return RefusedSilently;
      }
      UpdateRatingIndex(r);
      var ok := UpdateRatingInListingIndex(r);
      if !ok {
        return Refused;
      }
      UpdateProfileRatings(r);
      verdict := Accepted;
    }

    method ValidateAndSaveRating(rs: seq<Rating>) returns (failed: bool)
      modifies this
      ensures Current() == SaveAll(old(Current()), rs)
      ensures failed == Fails(old(Current()), rs)
    {
      failed := false;
      for n := 0 to |rs|
        invariant Current() == SaveAll(old(Current()), rs[..n])
        invariant failed == Fails(old(Current()), rs[..n])
      {
        assert rs[..n + 1][..n] == rs[..n];
        var verdict := SaveRating(rs[n]);
        if verdict != Accepted {
          failed := verdict == Refused;
        }
      }
      assert rs[..|rs|] == rs;
    }
  }
}
