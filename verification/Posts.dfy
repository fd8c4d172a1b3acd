/** Posts: slug generation, the post files, and the index that must agree with them. */
module Posts {
  import opened Wrappers
  import opened Decimals
  import opened SliceRange

  type Slug = string
  type Hash = string

  /** restValid says whether the fields not shown pass validatePost's checks. */
  datatype Post = Post(slug: Slug, status: string, restValid: bool)
  datatype Entry = Entry(hash: Hash, slug: Slug)

  // ---------- slugs ----------

  const SLUG_MAX := 70
  const STATUS_MAX := 280

  /** Strings are Go's byte strings: a length counts bytes. */
  predicate ValidSlug(slug: Slug) {
    0 < |slug| <= SLUG_MAX && ' ' !in slug && '/' !in slug
  }

  /** What validatePost, and so signing, lets through. */
  predicate ValidPost(post: Post) {
    ValidSlug(post.slug) && |post.status| <= STATUS_MAX && post.restValid
  }

  /** The k-th slug tried: base, base1, base2, ... */
  function Candidate(base: Slug, k: nat): Slug {
    if k == 0 then base else base + Print(k)
  }

  lemma {:induction false} CandidatesDiffer(base: Slug, j: nat, k: nat)
    requires Candidate(base, j) == Candidate(base, k)
    ensures j == k
  {
    if j != 0 && k != 0 {
      assert Candidate(base, j)[|base|..] == Print(j) && Candidate(base, k)[|base|..] == Print(k);
      PrintInjective(j, k);
    }
  }

  /** k different candidates are used only where at least k slugs are used. */
  lemma {:induction false} UsedCandidates(base: Slug, used: set<Slug>, k: nat)
    requires forall j: nat :: j < k ==> Candidate(base, j) in used
    ensures k <= |used|
  {
    if k > 0 {
      forall j: nat | j < k - 1 ensures Candidate(base, j) in used - {Candidate(base, k - 1)} {
        if Candidate(base, j) == Candidate(base, k - 1) { CandidatesDiffer(base, j, k - 1); }
      }
      UsedCandidates(base, used - {Candidate(base, k - 1)}, k - 1);
    }
  }

  /** The first unused candidate, given that the first k are used. */
  function FreeSlug(base: Slug, used: set<Slug>, k: nat): (slug: Slug)
    requires forall j: nat :: j < k ==> Candidate(base, j) in used
    ensures slug !in used
    ensures exists n: nat :: k <= n <= |used| && slug == Candidate(base, n) && forall j: nat :: j < n ==> Candidate(base, j) in used
    decreases |used| - k
  {
    UsedCandidates(base, used, k);
    if Candidate(base, k) !in used then Candidate(base, k)
    else
      UsedCandidates(base, used, k + 1);
      FreeSlug(base, used, k + 1)
  }

  ghost predicate MeetsUnreadable(base: Slug, readable: map<Slug, bool>, n: nat) {
    && Candidate(base, n) in readable && !readable[Candidate(base, n)]
    && forall j: nat :: j < n ==> Candidate(base, j) in readable && readable[Candidate(base, j)]
  }

  /** readable maps each stored post's slug to whether its file parses. The loop ends within
      |readable| + 1 tries, with the first unused slug, unless it meets a file it cannot parse. */
  method GeneratePostSlug(base: Slug, readable: map<Slug, bool>) returns (r: Result<Slug, string>)
    ensures r.Ok? ==> r.value == FreeSlug(base, readable.Keys, 0)
    ensures r.Err? <==> exists n: nat :: MeetsUnreadable(base, readable, n)
  {
    var counter: nat := 1;
    var slugToTry := base;
    while true
      invariant counter >= 1 && slugToTry == Candidate(base, counter - 1)
      invariant forall j: nat :: j < counter - 1 ==> Candidate(base, j) in readable.Keys && readable[Candidate(base, j)]
      invariant FreeSlug(base, readable.Keys, 0) == FreeSlug(base, readable.Keys, counter - 1)
      decreases |readable| + 1 - counter
    {
      UsedCandidates(base, readable.Keys, counter - 1);
      if slugToTry !in readable {
        return Ok(slugToTry);
      } else if !readable[slugToTry] {
        assert MeetsUnreadable(base, readable, counter - 1);
        return Err("unreadable post");
      }
      UsedCandidates(base, readable.Keys, counter);
      slugToTry := base + Print(counter);
      counter := counter + 1;
    }
  }

  // ---------- the stored posts and their index ----------

  datatype State = State(files: map<Slug, Post>, index: seq<Entry>)

  datatype Op = Create(post: Post, base: Slug) | Update(post: Post) | Delete(slug: Slug)

  function HasSlug(slug: Slug): Entry -> bool {
    (e: Entry) => e.slug == slug
  }

  /** Write the post's file, then move or add its entry to the end of the index. */
  function Put(st: State, post: Post, hashOf: Post -> Hash): State {
    State(st.files[post.slug := post], Without(st.index, HasSlug(post.slug)) + [Entry(hashOf(post), post.slug)])
  }

  /** What an API call leaves behind; a refused call changes nothing. */
  function Apply(st: State, op: Op, hashOf: Post -> Hash): State {
    match op
    case Create(post, base) =>
      var named := Named(st, post, base);
      if (post.slug != "" && post.slug in st.files) || !ValidPost(named) then st else Put(st, named, hashOf)
    case Update(post) => if post.slug in st.files && ValidPost(post) then Put(st, post, hashOf) else st
    case Delete(slug) =>
      if slug in st.files then State(st.files - {slug}, Without(st.index, HasSlug(slug))) else st
  }

  /** A post without a slug is given one made from its status. */
  function Named(st: State, post: Post, base: Slug): Post {
    if post.slug != "" then post else post.(slug := FreeSlug(base, st.files.Keys, 0))
  }

  function ApplyAll(st: State, ops: seq<Op>, hashOf: Post -> Hash): State
    decreases |ops|
  {
    if ops == [] then st else ApplyAll(Apply(st, ops[0], hashOf), ops[1..], hashOf)
  }

  ghost predicate UniqueSlugs(index: seq<Entry>) {
    forall i, j :: 0 <= i < j < |index| ==> index[i].slug != index[j].slug
  }

  /** The index lists exactly the stored posts, each once, with the current hash of its file; and every
      stored post is valid. */
  ghost predicate Agrees(st: State, hashOf: Post -> Hash) {
    && UniqueSlugs(st.index)
    && (forall e :: e in st.index ==> e.slug in st.files && e.hash == hashOf(st.files[e.slug]))
    && (forall s :: s in st.files ==> st.files[s].slug == s && ValidPost(st.files[s]) && exists e :: e in st.index && e.slug == s)
  }

  lemma {:induction false} WithoutKeepsUnique(index: seq<Entry>, slug: Slug)
    requires UniqueSlugs(index)
    ensures UniqueSlugs(Without(index, HasSlug(slug)))
  {
    if index != [] {
      var kept := Without(index[1..], HasSlug(slug));
      WithoutKeepsUnique(index[1..], slug);
      WithoutMembers(index[1..], HasSlug(slug));
      forall k | 0 <= k < |kept| ensures kept[k].slug != index[0].slug {
        assert kept[k] in index[1..];
      }
    }
  }

  lemma {:induction false} PutAgrees(st: State, post: Post, hashOf: Post -> Hash)
    requires Agrees(st, hashOf) && ValidPost(post)
    ensures Agrees(Put(st, post, hashOf), hashOf)
  {
    var kept, added := Without(st.index, HasSlug(post.slug)), Entry(hashOf(post), post.slug);
    WithoutMembers(st.index, HasSlug(post.slug));
    WithoutKeepsUnique(st.index, post.slug);
    assert forall k :: 0 <= k < |kept| ==> kept[k] in kept;
    assert forall e :: e in kept + [added] <==> e in kept || e == added;
  }

  lemma {:induction false} RemoveAgrees(st: State, slug: Slug, hashOf: Post -> Hash)
    requires Agrees(st, hashOf)
    ensures Agrees(State(st.files - {slug}, Without(st.index, HasSlug(slug))), hashOf)
  {
    WithoutMembers(st.index, HasSlug(slug));
    WithoutKeepsUnique(st.index, slug);
  }

  lemma {:induction false} ApplyAgrees(st: State, op: Op, hashOf: Post -> Hash)
    requires Agrees(st, hashOf)
    ensures Agrees(Apply(st, op, hashOf), hashOf)
  {
    match op
    case Create(post, base) =>
      var named := Named(st, post, base);
      if ValidPost(named) { PutAgrees(st, named, hashOf); }
    case Update(post) =>
      if ValidPost(post) { PutAgrees(st, post, hashOf); }
    case Delete(slug) => RemoveAgrees(st, slug, hashOf);
  }

  /** After every run of creations, updates and deletions the index agrees with the files. */
  lemma {:induction false} RunsAgree(st: State, ops: seq<Op>, hashOf: Post -> Hash)
    requires Agrees(st, hashOf)
    ensures Agrees(ApplyAll(st, ops, hashOf), hashOf)
    ensures forall s :: s in ApplyAll(st, ops, hashOf).files ==>
              1 <= |s| <= 70 && ' ' !in s && '/' !in s && |ApplyAll(st, ops, hashOf).files[s].status| <= 280
    decreases |ops|
  {
    if ops != [] {
      ApplyAgrees(st, ops[0], hashOf);
      RunsAgree(Apply(st, ops[0], hashOf), ops[1..], hashOf);
    }
  }

  // ---------- what each call does to the files and the index ----------

  lemma {:induction false} NotListed(st: State, slug: Slug, hashOf: Post -> Hash)
    requires Agrees(st, hashOf) && slug !in st.files
    ensures Without(st.index, HasSlug(slug)) == st.index
  {
    forall i | 0 <= i < |st.index| ensures !HasSlug(slug)(st.index[i]) { assert st.index[i] in st.index; }
    WithoutNoHits(st.index, HasSlug(slug));
  }

  lemma {:induction false} ListedOnce(st: State, slug: Slug, hashOf: Post -> Hash) returns (k: nat)
    requires Agrees(st, hashOf) && slug in st.files
    ensures k < |st.index| && st.index[k] == Entry(hashOf(st.files[slug]), slug)
    ensures Without(st.index, HasSlug(slug)) == st.index[..k] + st.index[k + 1..]
  {
    var e :| e in st.index && e.slug == slug;
    k :| 0 <= k < |st.index| && st.index[k] == e;
    WithoutOneHit(st.index, k, HasSlug(slug));
  }

  /** An accepted creation stores one more post, the given one under its slug or the first free one made
      for it, and its entry comes last; nothing else changes. */
  lemma {:induction false} CreateStores(st: State, post: Post, base: Slug, hashOf: Post -> Hash) returns (slug: Slug)
    requires Agrees(st, hashOf) && (post.slug == "" || post.slug !in st.files) && ValidPost(Named(st, post, base))
    ensures slug !in st.files && (post.slug != "" ==> slug == post.slug)
    ensures post.slug == "" ==> exists n: nat :: slug == Candidate(base, n) && forall j: nat :: j < n ==> Candidate(base, j) in st.files
    ensures var stored := post.(slug := slug);
            Apply(st, Create(post, base), hashOf) == State(st.files[slug := stored], st.index + [Entry(hashOf(stored), slug)])
  {
    slug := if post.slug != "" then post.slug else FreeSlug(base, st.files.Keys, 0);
    NotListed(st, slug, hashOf);
  }

  /** An accepted update replaces the stored post and moves its entry to the end; nothing else changes. */
  lemma {:induction false} UpdateReplaces(st: State, post: Post, hashOf: Post -> Hash) returns (k: nat)
    requires Agrees(st, hashOf) && post.slug in st.files && ValidPost(post)
    ensures k < |st.index| && st.index[k].slug == post.slug
    ensures Apply(st, Update(post), hashOf) ==
            State(st.files[post.slug := post], st.index[..k] + st.index[k + 1..] + [Entry(hashOf(post), post.slug)])
  {
    k := ListedOnce(st, post.slug, hashOf);
  }

  /** A deletion takes the one file and its one entry away; nothing else changes. */
  lemma {:induction false} DeleteRemoves(st: State, slug: Slug, hashOf: Post -> Hash) returns (k: nat)
    requires Agrees(st, hashOf) && slug in st.files
    ensures k < |st.index| && st.index[k].slug == slug
    ensures Apply(st, Delete(slug), hashOf) == State(st.files - {slug}, st.index[..k] + st.index[k + 1..])
  {
    k := ListedOnce(st, slug, hashOf);
  }

  // ---------- when a post without a slug is accepted ----------

  lemma {:induction false} PrintedLength(n: nat, digits: nat, bound: nat)
    requires digits >= 1 && n < bound && bound == TenTo(digits)
    ensures |Print(n)| <= digits
  {
    if n >= 10 {
      PrintedLength(n / 10, digits - 1, TenTo(digits - 1));
      assert PrintNat(n) == PrintNat(n / 10) + [Digit(n % 10)];
    }
  }

  function TenTo(n: nat): nat {
    if n == 0 then 1 else 10 * TenTo(n - 1)
  }

  lemma {:induction false} CandidateFits(base: Slug, n: nat)
    requires |base| <= 65 && ' ' !in base && '/' !in base && base != ""
    ensures ValidSlug(Candidate(base, n)) <==> |Candidate(base, n)| <= 70
    ensures n < 100_000 ==> ValidSlug(Candidate(base, n))
  {
    if n > 0 {
      assert Candidate(base, n) == base + PrintNat(n);
      assert forall i :: 0 <= i < |PrintNat(n)| ==> IsDigit(PrintNat(n)[i]);
      assert TenTo(5) == 100_000 by { assert TenTo(2) == 100 && TenTo(3) == 1000; }
      if n < 100_000 { PrintedLength(n, 5, 100_000); }
    }
  }

  /** What CreateSlugFor makes of a status leaves room for a number of five digits. So a post without a
      slug is accepted exactly when its status holds something to make a slug of, as long as fewer than a
      hundred thousand posts are stored. */
  lemma {:induction false} NamedIsValidIff(st: State, post: Post, base: Slug, hashOf: Post -> Hash)
    requires Agrees(st, hashOf) && |base| <= 65 && ' ' !in base && '/' !in base && |st.files| < 100_000
    requires post.slug == "" && |post.status| <= 280 && post.restValid
    ensures ValidPost(Named(st, post, base)) <==> base != ""
    ensures base == "" ==> Apply(st, Create(post, base), hashOf) == st
  {
    assert |st.files.Keys| == |st.files|;
    if base == "" {
      assert Candidate(base, 0) !in st.files;
      assert FreeSlug(base, st.files.Keys, 0) == "";
    } else {
      var n: nat :| n <= |st.files.Keys| && FreeSlug(base, st.files.Keys, 0) == Candidate(base, n);
      CandidateFits(base, n);
    }
  }

  class PostStore {
    const hashOf: Post -> Hash
    var files: map<Slug, Post>
    var index: seq<Entry>

    constructor (hashOf: Post -> Hash)
      ensures Current() == State(map[], []) && Agrees(Current(), this.hashOf) && this.hashOf == hashOf
    {
      this.hashOf := hashOf;
      files, index := map[], [];
    }

    ghost function Current(): State
      reads this
    {
      State(files, index)
    }

    /** Take the slug's entry out of the index; the slice arithmetic stays in bounds. */
    method RemoveEntry(slug: Slug)
      requires UniqueSlugs(index)
      modifies this`index
      ensures index == Without(old(index), HasSlug(slug))
    {
      var backing := new Entry[|index|](k requires 0 <= k < |index| reads this => index[k]);
      assert backing[..] == index;
      var out := DeleteWhileRanging(backing, HasSlug(slug), true);
      ghost var hits := RangeDeleteRemovesTheHit(index, 0, HasSlug(slug), true);
      index := out.rest;
    }

    method WritePost(post: Post)
      requires UniqueSlugs(index)
      modifies this
      ensures Current() == Put(old(Current()), post, hashOf)
    {
      files := files[post.slug := post];
      RemoveEntry(post.slug);
      index := index + [Entry(hashOf(post), post.slug)];
    }

    /** Every stored post can be read here. */
    method FreshSlug(base: Slug) returns (slug: Slug)
      ensures slug == FreeSlug(base, files.Keys, 0)
    {
      var readable := map s | s in files :: true;
      assert readable.Keys == files.Keys;
      var r := GeneratePostSlug(base, readable);
      slug := r.value;
    }

    /** Refused when the given slug is in use, and, by signing, when the post with the slug it was given
        or made for it is not valid. */
    method CreatePost(post: Post, base: Slug) returns (ok: bool)
      requires Agrees(Current(), hashOf)
      modifies this
      ensures Current() == Apply(old(Current()), Create(post, base), hashOf)
      ensures Agrees(Current(), hashOf)
      ensures ok <==> (post.slug == "" || post.slug !in old(files)) && ValidPost(Named(old(Current()), post, base))
      ensures !ok ==> files == old(files) && index == old(index)
      ensures ok ==>
                exists slug ::
                  slug !in old(files) && (post.slug != "" ==> slug == post.slug) &&
                  files == old(files)[slug := post.(slug := slug)] &&
                  index == old(index) + [Entry(hashOf(post.(slug := slug)), slug)]
    {
      ApplyAgrees(Current(), Create(post, base), hashOf);
      if (post.slug == "" || post.slug !in files) && ValidPost(Named(Current(), post, base)) {
        ghost var stored := CreateStores(Current(), post, base, hashOf);
      }
      var named := post;
      if post.slug != "" {
        if post.slug in files {
          return false;
        }
      } else {
        var slug := FreshSlug(base);
        named := post.(slug := slug);
      }
      ok := ValidPost(named);
      if ok {
        WritePost(named);
      }
    }

    method UpdatePost(post: Post) returns (ok: bool)
      requires Agrees(Current(), hashOf)
      modifies this
      ensures Current() == Apply(old(Current()), Update(post), hashOf)
      ensures Agrees(Current(), hashOf)
      ensures ok <==> post.slug in old(files) && ValidPost(post)
      ensures !ok ==> files == old(files) && index == old(index)
      ensures ok ==> files == old(files)[post.slug := post]
      ensures ok ==>
                exists k ::
                  0 <= k < |old(index)| && old(index)[k].slug == post.slug &&
                  index == old(index)[..k] + old(index)[k + 1..] + [Entry(hashOf(post), post.slug)]
    {
      ApplyAgrees(Current(), Update(post), hashOf);
      if post.slug in files && ValidPost(post) {
        ghost var k := UpdateReplaces(Current(), post, hashOf);
      }
      ok := post.slug in files && ValidPost(post);
      if ok {
        WritePost(post);
      }
    }

    method DeletePost(slug: Slug) returns (ok: bool)
      requires Agrees(Current(), hashOf)
      modifies this
      ensures Current() == Apply(old(Current()), Delete(slug), hashOf)
      ensures Agrees(Current(), hashOf)
      ensures ok <==> slug in old(files)
      ensures !ok ==> files == old(files) && index == old(index)
      ensures ok ==> files == old(files) - {slug}
      ensures ok ==> exists k :: 0 <= k < |old(index)| && old(index)[k].slug == slug && index == old(index)[..k] + old(index)[k + 1..]
    {
      ApplyAgrees(Current(), Delete(slug), hashOf);
      if slug in files {
        ghost var k := DeleteRemoves(Current(), slug, hashOf);
      }
      ok := slug in files;
      if ok {
        files := files - {slug};
        RemoveEntry(slug);
      }
    }

    /** With hashes that tell the stored posts apart, looking a hash up finds exactly its post. The empty
        slug stands for no post: no stored post has it. */
    method GetPostFromHash(hash: Hash) returns (r: Option<Post>)
      requires Agrees(Current(), hashOf)
      requires forall s, t :: s in files && t in files && hashOf(files[s]) == hashOf(files[t]) ==> s == t
      ensures forall p :: r == Some(p) <==> p.slug in files && files[p.slug] == p && hashOf(p) == hash
    {
      var slug, k := "", 0;
      while k < |index|
        invariant k <= |index| && slug == ""
        invariant forall j :: 0 <= j < k ==> index[j].hash != hash
      {
        if index[k].hash == hash {
          slug := index[k].slug;
          assert index[k] in index;
          break;
        }
        k := k + 1;
      }
      if slug == "" {
        return None;
      }
      r := Some(files[slug]);
    }
  }
}
