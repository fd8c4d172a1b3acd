/** SeedNode stores a new root hash and queues its publication; publish drops a hash that is no longer
    the root hash. Any number of both run at once, under two locks. */
module Publishing {
  import opened Wrappers

  type Hash = string
  type Task = nat

  /** A SeedNode call: adding the directory under the seed lock, root hash stored, lock released. */
  datatype Seeding = Adding | Stored(hash: Hash) | Unlocked(hash: Hash)

  /** A queued publish; the later phases hold the publish lock. at is when the root hash was read. */
  datatype Publish = Queued(hash: Hash) | Locked(hash: Hash) | Current(hash: Hash, at: nat) | InFlight(hash: Hash, at: nat)

  datatype State = State(
    root: Hash,
    history: seq<Hash>,           // every value RootHash has had
    seeds: map<Task, Seeding>,
    seedLock: Option<Task>,
    publishes: map<Task, Publish>,
    publishLock: Option<Task>,
    inflight: nat,                // inflightPublishRequests
    published: seq<Hash>,         // the successful publications, oldest first
    readAt: seq<nat>,             // for each of them, when its hash was read from RootHash
    failed: bool)                 // a publication of the present root hash has failed since it was stored

  function Start(root: Hash): State {
    State(root, [root], map[], None, map[], None, 0, [root], [0], false)
  }

  datatype Step =
    | SeedLocks(t: Task) | SeedFails(t: Task) | SeedStores(t: Task, hash: Hash) | SeedUnlocks(t: Task)
    | SeedQueues(t: Task, p: Task)
    | PublishLocks(p: Task) | PublishReads(p: Task) | PushFails(p: Task) | PublishSends(p: Task) | PublishEnds(p: Task, ok: bool)

  function Newest(history: seq<Hash>): nat {
    if history == [] then 0 else |history| - 1
  }

  function After(s: State, step: Step): Option<State> {
    match step
    case SeedLocks(t) =>
      if t !in s.seeds && s.seedLock.None? then Some(s.(seeds := s.seeds[t := Adding], seedLock := Some(t))) else None
    case SeedFails(t) =>
      if t in s.seeds && s.seeds[t].Adding? then Some(s.(seeds := s.seeds - {t}, seedLock := None)) else None
    case SeedStores(t, hash) =>
      if t in s.seeds && s.seeds[t].Adding?
      then Some(s.(seeds := s.seeds[t := Stored(hash)], root := hash, history := s.history + [hash], failed := false))
      else None
    case SeedUnlocks(t) =>
      if t in s.seeds && s.seeds[t].Stored?
      then Some(s.(seeds := s.seeds[t := Unlocked(s.seeds[t].hash)], seedLock := None)) else None
    case SeedQueues(t, p) =>
      if t in s.seeds && s.seeds[t].Unlocked? && p !in s.publishes
      then Some(s.(seeds := s.seeds - {t}, publishes := s.publishes[p := Queued(s.seeds[t].hash)])) else None
    case PublishLocks(p) =>
      if p in s.publishes && s.publishes[p].Queued? && s.publishLock.None?
      then Some(s.(publishes := s.publishes[p := Locked(s.publishes[p].hash)], publishLock := Some(p))) else None
    // The root hash is read without the seed lock; a stale publish ends here.
    case PublishReads(p) =>
      if p in s.publishes && s.publishes[p].Locked? then
        if s.publishes[p].hash != s.root then Some(s.(publishes := s.publishes - {p}, publishLock := None))
        else Some(s.(publishes := s.publishes[p := Current(s.root, Newest(s.history))]))
      else None
    case PushFails(p) =>
      if p in s.publishes && s.publishes[p].Current?
      then Some(s.(publishes := s.publishes - {p}, publishLock := None, failed := s.failed || s.publishes[p].hash == s.root))
      else None
    case PublishSends(p) =>
      if p in s.publishes && s.publishes[p].Current?
      then Some(s.(publishes := s.publishes[p := InFlight(s.publishes[p].hash, s.publishes[p].at)], inflight := s.inflight + 1))
      else None
    case PublishEnds(p, ok) =>
      if p in s.publishes && s.publishes[p].InFlight? && s.inflight > 0 then
        var s' := s.(publishes := s.publishes - {p}, publishLock := None, inflight := s.inflight - 1);
        if ok
        then Some(s'.(published := s.published + [s.publishes[p].hash], readAt := s.readAt + [s.publishes[p].at]))
        else Some(s'.(failed := s.failed || s.publishes[p].hash == s.root))
      else None
  }

  function Run(s: State, steps: seq<Step>): Option<State>
    decreases |steps|
  {
    if steps == [] then Some(s)
    else
      var next := After(s, steps[0]);
      if next.None? then None else Run(next.value, steps[1..])
  }

  /** A stored root hash on its way to be queued, or a queued or running publication of h. */
  ghost predicate UnderWay(s: State, h: Hash) {
    || (exists t :: t in s.seeds && (s.seeds[t] == Stored(h) || s.seeds[t] == Unlocked(h)))
    || (exists p :: p in s.publishes && s.publishes[p].hash == h)
  }

  predicate Busy(p: Publish) {
    !p.Queued?
  }

  /** The seed lock is held by the one call that has it, until that releases it. */
  ghost predicate SeedLocked(s: State) {
    && (forall t :: t in s.seeds && !s.seeds[t].Unlocked? ==> s.seedLock == Some(t))
    && (s.seedLock.Some? ==> s.seedLock.value in s.seeds && !s.seeds[s.seedLock.value].Unlocked?)
  }

  ghost predicate PublishLocked(s: State) {
    && (forall p :: p in s.publishes && Busy(s.publishes[p]) ==> s.publishLock == Some(p))
    && (s.publishLock.Some? ==> s.publishLock.value in s.publishes && Busy(s.publishes[s.publishLock.value]))
    && s.inflight == (if s.publishLock.Some? && s.publishes[s.publishLock.value].InFlight? then 1 else 0)
  }

  ghost predicate Locks(s: State) {
    SeedLocked(s) && PublishLocked(s)
  }

  /** The published hashes are values the root hash had, at times that never go back. */
  ghost predicate InOrder(history: seq<Hash>, published: seq<Hash>, readAt: seq<nat>) {
    && |published| == |readAt| > 0
    && (forall i :: 0 <= i < |readAt| ==> readAt[i] < |history| && published[i] == history[readAt[i]])
    && (forall i, j :: 0 <= i < j < |readAt| ==> readAt[i] <= readAt[j])
  }

  /** A running publication read its hash from the root hash, no earlier than the last one published. */
  ghost predicate ReadRight(s: State, p: Publish)
    requires |s.readAt| > 0
  {
    p.Current? || p.InFlight? ==> s.readAt[|s.readAt| - 1] <= p.at < |s.history| && p.hash == s.history[p.at]
  }

  ghost predicate NeverBackwards(s: State) {
    && s.history != [] && s.root == s.history[|s.history| - 1]
    && InOrder(s.history, s.published, s.readAt)
    && (forall p :: p in s.publishes ==> ReadRight(s, s.publishes[p]))
  }

  /** The root hash is the last hash published, or its publication is under way or has failed; and it
      is under way whenever the publication that holds the lock has become stale. */
  ghost predicate Converging(s: State)
    requires |s.published| > 0
  {
    && (s.root == s.published[|s.published| - 1] || UnderWay(s, s.root) || s.failed)
    && (Overtaken(s) ==> UnderWay(s, s.root))
  }

  ghost predicate Overtaken(s: State) {
    exists p :: p in s.publishes && (s.publishes[p].Current? || s.publishes[p].InFlight?) && s.publishes[p].hash != s.root
  }

  ghost predicate Inv(s: State) {
    Locks(s) && NeverBackwards(s) && Converging(s)
  }

  lemma {:induction false} AfterKeepsSeedLock(s: State, step: Step)
    requires SeedLocked(s) && After(s, step).Some?
    ensures SeedLocked(After(s, step).value)
  {
  }

  lemma {:induction false} AfterKeepsPublishLock(s: State, step: Step)
    requires PublishLocked(s) && After(s, step).Some?
    ensures PublishLocked(After(s, step).value)
  {
  }

  lemma {:induction false} AfterKeepsLocks(s: State, step: Step)
    requires Locks(s) && After(s, step).Some?
    ensures Locks(After(s, step).value)
  {
    AfterKeepsSeedLock(s, step);
    AfterKeepsPublishLock(s, step);
  }

  lemma {:induction false} StoringKeepsOrder(s: State, t: Task, hash: Hash)
    requires NeverBackwards(s) && After(s, SeedStores(t, hash)).Some?
    ensures NeverBackwards(After(s, SeedStores(t, hash)).value)
  {
    var s' := After(s, SeedStores(t, hash)).value;
    assert forall p :: p in s'.publishes ==> ReadRight(s, s.publishes[p]);
  }

  lemma {:induction false} EndingKeepsOrder(s: State, p: Task, ok: bool)
    requires Locks(s) && NeverBackwards(s) && After(s, PublishEnds(p, ok)).Some?
    ensures NeverBackwards(After(s, PublishEnds(p, ok)).value)
  {
    var s' := After(s, PublishEnds(p, ok)).value;
    assert ReadRight(s, s.publishes[p]);
    assert forall q :: q in s'.publishes ==> s'.publishes[q].Queued?;
  }

  /** A step that publishes nothing and stores no root hash: a publication goes on, or reads the root
      hash as it is. */
  lemma {:induction false} OthersReadRight(s: State, step: Step, p: Task)
    requires s.history != [] && s.root == s.history[|s.history| - 1]
    requires |s.readAt| > 0 && s.readAt[|s.readAt| - 1] < |s.history|
    requires After(s, step).Some? && !step.SeedStores? && !step.PublishEnds? && p in After(s, step).value.publishes
    requires p in s.publishes ==> ReadRight(s, s.publishes[p])
    ensures ReadRight(s, After(s, step).value.publishes[p])
  {
  }

  lemma {:induction false} OthersKeepOrder(s: State, step: Step)
    requires NeverBackwards(s) && After(s, step).Some? && !step.SeedStores? && !step.PublishEnds?
    ensures NeverBackwards(After(s, step).value)
  {
    var s' := After(s, step).value;
    assert s'.history == s.history && s'.published == s.published && s'.readAt == s.readAt && s'.root == s.root;
    assert s.readAt[|s.readAt| - 1] < |s.history|;
    forall p | p in s'.publishes ensures ReadRight(s', s'.publishes[p]) {
      OthersReadRight(s, step, p);
    }
  }

  lemma {:induction false} AfterKeepsOrder(s: State, step: Step)
    requires Locks(s) && NeverBackwards(s) && After(s, step).Some?
    ensures NeverBackwards(After(s, step).value)
  {
    match step
    case SeedStores(t, hash) => StoringKeepsOrder(s, t, hash);
    case PublishEnds(p, ok) => EndingKeepsOrder(s, p, ok);
    case _ => OthersKeepOrder(s, step);
  }

  lemma {:induction false} SeedMovesOn(s: State, step: Step, t: Task)
    requires After(s, step).Some? && !step.SeedStores?
    requires t in s.seeds && (s.seeds[t] == Stored(s.root) || s.seeds[t] == Unlocked(s.root))
    ensures UnderWay(After(s, step).value, s.root)
  {
    var s' := After(s, step).value;
    if step.SeedQueues? && step.t == t {
      assert s'.publishes[step.p].hash == s.root;
    } else {
      assert t in s'.seeds;
    }
  }

  lemma {:induction false} PublishMovesOn(s: State, step: Step, p: Task)
    requires Locks(s) && After(s, step).Some? && !step.SeedStores? && |s.published| > 0
    requires p in s.publishes && s.publishes[p].hash == s.root
    ensures |After(s, step).value.published| > 0 && Converging(After(s, step).value)
  {
    var s' := After(s, step).value;
    if (step.PushFails? || step.PublishEnds?) && step.p == p {
      assert s'.failed || s'.published[|s'.published| - 1] == s.root;
      forall q | q in s'.publishes ensures s'.publishes[q].Queued? {}
    } else {
      assert p in s'.publishes && s'.publishes[p].hash == s.root;
      assert UnderWay(s', s'.root);
    }
  }

  lemma {:induction false} NotUnderWay(s: State, step: Step)
    requires Locks(s) && |s.published| > 0 && Converging(s) && After(s, step).Some?
    requires !step.SeedStores? && !UnderWay(s, s.root)
    ensures |After(s, step).value.published| > 0 && Converging(After(s, step).value)
  {
    assert !Overtaken(s);
    var s' := After(s, step).value;
    assert !Overtaken(s');
  }

  /** The publish lock makes publications end in the order they read the root hash, so a stale one
      never comes after the present one. */
  lemma {:induction false} AfterKeepsConverging(s: State, step: Step)
    requires Locks(s) && |s.published| > 0 && Converging(s) && After(s, step).Some?
    ensures |After(s, step).value.published| > 0 && Converging(After(s, step).value)
  {
    var s' := After(s, step).value;
    if step.SeedStores? {
      assert s'.seeds[step.t] == Stored(s'.root);
    } else if t :| t in s.seeds && (s.seeds[t] == Stored(s.root) || s.seeds[t] == Unlocked(s.root)) {
      SeedMovesOn(s, step, t);
    } else if p :| p in s.publishes && s.publishes[p].hash == s.root {
      PublishMovesOn(s, step, p);
    } else {
      NotUnderWay(s, step);
    }
  }

  lemma {:induction false} StepKeepsInv(s: State, step: Step)
    requires Inv(s) && After(s, step).Some?
    ensures Inv(After(s, step).value)
  {
    AfterKeepsLocks(s, step);
    AfterKeepsOrder(s, step);
    AfterKeepsConverging(s, step);
  }

  lemma {:induction false} RunKeepsInv(s: State, steps: seq<Step>)
    requires Inv(s) && Run(s, steps).Some?
    ensures Inv(Run(s, steps).value)
    decreases |steps|
  {
    if steps != [] {
      StepKeepsInv(s, steps[0]);
      RunKeepsInv(After(s, steps[0]).value, steps[1..]);
    }
  }

  /** Nothing is queued or running any more, except directories still being added. */
  ghost predicate Quiet(s: State) {
    s.publishes == map[] && forall t :: t in s.seeds ==> s.seeds[t].Adding?
  }

  // ---------- nothing is published twice, and nothing stale at all ----------

  ghost predicate Distinct(s: seq<Hash>) {
    forall i, j :: 0 <= i < j < |s| ==> s[i] != s[j]
  }

  /** A hash is on its way in one place: one seed call, or one publication, and not yet published. */
  ghost predicate OnceUnderWay(s: State) {
    && (forall t :: t in s.seeds && !s.seeds[t].Adding? ==> s.seeds[t].hash in s.history && s.seeds[t].hash !in s.published)
    && (forall p :: p in s.publishes ==> s.publishes[p].hash in s.history && s.publishes[p].hash !in s.published)
    && (forall t, u :: t in s.seeds && u in s.seeds && t != u && !s.seeds[t].Adding? && !s.seeds[u].Adding? ==>
          s.seeds[t].hash != s.seeds[u].hash)
    && (forall t, p :: t in s.seeds && !s.seeds[t].Adding? && p in s.publishes ==> s.seeds[t].hash != s.publishes[p].hash)
    && (forall p, q :: p in s.publishes && q in s.publishes && p != q ==> s.publishes[p].hash != s.publishes[q].hash)
    && Distinct(s.published) && (forall h :: h in s.published ==> h in s.history)
  }

  lemma {:induction false} PrefixDistinct(a: seq<Hash>, b: seq<Hash>)
    requires Distinct(a + b)
    ensures Distinct(a)
  {
    forall i, j | 0 <= i < j < |a| ensures a[i] != a[j] { assert (a + b)[i] != (a + b)[j]; }
  }

  lemma {:induction false} NewIsFresh(a: seq<Hash>, h: Hash)
    requires Distinct(a + [h])
    ensures h !in a
  {
    forall i | 0 <= i < |a| ensures a[i] != h { assert (a + [h])[i] != (a + [h])[|a|]; }
  }

  lemma {:induction false} SeedsKeepOnce(s: State, step: Step)
    requires OnceUnderWay(s) && After(s, step).Some? && Distinct(After(s, step).value.history)
    requires step.SeedLocks? || step.SeedFails? || step.SeedStores? || step.SeedUnlocks? || step.SeedQueues?
    ensures OnceUnderWay(After(s, step).value)
  {
    var s' := After(s, step).value;
    if step.SeedStores? {
      NewIsFresh(s.history, step.hash);
      assert s'.history[|s.history|] == step.hash;
      assert forall h :: h in s.history ==> h in s'.history && h != step.hash;
      assert step.hash in s'.history;
    }
  }

  lemma {:induction false} EndingKeepsOnce(s: State, p: Task, ok: bool)
    requires OnceUnderWay(s) && After(s, PublishEnds(p, ok)).Some?
    ensures OnceUnderWay(After(s, PublishEnds(p, ok)).value)
  {
    var s' := After(s, PublishEnds(p, ok)).value;
    assert forall h :: h in s'.published ==> h in s.published || h == s.publishes[p].hash;
  }

  lemma {:induction false} PublishesKeepOnce(s: State, step: Step)
    requires OnceUnderWay(s) && After(s, step).Some?
    requires step.PublishLocks? || step.PublishReads? || step.PushFails? || step.PublishSends?
    ensures OnceUnderWay(After(s, step).value)
  {
    var s', p := After(s, step).value, step.p;
    assert s'.published == s.published && s'.history == s.history && s'.seeds == s.seeds;
    assert forall q :: q in s'.publishes ==> q in s.publishes && s'.publishes[q].hash == s.publishes[q].hash;
  }

  lemma {:induction false} RunKeepsOnce(s: State, steps: seq<Step>)
    requires OnceUnderWay(s) && Run(s, steps).Some? && Distinct(Run(s, steps).value.history)
    ensures OnceUnderWay(Run(s, steps).value)
    decreases |steps|
  {
    if steps != [] {
      var s' := After(s, steps[0]).value;
      HistoryGrows(s', steps[1..]);
      PrefixDistinct(s'.history, StoredBy(steps[1..]));
      match steps[0]
      case PublishEnds(p, ok) => EndingKeepsOnce(s, p, ok); RunKeepsOnce(s', steps[1..]);
      case PublishLocks(_) => PublishesKeepOnce(s, steps[0]); RunKeepsOnce(s', steps[1..]);
      case PublishReads(_) => PublishesKeepOnce(s, steps[0]); RunKeepsOnce(s', steps[1..]);
      case PushFails(_) => PublishesKeepOnce(s, steps[0]); RunKeepsOnce(s', steps[1..]);
      case PublishSends(_) => PublishesKeepOnce(s, steps[0]); RunKeepsOnce(s', steps[1..]);
      case _ => SeedsKeepOnce(s, steps[0]); RunKeepsOnce(s', steps[1..]);
    }
  }

  /** What the calls of a run stored, one after the other. */
  function StoredBy(steps: seq<Step>): seq<Hash> {
    if steps == [] then []
    else (if steps[0].SeedStores? then [steps[0].hash] else []) + StoredBy(steps[1..])
  }

  function Successes(steps: seq<Step>): nat {
    if steps == [] then 0 else (if steps[0].PublishEnds? && steps[0].ok then 1 else 0) + Successes(steps[1..])
  }

  lemma {:induction false} HistoryGrows(s: State, steps: seq<Step>)
    requires Run(s, steps).Some?
    ensures Run(s, steps).value.history == s.history + StoredBy(steps)
    ensures |Run(s, steps).value.published| == |s.published| + Successes(steps)
    decreases |steps|
  {
    if steps != [] {
      var s' := After(s, steps[0]).value;
      HistoryGrows(s', steps[1..]);
      assert s'.history == s.history + if steps[0].SeedStores? then [steps[0].hash] else [];
    }
  }

  /** The root hash is always the last one a call stored, one publication is recorded for each that
      succeeded, and where no hash was stored twice none is published twice: each publication reads a
      later value of the root hash than the one before. */
  lemma {:induction false} PublishedOnce(root: Hash, steps: seq<Step>)
    requires Run(Start(root), steps).Some?
    ensures var s := Run(Start(root), steps).value;
            s.history == [root] + StoredBy(steps) && s.root == s.history[|s.history| - 1] &&
            |s.published| == |s.readAt| == 1 + Successes(steps) &&
            (Distinct([root] + StoredBy(steps)) ==>
               Distinct(s.published) && forall i, j :: 0 <= i < j < |s.readAt| ==> s.readAt[i] < s.readAt[j])
  {
    HistoryGrows(Start(root), steps);
    RunKeepsInv(Start(root), steps);
    if Distinct([root] + StoredBy(steps)) {
      RunKeepsOnce(Start(root), steps);
      ReadsAdvance(Run(Start(root), steps).value);
    }
  }

  lemma {:induction false} ReadsAdvance(s: State)
    requires InOrder(s.history, s.published, s.readAt) && Distinct(s.published)
    ensures forall i, j :: 0 <= i < j < |s.readAt| ==> s.readAt[i] < s.readAt[j]
  {
    forall i, j | 0 <= i < j < |s.readAt| ensures s.readAt[i] < s.readAt[j] {
      assert s.published[i] == s.history[s.readAt[i]] && s.published[j] == s.history[s.readAt[j]];
    }
  }

  predicate PublicationFails(step: Step) {
    step.PushFails? || (step.PublishEnds? && !step.ok)
  }

  /** The run counts as failed only after a publication failed with no hash stored since. */
  lemma {:induction false} FailedMeansFailed(s: State, steps: seq<Step>)
    requires Run(s, steps).Some? && Run(s, steps).value.failed && !s.failed
    ensures exists i :: 0 <= i < |steps| && PublicationFails(steps[i]) && StoredBy(steps[i..]) == []
    decreases |steps|
  {
    if steps != [] {
      var s' := After(s, steps[0]).value;
      if s'.failed {
        if StoredBy(steps) == [] {
          assert steps[0..] == steps;
        } else {
          assert !steps[0].SeedStores?;
          StoringClears(s', steps[1..]);
          var j :| 0 <= j < |steps[1..]| && PublicationFails(steps[1..][j]) && StoredBy(steps[1..][j..]) == [];
          assert steps[1..][j..] == steps[j + 1..];
        }
      } else {
        FailedMeansFailed(s', steps[1..]);
        var j :| 0 <= j < |steps[1..]| && PublicationFails(steps[1..][j]) && StoredBy(steps[1..][j..]) == [];
        assert steps[1..][j..] == steps[j + 1..];
      }
    }
  }

  lemma {:induction false} StoringClears(s: State, steps: seq<Step>)
    requires Run(s, steps).Some? && Run(s, steps).value.failed && StoredBy(steps) != []
    ensures exists i :: 0 <= i < |steps| && PublicationFails(steps[i]) && StoredBy(steps[i..]) == []
    decreases |steps|
  {
    var s' := After(s, steps[0]).value;
    if !s'.failed {
      FailedMeansFailed(s', steps[1..]);
    } else {
      StoringClears(s', steps[1..]);
    }
    var j :| 0 <= j < |steps[1..]| && PublicationFails(steps[1..][j]) && StoredBy(steps[1..][j..]) == [];
    assert steps[1..][j..] == steps[j + 1..];
  }

  /** In every interleaving: the published hashes are values of the root hash, read at times that never
      go back, and once all is quiet the last one is the present root hash, unless a publication has
      failed since the last hash was stored. */
  lemma {:induction false} PublishingConverges(root: Hash, steps: seq<Step>)
    requires Run(Start(root), steps).Some?
    ensures var s := Run(Start(root), steps).value;
            s.history != [] && s.history[|s.history| - 1] == s.root &&
            InOrder(s.history, s.published, s.readAt) &&
            (Quiet(s) && !(exists i :: 0 <= i < |steps| && PublicationFails(steps[i]) && StoredBy(steps[i..]) == []) ==>
               s.published[|s.published| - 1] == s.root)
  {
    RunKeepsInv(Start(root), steps);
    if Run(Start(root), steps).value.failed { FailedMeansFailed(Start(root), steps); }
  }

  lemma {:induction false} TwoSteps(s: State, a: Step, b: Step)
    requires After(s, a).Some?
    ensures Run(s, [a, b]) == After(After(s, a).value, b)
  {
    var s' := After(s, a).value;
    assert [a, b][1..] == [b] && [b][1..] == [];
    assert After(s', b).Some? ==> Run(After(s', b).value, []) == After(s', b);
    assert Run(s', [b]) == After(s', b);
  }

  /** Whenever the seed lock is free a new call can take it; if the call then fails, all is as before. */
  lemma {:induction false} FailedCallLeavesNoTrace(s: State, t: Task)
    requires t !in s.seeds && s.seedLock.None?
    ensures Run(s, [SeedLocks(t), SeedFails(t)]) == Some(s)
  {
    TwoSteps(s, SeedLocks(t), SeedFails(t));
    assert s.seeds[t := Adding] - {t} == s.seeds;
  }

  lemma {:induction false} OneCallQueues(root: Hash, hash: Hash) returns (steps: seq<Step>)
    ensures Run(Start(root), steps) ==
            Some(Start(root).(root := hash, history := [root] + [hash], publishes := map[0 := Queued(hash)]))
  {
    var s := Start(root);
    var s1 := After(s, SeedLocks(0)).value;
    assert s1.seeds == map[0 := Adding];
    var s2 := After(s1, SeedStores(0, hash)).value;
    assert s2.seeds == map[0 := Stored(hash)];
    TwoSteps(s, SeedLocks(0), SeedStores(0, hash));
    var s3 := After(s2, SeedUnlocks(0)).value;
    assert s3.seeds == map[0 := Unlocked(hash)];
    assert s3.seeds - {0} == map[] && s3.publishes[0 := Queued(hash)] == map[0 := Queued(hash)];
    TwoSteps(s2, SeedUnlocks(0), SeedQueues(0, 0));
    RunOn(s, [SeedLocks(0), SeedStores(0, hash)], [SeedUnlocks(0), SeedQueues(0, 0)]);
    steps := [SeedLocks(0), SeedStores(0, hash)] + [SeedUnlocks(0), SeedQueues(0, 0)];
  }

  lemma {:induction false} QueuedIsPublished(s: State, hash: Hash) returns (steps: seq<Step>)
    requires s.publishes == map[0 := Queued(hash)] && s.publishLock.None? && s.root == hash && s.inflight == 0
    ensures Run(s, steps) == Some(s.(publishes := map[], published := s.published + [hash], readAt := s.readAt + [Newest(s.history)]))
  {
    var s1 := After(s, PublishLocks(0)).value;
    assert s1.publishes == map[0 := Locked(hash)];
    var s2 := After(s1, PublishReads(0)).value;
    assert s2.publishes == map[0 := Current(hash, Newest(s.history))];
    TwoSteps(s, PublishLocks(0), PublishReads(0));
    var s3 := After(s2, PublishSends(0)).value;
    assert s3.publishes == map[0 := InFlight(hash, Newest(s.history))];
    assert s3.publishes - {0} == map[];
    TwoSteps(s2, PublishSends(0), PublishEnds(0, true));
    RunOn(s, [PublishLocks(0), PublishReads(0)], [PublishSends(0), PublishEnds(0, true)]);
    steps := [PublishLocks(0), PublishReads(0)] + [PublishSends(0), PublishEnds(0, true)];
  }

  /** From the start one undisturbed call gets its hash published, and leaves nothing behind. */
  lemma {:induction false} OneCallPublishes(root: Hash, hash: Hash) returns (steps: seq<Step>)
    ensures Run(Start(root), steps).Some?
    ensures var s := Run(Start(root), steps).value;
            s.root == hash && s.published == [root, hash] && s.history == [root, hash] && !s.failed &&
            s.seeds == map[] && s.publishes == map[] && s.seedLock.None? && s.publishLock.None? && s.inflight == 0
  {
    var queues := OneCallQueues(root, hash);
    var publishes := QueuedIsPublished(Run(Start(root), queues).value, hash);
    RunOn(Start(root), queues, publishes);
    steps := queues + publishes;
  }

  lemma {:induction false} RunOn(s: State, a: seq<Step>, b: seq<Step>)
    requires Run(s, a).Some?
    ensures Run(s, a + b) == Run(Run(s, a).value, b)
    decreases |a|
  {
    if a == [] {
      assert a + b == b;
    } else {
      assert (a + b)[1..] == a[1..] + b;
      RunOn(After(s, a[0]).value, a[1..], b);
    }
  }

  /** A publication that holds the lock and whose hash is no longer the root hash ends there: nothing is
      published, the lock is free and everything else is as it was. One that is present goes on. */
  lemma {:induction false} StaleIsDropped(s: State, p: Task)
    requires p in s.publishes && s.publishes[p].Locked?
    ensures After(s, PublishReads(p)).Some?
    ensures var s' := After(s, PublishReads(p)).value;
            s'.published == s.published && s'.root == s.root && s'.seeds == s.seeds && s'.failed == s.failed &&
            (forall q :: q in s.publishes && q != p ==> q in s'.publishes && s'.publishes[q] == s.publishes[q]) &&
            (if s.publishes[p].hash == s.root then p in s'.publishes && s'.publishes[p].Current? && s'.publishes[p].hash == s.root
             else p !in s'.publishes && s'.publishLock == None)
  {
  }

  // ---------- it also gets there ----------

  function SeedWork(s: Seeding): nat {
    if s.Adding? then 7 else if s.Stored? then 6 else 5
  }

  function PublishWork(p: Publish): nat {
    if p.Queued? then 4 else if p.Locked? then 3 else if p.Current? then 2 else 1
  }

  ghost function Sum(m: map<Task, nat>): nat {
    if m == map[] then 0
    else
      var t :| t in m;
      m[t] + Sum(m - {t})
  }

  lemma {:induction false} SumWithout(m: map<Task, nat>, t: Task)
    requires t in m
    ensures Sum(m) == m[t] + Sum(m - {t})
  {
    var u :| u in m && Sum(m) == m[u] + Sum(m - {u});
    if u != t {
      SumWithout(m - {u}, t);
      SumWithout(m - {t}, u);
      assert m - {u} - {t} == m - {t} - {u};
    }
  }

  lemma {:induction false} SumUpdate(m: map<Task, nat>, t: Task, n: nat)
    ensures Sum(m[t := n]) == n + Sum(m - {t})
  {
    SumWithout(m[t := n], t);
    assert m[t := n] - {t} == m - {t};
  }

  lemma {:induction false} LessAtOne(m: map<Task, nat>, t: Task, n: nat)
    requires t in m
    ensures Sum(m[t := n]) + m[t] == Sum(m) + n
    ensures Sum(m - {t}) + m[t] == Sum(m)
  {
    SumWithout(m, t);
    SumUpdate(m, t, n);
  }

  ghost function Seeds(s: State): map<Task, nat> {
    map t | t in s.seeds :: SeedWork(s.seeds[t])
  }

  ghost function Publishes(s: State): map<Task, nat> {
    map p | p in s.publishes :: PublishWork(s.publishes[p])
  }

  /** Sub-steps that calls made so far can still take. */
  ghost function Work(s: State): nat {
    Sum(Seeds(s)) + Sum(Publishes(s))
  }

  lemma {:induction false} SeedStepWorks(s: State, step: Step)
    requires After(s, step).Some? && (step.SeedFails? || step.SeedStores? || step.SeedUnlocks?)
    ensures Work(After(s, step).value) < Work(s)
  {
    var s', t := After(s, step).value, step.t;
    assert Publishes(s') == Publishes(s);
    if t in s'.seeds {
      LessAtOne(Seeds(s), t, SeedWork(s'.seeds[t]));
      assert Seeds(s') == Seeds(s)[t := SeedWork(s'.seeds[t])];
    } else {
      LessAtOne(Seeds(s), t, 0);
      assert Seeds(s') == Seeds(s) - {t};
    }
  }

  lemma {:induction false} QueueStepWorks(s: State, t: Task, p: Task)
    requires After(s, SeedQueues(t, p)).Some?
    ensures Work(After(s, SeedQueues(t, p)).value) < Work(s)
  {
    var s' := After(s, SeedQueues(t, p)).value;
    LessAtOne(Seeds(s), t, 0);
    assert Seeds(s') == Seeds(s) - {t};
    SumUpdate(Publishes(s), p, 4);
    assert Publishes(s') == Publishes(s)[p := 4] && Publishes(s) - {p} == Publishes(s);
  }

  lemma {:induction false} PublishGone(s: State, s': State, p: Task)
    requires s'.seeds == s.seeds && p in s.publishes && s'.publishes == s.publishes - {p}
    ensures Work(s') < Work(s)
  {
    LessAtOne(Publishes(s), p, 0);
    assert Seeds(s') == Seeds(s) && Publishes(s') == Publishes(s) - {p};
  }

  lemma {:induction false} PublishAdvances(s: State, s': State, p: Task, next: Publish)
    requires s'.seeds == s.seeds && p in s.publishes && s'.publishes == s.publishes[p := next]
    requires PublishWork(next) < PublishWork(s.publishes[p])
    ensures Work(s') < Work(s)
  {
    LessAtOne(Publishes(s), p, PublishWork(next));
    assert Seeds(s') == Seeds(s) && Publishes(s') == Publishes(s)[p := PublishWork(next)];
  }

  lemma {:induction false} PublishStepWorks(s: State, step: Step)
    requires After(s, step).Some?
    requires step.PublishLocks? || step.PublishReads? || step.PushFails? || step.PublishSends? || step.PublishEnds?
    ensures Work(After(s, step).value) < Work(s)
  {
    var s', p := After(s, step).value, step.p;
    if p in s'.publishes {
      PublishAdvances(s, s', p, s'.publishes[p]);
    } else {
      PublishGone(s, s', p);
    }
  }

  lemma {:induction false} StepWorks(s: State, step: Step)
    requires After(s, step).Some? && !NewCall(step)
    ensures Work(After(s, step).value) < Work(s)
  {
    match step
    case SeedQueues(t, p) => QueueStepWorks(s, t, p);
    case SeedFails(_) => SeedStepWorks(s, step);
    case SeedStores(_, _) => SeedStepWorks(s, step);
    case SeedUnlocks(_) => SeedStepWorks(s, step);
    case _ => PublishStepWorks(s, step);
  }

  predicate NewCall(step: Step) {
    step.SeedLocks?
  }

  predicate Error(step: Step) {
    step.SeedFails? || PublicationFails(step)
  }

  /** With work left some sub-step is possible that is neither a new call nor an error: the two locks
      never block each other. */
  lemma {:induction false} NeverStuck(s: State) returns (step: Step)
    requires Locks(s) && (s.seeds != map[] || s.publishes != map[])
    ensures After(s, step).Some? && !NewCall(step) && !Error(step)
  {
    if s.publishes != map[] {
      if s.publishLock.Some? {
        var p := s.publishLock.value;
        step := match s.publishes[p]
          case Locked(_) => PublishReads(p)
          case Current(_, _) => PublishSends(p)
          case _ => PublishEnds(p, true);
      } else {
        var p :| p in s.publishes;
        step := PublishLocks(p);
      }
    } else {
      var t :| t in s.seeds;
      step := match s.seeds[t]
        case Adding => SeedStores(t, s.root)
        case Stored(_) => SeedUnlocks(t)
        case Unlocked(_) => SeedQueues(t, 0);
    }
  }

  /** Without new calls every run is short. */
  lemma {:induction false} RunsAreShort(s: State, steps: seq<Step>)
    requires Run(s, steps).Some? && forall step :: step in steps ==> !NewCall(step)
    ensures |steps| + Work(Run(s, steps).value) <= Work(s)
    decreases |steps|
  {
    if steps != [] {
      assert steps[0] in steps;
      StepWorks(s, steps[0]);
      RunsAreShort(After(s, steps[0]).value, steps[1..]);
    }
  }

  /** A run without errors or new calls that cannot go on has published the present root hash. */
  lemma {:induction false} ErrorFreeRunsPublish(s: State, steps: seq<Step>)
    requires Inv(s) && !s.failed && Run(s, steps).Some?
    requires forall step :: step in steps ==> !NewCall(step) && !Error(step)
    requires forall step :: After(Run(s, steps).value, step).Some? ==> NewCall(step) || Error(step)
    ensures var last := Run(s, steps).value;
            last.seeds == map[] && last.publishes == map[] &&
            |last.published| > 0 && last.published[|last.published| - 1] == last.root
    decreases |steps|
  {
    if steps == [] {
      if s.seeds != map[] || s.publishes != map[] { var step := NeverStuck(s); }
    } else {
      assert steps[0] in steps;
      StepKeepsInv(s, steps[0]);
      ErrorFreeRunsPublish(After(s, steps[0]).value, steps[1..]);
    }
  }
}
