/**
 * The player controller: routes user actions to the catalogue, the
 * profile and the ranking, counts logged actions toward a periodic
 * retraining of the similarity weights, and loads songs into the ranking.
 */
module Player {
  import opened Wrappers
  import opened Features
  import opened Songs
  import opened Profile
  import opened Similarity
  import opened SplayTree
  import opened Ranking
  import opened Registry
  import opened Actions
  import opened ActionPolicy

  // ---------------------------------------------------------------------
  // The retraining counter
  // ---------------------------------------------------------------------

  /** The number of logged actions after which the weights are retrained, unless set otherwise. */
  const DefaultRetrainEvery: int := 20

  /** The soft-reset factor a "not interested" action applies to the profile. */
  const NotInterestedReset: real := 0.1

  /** Whether logging one more action, with `c` logged since the last retrain, triggers a retrain. */
  predicate RetrainDue(c: int, every: int)
  {
    c + 1 >= every
  }

  /** The counter after logging one more action. */
  function NextCounter(c: int, every: int): (next: int)
    ensures c >= 0 ==> next >= 0
    ensures c >= 0 && every >= 1 ==> next < every
  {
    if RetrainDue(c, every) then 0 else c + 1
  }

  /** The counter after `k` actions, starting from 0. */
  function CounterAfter(k: nat, every: int): int
  {
    if k == 0 then 0 else NextCounter(CounterAfter(k - 1, every), every)
  }

  /** The number of retrains in the first `k` actions, starting from 0. */
  function RetrainsAfter(k: nat, every: int): nat
  {
    if k == 0 then 0
    else RetrainsAfter(k - 1, every) + (if RetrainDue(CounterAfter(k - 1, every), every) then 1 else 0)
  }

  /**
   * With a batch size of at least one, the counter cycles: after `k`
   * actions it is `k % every`, and there have been `k / every` retrains.
   */
  lemma CounterCycles(k: nat, every: int)
    requires every >= 1
    ensures CounterAfter(k, every) == k % every
    ensures RetrainsAfter(k, every) == k / every
  {
    CounterCyclesFrom(k, k / every, k % every, every);
  }

  /** After `q` full batches and `r` more actions, `k` in all, the counter is `r`, with `q` retrains. */
  lemma {:induction false} CounterCyclesFrom(k: nat, q: nat, r: nat, every: int)
    requires every >= 1 && r < every && k == q * every + r
    ensures CounterAfter(k, every) == r
    ensures RetrainsAfter(k, every) == q
    decreases k
  {
    if r > 0 {
      CounterCyclesFrom(k - 1, q, r - 1, every);
    } else if q > 0 {
      assert k - 1 == (q - 1) * every + (every - 1);
      CounterCyclesFrom(k - 1, q - 1, every - 1, every);
    }
  }

  /** With a batch size of zero or less, every action retrains and the counter stays at 0. */
  lemma NonPositiveBatchRetrainsAlways(k: nat, every: int)
    requires every <= 0
    ensures CounterAfter(k, every) == 0
    ensures RetrainsAfter(k, every) == k
  {
  }

  // ---------------------------------------------------------------------
  // Ingesting songs
  // ---------------------------------------------------------------------

  /** The songs of the catalogue `m` filed under the ids of `ids`, in order; unknown ids are dropped. */
  function Registered(ids: seq<string>, m: map<string, Song>): (r: seq<Song>)
    ensures |r| <= |ids|
  {
    if |ids| == 0 then []
    else
      var last := ids[|ids| - 1];
      Registered(ids[..|ids| - 1], m) + (if last in m then [m[last]] else [])
  }

  /** Every song collected is filed under one of the ids, and an unknown id yields nothing. */
  lemma {:induction false} RegisteredFromIds(ids: seq<string>, m: map<string, Song>)
    ensures forall j :: 0 <= j < |Registered(ids, m)| ==>
      exists i :: 0 <= i < |ids| && ids[i] in m && Registered(ids, m)[j] == m[ids[i]]
    ensures (forall i :: 0 <= i < |ids| ==> ids[i] !in m) ==> Registered(ids, m) == []
  {
    if |ids| > 0 {
      var front := ids[..|ids| - 1];
      RegisteredFromIds(front, m);
      var r := Registered(ids, m);
      var rf := Registered(front, m);
      assert r == rf + (if ids[|ids| - 1] in m then [m[ids[|ids| - 1]]] else []);
      forall j | 0 <= j < |r|
        ensures exists i :: 0 <= i < |ids| && ids[i] in m && r[j] == m[ids[i]]
      {
        if j < |rf| {
          assert r[j] == rf[j];
          var i :| 0 <= i < |front| && front[i] in m && rf[j] == m[front[i]];
          assert ids[i] == front[i];
          assert 0 <= i < |ids| && ids[i] in m && r[j] == m[ids[i]];
        } else {
          var i := |ids| - 1;
          assert 0 <= i < |ids| && ids[i] in m && r[j] == m[ids[i]];
        }
      }
      if forall i :: 0 <= i < |ids| ==> ids[i] !in m {
        assert forall i :: 0 <= i < |front| ==> front[i] == ids[i];
      }
    } else {
      assert Registered(ids, m) == [];
    }
  }

  /** The number of preload ids the bounded ingest visits: the check comes after each visit. */
  function IngestCount(n: nat, k: nat): (c: nat)
  {
    if n == 0 then 0
    else if k <= 1 then 1
    else if k < n then k
    else n
  }

  /** At most max(k, 1) ids are visited, all of them when the list is short enough, and at least one when any exists. */
  lemma IngestCountBounds(n: nat, k: nat)
    ensures IngestCount(n, k) <= n
    ensures IngestCount(n, k) <= if k == 0 then 1 else k
    ensures n > 0 ==> IngestCount(n, k) >= 1
    ensures k >= n ==> IngestCount(n, k) == n
    ensures n > 0 && k == 0 ==> IngestCount(n, k) == 1
  {
  }

  /** The song filed under `id`, as a multiset of at most one element. */
  function Found(id: string, m: map<string, Song>): multiset<Song>
  {
    if id in m then multiset{m[id]} else multiset{}
  }

  /** Collecting one more id appends that id's song, if the catalogue has one. */
  lemma RegisteredSnoc(ids: seq<string>, c: nat, m: map<string, Song>)
    requires c < |ids|
    ensures Registered(ids[..c + 1], m) == Registered(ids[..c], m) + (if ids[c] in m then [m[ids[c]]] else [])
  {
    assert ids[..c + 1][..c] == ids[..c];
  }

  /**
   * One step of the bounded ingest on the tree alone: when the insertion of
   * `ids[c]`'s song compared by a key that agrees with `key` on the songs
   * involved, the tree is the fold of insertions one id further on.
   */
  lemma IngestStep(t0: Tree<Song>, ids: seq<string>, c: nat, m: map<string, Song>,
                   before: Tree<Song>, after: Tree<Song>, used: Song -> int, key: Song -> int)
    requires c < |ids|
    requires before == InsertEach(t0, Registered(ids[..c], m), key)
    requires ids[c] !in m ==> after == before
    requires ids[c] in m ==>
      AgreeOn(used, key, Elements(before) + {m[ids[c]]}) &&
      after == Splay(SplayTree.Insert(before, m[ids[c]], used), used(m[ids[c]]), used)
    ensures after == InsertEach(t0, Registered(ids[..c + 1], m), key)
    ensures Elements(after) <= Elements(before) + m.Values
  {
    var done := Registered(ids[..c], m);
    RegisteredSnoc(ids, c, m);
    if ids[c] in m {
      var s := m[ids[c]];
      assert s in m.Values;
      InsertSplayCongruent(before, s, used, key);
      InsertEachSnoc(t0, done, s, key);
    } else {
      assert done + [] == done;
    }
  }

  // ---------------------------------------------------------------------
  // The controller
  // ---------------------------------------------------------------------

  class PlayerController {
    const registry: SongRegistry
    const profile: UserProfile
    const tree: SongSplay
    /** Actions logged since the last retrain. */
    var logCounter: int
    var retrainEvery: int
    /** Track ids to load into the ranking at start-up, set by the caller. */
    var preloadIds: seq<string>
    /** How many times a retraining of the weights has been started. */
    ghost var retrains: nat

    ghost predicate Valid()
      reads this, registry, tree
    {
      registry.Valid() && tree.Valid() && tree.profile == profile && logCounter >= 0
    }

    /**
     * A controller over `registry` with a fresh profile and an empty
     * ranking that scores by the similarity of `engine`.
     */
    constructor(registry: SongRegistry, engine: Engine, squash: int -> real)
      requires registry.Valid()
      ensures Valid()
      ensures this.registry == registry && fresh(profile) && fresh(tree)
      ensures profile.avg[..] == ZeroVector && !profile.seeded && profile.totalInteractions == 0
      ensures tree.root == Leaf && tree.sim == MlSimilarity(engine) && tree.squash == squash
      ensures logCounter == 0 && retrainEvery == DefaultRetrainEvery && preloadIds == [] && retrains == 0
    {
      this.registry := registry;
      var p := new UserProfile();
      profile := p;
      tree := new SongSplay(p, MlSimilarity(engine), squash);
      logCounter := 0;
      retrainEvery := DefaultRetrainEvery;
      preloadIds := [];
      retrains := 0;
    }

    /** Set the number of logged actions between retrains. */
    method SetRetrainBatch(n: int)
      requires Valid()
      modifies this
      ensures Valid()
      ensures retrainEvery == n
      ensures logCounter == old(logCounter) && retrains == old(retrains) && preloadIds == old(preloadIds)
    {
      retrainEvery := n;
    }

    /**
     * React to action `a` on the song with id `trackId`. An unknown id
     * changes nothing. "Not interested" clears the song's feedback score and
     * pulls the profile toward neutral without touching the ranking; every
     * other action promotes the song by the action's delta. A known id then
     * counts one logged action, and a full batch starts a retrain and
     * restarts the count. `key` is the key the promotion splays with.
     */
    method OnAction(trackId: string, a: Action) returns (ghost key: Song -> int)
      requires Valid()
      modifies this, tree, profile, profile.avg, registry.byId.Values
      ensures Valid()
      ensures retrainEvery == old(retrainEvery) && preloadIds == old(preloadIds)
      ensures trackId !in registry.byId ==>
        logCounter == old(logCounter) && retrains == old(retrains) && tree.root == old(tree.root) &&
        profile.avg[..] == old(profile.avg[..]) && profile.seeded == old(profile.seeded) &&
        profile.totalInteractions == old(profile.totalInteractions)
      ensures forall x :: x in registry.byId.Values && x != registry.Get(trackId) ==>
        x.userScore == old(x.userScore)
      ensures trackId in registry.byId ==>
        logCounter == NextCounter(old(logCounter), retrainEvery) &&
        retrains == old(retrains) + (if RetrainDue(old(logCounter), retrainEvery) then 1 else 0)
      ensures trackId in registry.byId && a == NotInterested ==>
        var s := registry.byId[trackId];
        s.userScore == 0 && tree.root == old(tree.root) &&
        profile.avg[..] == SoftResetOf(old(profile.avg[..]), NotInterestedReset) &&
        profile.seeded == old(profile.seeded) && profile.totalInteractions == old(profile.totalInteractions)
      ensures trackId in registry.byId && a != NotInterested ==>
        var s := registry.byId[trackId];
        s.userScore == old(s.userScore) + Delta(a) &&
        (Delta(a) >= 0 ==>
          profile.avg[..] == NextAverage(old(profile.avg[..]), old(profile.seeded), NormalizedFeatures(s.info.features), Delta(a)) &&
          profile.seeded && profile.totalInteractions == old(profile.totalInteractions) + 1) &&
        (Delta(a) < 0 ==>
          profile.avg[..] == old(profile.avg[..]) && profile.seeded == old(profile.seeded) &&
          profile.totalInteractions == old(profile.totalInteractions)) &&
        tree.CurrentKey(key, Elements(old(tree.root)) + {s}) &&
        tree.root == Splay(old(tree.root), key(s), key) && Inorder(tree.root) == Inorder(old(tree.root))
    {
      key := x => 0;
      var s := registry.Get(trackId);
      if s == null {
        return;
      }
      SongsAllocated(tree.root);
      key := React(s, a);
      CountAction();
    }

    /** Log one action: a full batch starts a retrain and restarts the count. */
    method CountAction()
      requires Valid()
      modifies this
      ensures Valid()
      ensures logCounter == NextCounter(old(logCounter), retrainEvery)
      ensures retrains == old(retrains) + (if RetrainDue(old(logCounter), retrainEvery) then 1 else 0)
      ensures retrainEvery == old(retrainEvery) && preloadIds == old(preloadIds)
    {
      logCounter := logCounter + 1;
      if logCounter >= retrainEvery {
        // The retraining itself runs outside this program; only its start is recorded.
        retrains := retrains + 1;
        logCounter := 0;
      }
    }

    /**
     * The effect of action `a` on song `s`: "not interested" clears its
     * feedback score and pulls the profile toward neutral, leaving the
     * ranking alone; every other action promotes the song by the action's
     * delta. `key` is the key the promotion splays with.
     */
    method React(s: Song, a: Action) returns (ghost key: Song -> int)
      requires Valid()
      modifies s, tree, profile, profile.avg
      ensures Valid()
      ensures a == NotInterested ==>
        s.userScore == 0 && tree.root == old(tree.root) &&
        profile.avg[..] == SoftResetOf(old(profile.avg[..]), NotInterestedReset) &&
        profile.seeded == old(profile.seeded) && profile.totalInteractions == old(profile.totalInteractions)
      ensures a != NotInterested ==>
        s.userScore == old(s.userScore) + Delta(a) &&
        (Delta(a) >= 0 ==>
          profile.avg[..] == NextAverage(old(profile.avg[..]), old(profile.seeded), NormalizedFeatures(s.info.features), Delta(a)) &&
          profile.seeded && profile.totalInteractions == old(profile.totalInteractions) + 1) &&
        (Delta(a) < 0 ==>
          profile.avg[..] == old(profile.avg[..]) && profile.seeded == old(profile.seeded) &&
          profile.totalInteractions == old(profile.totalInteractions)) &&
        tree.CurrentKey(key, Elements(old(tree.root)) + {s}) &&
        tree.root == Splay(old(tree.root), key(s), key) && Inorder(tree.root) == Inorder(old(tree.root))
    {
      key := x => 0;
      var d := Delta(a);
      if a == NotInterested {
        s.userScore := 0;
        profile.SoftReset(NotInterestedReset);
      } else {
        key := tree.Promote(s, d);
      }
    }

    /** Insert the song filed under `id` into the ranking, when there is one. */
    method IngestSong(id: string) returns (ghost key: Song -> int)
      requires Valid()
      modifies tree
      ensures Valid()
      ensures id !in registry.byId ==> tree.root == old(tree.root)
      ensures id in registry.byId ==>
        var s := registry.byId[id];
        tree.CurrentKey(key, Elements(old(tree.root)) + {s}) &&
        tree.root == Splay(SplayTree.Insert(old(tree.root), s, key), key(s), key)
      ensures multiset(Inorder(tree.root)) ==
        multiset(Inorder(old(tree.root))) + Found(id, registry.byId)
    {
      key := x => 0;
      var s := registry.Get(id);
      if s != null {
        ghost var t0 := tree.root;
        key := tree.Insert(s);
        InsertAndSplay(t0, s, key);
      }
    }

    /**
     * Insert the songs of the first preload ids into the ranking, one after
     * the other: the first max(k, 1) ids, or all when there are fewer; ids
     * the catalogue does not know are passed over. No insertion changes a
     * score, so every insertion compares by the same key `key`: the final
     * score of every song held or in the catalogue.
     */
    method IngestFirstK(k: nat) returns (ghost key: Song -> int)
      requires Valid()
      modifies tree
      ensures Valid()
      ensures tree.CurrentKey(key, Elements(old(tree.root)) + registry.byId.Values)
      ensures tree.root == InsertEach(old(tree.root),
        Registered(preloadIds[..IngestCount(|preloadIds|, k)], registry.byId), key)
      ensures multiset(Inorder(tree.root)) == multiset(Inorder(old(tree.root))) +
        multiset(Registered(preloadIds[..IngestCount(|preloadIds|, k)], registry.byId))
      ensures SortedBy(Inorder(old(tree.root)), key) ==> SortedBy(Inorder(tree.root), key)
    {
      var ids := preloadIds;
      ghost var t0 := tree.root;
      ghost var m := registry.byId;
      ghost var songs := Elements(t0) + m.Values;
      SongsAllocated(t0);
      key := tree.KeyOf(songs);
      IngestPrefix(ids, k, t0, songs, key);
      ghost var chosen := Registered(ids[..IngestCount(|ids|, k)], m);
      InsertEachAdds(t0, chosen, key);
      if SortedBy(Inorder(t0), key) {
        InsertEachSorted(t0, chosen, key);
      }
    }

    /**
     * The loop of the bounded ingest: ingest the first `IngestCount(|ids|, k)`
     * ids in order, every insertion comparing by `key`.
     */
    method IngestPrefix(ids: seq<string>, k: nat, ghost t0: Tree<Song>, ghost songs: set<Song>,
                        ghost key: Song -> int)
      requires Valid() && tree.root == t0
      requires registry.byId.Values <= songs && Elements(t0) <= songs
      requires tree.CurrentKey(key, songs)
      modifies tree
      ensures Valid() && tree.CurrentKey(key, songs)
      ensures tree.root == InsertEach(t0, Registered(ids[..IngestCount(|ids|, k)], registry.byId), key)
    {
      ghost var total := IngestCount(|ids|, k);
      ghost var m := registry.byId;
      var c := 0;
      while c < |ids|
        invariant 0 <= c <= total
        invariant c == 0 || c < k
        invariant Valid() && registry.byId == m
        invariant tree.CurrentKey(key, songs)
        invariant Elements(tree.root) <= songs
        invariant tree.root == InsertEach(t0, Registered(ids[..c], m), key)
        decreases |ids| - c
      {
        IngestNext(ids, c, t0, songs, key);
        c := c + 1;
        if c >= k {
          break;
        }
      }
      assert c == total;
    }

    /**
     * One step of the bounded ingest: ingest `ids[c]`. The ranking then
     * holds the insertions of the songs of the first `c + 1` ids under `key`.
     */
    method IngestNext(ids: seq<string>, c: nat, ghost t0: Tree<Song>, ghost songs: set<Song>,
                      ghost key: Song -> int)
      requires Valid() && c < |ids|
      requires registry.byId.Values <= songs && Elements(tree.root) <= songs
      requires tree.CurrentKey(key, songs)
      requires tree.root == InsertEach(t0, Registered(ids[..c], registry.byId), key)
      modifies tree
      ensures Valid() && registry.byId == old(registry.byId) && tree.CurrentKey(key, songs)
      ensures Elements(tree.root) <= songs
      ensures tree.root == InsertEach(t0, Registered(ids[..c + 1], registry.byId), key)
    {
      ghost var m := registry.byId;
      ghost var before := tree.root;
      ghost var used := IngestSong(ids[c]);
      if ids[c] in m {
        assert m[ids[c]] in m.Values;
        tree.CurrentKeysAgree(used, key, Elements(before) + {m[ids[c]]}, songs);
      }
      IngestStep(t0, ids, c, m, before, tree.root, used, key);
    }
  }
}
