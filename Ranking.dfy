/**
 * The ranking: a splay tree of songs keyed by their current final score,
 * re-splayed after every insertion and every feedback change.
 */
module Ranking {
  import opened Wrappers
  import opened Features
  import opened Songs
  import opened Profile
  import opened SplayTree
  import opened Decimal

  /** The label the ranking prints for a song: its track name and current score. */
  function Label(name: string, score: int): string
  {
    name + " (score=" + IntToString(score) + ")"
  }

  /** `f` applied to every element of `s`, in order. */
  function MapSeq<T, U>(s: seq<T>, f: T -> U): (v: seq<U>)
    ensures |v| == |s|
  {
    if |s| == 0 then [] else MapSeq(s[..|s| - 1], f) + [f(s[|s| - 1])]
  }

  /** The `i`-th element of a mapped sequence is `f` of the `i`-th element. */
  lemma {:induction false} MapSeqAt<T, U>(s: seq<T>, f: T -> U, i: int)
    requires 0 <= i < |s|
    ensures MapSeq(s, f)[i] == f(s[i])
    decreases |s|
  {
    if i < |s| - 1 {
      MapSeqAt(s[..|s| - 1], f, i);
    }
  }

  /** Mapping distributes over concatenation. */
  lemma {:induction false} MapSeqConcat<T, U>(a: seq<T>, b: seq<T>, f: T -> U)
    ensures MapSeq(a + b, f) == MapSeq(a, f) + MapSeq(b, f)
    decreases |b|
  {
    if |b| == 0 {
      assert a + b == a;
    } else {
      var init, y := b[..|b| - 1], b[|b| - 1];
      assert b == init + [y];
      assert a + b == (a + init) + [y];
      MapSeqConcat(a, init, f);
      var ab := (a + init) + [y];
      assert ab[..|ab| - 1] == a + init;
    }
  }

  /** The labelling of songs under the key `key`. */
  function LabelFn(key: Song -> int): Song -> string
  {
    (x: Song) => Label(x.info.trackName, key(x))
  }

  /** The labels of a sequence of songs, in order, under the key `key`. */
  function Labels(s: seq<Song>, key: Song -> int): (v: seq<string>)
    ensures |v| == |s|
  {
    MapSeq(s, LabelFn(key))
  }

  /** The `i`-th label is the label of the `i`-th song. */
  lemma LabelsAt(s: seq<Song>, key: Song -> int, i: int)
    requires 0 <= i < |s|
    ensures Labels(s, key)[i] == Label(s[i].info.trackName, key(s[i]))
  {
    MapSeqAt(s, LabelFn(key), i);
  }

  class SongSplay {
    var root: Tree<Song>
    const profile: UserProfile
    /** The content-similarity function every key computation uses. */
    const sim: SimFn
    /** The squashing of a feedback score into [0,1]. */
    const squash: int -> real

    predicate Valid()
    {
      profile.Valid()
    }

    /** An empty ranking over the given profile. */
    constructor(profile: UserProfile, sim: SimFn, squash: int -> real)
      requires profile.Valid()
      ensures Valid() && root == Leaf
      ensures this.profile == profile && this.sim == sim && this.squash == squash
    {
      root := Leaf;
      this.profile := profile;
      this.sim := sim;
      this.squash := squash;
    }

    /** `key` gives every song in `songs` its final score under the current state. */
    ghost predicate CurrentKey(key: Song -> int, songs: set<Song>)
      requires Valid()
      reads songs, profile, profile.avg
    {
      forall x :: x in songs ==>
        key(x) == x.Score(profile.GetAverage(), profile.totalInteractions, Some(sim), squash)
    }

    /**
     * A snapshot of the ranking key of every song in `songs` under the
     * profile's current state: its final score. Songs outside `songs` get key 0.
     */
    function KeyOf(songs: set<Song>): (key: Song -> int)
      requires Valid()
      reads songs, profile, profile.avg
      ensures CurrentKey(key, songs)
    {
      var avg := profile.GetAverage();
      var m := map x | x in songs :: x.Score(avg, profile.totalInteractions, Some(sim), squash);
      x => if x in m then m[x] else 0
    }

    /** Two keys that both give the current scores agree on the songs they both cover. */
    lemma CurrentKeysAgree(k1: Song -> int, k2: Song -> int, a: set<Song>, b: set<Song>)
      requires Valid() && a <= b && CurrentKey(k1, a) && CurrentKey(k2, b)
      ensures AgreeOn(k1, k2, a)
    {
    }

    /**
     * Insert `s` as a new leaf by its current key and splay toward that key.
     * `key` is the key every comparison uses: the final score of each song in
     * the tree and of `s`. `InsertAndSplay` gives what this does to the
     * songs held and to their order.
     */
    method Insert(s: Song) returns (ghost key: Song -> int)
      requires Valid()
      modifies this
      ensures Valid()
      ensures CurrentKey(key, Elements(old(root)) + {s})
      ensures root == Splay(SplayTree.Insert(old(root), s, key), key(s), key)
    {
      SongsAllocated(root);
      var k := KeyOf(Elements(root) + {s});
      key := k;
      root := SplayTree.Insert(root, s, k);
      var sc := k(s);
      root := Splay(root, sc, k);
    }

    /**
     * Add `delta` to the feedback score of `s`; when `delta` is not
     * negative, feed the song into the profile as well; then splay toward the
     * song's new key. `key` is the key the splay uses: each song's final
     * score after the update. The order of the songs does not change; when
     * the tree holds `s` and is sorted by the new keys, a song with the key
     * of `s` comes to the root.
     */
    method Promote(s: Song, delta: int) returns (ghost key: Song -> int)
      requires Valid()
      modifies this, s, profile, profile.avg
      ensures Valid()
      ensures s.userScore == old(s.userScore) + delta
      ensures delta >= 0 ==>
        profile.avg[..] == NextAverage(old(profile.avg[..]), old(profile.seeded), NormalizedFeatures(s.info.features), delta) &&
        profile.seeded && profile.totalInteractions == old(profile.totalInteractions) + 1
      ensures delta < 0 ==>
        profile.avg[..] == old(profile.avg[..]) && profile.seeded == old(profile.seeded) &&
        profile.totalInteractions == old(profile.totalInteractions)
      ensures CurrentKey(key, Elements(old(root)) + {s})
      ensures root == Splay(old(root), key(s), key)
      ensures Inorder(root) == Inorder(old(root))
      ensures SortedBy(Inorder(root), key) && s in Inorder(root) ==> root.Node? && key(root.song) == key(s)
    {
      s.userScore := s.userScore + delta;
      if delta >= 0 {
        profile.Update(s, delta);
      }
      key := Resplay(s);
    }

    /**
     * Splay toward the current key of `s`. `key` is the key the splay uses:
     * each song's final score in the current state. The order of the songs
     * does not change; when the tree holds `s` and is sorted by `key`, a song
     * with the key of `s` comes to the root.
     */
    method Resplay(s: Song) returns (ghost key: Song -> int)
      requires Valid()
      modifies this
      ensures Valid()
      ensures CurrentKey(key, Elements(old(root)) + {s})
      ensures root == Splay(old(root), key(s), key)
      ensures Inorder(root) == Inorder(old(root))
      ensures SortedBy(Inorder(root), key) && s in Inorder(root) ==> root.Node? && key(root.song) == key(s)
    {
      SongsAllocated(root);
      var k := KeyOf(Elements(root) + {s});
      key := k;
      var sc := k(s);
      ghost var t0 := root;
      root := Splay(root, sc, k);
      if SortedBy(Inorder(t0), k) && s in Inorder(t0) {
        var i :| 0 <= i < |Inorder(t0)| && Inorder(t0)[i] == s;
        SplayBringsKeyToRoot(t0, sc, k);
      }
    }

    /** Append the labels of the songs of `t`, in order, to `acc`. */
    method InorderInto(t: Tree<Song>, key: Song -> int, acc: seq<string>) returns (v: seq<string>)
      ensures v == acc + Labels(Inorder(t), key)
      decreases t
    {
      match t
      case Leaf =>
        v := acc;
      case Node(l, x, r) =>
        var left := InorderInto(l, key, acc);
        var here := Label(x.info.trackName, key(x));
        v := InorderInto(r, key, left + [here]);
        LabelsAppend(Inorder(l), x, Inorder(r), key);
        ConcatAssoc(acc, Labels(Inorder(l), key), here, Labels(Inorder(r), key));
    }

    /** The labels of all songs in the tree, in order, with their current keys. */
    method InorderLabels() returns (v: seq<string>, ghost key: Song -> int)
      requires Valid()
      ensures CurrentKey(key, Elements(root))
      ensures v == Labels(Inorder(root), key)
    {
      SongsAllocated(root);
      var k := KeyOf(Elements(root));
      key := k;
      v := InorderInto(root, k, []);
      EmptyConcat(Labels(Inorder(root), k));
    }
  }

  /** Every song held in a tree is an allocated object. */
  lemma {:induction false} SongsAllocated(t: Tree<Song>)
    ensures forall x :: x in Elements(t) ==> allocated(x)
  {
    match t
    case Leaf =>
    case Node(l, x, r) =>
      SongsAllocated(l);
      SongsAllocated(r);
  }

  lemma EmptyConcat(x: seq<string>)
    ensures [] + x == x
  {
  }

  lemma ConcatAssoc(acc: seq<string>, a: seq<string>, x: string, b: seq<string>)
    ensures (acc + a) + [x] + b == acc + (a + [x] + b)
  {
  }

  /** Labels distribute over concatenation around a middle song. */
  lemma LabelsAppend(a: seq<Song>, x: Song, b: seq<Song>, key: Song -> int)
    ensures Labels(a + [x] + b, key) == Labels(a, key) + [Label(x.info.trackName, key(x))] + Labels(b, key)
  {
    MapSeqConcat(a + [x], b, LabelFn(key));
    MapSeqConcat(a, [x], LabelFn(key));
    assert MapSeq([x], LabelFn(key)) == [Label(x.info.trackName, key(x))];
  }
}
