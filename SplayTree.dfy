/**
 * The splay tree the ranking is kept in, as a value: binary nodes holding
 * one element each, ordered by an integer key that the caller supplies.
 * Elements with equal keys are allowed; insertion sends them right.
 */
module SplayTree {

  datatype Tree<T> = Leaf | Node(left: Tree<T>, song: T, right: Tree<T>)

  /** The elements in left-root-right order. */
  function Inorder<T>(t: Tree<T>): seq<T>
  {
    match t
    case Leaf => []
    case Node(l, x, r) => Inorder(l) + [x] + Inorder(r)
  }

  /** The set of elements stored in the tree. */
  function Elements<T(==)>(t: Tree<T>): (e: set<T>)
    ensures forall i :: 0 <= i < |Inorder(t)| ==> Inorder(t)[i] in e
  {
    match t
    case Leaf => {}
    case Node(l, x, r) =>
      var e := Elements(l) + {x} + Elements(r);
      assert forall i :: 0 <= i < |Inorder(t)| ==> Inorder(t)[i] in e by {
        forall i | 0 <= i < |Inorder(t)| ensures Inorder(t)[i] in e {
          var L := Inorder(l);
          if i < |L| { assert Inorder(t)[i] == L[i]; }
          else if i > |L| { assert Inorder(t)[i] == Inorder(r)[i - |L| - 1]; }
        }
      }
      e
  }

  /** The elements are exactly the members of the inorder sequence. */
  lemma {:induction false} ElementsExact<T>(t: Tree<T>)
    ensures forall x :: x in Elements(t) <==> x in Inorder(t)
  {
    match t
    case Leaf =>
    case Node(l, x, r) =>
      ElementsExact(l);
      ElementsExact(r);
  }

  /** Trees with the same inorder sequence hold the same elements. */
  lemma SameElements<T>(a: Tree<T>, b: Tree<T>)
    requires Inorder(a) == Inorder(b)
    ensures Elements(a) == Elements(b)
  {
    forall x | x in Elements(a) ensures x in Elements(b) {
      ElementMoves(a, b, x);
    }
    forall x | x in Elements(b) ensures x in Elements(a) {
      ElementMoves(b, a, x);
    }
  }

  /** An element of one tree is an element of any tree with the same inorder sequence. */
  lemma ElementMoves<T>(a: Tree<T>, b: Tree<T>, y: T)
    requires Inorder(a) == Inorder(b) && y in Elements(a)
    ensures y in Elements(b)
  {
    ElementsExact(a);
    ElementsExact(b);
  }

  /** Keys never decrease along the sequence. */
  predicate SortedBy<T>(s: seq<T>, key: T -> int)
  {
    forall i, j :: 0 <= i < j < |s| ==> key(s[i]) <= key(s[j])
  }

  /** Some element of the sequence has key `k`. */
  predicate HasKey<T>(s: seq<T>, k: int, key: T -> int)
  {
    exists i :: 0 <= i < |s| && key(s[i]) == k
  }

  /** Rotation to the right at `x`: its left child becomes the root. */
  function RightRotate<T>(x: Tree<T>): (y: Tree<T>)
    requires x.Node? && x.left.Node?
    ensures Inorder(y) == Inorder(x)
    ensures y.Node? && y.song == x.left.song
  {
    Node(x.left.left, x.left.song, Node(x.left.right, x.song, x.right))
  }

  /** Rotation to the left at `x`: its right child becomes the root. */
  function LeftRotate<T>(x: Tree<T>): (y: Tree<T>)
    requires x.Node? && x.right.Node?
    ensures Inorder(y) == Inorder(x)
    ensures y.Node? && y.song == x.right.song
  {
    Node(Node(x.left, x.song, x.right.left), x.right.song, x.right.right)
  }

  /**
   * Plain binary-search-tree insertion of `s` as a new leaf: left when its
   * key is smaller than the node's, right otherwise.
   */
  function Insert<T>(t: Tree<T>, s: T, key: T -> int): (r: Tree<T>)
    ensures r.Node?
  {
    match t
    case Leaf => Node(Leaf, s, Leaf)
    case Node(l, x, rt) =>
      if key(s) < key(x) then Node(Insert(l, s, key), x, rt)
      else Node(l, x, Insert(rt, s, key))
  }

  /** A step from a node to one of its children. */
  datatype Dir = GoLeft | GoRight

  /** Following `path` from the root of `t` stays on nodes and ends at an empty subtree. */
  predicate LeafAt<T>(t: Tree<T>, path: seq<Dir>)
    decreases |path|
  {
    if |path| == 0 then t.Leaf?
    else t.Node? && LeafAt(if path[0] == GoLeft then t.left else t.right, path[1..])
  }

  /** `t` with the subtree at the end of `path` replaced by `sub`. */
  function ReplaceAt<T>(t: Tree<T>, path: seq<Dir>, sub: Tree<T>): Tree<T>
    decreases |path|
  {
    if |path| == 0 then sub
    else match t
      case Leaf => t
      case Node(l, x, r) =>
        if path[0] == GoLeft then Node(ReplaceAt(l, path[1..], sub), x, r)
        else Node(l, x, ReplaceAt(r, path[1..], sub))
  }

  /**
   * Insertion puts the new element in a new leaf: there is a path to an
   * empty subtree of `t` such that the result is `t` with a one-node tree
   * holding `s` at the end of that path, and nothing else changed.
   */
  lemma {:induction false} InsertAtLeaf<T>(t: Tree<T>, s: T, key: T -> int) returns (path: seq<Dir>)
    ensures LeafAt(t, path)
    ensures Insert(t, s, key) == ReplaceAt(t, path, Node(Leaf, s, Leaf))
  {
    match t
    case Leaf =>
      path := [];
    case Node(l, x, rt) =>
      var p;
      if key(s) < key(x) {
        p := InsertAtLeaf(l, s, key);
        path := [GoLeft] + p;
      } else {
        p := InsertAtLeaf(rt, s, key);
        path := [GoRight] + p;
      }
      assert path[1..] == p;
  }

  /** Insertion adds exactly one occurrence of the new element and keeps all others. */
  lemma {:induction false} InsertAddsOne<T>(t: Tree<T>, s: T, key: T -> int)
    ensures multiset(Inorder(Insert(t, s, key))) == multiset(Inorder(t)) + multiset{s}
  {
    match t
    case Leaf =>
      assert Inorder(Insert(t, s, key)) == [s];
    case Node(l, x, rt) =>
      if key(s) < key(x) {
        InsertAddsOne(l, s, key);
        InsertAddsOneLeft(t, s, key);
      } else {
        InsertAddsOne(rt, s, key);
        InsertAddsOneRight(t, s, key);
      }
  }

  /** The left case of `InsertAddsOne`. */
  lemma InsertAddsOneLeft<T>(t: Tree<T>, s: T, key: T -> int)
    requires t.Node? && key(s) < key(t.song)
    requires multiset(Inorder(Insert(t.left, s, key))) == multiset(Inorder(t.left)) + multiset{s}
    ensures multiset(Inorder(Insert(t, s, key))) == multiset(Inorder(t)) + multiset{s}
  {
    var L, L', R := Inorder(t.left), Inorder(Insert(t.left, s, key)), Inorder(t.right);
    assert multiset(Inorder(t)) == multiset(L) + multiset{t.song} + multiset(R);
    assert Inorder(Insert(t, s, key)) == L' + [t.song] + R;
    assert multiset(L' + [t.song] + R) == multiset(L') + multiset{t.song} + multiset(R);
    AddOneLeft(multiset(L), multiset{t.song}, multiset(R), multiset{s});
  }

  /** The right case of `InsertAddsOne`. */
  lemma InsertAddsOneRight<T>(t: Tree<T>, s: T, key: T -> int)
    requires t.Node? && key(t.song) <= key(s)
    requires multiset(Inorder(Insert(t.right, s, key))) == multiset(Inorder(t.right)) + multiset{s}
    ensures multiset(Inorder(Insert(t, s, key))) == multiset(Inorder(t)) + multiset{s}
  {
    var L, R, R' := Inorder(t.left), Inorder(t.right), Inorder(Insert(t.right, s, key));
    assert multiset(Inorder(t)) == multiset(L) + multiset{t.song} + multiset(R);
    assert Inorder(Insert(t, s, key)) == L + [t.song] + R';
    assert multiset(L + [t.song] + R') == multiset(L) + multiset{t.song} + multiset(R');
    AddOneRight(multiset(L), multiset{t.song}, multiset(R), multiset{s});
  }

  /**
   * Recursive splay toward key `k`: zig, zig-zig and zig-zag steps, where
   * the zig-zag rotation is skipped when the splayed grandchild is empty and
   * a node whose key equals `k` stops the descent.
   */
  function Splay<T>(r: Tree<T>, k: int, key: T -> int): (t: Tree<T>)
    ensures Inorder(t) == Inorder(r)
    ensures t.Leaf? <==> r.Leaf?
    ensures r.Node? && key(r.song) == k ==> t == r
    decreases r
  {
    if r.Leaf? then r
    else if k < key(r.song) then
      if r.left.Leaf? then r
      else
        var l := r.left;
        var r1 :=
          if k < key(l.song) then
            var ll := Splay(l.left, k, key);
            assert Inorder(Node(ll, l.song, l.right)) == Inorder(l);
            RightRotate(Node(Node(ll, l.song, l.right), r.song, r.right))
          else if k > key(l.song) then
            var lr := Splay(l.right, k, key);
            var l1 := Node(l.left, l.song, lr);
            assert Inorder(l1) == Inorder(l);
            Node(if lr.Node? then LeftRotate(l1) else l1, r.song, r.right)
          else r;
        if r1.left.Leaf? then r1 else RightRotate(r1)
    else if k > key(r.song) then
      if r.right.Leaf? then r
      else
        var rr := r.right;
        var r1 :=
          if k > key(rr.song) then
            var rrr := Splay(rr.right, k, key);
            assert Inorder(Node(rr.left, rr.song, rrr)) == Inorder(rr);
            LeftRotate(Node(r.left, r.song, Node(rr.left, rr.song, rrr)))
          else if k < key(rr.song) then
            var rl := Splay(rr.left, k, key);
            var r2 := Node(rl, rr.song, rr.right);
            assert Inorder(r2) == Inorder(rr);
            Node(r.left, r.song, if rl.Node? then RightRotate(r2) else r2)
          else r;
        if r1.right.Leaf? then r1 else LeftRotate(r1)
    else r
  }

  // ---------------------------------------------------------------------
  // Order lemmas
  // ---------------------------------------------------------------------

  /** A sorted concatenation around a middle element splits into sorted parts on either side of it. */
  lemma SortedSplit<T>(a: seq<T>, x: T, b: seq<T>, key: T -> int)
    requires SortedBy(a + [x] + b, key)
    ensures SortedBy(a, key) && SortedBy(b, key)
    ensures forall i :: 0 <= i < |a| ==> key(a[i]) <= key(x)
    ensures forall i :: 0 <= i < |b| ==> key(x) <= key(b[i])
  {
    var s := a + [x] + b;
    assert s[|a|] == x;
    forall i, j | 0 <= i < j < |a| ensures key(a[i]) <= key(a[j]) {
      assert s[i] == a[i] && s[j] == a[j];
    }
    forall i, j | 0 <= i < j < |b| ensures key(b[i]) <= key(b[j]) {
      assert s[|a| + 1 + i] == b[i] && s[|a| + 1 + j] == b[j];
    }
    forall i | 0 <= i < |a| ensures key(a[i]) <= key(x) {
      assert s[i] == a[i];
    }
    forall i | 0 <= i < |b| ensures key(x) <= key(b[i]) {
      assert s[|a| + 1 + i] == b[i];
    }
  }

  /** Sorted parts on either side of a middle element that separates them make a sorted concatenation. */
  lemma SortedJoin<T>(a: seq<T>, x: T, b: seq<T>, key: T -> int)
    requires SortedBy(a, key) && SortedBy(b, key)
    requires forall i :: 0 <= i < |a| ==> key(a[i]) <= key(x)
    requires forall i :: 0 <= i < |b| ==> key(x) <= key(b[i])
    ensures SortedBy(a + [x] + b, key)
  {
    var s := a + [x] + b;
    forall i, j | 0 <= i < j < |s|
      ensures key(s[i]) <= key(s[j])
    {
      if j < |a| {
        assert s[i] == a[i] && s[j] == a[j];
      } else if i < |a| {
        assert s[i] == a[i];
        if j > |a| { assert s[j] == b[j - |a| - 1]; }
      } else if i == |a| {
        assert s[j] == b[j - |a| - 1];
      } else {
        assert s[i] == b[i - |a| - 1] && s[j] == b[j - |a| - 1];
      }
    }
  }

  /** In a sorted concatenation, a key below the middle element's can only occur on the left. */
  lemma KeyBelowIsLeft<T>(a: seq<T>, x: T, b: seq<T>, k: int, key: T -> int)
    requires SortedBy(a + [x] + b, key) && HasKey(a + [x] + b, k, key)
    requires k < key(x)
    ensures HasKey(a, k, key)
  {
    var s := a + [x] + b;
    var i :| 0 <= i < |s| && key(s[i]) == k;
    assert s[|a|] == x;
    assert i < |a|;
    assert s[i] == a[i];
  }

  /** In a sorted concatenation, a key above the middle element's can only occur on the right. */
  lemma KeyAboveIsRight<T>(a: seq<T>, x: T, b: seq<T>, k: int, key: T -> int)
    requires SortedBy(a + [x] + b, key) && HasKey(a + [x] + b, k, key)
    requires k > key(x)
    ensures HasKey(b, k, key)
  {
    var s := a + [x] + b;
    var i :| 0 <= i < |s| && key(s[i]) == k;
    assert s[|a|] == x;
    assert i > |a|;
    assert s[i] == b[i - |a| - 1];
  }

  // ---------------------------------------------------------------------
  // Insert
  // ---------------------------------------------------------------------

  /**
   * Inserting into a sorted tree places the new element after every
   * element whose key is at most its own and before every element whose
   * key is larger: equal keys go right.
   */
  lemma {:induction false} InsertPosition<T>(t: Tree<T>, s: T, key: T -> int) returns (p: nat)
    requires SortedBy(Inorder(t), key)
    ensures p <= |Inorder(t)|
    ensures Inorder(Insert(t, s, key)) == Inorder(t)[..p] + [s] + Inorder(t)[p..]
    ensures forall i :: 0 <= i < p ==> key(Inorder(t)[i]) <= key(s)
    ensures forall i :: p <= i < |Inorder(t)| ==> key(s) < key(Inorder(t)[i])
  {
    match t
    case Leaf =>
      p := 0;
    case Node(l, x, rt) =>
      SortedSplit(Inorder(l), x, Inorder(rt), key);
      if key(s) < key(x) {
        var pl := InsertPosition(l, s, key);
        p := InsertLeftStep(t, s, key, pl);
      } else {
        var pr := InsertPosition(rt, s, key);
        p := InsertRightStep(t, s, key, pr);
      }
  }

  lemma AddOneLeft<T>(a: multiset<T>, b: multiset<T>, c: multiset<T>, d: multiset<T>)
    ensures (a + d) + b + c == (a + b + c) + d
  {
  }

  lemma AddOneRight<T>(a: multiset<T>, b: multiset<T>, c: multiset<T>, d: multiset<T>)
    ensures a + b + (c + d) == (a + b + c) + d
  {
  }

  /** `s` is inserted into `t` at position `p`, after the keys at most its own and before the larger ones. */
  ghost predicate InsertedAt<T>(t: Tree<T>, s: T, key: T -> int, p: nat)
  {
    p <= |Inorder(t)| &&
    Inorder(Insert(t, s, key)) == Inorder(t)[..p] + [s] + Inorder(t)[p..] &&
    (forall i :: 0 <= i < p ==> key(Inorder(t)[i]) <= key(s)) &&
    (forall i :: p <= i < |Inorder(t)| ==> key(s) < key(Inorder(t)[i]))
  }

  /** Insertion that descends left places the element where it was placed in the left subtree. */
  lemma InsertLeftStep<T>(t: Tree<T>, s: T, key: T -> int, pl: nat) returns (p: nat)
    requires t.Node? && SortedBy(Inorder(t), key) && key(s) < key(t.song)
    requires InsertedAt(t.left, s, key, pl)
    ensures InsertedAt(t, s, key, p)
  {
    var L, x, R := Inorder(t.left), t.song, Inorder(t.right);
    assert Inorder(t) == L + [x] + R;
    SortedSplit(L, x, R, key);
    assert Inorder(Insert(t, s, key)) == Inorder(Insert(t.left, s, key)) + [x] + R;
    p := PlaceLeft(L, x, R, s, pl, key);
  }

  /** Insertion that descends right places the element after the left subtree and the node. */
  lemma InsertRightStep<T>(t: Tree<T>, s: T, key: T -> int, pr: nat) returns (p: nat)
    requires t.Node? && SortedBy(Inorder(t), key) && key(t.song) <= key(s)
    requires InsertedAt(t.right, s, key, pr)
    ensures InsertedAt(t, s, key, p)
  {
    var L, x, R := Inorder(t.left), t.song, Inorder(t.right);
    assert Inorder(t) == L + [x] + R;
    SortedSplit(L, x, R, key);
    assert Inorder(Insert(t, s, key)) == L + [x] + Inorder(Insert(t.right, s, key));
    p := PlaceRight(L, x, R, s, pr, key);
  }

  /** An element placed inside the left part at a boundary position keeps that boundary in the whole sequence. */
  lemma PlaceLeft<T>(L: seq<T>, x: T, R: seq<T>, s: T, pl: nat, key: T -> int) returns (p: nat)
    requires pl <= |L| && key(s) < key(x)
    requires forall i :: 0 <= i < |R| ==> key(x) <= key(R[i])
    requires forall i :: 0 <= i < pl ==> key(L[i]) <= key(s)
    requires forall i :: pl <= i < |L| ==> key(s) < key(L[i])
    ensures var q := L + [x] + R;
      p <= |q| && (L[..pl] + [s] + L[pl..]) + [x] + R == q[..p] + [s] + q[p..] &&
      (forall i :: 0 <= i < p ==> key(q[i]) <= key(s)) &&
      (forall i :: p <= i < |q| ==> key(s) < key(q[i]))
  {
    p := pl;
    var q := L + [x] + R;
    assert q[..p] == L[..p];
    assert q[p..] == L[p..] + [x] + R;
    forall i | p <= i < |q| ensures key(s) < key(q[i]) {
      if i < |L| {
        assert q[i] == L[i];
      } else if i > |L| {
        assert q[i] == R[i - |L| - 1];
      }
    }
    forall i | 0 <= i < p ensures key(q[i]) <= key(s) {
      assert q[i] == L[i];
    }
  }

  /** An element placed inside the right part at a boundary position keeps that boundary in the whole sequence. */
  lemma PlaceRight<T>(L: seq<T>, x: T, R: seq<T>, s: T, pr: nat, key: T -> int) returns (p: nat)
    requires pr <= |R| && key(x) <= key(s)
    requires forall i :: 0 <= i < |L| ==> key(L[i]) <= key(x)
    requires forall i :: 0 <= i < pr ==> key(R[i]) <= key(s)
    requires forall i :: pr <= i < |R| ==> key(s) < key(R[i])
    ensures var q := L + [x] + R;
      p <= |q| && L + [x] + (R[..pr] + [s] + R[pr..]) == q[..p] + [s] + q[p..] &&
      (forall i :: 0 <= i < p ==> key(q[i]) <= key(s)) &&
      (forall i :: p <= i < |q| ==> key(s) < key(q[i]))
  {
    p := |L| + 1 + pr;
    var q := L + [x] + R;
    assert q[..p] == L + [x] + R[..pr];
    assert q[p..] == R[pr..];
    forall i | 0 <= i < p ensures key(q[i]) <= key(s) {
      if i < |L| {
        assert q[i] == L[i];
      } else if i > |L| {
        assert q[i] == R[i - |L| - 1];
      }
    }
    forall i | p <= i < |q| ensures key(s) < key(q[i]) {
      assert q[i] == R[i - |L| - 1];
    }
  }

  /** An element put between the keys at most its own and the keys above it keeps a sorted sequence sorted. */
  lemma SortedInsertAt<T>(q: seq<T>, p: nat, s: T, key: T -> int)
    requires SortedBy(q, key) && p <= |q|
    requires forall i :: 0 <= i < p ==> key(q[i]) <= key(s)
    requires forall i :: p <= i < |q| ==> key(s) < key(q[i])
    ensures SortedBy(q[..p] + [s] + q[p..], key)
  {
    var a, b := q[..p], q[p..];
    assert SortedBy(a, key) by {
      forall i, j | 0 <= i < j < |a| ensures key(a[i]) <= key(a[j]) {
        assert a[i] == q[i] && a[j] == q[j];
      }
    }
    assert SortedBy(b, key) by {
      forall i, j | 0 <= i < j < |b| ensures key(b[i]) <= key(b[j]) {
        assert b[i] == q[p + i] && b[j] == q[p + j];
      }
    }
    forall i | 0 <= i < |b| ensures key(s) <= key(b[i]) {
      assert b[i] == q[p + i];
    }
    SortedJoin(a, s, b, key);
  }

  /** Inserting into a sorted tree keeps it sorted. */
  lemma InsertSorted<T>(t: Tree<T>, s: T, key: T -> int)
    requires SortedBy(Inorder(t), key)
    ensures SortedBy(Inorder(Insert(t, s, key)), key)
  {
    var p := InsertPosition(t, s, key);
    SortedInsertAt(Inorder(t), p, s, key);
  }

  // ---------------------------------------------------------------------
  // Splay
  // ---------------------------------------------------------------------

  /**
   * Splaying a sorted tree toward a key that some element carries brings
   * an element with that key to the root.
   */
  lemma {:induction false} SplayBringsKeyToRoot<T>(r: Tree<T>, k: int, key: T -> int)
    requires SortedBy(Inorder(r), key) && HasKey(Inorder(r), k, key)
    ensures Splay(r, k, key).Node? && key(Splay(r, k, key).song) == k
    decreases r
  {
    var x := r.song;
    SortedSplit(Inorder(r.left), x, Inorder(r.right), key);
    if k < key(x) {
      KeyBelowIsLeft(Inorder(r.left), x, Inorder(r.right), k, key);
      var l := r.left;
      SortedSplit(Inorder(l.left), l.song, Inorder(l.right), key);
      if k < key(l.song) {
        KeyBelowIsLeft(Inorder(l.left), l.song, Inorder(l.right), k, key);
        SplayBringsKeyToRoot(l.left, k, key);
      } else if k > key(l.song) {
        KeyAboveIsRight(Inorder(l.left), l.song, Inorder(l.right), k, key);
        SplayBringsKeyToRoot(l.right, k, key);
      }
    } else if k > key(x) {
      KeyAboveIsRight(Inorder(r.left), x, Inorder(r.right), k, key);
      var rr := r.right;
      SortedSplit(Inorder(rr.left), rr.song, Inorder(rr.right), key);
      if k > key(rr.song) {
        KeyAboveIsRight(Inorder(rr.left), rr.song, Inorder(rr.right), k, key);
        SplayBringsKeyToRoot(rr.right, k, key);
      } else if k < key(rr.song) {
        KeyBelowIsLeft(Inorder(rr.left), rr.song, Inorder(rr.right), k, key);
        SplayBringsKeyToRoot(rr.left, k, key);
      }
    }
  }

  /** Splaying a sorted tree twice toward a key it carries changes nothing the second time. */
  lemma SplayIdempotent<T>(r: Tree<T>, k: int, key: T -> int)
    requires SortedBy(Inorder(r), key) && HasKey(Inorder(r), k, key)
    ensures Splay(Splay(r, k, key), k, key) == Splay(r, k, key)
  {
    SplayBringsKeyToRoot(r, k, key);
  }

  /**
   * Inserting and then splaying toward the new element's key adds exactly
   * that element; on a sorted tree the result is sorted with an element of
   * that key at the root.
   */
  lemma InsertAndSplay<T>(t: Tree<T>, s: T, key: T -> int)
    ensures multiset(Inorder(Splay(Insert(t, s, key), key(s), key))) == multiset(Inorder(t)) + multiset{s}
    ensures SortedBy(Inorder(t), key) ==>
      SortedBy(Inorder(Splay(Insert(t, s, key), key(s), key)), key) &&
      Splay(Insert(t, s, key), key(s), key).Node? &&
      key(Splay(Insert(t, s, key), key(s), key).song) == key(s)
  {
    InsertAddsOne(t, s, key);
    if SortedBy(Inorder(t), key) {
      InsertThenSplay(t, s, key);
    }
  }

  /**
   * Inserting into a sorted tree and then splaying toward the new
   * element's key gives a sorted tree holding one more element, with an
   * element of that key at the root.
   */
  lemma InsertThenSplay<T>(t: Tree<T>, s: T, key: T -> int)
    requires SortedBy(Inorder(t), key)
    ensures var r := Splay(Insert(t, s, key), key(s), key);
      SortedBy(Inorder(r), key) &&
      multiset(Inorder(r)) == multiset(Inorder(t)) + multiset{s} &&
      r.Node? && key(r.song) == key(s)
  {
    var p := InsertPosition(t, s, key);
    InsertSorted(t, s, key);
    InsertAddsOne(t, s, key);
    var q := Inorder(Insert(t, s, key));
    assert q[p] == s;
    SplayBringsKeyToRoot(Insert(t, s, key), key(s), key);
  }

  // ---------------------------------------------------------------------
  // Keys that agree on the elements involved
  // ---------------------------------------------------------------------

  /** The two keys give every element of `xs` the same value. */
  predicate AgreeOn<T>(k1: T -> int, k2: T -> int, xs: set<T>)
  {
    forall x :: x in xs ==> k1(x) == k2(x)
  }

  /** Insertion only looks at the keys of the new element and of the elements already held. */
  lemma {:induction false} InsertCongruent<T>(t: Tree<T>, s: T, k1: T -> int, k2: T -> int)
    requires AgreeOn(k1, k2, Elements(t) + {s})
    ensures Insert(t, s, k1) == Insert(t, s, k2)
  {
    match t
    case Leaf =>
    case Node(l, x, rt) =>
      InsertCongruent(l, s, k1, k2);
      InsertCongruent(rt, s, k1, k2);
  }

  /** Splaying only looks at the keys of the elements held. */
  lemma {:induction false} SplayCongruent<T>(r: Tree<T>, k: int, k1: T -> int, k2: T -> int)
    requires AgreeOn(k1, k2, Elements(r))
    ensures Splay(r, k, k1) == Splay(r, k, k2)
    decreases r
  {
    if r.Node? {
      assert k1(r.song) == k2(r.song);
      if r.left.Node? {
        var l := r.left;
        assert Elements(l) <= Elements(r);
        assert k1(l.song) == k2(l.song);
        AgreeOnSubset(k1, k2, Elements(l.left), Elements(r));
        AgreeOnSubset(k1, k2, Elements(l.right), Elements(r));
        SplayCongruent(l.left, k, k1, k2);
        SplayCongruent(l.right, k, k1, k2);
      }
      if r.right.Node? {
        var rr := r.right;
        assert Elements(rr) <= Elements(r);
        assert k1(rr.song) == k2(rr.song);
        AgreeOnSubset(k1, k2, Elements(rr.left), Elements(r));
        AgreeOnSubset(k1, k2, Elements(rr.right), Elements(r));
        SplayCongruent(rr.left, k, k1, k2);
        SplayCongruent(rr.right, k, k1, k2);
      }
    }
  }

  lemma AgreeOnSubset<T>(k1: T -> int, k2: T -> int, a: set<T>, b: set<T>)
    requires a <= b && AgreeOn(k1, k2, b)
    ensures AgreeOn(k1, k2, a)
  {
  }

  /** Insertion adds the new element to the set of elements. */
  lemma {:induction false} ElementsInsert<T>(t: Tree<T>, s: T, key: T -> int)
    ensures Elements(Insert(t, s, key)) == Elements(t) + {s}
  {
    match t
    case Leaf =>
    case Node(l, x, rt) =>
      ElementsInsert(l, s, key);
      ElementsInsert(rt, s, key);
  }

  /**
   * Insert-and-splay under a key that agrees with `key` on the elements
   * involved is insert-and-splay under `key`, and adds the new element.
   */
  lemma InsertSplayCongruent<T>(t: Tree<T>, s: T, k1: T -> int, key: T -> int)
    requires AgreeOn(k1, key, Elements(t) + {s})
    ensures Splay(Insert(t, s, k1), k1(s), k1) == Splay(Insert(t, s, key), key(s), key)
    ensures Elements(Splay(Insert(t, s, key), key(s), key)) == Elements(t) + {s}
  {
    assert k1(s) == key(s);
    InsertCongruent(t, s, k1, key);
    var grown := Insert(t, s, key);
    ElementsInsert(t, s, key);
    SplayCongruent(grown, key(s), k1, key);
    SameElements(Splay(grown, key(s), key), grown);
  }

  // ---------------------------------------------------------------------
  // A sequence of insertions
  // ---------------------------------------------------------------------

  /** Insert the elements of `xs` one after another, each followed by a splay toward its key. */
  function InsertEach<T>(t: Tree<T>, xs: seq<T>, key: T -> int): Tree<T>
  {
    if |xs| == 0 then t
    else
      var x := xs[|xs| - 1];
      Splay(Insert(InsertEach(t, xs[..|xs| - 1], key), x, key), key(x), key)
  }

  /** Inserting one more element extends the sequence of insertions. */
  lemma InsertEachSnoc<T>(t: Tree<T>, xs: seq<T>, x: T, key: T -> int)
    ensures InsertEach(t, xs + [x], key) == Splay(Insert(InsertEach(t, xs, key), x, key), key(x), key)
  {
    assert (xs + [x])[..|xs|] == xs;
  }

  /** Inserting a sequence of elements under one key adds exactly those elements. */
  lemma {:induction false} InsertEachAdds<T>(t: Tree<T>, xs: seq<T>, key: T -> int)
    ensures multiset(Inorder(InsertEach(t, xs, key))) == multiset(Inorder(t)) + multiset(xs)
  {
    if |xs| > 0 {
      var front, x := xs[..|xs| - 1], xs[|xs| - 1];
      InsertEachAdds(t, front, key);
      InsertAndSplay(InsertEach(t, front, key), x, key);
      MultisetSnoc(xs);
    }
  }

  lemma MultisetSnoc<T>(xs: seq<T>)
    requires |xs| > 0
    ensures multiset(xs) == multiset(xs[..|xs| - 1]) + multiset{xs[|xs| - 1]}
  {
    assert xs == xs[..|xs| - 1] + [xs[|xs| - 1]];
  }

  /** Inserting a sequence of elements under one key keeps a sorted tree sorted. */
  lemma {:induction false} InsertEachSorted<T>(t: Tree<T>, xs: seq<T>, key: T -> int)
    requires SortedBy(Inorder(t), key)
    ensures SortedBy(Inorder(InsertEach(t, xs, key)), key)
  {
    if |xs| > 0 {
      InsertEachSorted(t, xs[..|xs| - 1], key);
      InsertThenSplay(InsertEach(t, xs[..|xs| - 1], key), xs[|xs| - 1], key);
    }
  }
}
