/** The process tree of SP_HW3/hw3_part2.c: entries in the order of /proc are linked in place
    into a first-child/next-sibling forest, and a recursive walk prints it. Pointers into the
    entry array are indices here, and NULL is `NIL`. */
module ProcessForest {
  import opened Common

  const NIL := -1

  // ----- the forest, described by fathers alone

  /** Each entry's father comes before it. */
  ghost predicate WellFounded(f: seq<int>) {
    forall j :: 0 <= j < |f| ==> NIL <= f[j] < j
  }

  /** `f[j]` is the last entry before `j` whose pid is the ppid of `j`, if there is one. */
  ghost predicate FathersLinked(pid: seq<int>, ppid: seq<int>, f: seq<int>) {
    && |pid| == |ppid| == |f|
    && WellFounded(f)
    && forall j :: 0 <= j < |f| ==>
         && (f[j] != NIL ==> pid[f[j]] == ppid[j])
         && forall k :: f[j] < k < j ==> pid[k] != ppid[j]
  }

  /** `r` is the last entry below `hi` with father `k`, or NIL if there is none. */
  ghost predicate IsLastChild(f: seq<int>, k: int, hi: int, r: int)
    requires 0 <= hi <= |f|
  {
    && NIL <= r < hi
    && (r != NIL ==> f[r] == k)
    && forall i :: r < i < hi && 0 <= i ==> f[i] != k
  }

  ghost predicate ChildrenLinked(f: seq<int>, child: seq<int>) {
    && |child| == |f|
    && forall k :: 0 <= k < |f| ==> IsLastChild(f, k, |f|, child[k])
  }

  ghost predicate SiblingLinked(f: seq<int>, j: int, r: int)
    requires 0 <= j < |f|
  {
    if f[j] == NIL then r == NIL else IsLastChild(f, f[j], j, r)
  }

  ghost predicate SiblingsLinked(f: seq<int>, sibling: seq<int>) {
    && |sibling| == |f|
    && forall j :: 0 <= j < |f| ==> SiblingLinked(f, j, sibling[j])
  }

  /** The links that the walk follows: as linked, with entry 1 glued to entry 0. */
  ghost predicate Linked(f: seq<int>, child: seq<int>, sibling: seq<int>) {
    && |f| >= 2 && WellFounded(f) && ChildrenLinked(f, child)
    && |sibling| == |f| && sibling[0] == 1
    && forall j :: 1 <= j < |f| ==> SiblingLinked(f, j, sibling[j])
  }

  /** The entries of the tree under `k`, each before its descendants, later children first. */
  ghost function Tree(f: seq<int>, k: nat): seq<nat>
    requires WellFounded(f) && k < |f|
    decreases |f| - k, |f| + 1
  {
    [k] + Kids(f, k, |f|)
  }

  ghost function Kids(f: seq<int>, k: nat, m: nat): seq<nat>
    requires WellFounded(f) && k < |f| && m <= |f|
    decreases |f| - k, m
  {
    if m == 0 then []
    else if f[m - 1] == k then Tree(f, m - 1) + Kids(f, k, m - 1)
    else Kids(f, k, m - 1)
  }

  /** `k` is `x` or one of its ancestors. */
  ghost predicate Under(f: seq<int>, x: nat, k: int)
    requires WellFounded(f) && x < |f|
    decreases x
  {
    x == k || (f[x] != NIL && Under(f, f[x], k))
  }

  /** The child of `k` through which `x` hangs under `k`. */
  ghost function Branch(f: seq<int>, x: nat, k: nat): (c: nat)
    requires WellFounded(f) && x < |f| && Under(f, x, k) && x != k
    ensures k < c <= x && f[c] == k && Under(f, x, c)
    decreases x
  {
    if f[x] == k then x else Branch(f, f[x], k)
  }

  lemma {:induction false} BranchUnique(f: seq<int>, x: nat, k: nat, c: nat)
    requires WellFounded(f) && x < |f| && c < |f| && f[c] == k
    requires Under(f, x, c)
    ensures Under(f, x, k) && x != k && Branch(f, x, k) == c
    decreases x
  {
    UnderIsUp(f, x, c);
    if x != c {
      BranchUnique(f, f[x], k, c);
    }
  }

  /** `x` hangs under `k` through a child below `m`. */
  ghost predicate BranchBelow(f: seq<int>, x: nat, k: nat, m: nat)
    requires WellFounded(f) && x < |f|
  {
    Under(f, x, k) && x != k && Branch(f, x, k) < m
  }

  lemma BranchStep(f: seq<int>, x: nat, k: nat, c: nat)
    requires WellFounded(f) && x < |f| && c < |f|
    ensures Bit(BranchBelow(f, x, k, c + 1))
            == Bit(BranchBelow(f, x, k, c)) + (if f[c] == k then Bit(Under(f, x, c)) else 0)
  {
    if f[c] == k && Under(f, x, c) {
      BranchUnique(f, x, k, c);
    }
  }

  lemma {:induction false} UnderIsUp(f: seq<int>, x: nat, k: nat)
    requires WellFounded(f) && x < |f| && Under(f, x, k)
    ensures k <= x
    decreases x
  {
    if x != k {
      UnderIsUp(f, f[x], k);
    }
  }

  /** How often `x` occurs in `walk`. */
  ghost function Visits(walk: seq<nat>, x: nat): nat { multiset(walk)[x] }

  /** The tree under `k` holds `x` once if `k` is above it, and not at all otherwise. */
  lemma {:induction false} TreeCounts(f: seq<int>, k: nat, x: nat)
    requires WellFounded(f) && k < |f| && x < |f|
    ensures Visits(Tree(f, k), x) == Bit(Under(f, x, k))
    decreases |f| - k, |f| + 1
  {
    KidsCount(f, k, |f|, x);
    assert Visits([k], x) == Bit(x == k);
  }

  lemma {:induction false} KidsCount(f: seq<int>, k: nat, m: nat, x: nat)
    requires WellFounded(f) && k < |f| && m <= |f| && x < |f|
    ensures Visits(Kids(f, k, m), x) == Bit(BranchBelow(f, x, k, m))
    decreases |f| - k, m
  {
    if m > 0 {
      KidsCount(f, k, m - 1, x);
      BranchStep(f, x, k, m - 1);
      if f[m - 1] == k {
        var tree, rest := Tree(f, m - 1), Kids(f, k, m - 1);
        assert Kids(f, k, m) == tree + rest;
        assert Visits(tree + rest, x) == Visits(tree, x) + Visits(rest, x);
        TreeCounts(f, m - 1, x);
      }
    }
  }

  // ----- the walk along the links

  /** The entries `traversal` visits from `p`, following child first and then sibling. */
  ghost function Walk(f: seq<int>, child: seq<int>, sibling: seq<int>, p: nat): seq<nat>
    requires Linked(f, child, sibling) && p < |f|
    decreases if p == 0 then 1 else 0, |f| - f[p], p
  {
    [p] + (if child[p] != NIL then Walk(f, child, sibling, child[p]) else [])
        + (if sibling[p] != NIL then Walk(f, child, sibling, sibling[p]) else [])
  }

  lemma {:induction false} KidsSkip(f: seq<int>, k: nat, lo: nat, hi: nat)
    requires WellFounded(f) && k < |f| && lo <= hi <= |f|
    requires forall i :: lo <= i < hi ==> f[i] != k
    ensures Kids(f, k, hi) == Kids(f, k, lo)
  {
    if lo < hi {
      KidsSkip(f, k, lo, hi - 1);
    }
  }

  lemma {:induction false} ChildWalkIsKids(f: seq<int>, child: seq<int>, sibling: seq<int>, p: nat)
    requires Linked(f, child, sibling) && p < |f|
    ensures (if child[p] != NIL then Walk(f, child, sibling, child[p]) else []) == Kids(f, p, |f|)
    decreases |f| - p, |f|
  {
    KidsSkip(f, p, child[p] + 1, |f|);
    if child[p] != NIL {
      WalkIsKids(f, child, sibling, child[p]);
    }
  }

  /** From an entry with father `k` the walk covers its own tree and those of its earlier siblings. */
  lemma {:induction false} WalkIsKids(f: seq<int>, child: seq<int>, sibling: seq<int>, p: nat)
    requires Linked(f, child, sibling) && p < |f| && f[p] != NIL
    ensures Walk(f, child, sibling, p) == Kids(f, f[p], p + 1)
    decreases |f| - f[p], p
  {
    ChildWalkIsKids(f, child, sibling, p);
    SiblingWalkIsKids(f, child, sibling, p);
    assert Kids(f, f[p], p + 1) == [p] + Kids(f, p, |f|) + Kids(f, f[p], p);
  }

  lemma {:induction false} SiblingWalkIsKids(f: seq<int>, child: seq<int>, sibling: seq<int>, p: nat)
    requires Linked(f, child, sibling) && p < |f| && f[p] != NIL
    ensures (if sibling[p] != NIL then Walk(f, child, sibling, sibling[p]) else []) == Kids(f, f[p], p)
    decreases |f| - f[p], p, 0
  {
    assert SiblingLinked(f, p, sibling[p]);
    KidsSkip(f, f[p], sibling[p] + 1, p);
    if sibling[p] != NIL {
      WalkIsKids(f, child, sibling, sibling[p]);
    }
  }

  /** The walk from entry 0 is the preorder of the tree under 0, then of the tree under 1. */
  lemma WalkIsPreorder(f: seq<int>, child: seq<int>, sibling: seq<int>)
    requires Linked(f, child, sibling)
    ensures Walk(f, child, sibling, 0) == Tree(f, 0) + Tree(f, 1)
  {
    ChildWalkIsKids(f, child, sibling, 0);
    ChildWalkIsKids(f, child, sibling, 1);
    if f[1] == 0 {
      assert sibling[1] == NIL;
    }
    assert Walk(f, child, sibling, 1) == Tree(f, 1);
  }

  ghost predicate OnceEach(walk: seq<nat>, n: nat) {
    forall x :: 0 <= x < n ==> Visits(walk, x) == 1
  }

  /** How often the walk visits each entry: once for each of the two roots above it. */
  lemma VisitCount(f: seq<int>, child: seq<int>, sibling: seq<int>, x: nat)
    requires Linked(f, child, sibling) && x < |f|
    ensures Visits(Walk(f, child, sibling, 0), x) == Bit(Under(f, x, 0)) + Bit(Under(f, x, 1))
  {
    WalkIsPreorder(f, child, sibling);
    TreeCounts(f, 0, x);
    TreeCounts(f, 1, x);
  }

  /** No entry is visited twice exactly when entry 1 is not a child of entry 0, that is, when
      the ppid of entry 1 is not the pid of entry 0. */
  lemma NoneTwiceIff(pid: seq<int>, ppid: seq<int>, f: seq<int>, child: seq<int>, sibling: seq<int>)
    requires FathersLinked(pid, ppid, f) && Linked(f, child, sibling)
    ensures (forall x :: 0 <= x < |f| ==> Visits(Walk(f, child, sibling, 0), x) <= 1) <==> ppid[1] != pid[0]
  {
    var walk := Walk(f, child, sibling, 0);
    assert ppid[1] != pid[0] <==> f[1] == NIL;
    if f[1] == NIL {
      forall x | 0 <= x < |f| ensures Visits(walk, x) <= 1 {
        VisitCount(f, child, sibling, x);
        if Under(f, x, 0) && Under(f, x, 1) {
          TwoRoots(f, x);
        }
      }
    } else {
      VisitCount(f, child, sibling, 1);
      assert Under(f, f[1], 0);
      assert Visits(walk, 1) == 2;
    }
  }

  /** A table of process 1 and its child 7 visits entry 1 twice. */
  lemma ChildVisitedTwice()
    ensures var pid, ppid, f, child, sibling := [1, 7], [0, 1], [NIL, 0], [1, NIL], [1, NIL];
            FathersLinked(pid, ppid, f) && Linked(f, child, sibling) && Visits(Walk(f, child, sibling, 0), 1) == 2
  {
    var f, child, sibling := [NIL, 0], [1, NIL], [1, NIL];
    assert Linked(f, child, sibling);
    VisitCount(f, child, sibling, 1);
    assert Under(f, f[1], 0);
  }

  lemma {:induction false} TwoRoots(f: seq<int>, x: nat)
    requires WellFounded(f) && x < |f| && |f| >= 2 && f[1] == NIL
    requires Under(f, x, 0) && Under(f, x, 1)
    ensures false
    decreases x
  {
    if x > 1 {
      TwoRoots(f, f[x]);
    }
  }

  lemma {:induction false} RootAbove(f: seq<int>, x: nat)
    requires WellFounded(f) && x < |f| && |f| >= 2
    requires forall j :: 2 <= j < |f| ==> f[j] != NIL
    ensures Under(f, x, 0) || Under(f, x, 1)
    decreases x
  {
    if x > 1 {
      RootAbove(f, f[x]);
    }
  }

  ghost predicate HasFather(pid: seq<int>, ppid: seq<int>, j: nat)
    requires |pid| == |ppid| && j < |pid|
  {
    exists k :: 0 <= k < j && pid[k] == ppid[j]
  }

  /** Every entry is visited exactly once exactly when entries 0 and 1 have no father and every
      later entry has one. */
  lemma AllOnceIff(pid: seq<int>, ppid: seq<int>, f: seq<int>, child: seq<int>, sibling: seq<int>)
    requires FathersLinked(pid, ppid, f) && Linked(f, child, sibling)
    ensures OnceEach(Walk(f, child, sibling, 0), |f|)
            <==> !HasFather(pid, ppid, 1) && forall j :: 2 <= j < |f| ==> HasFather(pid, ppid, j)
  {
    var walk := Walk(f, child, sibling, 0);
    forall j | 0 <= j < |f| ensures HasFather(pid, ppid, j) <==> f[j] != NIL {
      FatherIff(pid, ppid, f, j);
    }
    forall x | 0 <= x < |f| ensures Visits(walk, x) == Bit(Under(f, x, 0)) + Bit(Under(f, x, 1)) {
      VisitCount(f, child, sibling, x);
    }
    if f[1] == NIL && forall j :: 2 <= j < |f| ==> f[j] != NIL {
      forall x | 0 <= x < |f| ensures Visits(walk, x) == 1 {
        RootAbove(f, x);
        if Under(f, x, 0) && Under(f, x, 1) {
          TwoRoots(f, x);
        }
      }
    }
    if OnceEach(walk, |f|) {
      forall j | 2 <= j < |f| ensures f[j] != NIL {
        assert Visits(walk, j) == 1;
      }
      assert Visits(walk, 1) == 1;
    }
  }

  lemma FatherIff(pid: seq<int>, ppid: seq<int>, f: seq<int>, j: nat)
    requires FathersLinked(pid, ppid, f) && j < |f|
    ensures HasFather(pid, ppid, j) <==> f[j] != NIL
  {
  }

  // ----- the chains of children

  /** The entries reached from `p` along the sibling links, `p` included. */
  ghost function Chain(f: seq<int>, sibling: seq<int>, p: nat): seq<nat>
    requires WellFounded(f) && SiblingsLinked(f, sibling) && p < |f|
    decreases p
  {
    [p] + (if sibling[p] != NIL then Chain(f, sibling, sibling[p]) else [])
  }

  lemma {:induction false} ChainLists(f: seq<int>, sibling: seq<int>, p: nat)
    requires WellFounded(f) && SiblingsLinked(f, sibling) && p < |f| && f[p] != NIL
    ensures forall j :: j in Chain(f, sibling, p) <==> 0 <= j <= p && f[j] == f[p]
    ensures forall a, b :: 0 <= a < b < |Chain(f, sibling, p)| ==> Chain(f, sibling, p)[a] > Chain(f, sibling, p)[b]
    decreases p
  {
    assert SiblingLinked(f, p, sibling[p]);
    if sibling[p] != NIL {
      ChainLists(f, sibling, sibling[p]);
      var rest := Chain(f, sibling, sibling[p]);
      assert Chain(f, sibling, p) == [p] + rest;
      forall b | 0 <= b < |rest| ensures p > rest[b] {
        assert rest[b] in rest;
      }
    }
  }

  /** The chain hanging off `k` lists exactly the entries with father `k`, latest first; so an
      entry with a father is on its father's chain and on no other. */
  lemma ChainIsChildren(f: seq<int>, child: seq<int>, sibling: seq<int>, k: nat)
    requires WellFounded(f) && ChildrenLinked(f, child) && SiblingsLinked(f, sibling) && k < |f|
    ensures var chain := if child[k] == NIL then [] else Chain(f, sibling, child[k]);
            && (forall j :: j in chain <==> 0 <= j < |f| && f[j] == k)
            && (forall a, b :: 0 <= a < b < |chain| ==> chain[a] > chain[b])
  {
    assert IsLastChild(f, k, |f|, child[k]);
    if child[k] != NIL {
      ChainLists(f, sibling, child[k]);
    }
  }
}
