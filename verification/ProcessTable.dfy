/** The entry array of SP_HW3/hw3_part2.c with its linking loops and its recursive printer, and
    what the printed indentation means. */
module ProcessTable {
  import opened Common
  import opened ProcessForest

  /** One printed line: the entry and the number of dashes pairs before its name. */
  datatype Visit = Visit(node: nat, indent: int)

  const KTHREADD := 2

  /** What the walk can reach from an entry: the entry, its first child and its next sibling. */
  datatype Links = Nil | Node(node: nat, pid: int, child: Links, sibling: Links)

  ghost function Unfold(pid: seq<int>, f: seq<int>, child: seq<int>, sibling: seq<int>, p: int): Links
    requires Linked(f, child, sibling) && |pid| == |f| && NIL <= p < |f|
    decreases if p == 0 then 1 else 0, if p <= 0 then 0 else |f| - f[p], p
  {
    if p == NIL then Nil
    else
      assert p > 0 ==> SiblingLinked(f, p, sibling[p]);
      Node(p, pid[p], Unfold(pid, f, child, sibling, child[p]), Unfold(pid, f, child, sibling, sibling[p]))
  }

  function Nodes(t: Links): seq<nat> {
    match t
    case Nil => []
    case Node(x, _, child, sibling) => [x] + Nodes(child) + Nodes(sibling)
  }

  lemma {:induction false} NodesAreWalk(pid: seq<int>, f: seq<int>, child: seq<int>, sibling: seq<int>, p: nat)
    requires Linked(f, child, sibling) && |pid| == |f| && p < |f|
    ensures Nodes(Unfold(pid, f, child, sibling, p)) == Walk(f, child, sibling, p)
    decreases if p == 0 then 1 else 0, |f| - f[p], p
  {
    if child[p] != NIL {
      NodesAreWalk(pid, f, child, sibling, child[p]);
    }
    if sibling[p] != NIL {
      NodesAreWalk(pid, f, child, sibling, sibling[p]);
    }
  }

  /** The counter with which `traversal` enters the sibling `t`. */
  function EnterSibling(t: Links, count: int): int {
    if t.Node? && t.pid == KTHREADD then 1 else count
  }

  /** The global counter after `traversal` of `t`, having been `count` before. */
  function Counter(t: Links, count: int): int {
    match t
    case Nil => count
    case Node(_, _, child, sibling) =>
      Counter(sibling, EnterSibling(sibling, Counter(child, count + Bit(child.Node?))))
  }

  /** What `traversal` of `t` prints when `t` has indentation `space` and the global counter is
      `count`. */
  function Print(t: Links, space: int, count: int): seq<Visit> {
    match t
    case Nil => []
    case Node(x, _, child, sibling) =>
      var c0 := count + Bit(child.Node?);
      var c2 := EnterSibling(sibling, Counter(child, c0));
      [Visit(x, space)] + (Print(child, c0, c0) + Print(sibling, c2, c2))
  }

  // ----- the indentation as a count over the visits so far

  /** An entry of the walk, with what matters for the counter: whether it has children, and
      whether entering it sets the counter back to 1. */
  datatype Stop = Stop(node: nat, parent: bool, resets: bool)

  /** The counter when the entry is printed, having been `c` before. */
  function Enter(s: Stop, c: int): int { if s.resets then 1 else c }

  function Leave(s: Stop, c: int): int { Enter(s, c) + Bit(s.parent) }

  function Lines(stops: seq<Stop>, c: int): (lines: seq<Visit>)
    ensures |lines| == |stops|
  {
    if stops == [] then [] else [Visit(stops[0].node, Enter(stops[0], c))] + Lines(stops[1..], Leave(stops[0], c))
  }

  function CountAfter(stops: seq<Stop>, c: int): int {
    if stops == [] then c else CountAfter(stops[1..], Leave(stops[0], c))
  }

  lemma {:induction false} LinesOfConcat(a: seq<Stop>, b: seq<Stop>, c: int)
    ensures Lines(a + b, c) == Lines(a, c) + Lines(b, CountAfter(a, c))
    ensures CountAfter(a + b, c) == CountAfter(b, CountAfter(a, c))
  {
    if a == [] {
      assert a + b == b;
    } else {
      assert (a + b)[1..] == a[1..] + b;
      LinesOfConcat(a[1..], b, Leave(a[0], c));
    }
  }

  function Parents(stops: seq<Stop>): nat {
    if stops == [] then 0 else Bit(stops[0].parent) + Parents(stops[1..])
  }

  lemma {:induction false} IndentWithoutResets(stops: seq<Stop>, c: int, i: nat)
    requires i < |stops| && forall j :: 0 < j <= i ==> !stops[j].resets
    ensures Lines(stops, c)[i].indent == Enter(stops[0], c) + Parents(stops[..i])
  {
    if i > 0 {
      IndentWithoutResets(stops[1..], Leave(stops[0], c), i - 1);
      assert stops[..i][1..] == stops[1..][..i - 1];
    }
  }

  /** A line's indentation is 1 (or the starting count) plus the number of entries with
      children visited since the last reset. */
  lemma IndentCounts(stops: seq<Stop>, c: int, r: nat, i: nat)
    requires r <= i < |stops|
    requires r > 0 ==> stops[r].resets
    requires forall j :: r < j <= i ==> !stops[j].resets
    ensures Lines(stops, c)[i].indent == (if stops[r].resets then 1 else c) + Parents(stops[r..i])
  {
    if r == 0 {
      IndentWithoutResets(stops, c, i);
      assert stops[0..i] == stops[..i];
    } else {
      LinesFrom(stops, c, r);
      var rest := stops[r..];
      forall j | 0 < j <= i - r ensures !rest[j].resets {
        assert rest[j] == stops[j + r];
      }
      IndentWithoutResets(rest, CountAfter(stops[..r], c), i - r);
      assert rest[..i - r] == stops[r..i];
      assert Lines(stops, c)[i] == Lines(stops, c)[r..][i - r];
    }
  }

  lemma LinesFrom(stops: seq<Stop>, c: int, r: nat)
    requires r <= |stops|
    ensures Lines(stops, c)[r..] == Lines(stops[r..], CountAfter(stops[..r], c))
  {
    assert stops == stops[..r] + stops[r..];
    LinesOfConcat(stops[..r], stops[r..], c);
  }

  // ----- the stops of the walk

  /** The walk as stops; only an entry reached along a sibling link can reset the counter. */
  function Stops(t: Links, bySibling: bool): seq<Stop> {
    match t
    case Nil => []
    case Node(x, pid, child, sibling) =>
      [Stop(x, child.Node?, bySibling && pid == KTHREADD)] + (Stops(child, false) + Stops(sibling, true))
  }

  lemma {:induction false} CounterIsCount(t: Links, bySibling: bool, c: int)
    ensures Counter(t, if bySibling then EnterSibling(t, c) else c) == CountAfter(Stops(t, bySibling), c)
  {
    if t.Node? {
      var here := Stops(t, bySibling)[0];
      var below, after := Stops(t.child, false), Stops(t.sibling, true);
      assert Stops(t, bySibling)[1..] == below + after;
      LinesOfConcat(below, after, Leave(here, c));
      CounterIsCount(t.child, false, Leave(here, c));
      CounterIsCount(t.sibling, true, CountAfter(below, Leave(here, c)));
    }
  }

  /** The recursion prints the entries of the walk, each indented by the running count. */
  lemma {:induction false} PrintIsLines(t: Links, bySibling: bool, c: int)
    ensures var e := if bySibling then EnterSibling(t, c) else c;
            Print(t, e, e) == Lines(Stops(t, bySibling), c)
  {
    if t.Node? {
      var here := Stops(t, bySibling)[0];
      var below, after := Stops(t.child, false), Stops(t.sibling, true);
      assert Stops(t, bySibling)[1..] == below + after;
      var c1 := Leave(here, c);
      LinesOfConcat(below, after, c1);
      CounterIsCount(t.child, false, c1);
      PrintIsLines(t.child, false, c1);
      PrintIsLines(t.sibling, true, CountAfter(below, c1));
    }
  }

  // ----- children are indented deeper than their fathers

  /** Every printed entry whose father is printed is indented more than it. */
  ghost predicate Deeper(f: seq<int>, lines: seq<Visit>) {
    forall a, b :: a in lines && b in lines && a.node < |f| && f[a.node] == b.node ==> a.indent > b.indent
  }

  /** No entry of `t` but its first is a sibling with pid 2. */
  predicate Calm(t: Links) {
    t.Node? ==> (t.sibling.Node? ==> t.sibling.pid != KTHREADD) && Calm(t.child) && Calm(t.sibling)
  }

  lemma {:induction false} CalmGrows(t: Links, c: int)
    requires Calm(t)
    ensures Counter(t, c) >= c
    ensures forall v :: v in Print(t, c, c) ==> v.indent >= c
  {
    if t.Node? {
      var c0 := c + Bit(t.child.Node?);
      CalmGrows(t.child, c0);
      CalmGrows(t.sibling, Counter(t.child, c0));
    }
  }

  lemma {:induction false} AtLeastOne(t: Links, space: int, c: int)
    requires space >= 1 && c >= 1
    ensures Counter(t, c) >= 1
    ensures forall v :: v in Print(t, space, c) ==> v.indent >= 1
  {
    if t.Node? {
      var c0 := c + Bit(t.child.Node?);
      AtLeastOne(t.child, c0, c0);
      var c2 := EnterSibling(t.sibling, Counter(t.child, c0));
      AtLeastOne(t.sibling, c2, c2);
    }
  }

  lemma {:induction false} PrintsNodes(t: Links, space: int, c: int)
    ensures |Print(t, space, c)| == |Nodes(t)|
    ensures forall i :: 0 <= i < |Nodes(t)| ==> Print(t, space, c)[i].node == Nodes(t)[i]
  {
    if t.Node? {
      var c0 := c + Bit(t.child.Node?);
      var c2 := EnterSibling(t.sibling, Counter(t.child, c0));
      PrintsNodes(t.child, c0, c0);
      PrintsNodes(t.sibling, c2, c2);
    }
  }

  /** `t` lists children of `k` below `hi`, latest first, each with its own children. */
  ghost predicate Placed(f: seq<int>, t: Links, k: nat, hi: nat)
    requires WellFounded(f)
  {
    t.Node? ==>
      && t.node < hi <= |f| && f[t.node] == k
      && Placed(f, t.child, t.node, |f|)
      && Placed(f, t.sibling, k, t.node)
  }

  lemma {:induction false} UnfoldPlaced(pid: seq<int>, f: seq<int>, child: seq<int>, sibling: seq<int>,
                                        p: int, k: nat, hi: nat)
    requires Linked(f, child, sibling) && |pid| == |f| && NIL <= p < hi <= |f|
    requires p != NIL ==> f[p] == k
    ensures Placed(f, Unfold(pid, f, child, sibling, p), k, hi)
    decreases if p <= 0 then 0 else |f| - f[p], p
  {
    if p != NIL {
      UnfoldPlaced(pid, f, child, sibling, child[p], p, |f|);
      assert SiblingLinked(f, p, sibling[p]);
      UnfoldPlaced(pid, f, child, sibling, sibling[p], k, p);
    }
  }

  /** Whatever `t` prints hangs under `k`, through a child below `hi`. */
  lemma {:induction false} PrintsBelow(f: seq<int>, t: Links, k: nat, hi: nat, space: int, c: int)
    requires WellFounded(f) && Placed(f, t, k, hi)
    ensures forall v :: v in Print(t, space, c) ==> v.node < |f| && BranchBelow(f, v.node, k, hi)
  {
    if t.Node? {
      var c0 := c + Bit(t.child.Node?);
      var c2 := EnterSibling(t.sibling, Counter(t.child, c0));
      PrintsBelow(f, t.child, t.node, |f|, c0, c0);
      PrintsBelow(f, t.sibling, k, t.node, c2, c2);
      forall v | v in Print(t, space, c) ensures v.node < |f| && BranchBelow(f, v.node, k, hi) {
        if v in Print(t.child, c0, c0) || v.node == t.node {
          BranchUnique(f, v.node, k, t.node);
        }
      }
    }
  }

  /** Nothing under `p` is the father or a child of anything under an earlier sibling of `p`. */
  lemma BranchesApart(f: seq<int>, p: nat, a: nat, b: nat)
    requires WellFounded(f) && p < |f| && f[p] != NIL && a < |f| && b < |f|
    requires Under(f, a, p) && BranchBelow(f, b, f[p], p)
    ensures f[b] != a && (a != p ==> f[a] != b)
  {
    if Under(f, b, p) {
      BranchUnique(f, b, f[p], p);
    }
  }

  lemma JoinDeeper(f: seq<int>, a: seq<Visit>, b: seq<Visit>)
    requires Deeper(f, a) && Deeper(f, b)
    requires forall v, w :: v in a && w in b ==>
      v.node < |f| && w.node < |f| && f[v.node] != w.node && (f[w.node] == v.node ==> w.indent > v.indent)
    ensures Deeper(f, a + b)
  {
  }

  lemma JoinSubtree(f: seq<int>, p: nat, c: int, below: seq<Visit>, after: seq<Visit>)
    requires WellFounded(f) && p < |f| && f[p] != NIL
    requires Deeper(f, below) && Deeper(f, after)
    requires forall v :: v in below ==> v.node < |f| && v.node != p && Under(f, v.node, p) && v.indent > c
    requires forall w :: w in after ==> w.node < |f| && BranchBelow(f, w.node, f[p], p)
    ensures Deeper(f, [Visit(p, c)] + (below + after))
  {
    forall v, w | v in below && w in after ensures f[v.node] != w.node && f[w.node] != v.node {
      BranchesApart(f, p, v.node, w.node);
    }
    JoinDeeper(f, below, after);
    forall v | v in below ensures f[p] != v.node {
      UnderIsUp(f, v.node, p);
    }
    forall w | w in after ensures f[w.node] != p && f[p] != w.node {
      BranchesApart(f, p, p, w.node);
    }
    JoinDeeper(f, [Visit(p, c)], below + after);
  }

  /** The lines of the children of `p`, entered with a counter above `c`. */
  lemma ChildLines(f: seq<int>, t: Links, p: nat, c: int, c0: int)
    requires WellFounded(f) && Placed(f, t, p, |f|) && Calm(t) && (t.Node? ==> c0 > c)
    ensures forall v :: v in Print(t, c0, c0) ==> v.node < |f| && v.node != p && Under(f, v.node, p) && v.indent > c
  {
    PrintsBelow(f, t, p, |f|, c0, c0);
    CalmGrows(t, c0);
  }

  lemma {:induction false} DeeperFrom(f: seq<int>, t: Links, k: nat, hi: nat, c: int)
    requires WellFounded(f) && Placed(f, t, k, hi) && Calm(t)
    ensures Deeper(f, Print(t, c, c))
  {
    if t.Node? {
      var c0 := c + Bit(t.child.Node?);
      var c2 := Counter(t.child, c0);
      ChildLines(f, t.child, t.node, c, c0);
      PrintsBelow(f, t.sibling, k, t.node, c2, c2);
      DeeperFrom(f, t.child, t.node, |f|, c0);
      DeeperFrom(f, t.sibling, k, t.node, c2);
      JoinSubtree(f, t.node, c, Print(t.child, c0, c0), Print(t.sibling, c2, c2));
    }
  }

  lemma JoinRoot(f: seq<int>, r: nat, c: int, below: seq<Visit>)
    requires WellFounded(f) && r < |f| && f[r] == NIL && Deeper(f, below)
    requires forall v :: v in below ==> v.node < |f| && v.node != r && v.indent > c
    ensures Deeper(f, [Visit(r, c)] + below)
  {
    JoinDeeper(f, [Visit(r, c)], below);
  }

  /** The lines of a root and its descendants: each entry is deeper than its father. */
  lemma RootDeeper(f: seq<int>, t: Links, r: nat, c: int)
    requires WellFounded(f) && r < |f| && f[r] == NIL && Placed(f, t, r, |f|) && Calm(t)
    ensures var c0 := c + Bit(t.Node?); Deeper(f, [Visit(r, c)] + Print(t, c0, c0))
    ensures var c0 := c + Bit(t.Node?);
            forall v :: v in Print(t, c0, c0) ==> v.node < |f| && v.node != r && Under(f, v.node, r)
  {
    var c0 := c + Bit(t.Node?);
    DeeperFrom(f, t, r, |f|, c0);
    ChildLines(f, t, r, c, c0);
    JoinRoot(f, r, c, Print(t, c0, c0));
  }

  /** Entry `x` is in one of the two printed trees, but not as its father's first child. */
  ghost predicate LaterChild(f: seq<int>, child: seq<int>, x: nat)
    requires WellFounded(f) && |child| == |f| && x < |f|
  {
    (Under(f, x, 0) || Under(f, x, 1)) && f[x] != NIL && child[f[x]] != x
  }

  ghost predicate NoLaterChildHasPid2(pid: seq<int>, f: seq<int>, child: seq<int>)
    requires WellFounded(f) && |pid| == |child| == |f|
  {
    forall x :: 0 <= x < |f| && LaterChild(f, child, x) ==> pid[x] != KTHREADD
  }

  lemma {:induction false} CalmBelow(pid: seq<int>, f: seq<int>, child: seq<int>, sibling: seq<int>, p: nat, r: nat)
    requires Linked(f, child, sibling) && |pid| == |f| && p < |f| && f[p] != NIL
    requires r <= 1 && Under(f, f[p], r) && NoLaterChildHasPid2(pid, f, child)
    ensures Calm(Unfold(pid, f, child, sibling, p))
    decreases |f| - f[p], p
  {
    if child[p] != NIL {
      CalmBelow(pid, f, child, sibling, child[p], r);
    }
    if sibling[p] != NIL {
      var s := sibling[p];
      assert SiblingLinked(f, p, s);
      assert IsLastChild(f, f[p], |f|, child[f[p]]);
      assert LaterChild(f, child, s);
      CalmBelow(pid, f, child, sibling, s, r);
    }
  }

  lemma {:induction false} LaterChildResets(t: Links, x: Links, space: int, c: int)
    requires x.Node? && x.pid == KTHREADD && IsSibling(t, x)
    ensures Visit(x.node, 1) in Print(t, space, c)
  {
    var c0 := c + Bit(t.child.Node?);
    var c2 := EnterSibling(t.sibling, Counter(t.child, c0));
    if t.sibling == x {
      assert Print(x, c2, c2)[0] == Visit(x.node, 1);
    } else if IsSibling(t.child, x) {
      LaterChildResets(t.child, x, c0, c0);
    } else {
      LaterChildResets(t.sibling, x, c2, c2);
    }
  }

  /** The walk from `t` reaches `x` along a sibling link. */
  predicate IsSibling(t: Links, x: Links) {
    t.Node? && (t.sibling == x || IsSibling(t.child, x) || IsSibling(t.sibling, x))
  }

  lemma {:induction false} LaterChildIsSibling(pid: seq<int>, f: seq<int>, child: seq<int>, sibling: seq<int>,
                                               p: nat, x: nat)
    requires Linked(f, child, sibling) && |pid| == |f| && p < |f| && x < |f| && x != p
    requires x in Walk(f, child, sibling, p) && f[x] != NIL && child[f[x]] != x
    ensures IsSibling(Unfold(pid, f, child, sibling, p), Unfold(pid, f, child, sibling, x))
    decreases if p == 0 then 1 else 0, |f| - f[p], p
  {
    if child[p] != NIL && x in Walk(f, child, sibling, child[p]) {
      LaterChildIsSibling(pid, f, child, sibling, child[p], x);
    } else if x != sibling[p] {
      LaterChildIsSibling(pid, f, child, sibling, sibling[p], x);
    }
  }

  /** If entry 1 is a child of entry 0 it is printed twice; then it must have no children and not
      reset the counter. */
  ghost predicate GlueIsHarmless(pid: seq<int>, ppid: seq<int>, f: seq<int>)
    requires |pid| == |ppid| == |f| >= 2
  {
    ppid[1] == pid[0] ==> pid[1] != KTHREADD && forall j :: 0 <= j < |f| ==> f[j] != 1
  }

  /** Every printed child is indented more than its father exactly when no printed entry with a
      father, other than a first child, has pid 2, and the glue between the two roots does no
      harm. */
  lemma DeeperIff(pid: seq<int>, ppid: seq<int>, f: seq<int>, child: seq<int>, sibling: seq<int>)
    requires FathersLinked(pid, ppid, f) && Linked(f, child, sibling)
    ensures Deeper(f, Print(Unfold(pid, f, child, sibling, 0), 1, 1))
            <==> NoLaterChildHasPid2(pid, f, child) && GlueIsHarmless(pid, ppid, f)
  {
    assert ppid[1] == pid[0] <==> f[1] == 0;
    if !NoLaterChildHasPid2(pid, f, child) {
      var x :| 0 <= x < |f| && LaterChild(f, child, x) && pid[x] == KTHREADD;
      ResetIsNotDeeper(pid, f, child, sibling, x);
    } else if f[1] == NIL {
      CalmIsDeeper(pid, f, child, sibling);
    } else {
      GluedDeeperIff(pid, f, child, sibling);
    }
  }

  /** Process 1, its child 7 and its grandchild 8: the grandchild is printed no deeper than its
      father the second time, and no pid is 2. */
  lemma GrandchildNotDeeper()
    ensures var pid, ppid, f, child, sibling := [1, 7, 8], [0, 1, 7], [NIL, 0, 1], [1, 2, NIL], [1, NIL, NIL];
      && FathersLinked(pid, ppid, f) && Linked(f, child, sibling) && NoLaterChildHasPid2(pid, f, child)
      && !Deeper(f, Print(Unfold(pid, f, child, sibling, 0), 1, 1))
  {
    var pid, ppid, f, child, sibling := [1, 7, 8], [0, 1, 7], [NIL, 0, 1], [1, 2, NIL], [1, NIL, NIL];
    assert Linked(f, child, sibling) && FathersLinked(pid, ppid, f);
    assert f[2] == 1;
    DeeperIff(pid, ppid, f, child, sibling);
  }

  /** Process 1 with children 2 and 5, and a second root: process 2 comes after 5 and is printed
      no deeper than its father. */
  lemma LaterChild2NotDeeper()
    ensures var pid, ppid := [1, 9, 2, 5], [0, 0, 1, 1];
      var f, child, sibling := [NIL, NIL, 0, 0], [3, NIL, NIL, NIL], [1, NIL, NIL, 2];
      && FathersLinked(pid, ppid, f) && Linked(f, child, sibling)
      && !Deeper(f, Print(Unfold(pid, f, child, sibling, 0), 1, 1))
  {
    var pid, ppid := [1, 9, 2, 5], [0, 0, 1, 1];
    var f, child, sibling := [NIL, NIL, 0, 0], [3, NIL, NIL, NIL], [1, NIL, NIL, 2];
    assert Linked(f, child, sibling) && FathersLinked(pid, ppid, f);
    assert Under(f, f[2], 0) && LaterChild(f, child, 2);
    DeeperIff(pid, ppid, f, child, sibling);
  }

  /** A calm list prints nothing deeper than the counter it leaves behind. */
  lemma {:induction false} CalmIsBounded(t: Links, c: int)
    requires Calm(t)
    ensures forall v :: v in Print(t, c, c) ==> v.indent <= Counter(t, c)
  {
    if t.Node? {
      var c0 := c + Bit(t.child.Node?);
      var c2 := Counter(t.child, c0);
      CalmIsBounded(t.child, c0);
      CalmIsBounded(t.sibling, c2);
      CalmGrows(t.child, c0);
      CalmGrows(t.sibling, c2);
    }
  }

  /** Entry 1 hangs under entry 0 and is glued to it as well. */
  predicate Glued(t: Links) {
    && t.Node? && t.node == 0 && t.child.Node?
    && t.sibling.Node? && t.sibling.node == 1 && t.sibling.sibling == Nil
  }

  /** The counter with which entry 1 is entered again. */
  function Again(t: Links): int
    requires Glued(t)
  {
    EnterSibling(t.sibling, Counter(t.child, 2))
  }

  /** The lines of entry 0 and its descendants, and then entry 1 and its children again. */
  lemma PrintGlued(t: Links)
    requires Glued(t)
    ensures var c := Again(t);
            var c3 := c + Bit(t.sibling.child.Node?);
            Print(t, 1, 1) == ([Visit(0, 1)] + Print(t.child, 2, 2)) + ([Visit(1, c)] + Print(t.sibling.child, c3, c3))
  {
    var c := PrintTwoTrees(t);
  }

  lemma GluedDeeperIff(pid: seq<int>, f: seq<int>, child: seq<int>, sibling: seq<int>)
    requires Linked(f, child, sibling) && |pid| == |f| && f[1] == 0 && NoLaterChildHasPid2(pid, f, child)
    ensures Deeper(f, Print(Unfold(pid, f, child, sibling, 0), 1, 1))
            <==> pid[1] != KTHREADD && forall j :: 0 <= j < |f| ==> f[j] != 1
  {
    var t := Unfold(pid, f, child, sibling, 0);
    GluedTrees(pid, f, child, sibling);
    if pid[1] == KTHREADD {
      AgainAtOne(f, t);
    } else if j :| 0 <= j < |f| && f[j] == 1 {
      ChildPrinted(pid, f, child, sibling, j);
      AgainTooDeep(f, t, j);
    } else {
      AgainIsDeeper(f, t);
    }
  }

  /** With pid 2, entry 1 comes again at the indentation of its father. */
  lemma AgainAtOne(f: seq<int>, t: Links)
    requires |f| >= 2 && f[1] == 0 && Glued(t) && t.sibling.pid == KTHREADD
    ensures !Deeper(f, Print(t, 1, 1))
  {
    PrintGlued(t);
    var first := [Visit(0, 1)] + Print(t.child, 2, 2);
    assert Print(t, 1, 1)[|first|] == Visit(1, 1) && Visit(1, 1) in Print(t, 1, 1);
    assert Print(t, 1, 1)[0] == Visit(0, 1) && Visit(0, 1) in Print(t, 1, 1);
  }

  /** Entry 1 comes again at least as deep as its child was printed under it the first time. */
  lemma AgainTooDeep(f: seq<int>, t: Links, j: nat)
    requires |f| >= 2 && j < |f| && f[j] == 1 && Glued(t) && Calm(t.child)
    requires t.sibling.pid != KTHREADD && j in Nodes(t.child)
    ensures !Deeper(f, Print(t, 1, 1))
  {
    PrintGlued(t);
    CalmIsBounded(t.child, 2);
    var first := [Visit(0, 1)] + Print(t.child, 2, 2);
    assert Print(t, 1, 1)[|first|] == Visit(1, Again(t)) && Visit(1, Again(t)) in Print(t, 1, 1);
    PrintsNodes(t.child, 2, 2);
    var i :| 0 <= i < |Nodes(t.child)| && Nodes(t.child)[i] == j;
    var v := Print(t.child, 2, 2)[i];
    assert v in Print(t.child, 2, 2) && v in Print(t, 1, 1);
  }

  /** Without children and without a reset it comes again below entry 0, where it belongs. */
  lemma AgainIsDeeper(f: seq<int>, t: Links)
    requires WellFounded(f) && |f| >= 2 && f[1] == 0 && forall j :: 0 <= j < |f| ==> f[j] != 1
    requires Glued(t) && Placed(f, t.child, 0, |f|) && Calm(t.child)
    requires t.sibling.pid != KTHREADD && t.sibling.child == Nil
    ensures Deeper(f, Print(t, 1, 1))
  {
    PrintGlued(t);
    CalmGrows(t.child, 2);
    RootDeeper(f, t.child, 0, 1);
    var c := Again(t);
    JoinDeeper(f, [Visit(0, 1)] + Print(t.child, 2, 2), [Visit(1, c)]);
    assert [Visit(1, c)] + [] == [Visit(1, c)];
  }

  lemma GluedTrees(pid: seq<int>, f: seq<int>, child: seq<int>, sibling: seq<int>)
    requires Linked(f, child, sibling) && |pid| == |f| && f[1] == 0 && NoLaterChildHasPid2(pid, f, child)
    ensures var t := Unfold(pid, f, child, sibling, 0);
      && Glued(t) && t.sibling.pid == pid[1] && Placed(f, t.child, 0, |f|) && Calm(t.child)
      && (t.sibling.child == Nil <==> forall j :: 0 <= j < |f| ==> f[j] != 1)
  {
    RootTree(pid, f, child, sibling, 0);
    assert SiblingLinked(f, 1, sibling[1]) && sibling[1] == NIL;
    assert IsLastChild(f, 0, |f|, child[0]) && child[0] != NIL;
    assert IsLastChild(f, 1, |f|, child[1]);
    var t := Unfold(pid, f, child, sibling, 0);
    assert t.child == Unfold(pid, f, child, sibling, child[0]);
    assert t.sibling == Unfold(pid, f, child, sibling, 1);
    assert t.sibling.child == Unfold(pid, f, child, sibling, child[1]);
    assert t.sibling.sibling == Unfold(pid, f, child, sibling, NIL);
  }

  lemma ChildPrinted(pid: seq<int>, f: seq<int>, child: seq<int>, sibling: seq<int>, j: nat)
    requires Linked(f, child, sibling) && |pid| == |f| && f[1] == 0 && j < |f| && f[j] == 1
    ensures child[0] != NIL && j in Nodes(Unfold(pid, f, child, sibling, child[0]))
  {
    assert IsLastChild(f, 0, |f|, child[0]) && child[0] != NIL;
    ChildWalkIsKids(f, child, sibling, 0);
    NodesAreWalk(pid, f, child, sibling, child[0]);
    assert Under(f, 1, 0) && Under(f, j, 0);
    KidsCount(f, 0, |f|, j);
    assert Visits(Kids(f, 0, |f|), j) == 1;
  }

  lemma CalmIsDeeper(pid: seq<int>, f: seq<int>, child: seq<int>, sibling: seq<int>)
    requires Linked(f, child, sibling) && |pid| == |f| && f[1] == NIL
    requires NoLaterChildHasPid2(pid, f, child)
    ensures Deeper(f, Print(Unfold(pid, f, child, sibling, 0), 1, 1))
  {
    RootTree(pid, f, child, sibling, 0);
    RootTree(pid, f, child, sibling, 1);
    assert SiblingLinked(f, 1, sibling[1]);
    var t := Unfold(pid, f, child, sibling, 0);
    assert t.child == Unfold(pid, f, child, sibling, child[0]);
    assert t.sibling == Unfold(pid, f, child, sibling, 1);
    assert t.sibling.child == Unfold(pid, f, child, sibling, child[1]);
    assert t.sibling.sibling == Unfold(pid, f, child, sibling, NIL);
    TwoTreesDeeper(f, t);
  }

  lemma PrintLastSibling(t: Links, c: int)
    requires t.Node? && t.sibling == Nil
    ensures var c0 := c + Bit(t.child.Node?); Print(t, c, c) == [Visit(t.node, c)] + Print(t.child, c0, c0)
  {
    var c0 := c + Bit(t.child.Node?);
    assert Print(t.child, c0, c0) + [] == Print(t.child, c0, c0);
  }

  lemma PrintNode(t: Links, c: int)
    requires t.Node?
    ensures var c0 := c + Bit(t.child.Node?);
            var c2 := EnterSibling(t.sibling, Counter(t.child, c0));
            Print(t, c, c) == ([Visit(t.node, c)] + Print(t.child, c0, c0)) + Print(t.sibling, c2, c2)
  {
  }

  lemma PrintTwoTrees(t: Links) returns (c: int)
    requires t.Node? && t.node == 0 && t.sibling.Node? && t.sibling.node == 1 && t.sibling.sibling == Nil
    ensures c == EnterSibling(t.sibling, Counter(t.child, 1 + Bit(t.child.Node?)))
    ensures var c0, c3 := 1 + Bit(t.child.Node?), c + Bit(t.sibling.child.Node?);
            Print(t, 1, 1)
            == ([Visit(0, 1)] + Print(t.child, c0, c0)) + ([Visit(1, c)] + Print(t.sibling.child, c3, c3))
  {
    c := EnterSibling(t.sibling, Counter(t.child, 1 + Bit(t.child.Node?)));
    PrintNode(t, 1);
    PrintLastSibling(t.sibling, c);
  }

  lemma TwoTreesDeeper(f: seq<int>, t: Links)
    requires WellFounded(f) && |f| >= 2 && f[1] == NIL
    requires t.Node? && t.node == 0 && t.sibling.Node? && t.sibling.node == 1 && t.sibling.sibling == Nil
    requires Placed(f, t.child, 0, |f|) && Calm(t.child)
    requires Placed(f, t.sibling.child, 1, |f|) && Calm(t.sibling.child)
    ensures Deeper(f, Print(t, 1, 1))
  {
    var c := PrintTwoTrees(t);
    var c0, c3 := 1 + Bit(t.child.Node?), c + Bit(t.sibling.child.Node?);
    RootDeeper(f, t.child, 0, 1);
    RootDeeper(f, t.sibling.child, 1, c);
    JoinRoots(f, c, Print(t.child, c0, c0), Print(t.sibling.child, c3, c3));
  }

  lemma RootTree(pid: seq<int>, f: seq<int>, child: seq<int>, sibling: seq<int>, r: nat)
    requires Linked(f, child, sibling) && |pid| == |f| && r <= 1
    requires NoLaterChildHasPid2(pid, f, child)
    ensures var t := Unfold(pid, f, child, sibling, child[r]); Placed(f, t, r, |f|) && Calm(t)
  {
    UnfoldPlaced(pid, f, child, sibling, child[r], r, |f|);
    if child[r] != NIL {
      assert Under(f, r, r);
      CalmBelow(pid, f, child, sibling, child[r], r);
    }
  }

  lemma JoinRoots(f: seq<int>, c: int, first: seq<Visit>, second: seq<Visit>)
    requires WellFounded(f) && |f| >= 2 && f[1] == NIL
    requires Deeper(f, [Visit(0, 1)] + first) && Deeper(f, [Visit(1, c)] + second)
    requires forall v :: v in first ==> v.node < |f| && Under(f, v.node, 0)
    requires forall v :: v in second ==> v.node < |f| && Under(f, v.node, 1)
    ensures Deeper(f, ([Visit(0, 1)] + first) + ([Visit(1, c)] + second))
  {
    var a, b := [Visit(0, 1)] + first, [Visit(1, c)] + second;
    forall v, w | v in a && w in b ensures v.node < |f| && w.node < |f| && f[v.node] != w.node && f[w.node] != v.node {
      TreesApart(f, v.node, w.node);
    }
    JoinDeeper(f, a, b);
  }

  lemma TreesApart(f: seq<int>, x: nat, y: nat)
    requires WellFounded(f) && |f| >= 2 && f[1] == NIL && x < |f| && y < |f|
    requires Under(f, x, 0) && Under(f, y, 1)
    ensures f[x] != y && f[y] != x
  {
    if f[x] == y && x != 0 {
      TwoRoots(f, y);
    }
    if f[y] == x && y != 1 {
      TwoRoots(f, x);
    }
  }

  lemma EntryIsPrinted(t: Links, x: nat)
    requires x in Nodes(t)
    ensures exists v :: v in Print(t, 1, 1) && v.node == x && v.indent >= 1
  {
    PrintsNodes(t, 1, 1);
    AtLeastOne(t, 1, 1);
    var i :| 0 <= i < |Nodes(t)| && Nodes(t)[i] == x;
    assert Print(t, 1, 1)[i] in Print(t, 1, 1);
  }

  lemma ResetIsNotDeeper(pid: seq<int>, f: seq<int>, child: seq<int>, sibling: seq<int>, x: nat)
    requires Linked(f, child, sibling) && |pid| == |f|
    requires x < |f| && LaterChild(f, child, x) && pid[x] == KTHREADD
    ensures !Deeper(f, Print(Unfold(pid, f, child, sibling, 0), 1, 1))
  {
    var t, s := Unfold(pid, f, child, sibling, 0), Unfold(pid, f, child, sibling, x);
    assert s.Node? && s.pid == KTHREADD && s.node == x;
    assert x in Walk(f, child, sibling, 0) && f[x] in Walk(f, child, sibling, 0) by {
      VisitCount(f, child, sibling, x);
      VisitCount(f, child, sibling, f[x]);
    }
    assert IsSibling(t, s) by {
      LaterChildIsSibling(pid, f, child, sibling, 0, x);
    }
    assert f[x] in Nodes(t) by {
      NodesAreWalk(pid, f, child, sibling, 0);
    }
    LaterChildResets(t, s, 1, 1);
    EntryIsPrinted(t, f[x]);
  }

  /** The child links that `t` was unfolded along. */
  predicate Follows(t: Links, child: seq<int>) {
    t.Node? ==>
      && t.node < |child|
      && child[t.node] == (if t.child.Node? then t.child.node else NIL)
      && Follows(t.child, child) && Follows(t.sibling, child)
  }

  lemma {:induction false} UnfoldFollows(pid: seq<int>, f: seq<int>, child: seq<int>, sibling: seq<int>, p: nat)
    requires Linked(f, child, sibling) && |pid| == |f| && p < |f|
    ensures Follows(Unfold(pid, f, child, sibling, p), child)
    decreases if p == 0 then 1 else 0, |f| - f[p], p
  {
    if child[p] != NIL {
      UnfoldFollows(pid, f, child, sibling, child[p]);
    }
    if sibling[p] != NIL {
      UnfoldFollows(pid, f, child, sibling, sibling[p]);
    }
  }

  /** A first child is printed right after its father, indented by exactly one more. */
  lemma {:induction false} FirstChildFollows(t: Links, child: seq<int>, c: int, i: nat)
    requires Follows(t, child) && i < |Print(t, c, c)|
    ensures var lines := Print(t, c, c);
            && lines[i].node < |child|
            && (child[lines[i].node] != NIL ==>
                  i + 1 < |lines| && child[lines[i].node] >= 0
                  && lines[i + 1] == Visit(child[lines[i].node], lines[i].indent + 1))
  {
    var c0 := c + Bit(t.child.Node?);
    var c2 := EnterSibling(t.sibling, Counter(t.child, c0));
    var below, after := Print(t.child, c0, c0), Print(t.sibling, c2, c2);
    assert Print(t, c, c) == [Visit(t.node, c)] + (below + after);
    if i > |below| {
      FirstChildFollows(t.sibling, child, c2, i - 1 - |below|);
    } else if i > 0 {
      FirstChildFollows(t.child, child, c0, i - 1);
    } else if t.child.Node? {
      assert below[0] == Visit(t.child.node, c + 1);
    }
  }

  /** The indentation of the i-th printed line is 1 plus the number of entries with children
      printed since position `r`, the start or the last reset. */
  lemma IndentMeaning(t: Links, r: nat, i: nat)
    requires r <= i < |Stops(t, false)|
    requires r > 0 ==> Stops(t, false)[r].resets
    requires forall j :: r < j <= i ==> !Stops(t, false)[j].resets
    ensures i < |Print(t, 1, 1)|
    ensures Print(t, 1, 1)[i].indent == 1 + Parents(Stops(t, false)[r..i])
  {
    PrintIsLines(t, false, 1);
    IndentCounts(Stops(t, false), 1, r, i);
  }

  /** `t` is what the pointers of the table reach from `p`. */
  ghost predicate Mirrors(t: Links, pid: seq<int>, child: seq<int>, sibling: seq<int>, p: int) {
    && |pid| == |child| == |sibling|
    && match t
       case Nil => p == NIL
       case Node(x, q, below, after) =>
         && p == x < |pid| && q == pid[x]
         && Mirrors(below, pid, child, sibling, child[x])
         && Mirrors(after, pid, child, sibling, sibling[x])
  }

  lemma {:induction false} UnfoldMirrors(pid: seq<int>, f: seq<int>, child: seq<int>, sibling: seq<int>, p: int)
    requires Linked(f, child, sibling) && |pid| == |f| && NIL <= p < |f|
    ensures Mirrors(Unfold(pid, f, child, sibling, p), pid, child, sibling, p)
    decreases if p == 0 then 1 else 0, if p <= 0 then 0 else |f| - f[p], p
  {
    if p != NIL {
      assert p > 0 ==> SiblingLinked(f, p, sibling[p]);
      UnfoldMirrors(pid, f, child, sibling, child[p]);
      UnfoldMirrors(pid, f, child, sibling, sibling[p]);
    }
  }

  /** The output after `traversal` of `t`, given the output before. */
  function Printed(log: seq<Visit>, t: Links, space: int, count: int): seq<Visit>
    decreases t
  {
    match t
    case Nil => log
    case Node(x, _, child, sibling) =>
      var c0 := count + Bit(child.Node?);
      var c2 := EnterSibling(sibling, Counter(child, c0));
      Printed(Printed(log + [Visit(x, space)], child, c0, c0), sibling, c2, c2)
  }

  lemma {:induction false} PrintedAppends(log: seq<Visit>, t: Links, space: int, count: int)
    ensures Printed(log, t, space, count) == log + Print(t, space, count)
    decreases t
  {
    if t.Node? {
      var c0 := count + Bit(t.child.Node?);
      var c2 := EnterSibling(t.sibling, Counter(t.child, c0));
      var here := log + [Visit(t.node, space)];
      PrintedAppends(here, t.child, c0, c0);
      PrintedAppends(here + Print(t.child, c0, c0), t.sibling, c2, c2);
    }
  }

  // ----- hw3_part2.c: main and traversal

  class Table {
    const pid: seq<int>
    const ppid: seq<int>
    const father: array<int>
    const child: array<int>
    const sibling: array<int>
    const space: array<int>
    var count: int
    var log: seq<Visit>   // the printed lines

    ghost predicate Valid()
      reads this
    {
      && |pid| == |ppid| == father.Length == child.Length == sibling.Length == space.Length
      && father != child && father != sibling && child != sibling
      && space != father && space != child && space != sibling
    }

    ghost predicate Blank()
      reads this, father, child, sibling, space
      requires Valid()
    {
      && count == 1 && log == []
      && forall i :: 0 <= i < |pid| ==> father[i] == child[i] == sibling[i] == NIL && space[i] == 1
    }

    /** The table as the /proc loop leaves it: every link NULL, every indentation 1. */
    constructor (pid: seq<int>, ppid: seq<int>)
      requires |pid| == |ppid|
      ensures Valid() && Blank() && this.pid == pid && this.ppid == ppid
      ensures fresh(father) && fresh(child) && fresh(sibling) && fresh(space)
    {
      this.pid, this.ppid := pid, ppid;
      father := new int[|pid|](_ => NIL);
      child := new int[|pid|](_ => NIL);
      sibling := new int[|pid|](_ => NIL);
      space := new int[|pid|](_ => 1);
      count, log := 1, [];
    }

    /** Append `j` to the chain of `k`; every entry linked so far comes after `j`. */
    method Attach(k: nat, j: nat)
      requires Valid() && k < j < |pid|
      requires WellFounded(father[..]) && forall i :: 0 <= i <= j ==> father[i] == NIL
      requires ChildrenLinked(father[..], child[..]) && SiblingsLinked(father[..], sibling[..])
      modifies child, sibling
      ensures ChildrenLinked(father[..][j := k], child[..])
      ensures SiblingsLinked(father[..][j := k], sibling[..])
    {
      ghost var f := father[..];
      assert IsLastChild(f, k, |f|, child[..][k]);
      forall i | 0 <= i < |f| ensures SiblingLinked(f, i, sibling[i]) {
        assert SiblingLinked(f, i, sibling[..][i]);
      }
      if child[k] == NIL {
        child[k] := j;
      } else {
        var last := child[k];
        while sibling[last] != NIL
          invariant j < last < |f| && f[last] == k
          decreases last
        {
          assert SiblingLinked(f, last, sibling[last]);
          last := sibling[last];
        }
        assert SiblingLinked(f, last, NIL);
        sibling[last] := j;
      }
      AttachKeeps(f, old(child[..]), old(sibling[..]), child[..], sibling[..], k, j);
    }

    /** The nested loops: each entry, last first, is hung under the nearest earlier entry whose
        pid is its ppid. */
    method Link()
      requires Valid() && Blank()
      modifies father, child, sibling
      ensures FathersLinked(pid, ppid, father[..])
      ensures ChildrenLinked(father[..], child[..]) && SiblingsLinked(father[..], sibling[..])
    {
      var j := |pid| - 1;
      while j >= 0
        invariant -1 <= j < |pid|
        invariant WellFounded(father[..]) && forall i :: 0 <= i <= j ==> father[i] == NIL
        invariant forall i :: j < i < |pid| ==> IsFather(pid, ppid, i, father[i])
        invariant ChildrenLinked(father[..], child[..]) && SiblingsLinked(father[..], sibling[..])
      {
        var k := j - 1;
        while k >= 0 && ppid[j] != pid[k]
          invariant -1 <= k < j
          invariant forall i :: k < i < j ==> pid[i] != ppid[j]
        {
          k := k - 1;
        }
        if k >= 0 {
          Attach(k, j);
          father[j] := k;
        }
        j := j - 1;
      }
      assert forall i :: 0 <= i < |pid| ==> IsFather(pid, ppid, i, father[..][i]);
    }

    /** The recursive printer. It prints exactly `Print` of what can be reached from `p`. */
    method Traversal(p: nat, ghost t: Links)
      requires Valid() && Mirrors(t, pid, child[..], sibling[..], p)
      modifies this, space
      ensures Valid()
      ensures log == Printed(old(log), t, old(space[p]), old(count))
      ensures count == Counter(t, old(count))
      decreases t
    {
      log := log + [Visit(p, space[p])];
      if child[p] != NIL {
        count := count + 1;
        space[child[p]] := count;
        Traversal(child[p], t.child);
      }
      if sibling[p] != NIL {
        if pid[sibling[p]] == KTHREADD {
          count := 1;
        }
        space[sibling[p]] := count;
        Traversal(sibling[p], t.sibling);
      }
    }

    /** `main` after the /proc loop, on at least the two entries it takes for granted. */
    method Show()
      requires Valid() && Blank() && |pid| >= 2
      modifies this, father, child, sibling, space
      ensures Valid() && FathersLinked(pid, ppid, father[..])
      ensures Linked(father[..], child[..], sibling[..])
      ensures log == Print(Unfold(pid, father[..], child[..], sibling[..], 0), 1, 1)
    {
      Link();
      ghost var f := father[..];
      forall j | 1 <= j < |f| ensures SiblingLinked(f, j, sibling[j]) {
        assert SiblingLinked(f, j, sibling[..][j]);
      }
      sibling[0] := 1;
      assert Linked(f, child[..], sibling[..]);
      UnfoldMirrors(pid, f, child[..], sibling[..], 0);
      ghost var t := Unfold(pid, f, child[..], sibling[..], 0);
      Traversal(0, t);
      PrintedAppends([], t, 1, 1);
      assert [] + Print(t, 1, 1) == Print(t, 1, 1);
    }
  }

  ghost predicate IsFather(pid: seq<int>, ppid: seq<int>, j: nat, k: int)
    requires |pid| == |ppid| && j < |pid|
  {
    && NIL <= k < j
    && (k != NIL ==> pid[k] == ppid[j])
    && forall i :: k < i < j ==> pid[i] != ppid[j]
  }

  /** Hanging `j` under `k` at the end of its chain keeps both kinds of links right. */
  lemma AttachKeeps(f: seq<int>, child: seq<int>, sibling: seq<int>, child': seq<int>, sibling': seq<int>,
                    k: nat, j: nat)
    requires WellFounded(f) && k < j < |f| && forall i :: 0 <= i <= j ==> f[i] == NIL
    requires ChildrenLinked(f, child) && SiblingsLinked(f, sibling)
    requires if child[k] == NIL then child' == child[k := j] && sibling' == sibling
             else child' == child && exists last ::
               j < last < |f| && f[last] == k && sibling[last] == NIL && sibling' == sibling[last := j]
    ensures ChildrenLinked(f[j := k], child') && SiblingsLinked(f[j := k], sibling')
  {
    var g := f[j := k];
    forall i | 0 <= i < |g| ensures IsLastChild(g, i, |g|, child'[i]) {
      assert IsLastChild(f, i, |f|, child[i]);
    }
    forall i | 0 <= i < |g| ensures SiblingLinked(g, i, sibling'[i]) {
      assert SiblingLinked(f, i, sibling[i]);
      assert IsLastChild(f, k, |f|, child[k]);
      if child[k] != NIL {
        var last :| j < last < |f| && f[last] == k && sibling[last] == NIL && sibling' == sibling[last := j];
        assert SiblingLinked(f, last, NIL);
      }
    }
  }
}
