/**
 * What the shape checks mean: they accept exactly the arrays in which every
 * node has one and only one path from node 0, and a recursive walk from node 0
 * over an accepted array visits each node exactly once.
 */
module TreePathShape {

  import opened Basics
  import opened TreePath

  predicate Edge(a: seq<WireNode>, i: nat, k: Key, v: nat) {
    i < |a| && k in a[i].children && a[i].children[k] == v
  }

  // ---------------------------------------------------------------- counting claims

  lemma {:induction false} TargetsHas(m: map<Key, nat>, s: set<Key>, k: nat, v: nat) returns (j: Key)
    requires k <= KEYS && Targets(m, s, k, v) > 0
    ensures j < k && j in s && j in m && m[j] == v
  {
    if k - 1 in s && k - 1 in m && m[k - 1] == v {
      j := k - 1;
    } else {
      j := TargetsHas(m, s, k - 1, v);
    }
  }

  lemma {:induction false} TargetsCount(m: map<Key, nat>, s: set<Key>, k: nat, j: Key)
    requires j < k <= KEYS && j in s && j in m
    ensures Targets(m, s, k, m[j]) > 0
  {
    if j < k - 1 {
      TargetsCount(m, s, k - 1, j);
    }
  }

  lemma {:induction false} TargetsTwice(m: map<Key, nat>, s: set<Key>, k: nat, i: Key, j: Key)
    requires i < j < k <= KEYS && i in s && j in s && i in m && j in m && m[i] == m[j]
    ensures Targets(m, s, k, m[j]) > 1
  {
    if j < k - 1 {
      TargetsTwice(m, s, k - 1, i, j);
    } else {
      TargetsCount(m, s, k - 1, i);
    }
  }

  lemma {:induction false} TargetsTwo(m: map<Key, nat>, s: set<Key>, k: nat, v: nat) returns (i: Key, j: Key)
    requires k <= KEYS && Targets(m, s, k, v) > 1
    ensures i < j && i in m && j in m && m[i] == v && m[j] == v
  {
    if k - 1 in s && k - 1 in m && m[k - 1] == v {
      i := TargetsHas(m, s, k - 1, v);
      j := k - 1;
    } else {
      i, j := TargetsTwo(m, s, k - 1, v);
    }
  }

  lemma {:induction false} ClaimsHas(a: seq<WireNode>, v: nat) returns (i: nat, k: Key)
    requires Claims(a, v) > 0
    ensures Edge(a, i, k, v)
  {
    var e := a[|a| - 1];
    if Targets(e.children, e.children.Keys, KEYS, v) > 0 {
      i := |a| - 1;
      k := TargetsHas(e.children, e.children.Keys, KEYS, v);
    } else {
      i, k := ClaimsHas(a[..|a| - 1], v);
    }
  }

  lemma {:induction false} ClaimsCount(a: seq<WireNode>, i: nat, k: Key, v: nat)
    requires Edge(a, i, k, v)
    ensures Claims(a, v) > 0
  {
    if i < |a| - 1 {
      ClaimsCount(a[..|a| - 1], i, k, v);
    } else {
      TargetsCount(a[i].children, a[i].children.Keys, KEYS, k);
    }
  }

  lemma {:induction false} ClaimsTwice(a: seq<WireNode>, i: nat, k: Key, j: nat, l: Key, v: nat)
    requires Edge(a, i, k, v) && Edge(a, j, l, v) && (i, k) != (j, l) && i <= j
    ensures Claims(a, v) > 1
  {
    var e := a[|a| - 1].children;
    if j < |a| - 1 {
      ClaimsTwice(a[..|a| - 1], i, k, j, l, v);
    } else if i < j {
      ClaimsCount(a[..|a| - 1], i, k, v);
      TargetsCount(e, e.Keys, KEYS, l);
    } else if k < l {
      TargetsTwice(e, e.Keys, KEYS, k, l);
    } else {
      TargetsTwice(e, e.Keys, KEYS, l, k);
    }
  }

  lemma {:induction false} ClaimsTwo(a: seq<WireNode>, v: nat) returns (i: nat, k: Key, j: nat, l: Key)
    requires Claims(a, v) > 1
    ensures Edge(a, i, k, v) && Edge(a, j, l, v) && (i, k) != (j, l)
  {
    var e := a[|a| - 1].children;
    var here := Targets(e, e.Keys, KEYS, v);
    if here > 1 {
      i, j := |a| - 1, |a| - 1;
      k, l := TargetsTwo(e, e.Keys, KEYS, v);
    } else if here == 1 {
      i, k := ClaimsHas(a[..|a| - 1], v);
      j := |a| - 1;
      l := TargetsHas(e, e.Keys, KEYS, v);
    } else {
      i, k, j, l := ClaimsTwo(a[..|a| - 1], v);
    }
  }

  /** On an accepted array edges stay in range. */
  lemma AcceptedInRange(a: seq<WireNode>)
    requires OneTree(a)
    ensures InRange(a)
  {
    forall i, k | 0 <= i < |a| && k in a[i].children
      ensures a[i].children[k] < |a|
    {
      ClaimsCount(a, i, k, a[i].children[k]);
    }
  }

  /** On an accepted array every node but the root has a parent edge, before it. */
  lemma ParentOf(a: seq<WireNode>, v: nat) returns (p: nat, k: Key)
    requires OneTree(a) && 0 < v < |a|
    ensures Edge(a, p, k, v) && p < v
  {
    p, k := ClaimsHas(a, v);
    assert EntryOk(0 + p, a[p]);
  }

  lemma OneParent(a: seq<WireNode>, i: nat, k: Key, j: nat, l: Key, v: nat)
    requires OneTree(a) && Edge(a, i, k, v) && Edge(a, j, l, v)
    ensures i == j && k == l
  {
    if (i, k) != (j, l) {
      if i <= j { ClaimsTwice(a, i, k, j, l, v); } else { ClaimsTwice(a, j, l, i, k, v); }
    }
  }

  // ---------------------------------------------------------------- paths

  /** The node reached from node 0 by taking the outputs ks in turn. */
  function Follow(a: seq<WireNode>, ks: seq<Key>): Option<nat> {
    if ks == [] then Some(0)
    else
      var p := Follow(a, ks[..|ks| - 1]);
      if p.Some? && p.value < |a| && ks[|ks| - 1] in a[p.value].children
      then Some(a[p.value].children[ks[|ks| - 1]]) else None
  }

  ghost predicate HasPath(a: seq<WireNode>, v: nat) {
    exists ks :: Follow(a, ks) == Some(v)
  }

  /** No other path ends where ks does. */
  ghost predicate OnlyPath(a: seq<WireNode>, ks: seq<Key>) {
    forall ls :: Follow(a, ls) == Follow(a, ks) ==> ls == ks
  }

  /** Every node has exactly one path from node 0. */
  ghost predicate OnePathEach(a: seq<WireNode>) {
    && (forall v: nat :: v < |a| ==> HasPath(a, v))
    && (forall ks :: Follow(a, ks).Some? ==> OnlyPath(a, ks))
  }

  lemma OnlyOnePath(a: seq<WireNode>, ks: seq<Key>)
    requires OneTree(a) && Follow(a, ks).Some?
    ensures OnlyPath(a, ks)
  {
    forall ls | Follow(a, ls) == Follow(a, ks) ensures ls == ks { PathsAgree(a, ks, ls); }
  }

  lemma PathExtends(a: seq<WireNode>, ks: seq<Key>, i: nat, k: Key, v: nat)
    requires Follow(a, ks) == Some(i) && Edge(a, i, k, v)
    ensures Follow(a, ks + [k]) == Some(v)
  {
    assert (ks + [k])[..|ks|] == ks;
  }

  lemma {:induction false} PathTo(a: seq<WireNode>, v: nat)
    requires OneTree(a) && v < |a|
    ensures HasPath(a, v)
  {
    if v == 0 {
      assert Follow(a, []) == Some(0);
    } else {
      var p, k := ParentOf(a, v);
      PathTo(a, p);
      var ks :| Follow(a, ks) == Some(p);
      PathExtends(a, ks, p, k, v);
    }
  }

  /** A non-empty path ends with an edge, so never at node 0. */
  lemma LastEdge(a: seq<WireNode>, ks: seq<Key>)
    requires EntriesOk(a, 0) && ks != [] && Follow(a, ks).Some?
    ensures var p := Follow(a, ks[..|ks| - 1]);
            p.Some? && Edge(a, p.value, ks[|ks| - 1], Follow(a, ks).value) && Follow(a, ks).value > p.value
  {
    var p := Follow(a, ks[..|ks| - 1]).value;
    assert EntryOk(0 + p, a[p]);
  }

  lemma {:induction false} PathsAgree(a: seq<WireNode>, ks: seq<Key>, ls: seq<Key>)
    requires OneTree(a) && Follow(a, ks).Some? && Follow(a, ks) == Follow(a, ls)
    ensures ks == ls
    decreases |ks|
  {
    if ks != [] { LastEdge(a, ks); }
    if ls != [] { LastEdge(a, ls); }
    if ks != [] && ls != [] {
      var ki, li := ks[..|ks| - 1], ls[..|ls| - 1];
      var k, l := ks[|ks| - 1], ls[|ls| - 1];
      OneParent(a, Follow(a, ki).value, k, Follow(a, li).value, l, Follow(a, ks).value);
      PathsAgree(a, ki, li);
      assert ks == ki + [k] && ls == li + [l];
    }
  }

  lemma SameExtension(ks: seq<Key>, k: Key, ls: seq<Key>, l: Key)
    requires ks + [k] == ls + [l]
    ensures ks == ls && k == l
  {
    assert |ks + [k]| == |ls + [l]|;
    assert (ks + [k])[|ks|] == k && (ls + [l])[|ls|] == l;
    assert (ks + [k])[..|ks|] == ks && (ls + [l])[..|ls|] == ls;
  }

  lemma TwoEdgesTwoPaths(a: seq<WireNode>, i: nat, k: Key, j: nat, l: Key, v: nat)
    requires OnePathEach(a) && Edge(a, i, k, v) && Edge(a, j, l, v)
    ensures i == j && k == l
  {
    assert HasPath(a, i) && HasPath(a, j);
    var ks :| Follow(a, ks) == Some(i);
    var ls :| Follow(a, ls) == Some(j);
    PathExtends(a, ks, i, k, v);
    assert OnlyPath(a, ks + [k]);
    TwoPaths(a, ks, i, k, ls, j, l, v);
  }

  lemma TwoPaths(a: seq<WireNode>, ks: seq<Key>, i: nat, k: Key, ls: seq<Key>, j: nat, l: Key, v: nat)
    requires OnlyPath(a, ks + [k]) && Follow(a, ks) == Some(i) && Follow(a, ls) == Some(j)
    requires Edge(a, i, k, v) && Edge(a, j, l, v)
    ensures i == j && k == l
  {
    PathExtends(a, ks, i, k, v);
    PathExtends(a, ls, j, l, v);
    SameExtension(ks, k, ls, l);
  }

  lemma ClaimedOnce(a: seq<WireNode>, v: nat)
    requires EntriesOk(a, 0) && InRange(a) && OnePathEach(a)
    ensures Claims(a, v) == if 1 <= v < |a| then 1 else 0
  {
    if Claims(a, v) > 1 {
      var i, k, j, l := ClaimsTwo(a, v);
      TwoEdgesTwoPaths(a, i, k, j, l, v);
    }
    if Claims(a, v) > 0 {
      var i, k := ClaimsHas(a, v);
      assert EntryOk(0 + i, a[i]);
    }
    if 1 <= v < |a| {
      assert HasPath(a, v);
      var ks :| Follow(a, ks) == Some(v);
      LastEdge(a, ks);
      ClaimsCount(a, Follow(a, ks[..|ks| - 1]).value, ks[|ks| - 1], v);
    }
  }

  /**
   * The shape checks accept exactly the arrays with forward edges, on existing
   * outputs and in range, in which every node has one and only one path from
   * node 0.
   */
  lemma ShapeMeansOneTree(a: seq<WireNode>)
    ensures OneTree(a) <==> |a| > 0 && EntriesOk(a, 0) && InRange(a) && OnePathEach(a)
  {
    if OneTree(a) {
      AcceptedInRange(a);
      forall v: nat | v < |a| ensures HasPath(a, v) { PathTo(a, v); }
      forall ks | Follow(a, ks).Some? ensures OnlyPath(a, ks) { OnlyOnePath(a, ks); }
    }
    if |a| > 0 && EntriesOk(a, 0) && InRange(a) && OnePathEach(a) {
      forall v: nat ensures Claims(a, v) == if 1 <= v < |a| then 1 else 0 {
        ClaimedOnce(a, v);
      }
    }
  }

  // ---------------------------------------------------------------- walks

  /** Each of lo..hi-1 once. */
  ghost function Range(lo: nat, hi: nat): multiset<nat> {
    if hi <= lo then multiset{} else Range(lo, hi - 1) + multiset{hi - 1}
  }

  lemma {:induction false} RangeCount(lo: nat, hi: nat, v: nat)
    ensures Range(lo, hi)[v] == if lo <= v < hi then 1 else 0
    decreases hi
  {
    if lo < hi {
      RangeCount(lo, hi - 1, v);
    }
  }

  /** The nodes a recursive walk from i visits, with multiplicity. */
  ghost function Visits(a: seq<WireNode>, i: nat): multiset<nat>
    requires i < |a| && EntriesOk(a, 0) && InRange(a)
    decreases |a| - i, KEYS + 1
  {
    multiset{i} + VisitsBelow(a, i, KEYS)
  }

  ghost function VisitsBelow(a: seq<WireNode>, i: nat, k: nat): multiset<nat>
    requires i < |a| && EntriesOk(a, 0) && InRange(a) && k <= KEYS
    decreases |a| - i, k
  {
    if k == 0 then multiset{}
    else VisitsBelow(a, i, k - 1) + if k - 1 in a[i].children then Visits(a, Child(a, i, k - 1)) else multiset{}
  }

  /** A walk from i stays at or after i and inside the array, and comes to i once. */
  lemma {:induction false} VisitsForward(a: seq<WireNode>, i: nat, v: nat)
    requires i < |a| && EntriesOk(a, 0) && InRange(a) && (v <= i || |a| <= v)
    ensures Visits(a, i)[v] == if v == i then 1 else 0
    decreases |a| - i, KEYS + 1
  {
    VisitsBelowForward(a, i, KEYS, v);
  }

  lemma {:induction false} VisitsBelowForward(a: seq<WireNode>, i: nat, k: nat, v: nat)
    requires i < |a| && EntriesOk(a, 0) && InRange(a) && (v <= i || |a| <= v) && k <= KEYS
    ensures VisitsBelow(a, i, k)[v] == 0
    decreases |a| - i, k
  {
    if k > 0 {
      VisitsBelowForward(a, i, k - 1, v);
      if k - 1 in a[i].children {
        VisitsForward(a, Child(a, i, k - 1), v);
      }
    }
  }

  /** A walk that does not start at v comes to v as often as to v's parent. */
  lemma {:induction false} VisitsAsParent(a: seq<WireNode>, i: nat, p: nat, l: Key, v: nat)
    requires OneTree(a) && InRange(a) && i < |a| && Edge(a, p, l, v) && i != v
    ensures Visits(a, i)[v] == Visits(a, i)[p]
    decreases |a| - i, KEYS + 1
  {
    VisitsBelowAsParent(a, i, KEYS, p, l, v);
  }

  lemma {:induction false} VisitsBelowAsParent(a: seq<WireNode>, i: nat, k: nat, p: nat, l: Key, v: nat)
    requires OneTree(a) && InRange(a) && i < |a| && Edge(a, p, l, v) && k <= KEYS
    ensures VisitsBelow(a, i, k)[v] == VisitsBelow(a, i, k)[p] + if p == i && l < k then 1 else 0
    decreases |a| - i, k
  {
    if k > 0 {
      VisitsBelowAsParent(a, i, k - 1, p, l, v);
      if k - 1 in a[i].children {
        var c := Child(a, i, k - 1);
        if c == v {
          OneParent(a, i, k - 1, p, l, v);
          VisitsForward(a, c, v);
          VisitsForward(a, c, p);
        } else {
          VisitsAsParent(a, c, p, l, v);
        }
      }
    }
  }

  lemma {:induction false} VisitedOnce(a: seq<WireNode>, v: nat)
    requires OneTree(a) && InRange(a) && v < |a|
    ensures Visits(a, 0)[v] == 1
  {
    if v == 0 {
      VisitsForward(a, 0, 0);
    } else {
      var p, l := ParentOf(a, v);
      VisitsAsParent(a, 0, p, l, v);
      VisitedOnce(a, p);
    }
  }

  /** A recursive walk over an accepted array visits every node, each exactly once. */
  lemma WalkVisitsEachOnce(a: seq<WireNode>)
    requires OneTree(a)
    ensures InRange(a) && Visits(a, 0) == Range(0, |a|)
  {
    AcceptedInRange(a);
    forall v: nat ensures Visits(a, 0)[v] == Range(0, |a|)[v] {
      RangeCount(0, |a|, v);
      if v < |a| { VisitedOnce(a, v); } else { VisitsForward(a, 0, v); }
    }
    assert forall v :: Visits(a, 0)[v] == Range(0, |a|)[v];
  }
}
