/**
 * The depth claim of an ancestry path: the bounded walk returns the true height
 * or an error, visits each node of a rebuilt tree once, and a claim written by
 * the sender passes the receiver's validation on the rebuilt tree.
 */
module AncestryDepth {

  import opened Basics
  import opened TreePath
  import opened TreePathShape
  import opened TreePathRoundTrip
  import opened TreePathConvert

  const MAX_DEPTH: nat := 32

  /** Nodes on the longest path from n down; a nil node has none. */
  ghost function Height(n: Node): nat
    decreases n, KEYS + 1
  {
    if n.Nil? then 0 else 1 + HeightBelow(n, KEYS)
  }

  ghost function HeightBelow(n: Node, k: nat): nat
    requires n.Node? && k <= KEYS
    decreases n, k
  {
    if k == 0 then 0
    else
      var before := HeightBelow(n, k - 1);
      if k - 1 in n.children && Height(n.children[k - 1]) > before then Height(n.children[k - 1]) else before
  }

  lemma {:induction false} ChildLower(n: Node, k: nat, j: Key)
    requires n.Node? && j < k <= KEYS && j in n.children
    ensures Height(n.children[j]) <= HeightBelow(n, k)
    decreases k
  {
    if j < k - 1 { ChildLower(n, k - 1, j); }
  }

  lemma {:induction false} HeightAttained(n: Node, k: nat) returns (j: Key)
    requires n.Node? && k <= KEYS && HeightBelow(n, k) > 0
    ensures j in n.children && Height(n.children[j]) == HeightBelow(n, k)
    decreases k
  {
    if k - 1 in n.children && Height(n.children[k - 1]) == HeightBelow(n, k) {
      j := k - 1;
    } else {
      j := HeightAttained(n, k - 1);
    }
  }

  /** The height below n is h when every child is at most h high and, unless h is 0, some child is h high. */
  lemma HeightIs(n: Node, h: nat)
    requires n.Node? && forall k :: k in n.children ==> Height(n.children[k]) <= h
    requires h == 0 || exists k :: k in n.children && Height(n.children[k]) == h
    ensures HeightBelow(n, KEYS) == h
  {
    if h > 0 {
      var k :| k in n.children && Height(n.children[k]) == h;
      ChildLower(n, KEYS, k);
    }
    if HeightBelow(n, KEYS) > 0 {
      var j := HeightAttained(n, KEYS);
    }
  }

  /** Nodes below n on the outputs of s under k. */
  ghost function WalkBelow(n: Node, s: set<Key>, k: nat): nat
    requires n.Node? && k <= KEYS
  {
    if k == 0 then 0
    else WalkBelow(n, s, k - 1) + if k - 1 in s && k - 1 in n.children then Weight(n.children[k - 1], Nodes) else 0
  }

  lemma {:induction false} WalkAdd(n: Node, s: set<Key>, x: Key, k: nat)
    requires n.Node? && k <= KEYS && x in n.children && x !in s
    ensures WalkBelow(n, s + {x}, k) == WalkBelow(n, s, k) + if x < k then Weight(n.children[x], Nodes) else 0
  {
    if k > 0 { WalkAdd(n, s, x, k - 1); }
  }

  lemma {:induction false} WalkEnds(n: Node, k: nat)
    requires n.Node? && k <= KEYS
    ensures WalkBelow(n, {}, k) == 0 && WalkBelow(n, n.children.Keys, k) == WeightBelow(n, k, Nodes)
  {
    if k > 0 { WalkEnds(n, k - 1); }
  }

  /** What the bounded walk over n, itself at the given depth, returns. */
  ghost function DepthFrom(n: Node, depth: nat): Option<nat>
    requires depth > 0
  {
    if n.Nil? then Some(0)
    else if depth + Height(n) - 1 > MAX_DEPTH then None
    else Some(depth + Height(n) - 1)
  }

  /** The recursive walk; children come in any order, and a finished walk has visited each node once. */
  method NodeMaxDepth(n: Node, depth: nat) returns (r: Option<nat>, ghost visited: nat)
    requires depth > 0
    ensures r == DepthFrom(n, depth)
    ensures r.Some? ==> visited == Weight(n, Nodes)
    decreases n
  {
    visited := 0;
    if n.Nil? {
      return Some(0), visited;
    }
    if depth > MAX_DEPTH {
      return None, visited;
    }
    WalkEnds(n, KEYS);
    visited := 1;
    var deepest := depth;
    var rest := n.children.Keys;
    ghost var done: set<Key> := {};
    while rest != {}
      invariant done !! rest && done + rest == n.children.Keys
      invariant depth <= deepest <= MAX_DEPTH
      invariant forall k :: k in done ==> depth + Height(n.children[k]) <= deepest
      invariant deepest == depth || exists k :: k in done && depth + Height(n.children[k]) == deepest
      invariant visited == 1 + WalkBelow(n, done, KEYS)
      decreases rest
    {
      var k :| k in rest;
      var d, seen := NodeMaxDepth(n.children[k], depth + 1);
      if d.None? {
        ChildLower(n, KEYS, k);
        return None, visited;
      }
      WalkAdd(n, done, k, KEYS);
      visited := visited + seen;
      if d.value > deepest {
        deepest := d.value;
      }
      rest, done := rest - {k}, done + {k};
    }
    assert done == n.children.Keys;
    HeightIs(n, deepest - depth);
    r := Some(deepest);
  }

  method TreeMaxDepth(t: Tree) returns (r: Option<nat>)
    ensures r == DepthFrom(t.root, 1)
  {
    ghost var seen;
    r, seen := NodeMaxDepth(t.root, 1);
  }

  // ---------------------------------------------------------------- walks over rebuilt trees are linear

  lemma {:induction false} RangeSize(lo: nat, hi: nat)
    requires lo <= hi
    ensures |Range(lo, hi)| == hi - lo
    decreases hi
  {
    if lo < hi { RangeSize(lo, hi - 1); }
  }

  lemma {:induction false} BuildWeight(a: seq<WireNode>, i: nat)
    requires i < |a| && EntriesOk(a, 0) && InRange(a)
    ensures Weight(Build(a, i), Nodes) == |Visits(a, i)|
    decreases |a| - i, KEYS + 1
  {
    BuildWeightBelow(a, i, KEYS);
  }

  lemma {:induction false} BuildWeightBelow(a: seq<WireNode>, i: nat, k: nat)
    requires i < |a| && EntriesOk(a, 0) && InRange(a) && k <= KEYS
    ensures WeightBelow(Build(a, i), k, Nodes) == |VisitsBelow(a, i, k)|
    decreases |a| - i, k
  {
    if k > 0 {
      BuildWeightBelow(a, i, k - 1);
      if k - 1 in a[i].children { BuildWeight(a, Child(a, i, k - 1)); }
    }
  }

  /** A walk over the tree rebuilt from an accepted array makes exactly as many visits as the array has nodes. */
  lemma RebuiltWalkIsLinear(a: seq<WireNode>)
    requires OneTree(a)
    ensures InRange(a) && Weight(Build(a, 0), Nodes) == |a|
  {
    WalkVisitsEachOnce(a);
    BuildWeight(a, 0);
    RangeSize(0, |a|);
  }

  // ---------------------------------------------------------------- the claim

  datatype AncestryPath = AncestryPath(path: Path, commitment: nat, inputIndices: seq<nat>, treeDepth: nat)

  /** Builds the claim; an absent tree or one too high is an error. */
  method AncestryPathFromTree(t: Option<Tree>, commitment: nat, inputIndices: seq<nat>)
    returns (r: Option<AncestryPath>)
    ensures r.Some? <==> t.Some? && Height(t.value.root) <= MAX_DEPTH
    ensures r.Some? ==> r.value == AncestryPath(FromTree(t.value), commitment, inputIndices, Height(t.value.root))
  {
    if t.None? {
      return None;
    }
    var path := TreePathFromTree(t);
    var depth := TreeMaxDepth(t.value);
    if depth.None? {
      return None;
    }
    r := Some(AncestryPath(path.value, commitment, inputIndices, depth.value));
  }

  /** A claim is valid when it is the height of the tree, if there is one, and within 1..32. */
  ghost predicate ValidClaim(claimed: nat, t: Option<Tree>) {
    0 < claimed <= MAX_DEPTH && (t.Some? ==> Height(t.value.root) == claimed)
  }

  method ValidateAncestryPathDepth(claimed: nat, reconstructed: Option<Tree>) returns (ok: bool)
    ensures ok <==> ValidClaim(claimed, reconstructed)
  {
    if claimed == 0 || claimed > MAX_DEPTH {
      return false;
    }
    if reconstructed.None? {
      return true;
    }
    var actual := TreeMaxDepth(reconstructed.value);
    ok := actual.Some? && actual.value == claimed;
  }

  /**
   * The sender's claim survives the wire: for every well-formed tree that could
   * be sent, the receiver rebuilds that tree and the claim is valid for it.
   */
  lemma ClaimSurvives(t: Tree, maxNodes: int)
    requires WellFormed(t, maxNodes) && Height(t.root) <= MAX_DEPTH
    ensures Rebuild(FromTree(t), maxNodes) == Rebuilt(t)
    ensures ValidClaim(Height(t.root), Some(Rebuild(FromTree(t), maxNodes).tree))
    ensures forall c :: ValidClaim(c, Some(t)) ==> c == Height(t.root)
  {
    RoundTrip(t, maxNodes);
  }
}
