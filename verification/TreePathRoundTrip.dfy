/**
 * Rebuilding a flattened tree: it gives the tree back exactly when the tree is
 * well formed and within the budgets, and is refused otherwise.
 */
module TreePathRoundTrip {

  import opened Basics
  import opened TreePath
  import opened TreePathShape

  /** No nil child, children only on existing outputs, no negative output value. */
  ghost predicate Sound(n: Node) {
    && n.Node? && ValuesOk(n.data.outputs)
    && (forall k :: k in n.children ==> k < |n.data.outputs|)
    && (forall k :: k in n.children ==> Sound(n.children[k]))
  }

  /** How many nodes, outputs or co-signers a tree has. */
  ghost function Weight(n: Node, m: Measure): nat
    decreases n, KEYS + 1
  {
    if n.Nil? then 0 else Weigh(Encode(n.data), m) + WeightBelow(n, KEYS, m)
  }

  ghost function WeightBelow(n: Node, k: nat, m: Measure): nat
    requires n.Node? && k <= KEYS
    decreases n, k
  {
    if k == 0 then 0
    else WeightBelow(n, k - 1, m) + if k - 1 in n.children then Weight(n.children[k - 1], m) else 0
  }

  ghost predicate WellFormed(t: Tree, maxNodes: int) {
    && Sound(t.root) && ValueOk(t.batchOutput)
    && (maxNodes > 0 ==> Weight(t.root, Nodes) <= maxNodes)
    && Weight(t.root, Outputs) <= Budget(maxNodes, Outputs)
    && Weight(t.root, CoSigners) <= Budget(maxNodes, CoSigners)
  }

  ghost function Rebuild(p: Path, maxNodes: int): Outcome {
    if !Accepts(p, maxNodes) then Rejected
    else
      AcceptedInRange(p.nodes);
      Rebuilt(Tree(Build(p.nodes, 0), p.batchOutpoint.value, p.batchOutput, p.sweepRoot))
  }

  // ---------------------------------------------------------------- totals and claims of concatenations

  lemma {:induction false} TotalConcat(a: seq<WireNode>, b: seq<WireNode>, m: Measure)
    ensures Total(a + b, m) == Total(a, m) + Total(b, m)
  {
    if b == [] {
      assert a + b == a;
    } else {
      TotalConcat(a, b[..|b| - 1], m);
      assert (a + b)[..|a + b| - 1] == a + b[..|b| - 1];
    }
  }

  lemma {:induction false} TotalNodes(a: seq<WireNode>)
    ensures Total(a, Nodes) == |a|
  {
    if a != [] { TotalNodes(a[..|a| - 1]); }
  }

  lemma ClaimsSnoc(a: seq<WireNode>, e: WireNode, v: nat)
    ensures Claims(a + [e], v) == Claims(a, v) + Targets(e.children, e.children.Keys, KEYS, v)
  {
    assert (a + [e])[..|a|] == a;
  }

  lemma {:induction false} ClaimsConcat(a: seq<WireNode>, b: seq<WireNode>, v: nat)
    ensures Claims(a + b, v) == Claims(a, v) + Claims(b, v)
  {
    if b == [] {
      assert a + b == a;
    } else {
      var init, e := b[..|b| - 1], b[|b| - 1];
      ClaimsConcat(a, init, v);
      ClaimsSnoc(a + init, e, v);
      ClaimsSnoc(init, e, v);
      assert init + [e] == b && a + init + [e] == a + b;
    }
  }

  lemma KidsStep(n: Node, k: nat, base: nat)
    requires n.Node? && k < KEYS
    ensures k in n.children ==>
      Kids(n, k + 1, base) == Kids(n, k, base) + Flat(n.children[k], base + |Kids(n, k, base)|)
    ensures k !in n.children ==> Kids(n, k + 1, base) == Kids(n, k, base)
  {
    if k !in n.children {
      assert Kids(n, k, base) + [] == Kids(n, k, base);
    }
  }

  lemma {:induction false} FlatTotal(n: Node, base: nat, m: Measure)
    ensures Total(Flat(n, base), m) == Weight(n, m)
    decreases n, KEYS + 1
  {
    if n.Node? {
      KidsTotal(n, KEYS, base + 1, m);
      var head := [WireNode(Encode(n.data), Placed(n, KEYS, base + 1))];
      assert head[..0] == [];
      TotalConcat(head, Kids(n, KEYS, base + 1), m);
    }
  }

  lemma KidsTotalStep(n: Node, k: nat, base: nat, m: Measure)
    requires n.Node? && k < KEYS
    ensures Total(Kids(n, k + 1, base), m) == Total(Kids(n, k, base), m)
              + if k in n.children then Total(Flat(n.children[k], base + |Kids(n, k, base)|), m) else 0
  {
    KidsStep(n, k, base);
    if k in n.children {
      TotalOfBoth(Kids(n, k + 1, base), Kids(n, k, base), Flat(n.children[k], base + |Kids(n, k, base)|), m);
    }
  }

  lemma TotalOfBoth(all: seq<WireNode>, a: seq<WireNode>, b: seq<WireNode>, m: Measure)
    requires all == a + b
    ensures Total(all, m) == Total(a, m) + Total(b, m)
  {
    TotalConcat(a, b, m);
  }

  lemma {:induction false} KidsTotal(n: Node, k: nat, base: nat, m: Measure)
    requires n.Node? && k <= KEYS
    ensures Total(Kids(n, k, base), m) == WeightBelow(n, k, m)
    decreases n, k
  {
    if k > 0 {
      var j := k - 1;
      KidsTotal(n, j, base, m);
      if j in n.children {
        FlatTotal(n.children[j], base + |Kids(n, j, base)|, m);
      }
      KidsTotalStep(n, j, base, m);
      WeightStep(n, j, m);
    }
  }

  lemma WeightStep(n: Node, k: nat, m: Measure)
    requires n.Node? && k < KEYS
    ensures WeightBelow(n, k + 1, m) == WeightBelow(n, k, m) + if k in n.children then Weight(n.children[k], m) else 0
  {
  }

  // ---------------------------------------------------------------- where children are placed

  lemma {:induction false} PlacedAt(n: Node, k: nat, base: nat, j: Key)
    requires n.Node? && k <= KEYS
    ensures j in Placed(n, k, base) <==> j < k && j in n.children
    ensures j in Placed(n, k, base) ==>
      Placed(n, k, base)[j] == if n.children[j].Nil? then 0 else base + |Kids(n, j, base)|
  {
    if k > 0 { PlacedAt(n, k - 1, base, j); }
  }

  lemma {:induction false} KidAt(n: Node, k: nat, base: nat, j: Key)
    requires n.Node? && j < k <= KEYS && j in n.children
    ensures var off, f := |Kids(n, j, base)|, Flat(n.children[j], base + |Kids(n, j, base)|);
            off + |f| <= |Kids(n, k, base)| && Kids(n, k, base)[off..off + |f|] == f
    decreases k
  {
    var off, f := |Kids(n, j, base)|, Flat(n.children[j], base + |Kids(n, j, base)|);
    if j < k - 1 {
      KidAt(n, k - 1, base, j);
      KidsStep(n, k - 1, base);
      assert Kids(n, k, base)[off..off + |f|] == Kids(n, k - 1, base)[off..off + |f|];
    } else {
      KidsStep(n, j, base);
    }
  }

  // ---------------------------------------------------------------- sound trees have entries in order

  lemma EntriesConcat(a: seq<WireNode>, b: seq<WireNode>, base: nat)
    ensures EntriesOk(a + b, base) <==> EntriesOk(a, base) && EntriesOk(b, base + |a|)
  {
    var c := a + b;
    if EntriesOk(c, base) {
      forall j | 0 <= j < |a| ensures EntryOk(base + j, a[j]) { assert EntryOk(base + j, c[j]); }
      forall j | 0 <= j < |b| ensures EntryOk(base + |a| + j, b[j]) { assert EntryOk(base + (|a| + j), c[|a| + j]); }
    }
    if EntriesOk(a, base) && EntriesOk(b, base + |a|) {
      forall j | 0 <= j < |c| ensures EntryOk(base + j, c[j]) {
        if j < |a| { assert EntryOk(base + j, a[j]); } else { assert EntryOk(base + |a| + (j - |a|), b[j - |a|]); }
      }
    }
  }

  lemma HeadOk(n: Node, base: nat)
    requires n.Node?
    ensures EntryOk(base, WireNode(Encode(n.data), Placed(n, KEYS, base + 1)))
       <==> ValuesOk(n.data.outputs) && forall k :: k in n.children ==> k < |n.data.outputs| && n.children[k].Node?
  {
    DataRoundTrips(n.data);
    var p := Placed(n, KEYS, base + 1);
    forall k: Key
      ensures k in p <==> k in n.children
      ensures k in p ==> (base < p[k] <==> n.children[k].Node?)
    {
      PlacedAt(n, KEYS, base + 1, k);
    }
  }

  lemma {:induction false} FlatOk(n: Node, base: nat)
    requires n.Node?
    ensures EntriesOk(Flat(n, base), base) <==> Sound(n)
    decreases n, KEYS + 1
  {
    var head := WireNode(Encode(n.data), Placed(n, KEYS, base + 1));
    HeadOk(n, base);
    EntriesConcat([head], Kids(n, KEYS, base + 1), base);
    KidsOk(n, KEYS, base + 1);
    assert EntriesOk([head], base) <==> EntryOk(base + 0, [head][0]);
  }

  ghost predicate SoundBelow(n: Node, k: nat)
    requires n.Node?
  {
    forall j :: j in n.children && j < k ==> n.children[j].Nil? || Sound(n.children[j])
  }

  lemma {:induction false} KidsOk(n: Node, k: nat, base: nat)
    requires n.Node? && k <= KEYS
    ensures EntriesOk(Kids(n, k, base), base) <==> SoundBelow(n, k)
    decreases n, k
  {
    if k > 0 {
      KidsStep(n, k - 1, base);
      KidsOk(n, k - 1, base);
      if k - 1 in n.children {
        var c, b := n.children[k - 1], base + |Kids(n, k - 1, base)|;
        EntriesConcat(Kids(n, k - 1, base), Flat(c, b), base);
        if c.Node? { FlatOk(c, b); }
      }
    }
  }

  // ---------------------------------------------------------------- every other node is claimed once

  ghost predicate NoNil(n: Node) {
    n.Node? && forall k :: k in n.children ==> NoNil(n.children[k])
  }

  lemma {:induction false} SoundNoNil(n: Node)
    requires Sound(n)
    ensures NoNil(n)
  {
    forall k | k in n.children ensures NoNil(n.children[k]) { SoundNoNil(n.children[k]); }
  }

  lemma {:induction false} FlatClaims(n: Node, base: nat, v: nat)
    requires NoNil(n)
    ensures Claims(Flat(n, base), v) == if base < v < base + |Flat(n, base)| then 1 else 0
    decreases n, KEYS + 1
  {
    var p := Placed(n, KEYS, base + 1);
    var head := [WireNode(Encode(n.data), p)];
    KidsClaims(n, KEYS, base + 1, v);
    HeadClaims(head[0], v);
    ClaimsConcat(head, Kids(n, KEYS, base + 1), v);
  }

  lemma HeadClaims(e: WireNode, v: nat)
    ensures Claims([e], v) == Targets(e.children, e.children.Keys, KEYS, v)
  {
    assert [e][..0] == [];
  }

  lemma {:induction false} KidsClaims(n: Node, k: nat, base: nat, v: nat)
    requires NoNil(n) && k <= KEYS
    ensures Claims(Kids(n, k, base), v) + Targets(Placed(n, KEYS, base), Placed(n, KEYS, base).Keys, k, v)
         == if base <= v < base + |Kids(n, k, base)| then 1 else 0
    decreases n, k
  {
    if k > 0 {
      KidsStep(n, k - 1, base);
      KidsClaims(n, k - 1, base, v);
      PlacedAt(n, KEYS, base, k - 1);
      if k - 1 in n.children {
        var b := base + |Kids(n, k - 1, base)|;
        FlatClaims(n.children[k - 1], b, v);
        ClaimsConcat(Kids(n, k - 1, base), Flat(n.children[k - 1], b), v);
      }
    }
  }

  // ---------------------------------------------------------------- the rebuilt tree

  lemma {:induction false} BuildFlat(a: seq<WireNode>, n: Node, base: nat)
    requires EntriesOk(a, 0) && InRange(a) && Sound(n)
    requires base + |Flat(n, base)| <= |a| && a[base..base + |Flat(n, base)|] == Flat(n, base)
    ensures Build(a, base) == n
    decreases n
  {
    var f, kids := Flat(n, base), Kids(n, KEYS, base + 1);
    assert a[base] == f[0];
    DataRoundTrips(n.data);
    var p := Placed(n, KEYS, base + 1);
    forall k: Key ensures k in p <==> k in n.children { PlacedAt(n, KEYS, base + 1, k); }
    forall k | k in n.children
      ensures k in a[base].children && Build(a, Child(a, base, k)) == n.children[k]
    {
      BuildKid(a, n, base, k);
      BuildFlat(a, n.children[k], p[k]);
    }
    assert Build(a, base).children == n.children;
  }

  /** The part of the array at a child's position is the child's own array. */
  lemma BuildKid(a: seq<WireNode>, n: Node, base: nat, k: Key)
    requires Sound(n) && k in n.children
    requires base + |Flat(n, base)| <= |a| && a[base..base + |Flat(n, base)|] == Flat(n, base)
    ensures var p := Placed(n, KEYS, base + 1);
            && k in p
            && p[k] + |Flat(n.children[k], p[k])| <= |a|
            && a[p[k]..p[k] + |Flat(n.children[k], p[k])|] == Flat(n.children[k], p[k])
  {
    PlacedAt(n, KEYS, base + 1, k);
    KidAt(n, KEYS, base + 1, k);
    assert Sound(n.children[k]);
    var off := |Kids(n, k, base + 1)|;
    SliceOfTail(a, base, Flat(n, base), Kids(n, KEYS, base + 1), off, Flat(n.children[k], base + 1 + off));
  }

  lemma SliceOfTail<T>(a: seq<T>, base: nat, f: seq<T>, tail: seq<T>, off: nat, g: seq<T>)
    requires base + |f| <= |a| && a[base..base + |f|] == f && |f| == 1 + |tail| && f[1..] == tail
    requires off + |g| <= |tail| && tail[off..off + |g|] == g
    ensures base + 1 + off + |g| <= |a| && a[base + 1 + off..base + 1 + off + |g|] == g
  {
    forall j | 0 <= j < |g| ensures a[base + 1 + off + j] == g[j] {
      assert g[j] == tail[off + j] && tail[off + j] == f[1 + off + j];
      assert f[1 + off + j] == a[base..base + |f|][1 + off + j];
    }
  }

  // ---------------------------------------------------------------- the order of the array

  lemma {:induction false} KidsGrow(n: Node, j: nat, k: nat, base: nat)
    requires n.Node? && j <= k <= KEYS
    ensures |Kids(n, j, base)| <= |Kids(n, k, base)|
    decreases k
  {
    if j < k {
      KidsGrow(n, j, k - 1, base);
      KidsStep(n, k - 1, base);
    }
  }

  /** The array is in pre-order: a node, then its children's arrays one after the other by output index. */
  lemma ChildrenInOrder(n: Node, base: nat, j: Key, k: Key)
    requires n.Node? && j in n.children && k in n.children && j < k
    requires n.children[j].Node? && n.children[k].Node?
    ensures var p := Flat(n, base)[0].children;
            && Flat(n, base)[0].data == Encode(n.data) && j in p && k in p
            && base < p[j] && p[j] + |Flat(n.children[j], p[j])| <= p[k]
            && ((forall i :: i in n.children && j < i < k ==> false) ==> p[k] == p[j] + |Flat(n.children[j], p[j])|)
  {
    PlacedAt(n, KEYS, base + 1, j);
    PlacedAt(n, KEYS, base + 1, k);
    KidsStep(n, j, base + 1);
    KidsGrow(n, j as nat + 1, k, base + 1);
    if forall i :: i in n.children && j < i < k ==> false {
      KidsFlat(n, j as nat + 1, k, base + 1);
    }
  }

  lemma {:induction false} KidsFlat(n: Node, j: nat, k: nat, base: nat)
    requires n.Node? && j <= k <= KEYS && forall i: Key :: j <= i < k ==> i !in n.children
    ensures |Kids(n, j, base)| == |Kids(n, k, base)|
    decreases k
  {
    if j < k {
      KidsFlat(n, j, k - 1, base);
      KidsStep(n, k - 1, base);
    }
  }

  // ---------------------------------------------------------------- main results

  /** What a flattened tree has to satisfy to be accepted is exactly that the tree is well formed. */
  lemma FlattenedAccepted(t: Tree, maxNodes: int)
    ensures Accepts(FromTree(t), maxNodes) <==> WellFormed(t, maxNodes)
  {
    var a := Flat(t.root, 0);
    FlatTotal(t.root, 0, Nodes);
    FlatTotal(t.root, 0, Outputs);
    FlatTotal(t.root, 0, CoSigners);
    TotalNodes(a);
    if t.root.Node? {
      FlatOk(t.root, 0);
      if Sound(t.root) {
        SoundNoNil(t.root);
        forall v: nat { FlatClaims(t.root, 0, v); }
      }
    }
  }

  /** Rebuilding what flattening wrote gives the same tree if it is well formed, and is refused otherwise. */
  lemma RoundTrip(t: Tree, maxNodes: int)
    ensures Rebuild(FromTree(t), maxNodes) == if WellFormed(t, maxNodes) then Rebuilt(t) else Rejected
  {
    FlattenedAccepted(t, maxNodes);
    if WellFormed(t, maxNodes) {
      var a := Flat(t.root, 0);
      AcceptedInRange(a);
      assert a[0..|a|] == a;
      BuildFlat(a, t.root, 0);
    }
  }
}
