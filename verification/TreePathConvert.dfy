/**
 * The two conversions as the source performs them: a recursive flattening that
 * appends to one shared slice and fills in child positions afterwards, and a
 * rebuild that checks budgets, decodes, and wires nodes up through maps whose
 * iteration order is arbitrary.
 */
module TreePathConvert {

  import opened Basics
  import opened TreePath
  import opened TreePathShape
  import opened TreePathRoundTrip

  // ---------------------------------------------------------------- flattening

  predicate Increasing(ks: seq<Key>) { forall i, j :: 0 <= i < j < |ks| ==> ks[i] < ks[j] }

  /** The sorted keys of a map collected in arbitrary order. */
  method SortedKeys(m: map<Key, Node>) returns (ks: seq<Key>)
    ensures Increasing(ks) && forall k :: k in ks <==> k in m
  {
    ks := [];
    var rest := m.Keys;
    while rest != {}
      invariant Increasing(ks) && rest <= m.Keys
      invariant forall k :: k in ks <==> k in m && k !in rest
      decreases rest
    {
      var k :| k in rest;
      var at := 0;
      while at < |ks| && ks[at] < k
        invariant at <= |ks| && forall i :: 0 <= i < at ==> ks[i] < k
      {
        at := at + 1;
      }
      assert forall i :: at <= i < |ks| ==> k < ks[i];
      ks := ks[..at] + [k] + ks[at..];
      rest := rest - {k};
    }
  }

  lemma {:induction false} NoKidsBetween(n: Node, b: nat, c: nat, base: nat)
    requires n.Node? && b <= c <= KEYS && forall k: Key :: b <= k < c ==> k !in n.children
    ensures Kids(n, c, base) == Kids(n, b, base) && Placed(n, c, base) == Placed(n, b, base)
    decreases c
  {
    if b < c {
      NoKidsBetween(n, b, c - 1, base);
      KidsStep(n, c - 1, base);
    }
  }

  class Flattener {
    var nodes: seq<WireNode>

    constructor ()
      ensures nodes == []
    {
      nodes := [];
    }

    /** Appends n's array; the result is what the index map then holds for n (0 for a nil node). */
    method Flatten(n: Node) returns (index: nat)
      modifies this
      ensures nodes == old(nodes) + Flat(n, |old(nodes)|)
      ensures index == if n.Nil? then 0 else |old(nodes)|
      decreases n
    {
      if n.Nil? {
        return 0;
      }
      index := |nodes|;
      nodes := nodes + [WireNode(Encode(n.data), map[])];
      var ks := SortedKeys(n.children);
      NoKidsBetween(n, 0, Bound(ks, 0), index + 1);
      for j := 0 to |ks|
        invariant |old(nodes)| == index
        invariant nodes == old(nodes) + Partial(n, Bound(ks, j), index)
      {
        var k := ks[j];
        var at := Flatten(n.children[k]);
        PartialStep(n, k, old(nodes), at);
        NextBound(n, ks, j, index + 1);
        nodes := nodes[index := nodes[index].(children := nodes[index].children[k := at])];
      }
    }
  }

  ghost function Bound(ks: seq<Key>, j: nat): nat { if j < |ks| then ks[j] else KEYS }

  /** Nothing lies between one sorted key and the next. */
  lemma NextBound(n: Node, ks: seq<Key>, j: nat, base: nat)
    requires n.Node? && Increasing(ks) && j < |ks| && forall k :: k in ks <==> k in n.children
    ensures Kids(n, Bound(ks, j + 1), base) == Kids(n, ks[j] as nat + 1, base)
    ensures Placed(n, Bound(ks, j + 1), base) == Placed(n, ks[j] as nat + 1, base)
  {
    NoKidsBetween(n, ks[j] as nat + 1, Bound(ks, j + 1), base);
  }

  /** n's array with the children below b done. */
  ghost function Partial(n: Node, b: nat, base: nat): seq<WireNode>
    requires n.Node? && b <= KEYS
  {
    [WireNode(Encode(n.data), Placed(n, b, base + 1))] + Kids(n, b, base + 1)
  }

  /** Appending a child's array and then filling in its position in the entry at |a|. */
  lemma FillIn(a: seq<WireNode>, e: WireNode, kids: seq<WireNode>, f: seq<WireNode>, k: Key, at: nat)
    ensures var all, e' := a + ([e] + kids) + f, e.(children := e.children[k := at]);
            all[|a|] == e && all[|a| := e'] == a + ([e'] + (kids + f))
  {
    assert a + ([e] + kids) + f == a + ([e] + (kids + f));
  }

  lemma PartialStep(n: Node, k: Key, before: seq<WireNode>, at: nat)
    requires n.Node? && k in n.children
    requires at == if n.children[k].Nil? then 0 else |before| + |Partial(n, k, |before|)|
    ensures var nodes := before + Partial(n, k, |before|) + Flat(n.children[k], |before| + |Partial(n, k, |before|)|);
            nodes[|before| := nodes[|before|].(children := nodes[|before|].children[k := at])]
            == before + Partial(n, k + 1, |before|)
  {
    var base := |before|;
    var e := WireNode(Encode(n.data), Placed(n, k, base + 1));
    var kids, f := Kids(n, k, base + 1), Flat(n.children[k], base + 1 + |Kids(n, k, base + 1)|);
    KidsStep(n, k, base + 1);
    assert Placed(n, k + 1, base + 1) == Placed(n, k, base + 1)[k := at];
    FillIn(before, e, kids, f, k, at);
  }

  /** The wire path of a tree; a missing tree has none. */
  method TreePathFromTree(t: Option<Tree>) returns (p: Option<Path>)
    ensures p == if t.None? then None else Some(FromTree(t.value))
  {
    if t.None? {
      return None;
    }
    var f := new Flattener();
    var _ := f.Flatten(t.value.root);
    assert [] + Flat(t.value.root, 0) == Flat(t.value.root, 0);
    p := Some(Path(f.nodes, Good(t.value.batchOutpoint), t.value.batchOutput, t.value.sweepRoot));
  }

  // ---------------------------------------------------------------- rebuilding

  lemma {:induction false} TotalMono(a: seq<WireNode>, i: nat, m: Measure)
    requires i <= |a|
    ensures Total(a[..i], m) <= Total(a, m)
  {
    if i == |a| {
      assert a[..i] == a;
    } else {
      TotalMono(a[..|a| - 1], i, m);
      assert a[..|a| - 1][..i] == a[..i];
    }
  }

  method CheckBudget(a: seq<WireNode>, maxNodes: int) returns (ok: bool)
    ensures ok <==> Total(a, Outputs) <= Budget(maxNodes, Outputs) && Total(a, CoSigners) <= Budget(maxNodes, CoSigners)
  {
    var outputs, coSigners := 0, 0;
    assert a[..|a|] == a;
    for i := 0 to |a|
      invariant outputs == Total(a[..i], Outputs) && coSigners == Total(a[..i], CoSigners)
      invariant outputs <= Budget(maxNodes, Outputs)
      invariant coSigners <= Budget(maxNodes, CoSigners)
    {
      assert a[..i + 1][..i] == a[..i];
      TotalMono(a, i + 1, Outputs);
      TotalMono(a, i + 1, CoSigners);
      outputs := outputs + |a[i].data.outputs|;
      if outputs > Budget(maxNodes, Outputs) {
        return false;
      }
      coSigners := coSigners + |a[i].data.coSigners|;
      if coSigners > Budget(maxNodes, CoSigners) {
        return false;
      }
    }
    ok := true;
  }

  method NodeFromProto(w: WireData) returns (r: Option<Data>)
    ensures r == if Decodable(w) then Some(Decode(w)) else None
  {
    if w.input.Bad? {
      return None;
    }
    for i := 0 to |w.outputs|
      invariant ValuesOk(w.outputs[..i])
    {
      if w.outputs[i].Some? && w.outputs[i].value.value < 0 {
        assert !ValueOk(w.outputs[i]);
        return None;
      }
      assert w.outputs[..i + 1] == w.outputs[..i] + [w.outputs[i]];
    }
    assert w.outputs[..|w.outputs|] == w.outputs;
    var coSigners: seq<nat> := [];
    for i := 0 to |w.coSigners|
      invariant |coSigners| == i
      invariant forall j :: 0 <= j < i ==> w.coSigners[j] == Good(coSigners[j])
    {
      if w.coSigners[i].Bad? {
        return None;
      }
      coSigners := coSigners + [w.coSigners[i].value];
    }
    if w.signature.Some? && w.signature.value.Bad? {
      return None;
    }
    assert coSigners == Decode(w).coSigners;
    r := Some(Data(w.input.value, w.outputs, coSigners, w.amount,
                   if w.signature.Some? then Some(w.signature.value.value) else None));
  }

  /** A node object: its children are other objects of the same arena, by position. */
  datatype GoNode = GoNode(data: Data, children: map<Key, nat>)

  ghost predicate Wired(a: seq<WireNode>, g: seq<GoNode>) {
    && |g| == |a|
    && forall i :: 0 <= i < |a| ==> Decodable(a[i].data) && g[i] == GoNode(Decode(a[i].data), a[i].children)
  }

  predicate Forward(g: seq<GoNode>) {
    forall i, k :: 0 <= i < |g| && k in g[i].children ==> i < g[i].children[k] < |g|
  }

  /** The tree seen from an object, following its pointers. */
  function Deref(g: seq<GoNode>, i: nat): Node
    requires i < |g| && Forward(g)
    decreases |g| - i
  {
    Node(g[i].data, map k | k in g[i].children :: Deref(g, g[i].children[k]))
  }

  lemma {:induction false} DerefIsBuild(a: seq<WireNode>, g: seq<GoNode>, i: nat)
    requires Wired(a, g) && Forward(g) && EntriesOk(a, 0) && InRange(a) && i < |a|
    ensures Deref(g, i) == Build(a, i)
    decreases |a| - i
  {
    forall k | k in a[i].children
      ensures Deref(g, g[i].children[k]) == Build(a, Child(a, i, k))
    {
      DerefIsBuild(a, g, Child(a, i, k));
    }
    assert Deref(g, i).children == Build(a, i).children;
  }

  method DecodeAll(a: seq<WireNode>) returns (r: Option<seq<GoNode>>)
    ensures r.Some? <==> forall i :: 0 <= i < |a| ==> Decodable(a[i].data)
    ensures r.Some? ==> |r.value| == |a|
    ensures r.Some? ==> forall i :: 0 <= i < |a| ==>
              Decodable(a[i].data) && r.value[i] == GoNode(Decode(a[i].data), map[])
  {
    var g: seq<GoNode> := [];
    for i := 0 to |a|
      invariant |g| == i
      invariant forall j :: 0 <= j < i ==> Decodable(a[j].data) && g[j] == GoNode(Decode(a[j].data), map[])
    {
      var d := NodeFromProto(a[i].data);
      if d.None? {
        return None;
      }
      g := g + [GoNode(d.value, map[])];
    }
    r := Some(g);
  }

  function Has(parentOf: map<nat, nat>, v: nat): nat { if v in parentOf then 1 else 0 }

  lemma {:induction false} TargetsAdd(m: map<Key, nat>, s: set<Key>, x: Key, k: nat, v: nat)
    requires k <= KEYS && x in m && x !in s
    ensures Targets(m, s + {x}, k, v) == Targets(m, s, k, v) + if x < k && m[x] == v then 1 else 0
  {
    if k > 0 { TargetsAdd(m, s, x, k - 1, v); }
  }

  lemma {:induction false} TargetsMono(m: map<Key, nat>, s: set<Key>, t: set<Key>, k: nat, v: nat)
    requires k <= KEYS && s <= t
    ensures Targets(m, s, k, v) <= Targets(m, t, k, v)
  {
    if k > 0 { TargetsMono(m, s, t, k - 1, v); }
  }

  lemma {:induction false} NoTargets(m: map<Key, nat>, k: nat, v: nat)
    requires k <= KEYS
    ensures Targets(m, {}, k, v) == 0
  {
    if k > 0 { NoTargets(m, k - 1, v); }
  }

  /** What makes the wiring of node i fail: an edge that is not allowed, or a position claimed twice. */
  ghost predicate Unwirable(i: nat, e: WireNode, count: nat, parentOf: map<nat, nat>) {
    || (exists k :: k in e.children && !(i < e.children[k] < count && k < |e.data.outputs|))
    || (exists v: nat :: Has(parentOf, v) + Targets(e.children, e.children.Keys, KEYS, v) > 1)
  }

  /** One node's children, in whatever order the map yields them. */
  method WireChildren(i: nat, e: WireNode, count: nat, before: map<nat, nat>)
    returns (ok: bool, children: map<Key, nat>, parentOf: map<nat, nat>)
    ensures ok ==> children == e.children
    ensures ok ==> forall k :: k in e.children ==> i < e.children[k] < count && k < |e.data.outputs|
    ensures ok ==> forall v: nat :: Has(parentOf, v) == Has(before, v) + Targets(e.children, e.children.Keys, KEYS, v)
    ensures !ok ==> Unwirable(i, e, count, before)
  {
    children, parentOf := map[], before;
    var rest := e.children.Keys;
    ghost var done: set<Key> := {};
    forall v: nat { NoTargets(e.children, KEYS, v); }
    while rest != {}
      invariant done !! rest && done + rest == e.children.Keys
      invariant children.Keys == done && forall k :: k in done ==> children[k] == e.children[k]
      invariant forall k :: k in done ==> i < e.children[k] < count && k < |e.data.outputs|
      invariant forall v: nat :: Has(parentOf, v) == Has(before, v) + Targets(e.children, done, KEYS, v)
      decreases rest
    {
      var k :| k in rest;
      var c := e.children[k];
      if c <= i || c >= count {
        return false, children, parentOf;
      }
      forall v: nat { TargetsAdd(e.children, done, k, KEYS, v); }
      if c in parentOf {
        TargetsMono(e.children, done + {k}, e.children.Keys, KEYS, c);
        assert Has(before, c) + Targets(e.children, e.children.Keys, KEYS, c) > 1;
        return false, children, parentOf;
      }
      parentOf := parentOf[c := i];
      if k >= |e.data.outputs| {
        return false, children, parentOf;
      }
      children := children[k := c];
      rest, done := rest - {k}, done + {k};
    }
    assert done == e.children.Keys;
    assert children == e.children;
    ok := true;
  }

  lemma {:induction false} ClaimsMono(a: seq<WireNode>, i: nat, v: nat)
    requires i <= |a|
    ensures Claims(a[..i], v) <= Claims(a, v)
  {
    if i == |a| {
      assert a[..i] == a;
    } else {
      ClaimsMono(a[..|a| - 1], i, v);
      assert a[..|a| - 1][..i] == a[..i];
    }
  }

  lemma UnwirableMeansNoTree(a: seq<WireNode>, i: nat, parentOf: map<nat, nat>)
    requires i < |a| && Unwirable(i, a[i], |a|, parentOf)
    requires forall v: nat :: Has(parentOf, v) == Claims(a[..i], v)
    ensures !OneTree(a)
  {
    if OneTree(a) {
      AcceptedInRange(a);
      assert EntryOk(0 + i, a[i]);
      var v: nat :| Has(parentOf, v) + Targets(a[i].children, a[i].children.Keys, KEYS, v) > 1;
      ClaimsPrefix(a, i, v);
      ClaimsMono(a, i + 1, v);
    }
  }

  lemma ClaimsPrefix(a: seq<WireNode>, i: nat, v: nat)
    requires i < |a|
    ensures Claims(a[..i + 1], v) == Claims(a[..i], v) + Targets(a[i].children, a[i].children.Keys, KEYS, v)
  {
    assert a[..i + 1][..i] == a[..i];
  }

  lemma {:induction false} CountTo(s: set<nat>, n: nat)
    requires forall v :: v in s ==> 1 <= v <= n
    ensures |s| <= n
    ensures |s| == n <==> forall v :: 1 <= v <= n ==> v in s
  {
    if n > 0 {
      CountTo(s - {n}, n - 1);
      if n in s {
        assert s == s - {n} + {n};
      } else {
        assert s == s - {n};
      }
    } else {
      assert s == {};
    }
  }

  /** Counting the claims against the nodes decides whether the claims form one tree. */
  lemma CountDecides(a: seq<WireNode>, parentOf: map<nat, nat>)
    requires |a| > 0 && EntriesOk(a, 0) && InRange(a)
    requires forall v: nat :: Has(parentOf, v) == Claims(a, v)
    ensures |parentOf| == |a| - 1 <==> OneTree(a)
  {
    forall v | v in parentOf
      ensures 1 <= v <= |a| - 1
    {
      assert Has(parentOf, v) == 1;
      var i, k := ClaimsHas(a, v);
      assert EntryOk(0 + i, a[i]);
    }
    CountTo(parentOf.Keys, |a| - 1);
    assert |parentOf| == |parentOf.Keys|;
    forall v: nat
      ensures v in parentOf ==> 1 <= v <= |a| - 1
      ensures Claims(a, v) == Has(parentOf, v)
    {
    }
  }

  /** Wires every node up; it succeeds exactly on the arrays that form one tree. */
  method WireAll(a: seq<WireNode>, decoded: seq<GoNode>) returns (ok: bool, g: seq<GoNode>)
    requires |a| > 0 && |decoded| == |a|
    requires forall i :: 0 <= i < |a| ==> Decodable(a[i].data) && decoded[i] == GoNode(Decode(a[i].data), map[])
    ensures ok <==> OneTree(a)
    ensures ok ==> Wired(a, g) && Forward(g)
  {
    g := decoded;
    var parentOf: map<nat, nat> := map[];
    for i := 0 to |a|
      invariant |g| == |a|
      invariant forall j :: 0 <= j < |a| ==>
                  g[j] == if j < i then GoNode(Decode(a[j].data), a[j].children) else decoded[j]
      invariant forall j :: 0 <= j < i ==> EntryOk(0 + j, a[j])
      invariant forall j, k :: 0 <= j < i && k in a[j].children ==> a[j].children[k] < |a|
      invariant forall v: nat :: Has(parentOf, v) == Claims(a[..i], v)
    {
      var wired, children, claimed := WireChildren(i, a[i], |a|, parentOf);
      if !wired {
        UnwirableMeansNoTree(a, i, parentOf);
        return false, g;
      }
      forall v: nat { ClaimsPrefix(a, i, v); }
      parentOf := claimed;
      g := g[i := GoNode(g[i].data, children)];
    }
    assert a[..|a|] == a;
    CountDecides(a, parentOf);
    ok := |parentOf| == |a| - 1;
  }

  /** The rebuild accepts exactly what the specification accepts, and gives the same tree. */
  method TreePathToTree(tp: Option<Path>, maxNodes: int) returns (r: Outcome)
    ensures r == if tp.None? then Absent else Rebuild(tp.value, maxNodes)
  {
    if tp.None? {
      return Absent;
    }
    var p := tp.value;
    if |p.nodes| == 0 || (maxNodes > 0 && |p.nodes| > maxNodes) {
      return Rejected;
    }
    var fits := CheckBudget(p.nodes, maxNodes);
    if !fits {
      return Rejected;
    }
    var decoded := DecodeAll(p.nodes);
    if decoded.None? {
      assert !EntriesOk(p.nodes, 0);
      return Rejected;
    }
    var ok, g := WireAll(p.nodes, decoded.value);
    if !ok || p.batchOutpoint.Bad? || (p.batchOutput.Some? && p.batchOutput.value.value < 0) {
      return Rejected;
    }
    AcceptedInRange(p.nodes);
    DerefIsBuild(p.nodes, g, 0);
    r := Rebuilt(Tree(Deref(g, 0), p.batchOutpoint.value, p.batchOutput, p.sweepRoot));
  }
}
