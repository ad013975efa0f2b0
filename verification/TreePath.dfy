/**
 * Transaction trees and their flattened wire form: an array of nodes in
 * pre-order whose children are array positions keyed by output index.
 */
module TreePath {

  import opened Basics

  /** A wire field that parses to a value, or does not. */
  datatype Parsed<+T> = Bad | Good(value: T)

  datatype OutPoint = OutPoint(txid: nat, vout: nat)

  datatype TxOut = TxOut(value: int, script: seq<nat>)

  /** Output indices are 32-bit. */
  const KEYS: nat := 0x1_0000_0000

  type Key = k: nat | k < KEYS

  // ---------------------------------------------------------------- trees

  /** What a node carries besides its children; a missing output is None. */
  datatype Data = Data(
    input: OutPoint,
    outputs: seq<Option<TxOut>>,
    coSigners: seq<nat>,
    amount: int,
    signature: Option<nat>)

  datatype Node = Nil | Node(data: Data, children: map<Key, Node>)

  datatype Tree = Tree(root: Node, batchOutpoint: OutPoint, batchOutput: Option<TxOut>, sweepRoot: seq<nat>)

  // ---------------------------------------------------------------- wire form

  datatype WireData = WireData(
    input: Parsed<OutPoint>,
    outputs: seq<Option<TxOut>>,
    coSigners: seq<Parsed<nat>>,
    amount: int,
    signature: Option<Parsed<nat>>)

  datatype WireNode = WireNode(data: WireData, children: map<Key, nat>)

  datatype Path = Path(
    nodes: seq<WireNode>,
    batchOutpoint: Parsed<OutPoint>,
    batchOutput: Option<TxOut>,
    sweepRoot: seq<nat>)

  function Encode(d: Data): WireData {
    WireData(Good(d.input), d.outputs,
             seq(|d.coSigners|, i requires 0 <= i < |d.coSigners| => Good(d.coSigners[i])), d.amount,
             if d.signature.Some? then Some(Good(d.signature.value)) else None)
  }

  predicate ValueOk(o: Option<TxOut>) { o.Some? ==> o.value.value >= 0 }

  predicate ValuesOk(outputs: seq<Option<TxOut>>) {
    forall i :: 0 <= i < |outputs| ==> ValueOk(outputs[i])
  }

  predicate Decodable(w: WireData) {
    && w.input.Good?
    && ValuesOk(w.outputs)
    && (forall i :: 0 <= i < |w.coSigners| ==> w.coSigners[i].Good?)
    && (w.signature.Some? ==> w.signature.value.Good?)
  }

  function Decode(w: WireData): Data
    requires Decodable(w)
  {
    Data(w.input.value, w.outputs,
         seq(|w.coSigners|, i requires 0 <= i < |w.coSigners| && w.coSigners[i].Good? => w.coSigners[i].value),
         w.amount,
         if w.signature.Some? then Some(w.signature.value.value) else None)
  }

  lemma DataRoundTrips(d: Data)
    ensures Decodable(Encode(d)) <==> ValuesOk(d.outputs)
    ensures ValuesOk(d.outputs) ==> Decode(Encode(d)) == d
  {
    if ValuesOk(d.outputs) {
      assert Decode(Encode(d)).coSigners == d.coSigners;
    }
  }

  // ---------------------------------------------------------------- flattening

  /** The pre-order array of n placed from position base; a nil child is recorded as position 0. */
  ghost function Flat(n: Node, base: nat): seq<WireNode>
    decreases n, KEYS + 1
  {
    if n.Nil? then [] else [WireNode(Encode(n.data), Placed(n, KEYS, base + 1))] + Kids(n, KEYS, base + 1)
  }

  /** The arrays of n's children on outputs below k, in order of output index. */
  ghost function Kids(n: Node, k: nat, base: nat): seq<WireNode>
    requires n.Node? && k <= KEYS
    decreases n, k
  {
    if k == 0 then []
    else
      var before := Kids(n, k - 1, base);
      before + if k - 1 in n.children then Flat(n.children[k - 1], base + |before|) else []
  }

  /** Where each child below k starts. */
  ghost function Placed(n: Node, k: nat, base: nat): map<Key, nat>
    requires n.Node? && k <= KEYS
    decreases n, k
  {
    if k == 0 then map[]
    else
      var before := Placed(n, k - 1, base);
      if k - 1 in n.children
      then before[k - 1 := if n.children[k - 1].Nil? then 0 else base + |Kids(n, k - 1, base)|]
      else before
  }

  ghost function FromTree(t: Tree): Path {
    Path(Flat(t.root, 0), Good(t.batchOutpoint), t.batchOutput, t.sweepRoot)
  }

  // ---------------------------------------------------------------- what the shape checks count

  /** How often m names v on the outputs of s below k. */
  ghost function Targets(m: map<Key, nat>, s: set<Key>, k: nat, v: nat): nat
    requires k <= KEYS
  {
    if k == 0 then 0
    else Targets(m, s, k - 1, v) + if k - 1 in s && k - 1 in m && m[k - 1] == v then 1 else 0
  }

  /** How often v is named as a child. */
  ghost function Claims(a: seq<WireNode>, v: nat): nat {
    if a == [] then 0
    else Claims(a[..|a| - 1], v) + Targets(a[|a| - 1].children, a[|a| - 1].children.Keys, KEYS, v)
  }

  /** Node i's children lie forward, on outputs it has. */
  predicate EntryOk(i: nat, e: WireNode) {
    && Decodable(e.data)
    && forall k :: k in e.children ==> i < e.children[k] && k < |e.data.outputs|
  }

  predicate EntriesOk(a: seq<WireNode>, base: nat) {
    forall j :: 0 <= j < |a| ==> EntryOk(base + j, a[j])
  }

  /** The shape checks: forward edges on existing outputs, and every node but the root claimed exactly once. */
  ghost predicate OneTree(a: seq<WireNode>) {
    |a| > 0 && EntriesOk(a, 0) && forall v: nat :: Claims(a, v) == if 1 <= v < |a| then 1 else 0
  }

  // ---------------------------------------------------------------- budgets

  const DEFAULT_MAX_NODES: int := 5000
  const MAX_INT: int := 0x7fff_ffff_ffff_ffff

  datatype Measure = Nodes | Outputs | CoSigners

  function Weigh(d: WireData, m: Measure): nat {
    match m case Nodes => 1 case Outputs => |d.outputs| case CoSigners => |d.coSigners|
  }

  function Total(a: seq<WireNode>, m: Measure): nat {
    if a == [] then 0 else Total(a[..|a| - 1], m) + Weigh(a[|a| - 1].data, m)
  }

  function Scale(nodes: int, factor: int): int
    requires factor > 0
  {
    if nodes > MAX_INT / factor then MAX_INT else factor * nodes
  }

  function Budget(maxNodes: int, m: Measure): int {
    var nodes := if maxNodes <= 0 then DEFAULT_MAX_NODES else maxNodes;
    match m case Nodes => nodes case Outputs => Scale(nodes, 2) case CoSigners => Scale(nodes, 10)
  }

  /** Two outputs and ten co-signers per admitted node, 5000 nodes by default, never past the largest integer. */
  lemma BudgetAmounts(maxNodes: int)
    ensures maxNodes <= 0 ==> Budget(maxNodes, Outputs) == 10_000 && Budget(maxNodes, CoSigners) == 50_000
    ensures 0 < maxNodes <= MAX_INT ==>
              && Budget(maxNodes, Outputs) == (if 2 * maxNodes <= MAX_INT then 2 * maxNodes else MAX_INT)
              && Budget(maxNodes, CoSigners) == (if 10 * maxNodes <= MAX_INT then 10 * maxNodes else MAX_INT)
  {
  }

  predicate WithinBudget(a: seq<WireNode>, maxNodes: int) {
    && (maxNodes > 0 ==> |a| <= maxNodes)
    && Total(a, Outputs) <= Budget(maxNodes, Outputs)
    && Total(a, CoSigners) <= Budget(maxNodes, CoSigners)
  }

  // ---------------------------------------------------------------- rebuilding

  /** The tree the wired-up nodes form below node i. */
  ghost function Build(a: seq<WireNode>, i: nat): Node
    requires i < |a| && EntriesOk(a, 0) && InRange(a)
    decreases |a| - i
  {
    Node(Decode(a[i].data), map k | k in a[i].children :: Build(a, Child(a, i, k)))
  }

  predicate InRange(a: seq<WireNode>) {
    forall i, k :: 0 <= i < |a| && k in a[i].children ==> a[i].children[k] < |a|
  }

  function Child(a: seq<WireNode>, i: nat, k: Key): (c: nat)
    requires i < |a| && EntriesOk(a, 0) && InRange(a) && k in a[i].children
    ensures i < c < |a|
  {
    assert EntryOk(i, a[i]);
    a[i].children[k]
  }

  ghost predicate Accepts(p: Path, maxNodes: int) {
    && OneTree(p.nodes) && WithinBudget(p.nodes, maxNodes)
    && p.batchOutpoint.Good? && ValueOk(p.batchOutput)
  }

  datatype Outcome = Absent | Rejected | Rebuilt(tree: Tree)
}
