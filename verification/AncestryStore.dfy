/**
 * Persisted ancestry: the decode cache, loading per outpoint and in batches,
 * and the replace-all write. Tree serialization and hashing are parameters:
 * an inverse pair and functions assumed free of collisions.
 */
module AncestryStore {

  import opened Basics
  import opened AncestryCodec

  const HASH_SIZE: nat := 32
  const MAX_ROWS: nat := 64

  /** A tree with the sweep policy its serialization carries. */
  datatype Tree = Tree(body: nat, sweepKey: Option<nat>, sweepDelay: nat)

  type Hash = b: Bytes | |b| == HASH_SIZE witness seq(HASH_SIZE, _ => 0)

  datatype Ancestry = Ancestry(
    commitment: Hash,
    tree: Option<Tree>,
    depth: Uint32,
    indices: seq<Uint32>,
    height: int,
    sweepKey: Option<nat>,
    sweepDelay: nat)

  datatype Row = Row(
    hash: Bytes,
    index: Int32,
    order: Int32,
    commitment: Bytes,
    path: Bytes,
    depth: Int32,
    indices: Bytes,
    height: int)

  datatype Outpoint = Outpoint(hash: Bytes, index: Int32)

  /** The wire outpoint: the index reinterpreted as unsigned. */
  datatype WireOutpoint = WireOutpoint(hash: Bytes, index: Uint32)

  /** Serialization (with and without policy), parsing, and the two hashes. */
  datatype Codec = Codec(
    serialize: Tree -> Option<Bytes>,
    identify: Tree -> Option<Bytes>,
    parse: Bytes -> Option<Tree>,
    hash: Bytes -> nat,
    fragment: (Bytes, Bytes) -> nat)

  ghost predicate Inverse(c: Codec) {
    forall t :: c.serialize(t).Some? ==> c.serialize(t).value != [] && c.parse(c.serialize(t).value) == Some(t)
  }

  ghost predicate CollisionFree(c: Codec) {
    forall a, b :: c.hash(a) == c.hash(b) ==> a == b
  }

  // ---------------------------------------------------------------- decoding rows

  /** A row decoded without any cache. */
  function Domain(c: Codec, row: Row): Option<Ancestry> {
    if |row.commitment| != HASH_SIZE then None
    else
      var indices := Decode(row.indices);
      if indices.None? then None
      else if row.path == [] then
        Some(Ancestry(row.commitment, None, ToUint32(row.depth), indices.value, row.height, None, 0))
      else
        var t := c.parse(row.path);
        if t.None? then None
        else Some(Ancestry(row.commitment, t, ToUint32(row.depth), indices.value, row.height,
                           t.value.sweepKey, t.value.sweepDelay))
  }

  function LoadRows(c: Codec, rows: seq<Row>): Option<seq<Ancestry>> {
    if rows == [] then Some([])
    else
      var before, last := LoadRows(c, rows[..|rows| - 1]), Domain(c, rows[|rows| - 1]);
      if before.None? || last.None? then None else Some(before.value + [last.value])
  }

  function RowsOf(rows: seq<Row>, op: Outpoint): seq<Row> {
    if rows == [] then []
    else
      var before := RowsOf(rows[..|rows| - 1], op);
      var row := rows[|rows| - 1];
      if Outpoint(row.hash, row.index) == op then before + [row] else before
  }

  // ---------------------------------------------------------------- the cache

  /** A bounded cache; entries may vanish at any use. A cache without a map never stores. */
  class TreeCache {
    const c: Codec
    const enabled: bool
    var trees: map<nat, Tree>

    /** Whatever is cached for some bytes is what those bytes parse to. */
    ghost predicate Valid()
      reads this
    {
      forall b :: c.hash(b) in trees ==> c.parse(b) == Some(trees[c.hash(b)])
    }

    constructor (codec: Codec, maxEntries: int)
      ensures Valid() && c == codec && trees == map[]
    {
      c, enabled, trees := codec, maxEntries > 0, map[];
    }

    method Evict(gone: set<nat>)
      requires Valid()
      modifies this
      ensures Valid() && trees == old(trees) - gone
    {
      trees := trees - gone;
    }

    /** Through the cache, with any evictions, a path decodes to what it decodes to without it. */
    method GetOrDecode(path: Bytes, gone: set<nat>) returns (r: Option<Tree>)
      requires Valid() && CollisionFree(c)
      modifies this
      ensures Valid() && r == c.parse(path)
    {
      if !enabled {
        return c.parse(path);
      }
      var key := c.hash(path);
      if key in trees {
        return Some(trees[key]);
      }
      r := c.parse(path);
      if r.None? {
        return;
      }
      Evict(gone);
      trees := trees[key := r.value];
    }

    method RowToDomain(row: Row, gone: set<nat>) returns (r: Option<Ancestry>)
      requires Valid() && CollisionFree(c)
      modifies this
      ensures Valid() && r == Domain(c, row)
    {
      if |row.commitment| != HASH_SIZE {
        return None;
      }
      var indices := DecodeUint32SliceBE(row.indices);
      if indices.None? {
        return None;
      }
      r := Some(Ancestry(row.commitment, None, ToUint32(row.depth), indices.value, row.height, None, 0));
      if |row.path| > 0 {
        var t := GetOrDecode(row.path, gone);
        if t.None? {
          return None;
        }
        r := Some(r.value.(tree := t, sweepKey := t.value.sweepKey, sweepDelay := t.value.sweepDelay));
      }
    }

    /** Loading rows through the cache is loading them without it, whatever is evicted before each row. */
    method Load(rows: seq<Row>, gone: seq<set<nat>>) returns (r: Option<seq<Ancestry>>)
      requires Valid() && CollisionFree(c) && |gone| == |rows|
      modifies this
      ensures Valid() && r == LoadRows(c, rows)
    {
      var out: seq<Ancestry> := [];
      assert rows[..|rows|] == rows;
      for i := 0 to |rows|
        invariant Valid() && LoadRows(c, rows[..i]) == Some(out)
      {
        assert rows[..i + 1][..i] == rows[..i];
        var entry := RowToDomain(rows[i], gone[i]);
        if entry.None? {
          LoadFails(c, rows, i + 1);
          return None;
        }
        out := out + [entry.value];
      }
      r := Some(out);
    }

    /**
     * The batched read: a success gives each outpoint exactly what its own load
     * gives; a failure means some row does not decode or has a malformed hash.
     */
    method Group(rows: seq<Row>, gone: seq<set<nat>>) returns (r: Option<map<WireOutpoint, seq<Ancestry>>>)
      requires Valid() && CollisionFree(c) && |gone| == |rows|
      modifies this
      ensures Valid()
      ensures r.None? <==> exists i :: 0 <= i < |rows| && (Domain(c, rows[i]).None? || |rows[i].hash| != HASH_SIZE)
      ensures r.Some? ==> forall op :: Grouped(c, rows, op, r.value)
    {
      var out: map<WireOutpoint, seq<Ancestry>> := map[];
      assert rows[..|rows|] == rows;
      for i := 0 to |rows|
        invariant Valid()
        invariant forall j :: 0 <= j < i ==> Domain(c, rows[j]).Some? && |rows[j].hash| == HASH_SIZE
        invariant forall op :: Grouped(c, rows[..i], op, out)
      {
        var row := rows[i];
        var entry := RowToDomain(row, gone[i]);
        if entry.None? || |row.hash| != HASH_SIZE {
          return None;
        }
        var key := WireOutpoint(row.hash, ToUint32(row.index));
        var before := out;
        out := out[key := (if key in out then out[key] else []) + [entry.value]];
        ghost var upTo := rows[..i + 1];
        forall op ensures Grouped(c, upTo, op, out) {
          GroupStep(c, rows, i, op, before, out);
        }
      }
      r := Some(out);
    }
  }

  lemma {:induction false} LoadFails(c: Codec, rows: seq<Row>, i: nat)
    requires i <= |rows| && LoadRows(c, rows[..i]).None?
    ensures LoadRows(c, rows).None?
  {
    if i == |rows| {
      assert rows[..i] == rows;
    } else {
      assert rows[..|rows| - 1][..i] == rows[..i];
      LoadFails(c, rows[..|rows| - 1], i);
    }
  }

  /** The group of op is what loading op's rows gives; an outpoint with no rows has no group. */
  predicate Grouped(c: Codec, rows: seq<Row>, op: Outpoint, groups: map<WireOutpoint, seq<Ancestry>>) {
    var key := WireOutpoint(op.hash, ToUint32(op.index));
    && (key in groups <==> RowsOf(rows, op) != [])
    && (key in groups ==> LoadRows(c, RowsOf(rows, op)) == Some(groups[key]))
  }

  lemma GroupStep(c: Codec, rows: seq<Row>, i: nat, op: Outpoint,
                  before: map<WireOutpoint, seq<Ancestry>>, after: map<WireOutpoint, seq<Ancestry>>)
    requires i < |rows| && Domain(c, rows[i]).Some? && Grouped(c, rows[..i], op, before)
    requires var key := WireOutpoint(rows[i].hash, ToUint32(rows[i].index));
             after == before[key := (if key in before then before[key] else []) + [Domain(c, rows[i]).value]]
    ensures Grouped(c, rows[..i + 1], op, after)
  {
    assert rows[..i + 1][..i] == rows[..i];
    var mine := RowsOf(rows[..i], op);
    if Outpoint(rows[i].hash, rows[i].index) == op {
      assert (mine + [rows[i]])[..|mine|] == mine;
    }
  }

  // ---------------------------------------------------------------- the replace-all write

  /** The tree as stored: the fragment's own policy, if it has one, wins over the tree's. */
  function StoredTree(a: Ancestry): Option<Tree> {
    if a.tree.None? then None
    else if a.sweepKey.Some? || a.sweepDelay != 0
    then Some(a.tree.value.(sweepKey := a.sweepKey, sweepDelay := a.sweepDelay))
    else a.tree
  }

  /** The fragment as it reads back. */
  function Stored(a: Ancestry): Ancestry {
    var t := StoredTree(a);
    if t.None? then a.(sweepKey := None, sweepDelay := 0)
    else a.(tree := t, sweepKey := t.value.sweepKey, sweepDelay := t.value.sweepDelay)
  }

  function StoredAll(fragments: seq<Ancestry>): seq<Ancestry> {
    if fragments == [] then [] else StoredAll(fragments[..|fragments| - 1]) + [Stored(fragments[|fragments| - 1])]
  }

  predicate Serializable(c: Codec, a: Ancestry) {
    a.tree.Some? ==> c.serialize(StoredTree(a).value).Some? && c.identify(a.tree.value).Some?
  }

  function PathBytes(c: Codec, a: Ancestry): Bytes
    requires Serializable(c, a)
  {
    if a.tree.None? then [] else c.serialize(StoredTree(a).value).value
  }

  /** Fragment identity: the commitment and the tree without policy. */
  function FragmentKey(c: Codec, a: Ancestry): nat
    requires Serializable(c, a)
  {
    c.fragment(a.commitment, if a.tree.None? then [] else c.identify(a.tree.value).value)
  }

  predicate AllSerializable(c: Codec, fragments: seq<Ancestry>) {
    forall i :: 0 <= i < |fragments| ==> Serializable(c, fragments[i])
  }

  predicate Distinct(c: Codec, fragments: seq<Ancestry>)
    requires AllSerializable(c, fragments)
  {
    forall i, j :: 0 <= i < j < |fragments| ==> FragmentKey(c, fragments[i]) != FragmentKey(c, fragments[j])
  }

  predicate Writable(c: Codec, fragments: seq<Ancestry>) {
    |fragments| <= MAX_ROWS && AllSerializable(c, fragments) && Distinct(c, fragments)
  }

  function ToRow(c: Codec, op: Outpoint, i: nat, a: Ancestry): Row
    requires Serializable(c, a) && i < MAX_ROWS
  {
    Row(op.hash, op.index, i, a.commitment, PathBytes(c, a), ToInt32(a.depth), Encode(a.indices), a.height)
  }

  function ToRows(c: Codec, op: Outpoint, fragments: seq<Ancestry>): seq<Row>
    requires |fragments| <= MAX_ROWS && AllSerializable(c, fragments)
  {
    if fragments == [] then []
    else ToRows(c, op, fragments[..|fragments| - 1]) + [ToRow(c, op, |fragments| - 1, fragments[|fragments| - 1])]
  }

  function Without(rows: seq<Row>, op: Outpoint): seq<Row> {
    if rows == [] then []
    else
      var row := rows[|rows| - 1];
      var before := Without(rows[..|rows| - 1], op);
      if Outpoint(row.hash, row.index) == op then before else before + [row]
  }

  class Table {
    const c: Codec
    var rows: seq<Row>

    constructor (codec: Codec)
      ensures c == codec && rows == []
    {
      c, rows := codec, [];
    }

    method Delete(op: Outpoint, dbOk: bool) returns (ok: bool)
      modifies this
      ensures ok == dbOk && rows == if ok then Without(old(rows), op) else old(rows)
    {
      ok := dbOk;
      if ok {
        rows := Without(rows, op);
      }
    }

    /**
     * The write as its caller's transaction sees it: everything is validated before any row is
     * touched, and a database error part of the way through is reported with the rows as they stand.
     */
    method Replace(op: Outpoint, fragments: seq<Ancestry>, deleteOk: bool, insertOk: nat -> bool) returns (ok: bool)
      modifies this
      ensures ok <==> Writable(c, fragments) && deleteOk && forall i :: 0 <= i < |fragments| ==> insertOk(i)
      ensures ok ==> rows == Without(old(rows), op) + ToRows(c, op, fragments)
      ensures !Writable(c, fragments) ==> rows == old(rows)
    {
      if |fragments| > MAX_ROWS {
        return false;
      }
      var paths := Validate(c, fragments);
      if paths.None? {
        return false;
      }
      ok := Delete(op, deleteOk);
      if !ok {
        return;
      }
      ok := InsertAll(op, fragments, paths.value, insertOk);
    }

    /** Inserts one row per fragment, in order, until an insert fails. */
    method InsertAll(op: Outpoint, fragments: seq<Ancestry>, paths: seq<Bytes>, insertOk: nat -> bool)
      returns (ok: bool)
      requires |fragments| <= MAX_ROWS && AllSerializable(c, fragments) && |paths| == |fragments|
      requires forall i :: 0 <= i < |fragments| ==> paths[i] == PathBytes(c, fragments[i])
      modifies this
      ensures ok <==> forall i :: 0 <= i < |fragments| ==> insertOk(i)
      ensures ok ==> rows == old(rows) + ToRows(c, op, fragments)
    {
      assert fragments[..|fragments|] == fragments;
      for i := 0 to |fragments|
        invariant rows == old(rows) + ToRows(c, op, fragments[..i])
        invariant forall j :: 0 <= j < i ==> insertOk(j)
      {
        if !insertOk(i) {
          return false;
        }
        var a := fragments[i];
        assert fragments[..i + 1][..i] == fragments[..i];
        var indices := EncodeUint32SliceBE(a.indices);
        rows := rows + [Row(op.hash, op.index, i, a.commitment, paths[i], ToInt32(a.depth), indices[..], a.height)];
      }
      ok := true;
    }

    /** The write in its transaction: all of it, or on any error nothing. */
    method Upsert(op: Outpoint, fragments: seq<Ancestry>, deleteOk: bool, insertOk: nat -> bool) returns (ok: bool)
      modifies this
      ensures ok <==> Writable(c, fragments) && deleteOk && forall i :: 0 <= i < |fragments| ==> insertOk(i)
      ensures rows == if ok then Without(old(rows), op) + ToRows(c, op, fragments) else old(rows)
    {
      var snapshot := rows;
      ok := Replace(op, fragments, deleteOk, insertOk);
      if !ok {
        rows := snapshot;
      }
    }
  }

  /** A fragment's stored path bytes and identity, unless one of its serializations fails. */
  method SerializeFragment(c: Codec, a: Ancestry) returns (r: Option<(Bytes, nat)>)
    ensures r.Some? <==> Serializable(c, a)
    ensures r.Some? ==> r.value == (PathBytes(c, a), FragmentKey(c, a))
  {
    var path: Bytes, ident: Bytes := [], [];
    if a.tree.Some? {
      var data := c.serialize(StoredTree(a).value);
      if data.None? {
        return None;
      }
      path := data.value;
      var id := c.identify(a.tree.value);
      if id.None? {
        return None;
      }
      ident := id.value;
    }
    r := Some((path, c.fragment(a.commitment, ident)));
  }

  /** The checks made before any row is touched. */
  method Validate(c: Codec, fragments: seq<Ancestry>) returns (r: Option<seq<Bytes>>)
    ensures r.Some? <==> AllSerializable(c, fragments) && Distinct(c, fragments)
    ensures r.Some? ==> |r.value| == |fragments|
    ensures r.Some? ==> forall i :: 0 <= i < |fragments| ==> r.value[i] == PathBytes(c, fragments[i])
  {
    var paths: seq<Bytes> := [];
    var seen: map<nat, nat> := map[];
    for i := 0 to |fragments|
      invariant |paths| == i
      invariant forall j :: 0 <= j < i ==> Serializable(c, fragments[j]) && paths[j] == PathBytes(c, fragments[j])
      invariant forall j :: 0 <= j < i ==>
                  FragmentKey(c, fragments[j]) in seen && seen[FragmentKey(c, fragments[j])] == j
      invariant forall k :: k in seen ==> seen[k] < i && FragmentKey(c, fragments[seen[k]]) == k
    {
      var f := SerializeFragment(c, fragments[i]);
      if f.None? {
        return None;
      }
      paths := paths + [f.value.0];
      var key := f.value.1;
      if key in seen {
        assert FragmentKey(c, fragments[seen[key]]) == FragmentKey(c, fragments[i]);
        return None;
      }
      seen := seen[key := i];
    }
    r := Some(paths);
  }

  // ---------------------------------------------------------------- reading back

  lemma {:induction false} RowsOfConcat(a: seq<Row>, b: seq<Row>, op: Outpoint)
    ensures RowsOf(a + b, op) == RowsOf(a, op) + RowsOf(b, op)
  {
    if b == [] {
      assert a + b == a;
    } else {
      RowsOfConcat(a, b[..|b| - 1], op);
      assert (a + b)[..|a + b| - 1] == a + b[..|b| - 1];
    }
  }

  lemma {:induction false} WithoutKeepsOthers(rows: seq<Row>, op: Outpoint, other: Outpoint)
    ensures RowsOf(Without(rows, op), other) == if other == op then [] else RowsOf(rows, other)
  {
    if rows != [] {
      WithoutKeepsOthers(rows[..|rows| - 1], op, other);
      var row := rows[|rows| - 1];
      if Outpoint(row.hash, row.index) != op {
        RowsOfConcat(Without(rows[..|rows| - 1], op), [row], other);
        assert [row][..0] == [];
      }
    }
  }

  lemma {:induction false} RowsOfWritten(c: Codec, op: Outpoint, fragments: seq<Ancestry>, other: Outpoint)
    requires |fragments| <= MAX_ROWS && AllSerializable(c, fragments)
    ensures RowsOf(ToRows(c, op, fragments), other) == if other == op then ToRows(c, op, fragments) else []
  {
    if fragments != [] {
      RowsOfWritten(c, op, fragments[..|fragments| - 1], other);
      var n := |fragments| - 1;
      var before, row := ToRows(c, op, fragments[..n]), ToRow(c, op, n, fragments[n]);
      assert (before + [row])[..|before|] == before;
    }
  }

  predicate IndicesFit(fragments: seq<Ancestry>) {
    forall i :: 0 <= i < |fragments| ==> |fragments[i].indices| < TWO_32
  }

  lemma RowReadsBack(c: Codec, op: Outpoint, i: nat, a: Ancestry)
    requires Inverse(c) && Serializable(c, a) && i < MAX_ROWS
    ensures Domain(c, ToRow(c, op, i, a)) == Some(Stored(a)) <==> |a.indices| < TWO_32
  {
    EncodeDecodes(a.indices);
    DepthReadsBack(a.depth);
    assert ToRow(c, op, i, a).indices == Encode(a.indices);
    if a.tree.Some? {
      var t := StoredTree(a).value;
      assert c.parse(c.serialize(t).value) == Some(t);
    }
  }

  lemma DepthReadsBack(x: Uint32)
    ensures ToUint32(ToInt32(x)) == x
  {
  }

  lemma {:induction false} RowsReadBack(c: Codec, op: Outpoint, fragments: seq<Ancestry>)
    requires Inverse(c) && |fragments| <= MAX_ROWS && AllSerializable(c, fragments) && IndicesFit(fragments)
    ensures LoadRows(c, ToRows(c, op, fragments)) == Some(StoredAll(fragments))
  {
    if fragments != [] {
      var init, a := fragments[..|fragments| - 1], fragments[|fragments| - 1];
      RowsReadBack(c, op, init);
      RowReadsBack(c, op, |fragments| - 1, a);
      var before := ToRows(c, op, init);
      assert (before + [ToRow(c, op, |fragments| - 1, a)])[..|before|] == before;
    }
  }

  /**
   * What a fragment reads back as: its own commitment, depth, indices, height and tree, under the
   * policy it carries if it carries one and the tree's otherwise; without a tree it has no policy.
   */
  predicate ReadsBackAs(a: Ancestry, b: Ancestry) {
    && b.commitment == a.commitment && b.depth == a.depth && b.indices == a.indices && b.height == a.height
    && (a.tree.None? ==> b.tree.None? && b.sweepKey.None? && b.sweepDelay == 0)
    && (a.tree.Some? ==>
          && b.tree == Some(Tree(a.tree.value.body, b.sweepKey, b.sweepDelay))
          && (if a.sweepKey.Some? || a.sweepDelay != 0 then b.sweepKey == a.sweepKey && b.sweepDelay == a.sweepDelay
              else b.sweepKey == a.tree.value.sweepKey && b.sweepDelay == a.tree.value.sweepDelay))
  }

  lemma {:induction false} StoredAt(fragments: seq<Ancestry>, i: nat)
    requires i < |fragments|
    ensures |StoredAll(fragments)| == |fragments| && ReadsBackAs(fragments[i], StoredAll(fragments)[i])
  {
    var n := |fragments| - 1;
    if i < n {
      StoredAt(fragments[..n], i);
    } else if n > 0 {
      StoredAt(fragments[..n], 0);
    }
  }

  lemma {:induction false} WrittenAt(c: Codec, op: Outpoint, fragments: seq<Ancestry>, i: nat)
    requires |fragments| <= MAX_ROWS && AllSerializable(c, fragments) && i < |fragments|
    ensures |ToRows(c, op, fragments)| == |fragments|
    ensures var row := ToRows(c, op, fragments)[i];
            row.order == i && row.hash == op.hash && row.index == op.index
  {
    var n := |fragments| - 1;
    if i < n {
      WrittenAt(c, op, fragments[..n], i);
    } else if n > 0 {
      WrittenAt(c, op, fragments[..n], 0);
    }
  }

  /**
   * After an accepted write, loading the outpoint gives back every fragment in order, under the policy
   * that wins, from rows numbered from 0; every other outpoint loads as before.
   */
  lemma WriteThenLoad(c: Codec, rows: seq<Row>, op: Outpoint, fragments: seq<Ancestry>, other: Outpoint)
    requires Inverse(c) && Writable(c, fragments) && IndicesFit(fragments) && other != op
    ensures var after := Without(rows, op) + ToRows(c, op, fragments);
            && LoadRows(c, RowsOf(after, op)).Some?
            && |RowsOf(after, op)| == |fragments| == |LoadRows(c, RowsOf(after, op)).value|
            && (forall i :: 0 <= i < |fragments| ==>
                  && ReadsBackAs(fragments[i], LoadRows(c, RowsOf(after, op)).value[i])
                  && RowsOf(after, op)[i].order == i)
            && LoadRows(c, RowsOf(after, other)) == LoadRows(c, RowsOf(rows, other))
  {
    RowsAfter(c, rows, op, fragments, other);
    WrittenReadsBack(c, op, fragments);
  }

  lemma RowsAfter(c: Codec, rows: seq<Row>, op: Outpoint, fragments: seq<Ancestry>, other: Outpoint)
    requires |fragments| <= MAX_ROWS && AllSerializable(c, fragments) && other != op
    ensures var after := Without(rows, op) + ToRows(c, op, fragments);
            RowsOf(after, op) == ToRows(c, op, fragments) && RowsOf(after, other) == RowsOf(rows, other)
  {
    var written := ToRows(c, op, fragments);
    RowsOfConcat(Without(rows, op), written, op);
    RowsOfConcat(Without(rows, op), written, other);
    WithoutKeepsOthers(rows, op, op);
    WithoutKeepsOthers(rows, op, other);
    RowsOfWritten(c, op, fragments, op);
    RowsOfWritten(c, op, fragments, other);
    assert [] + written == written;
    assert RowsOf(rows, other) + [] == RowsOf(rows, other);
  }

  lemma WrittenReadsBack(c: Codec, op: Outpoint, fragments: seq<Ancestry>)
    requires Inverse(c) && |fragments| <= MAX_ROWS && AllSerializable(c, fragments) && IndicesFit(fragments)
    ensures var written := ToRows(c, op, fragments);
            && LoadRows(c, written).Some?
            && |written| == |fragments| == |LoadRows(c, written).value|
            && forall i :: 0 <= i < |fragments| ==>
                 ReadsBackAs(fragments[i], LoadRows(c, written).value[i]) && written[i].order == i
  {
    RowsReadBack(c, op, fragments);
    if fragments != [] { StoredAt(fragments, 0); WrittenAt(c, op, fragments, 0); }
    forall i | 0 <= i < |fragments|
      ensures ReadsBackAs(fragments[i], StoredAll(fragments)[i]) && ToRows(c, op, fragments)[i].order == i
    {
      StoredAt(fragments, i);
      WrittenAt(c, op, fragments, i);
    }
  }

  /** The bytes that identify a fragment's tree, without policy. */
  function Identity(c: Codec, a: Ancestry): Option<Bytes> {
    if a.tree.None? then Some([]) else c.identify(a.tree.value)
  }

  /**
   * Under a collision-free fragment hash the write refuses exactly two fragments with the same
   * commitment and the same tree; neither policy nor indices, depth or height tell them apart.
   */
  lemma DuplicatesAreRefused(c: Codec, fragments: seq<Ancestry>)
    requires AllSerializable(c, fragments)
    requires forall k, b, k', b' :: c.fragment(k, b) == c.fragment(k', b') ==> k == k' && b == b'
    ensures Distinct(c, fragments) <==>
              forall i, j :: 0 <= i < j < |fragments| ==>
                || fragments[i].commitment != fragments[j].commitment
                || Identity(c, fragments[i]) != Identity(c, fragments[j])
  {
    forall i, j | 0 <= i < j < |fragments|
      ensures FragmentKey(c, fragments[i]) == FragmentKey(c, fragments[j]) <==>
                && fragments[i].commitment == fragments[j].commitment
                && Identity(c, fragments[i]) == Identity(c, fragments[j])
    {
    }
  }
}
