/**
 * The input-index column: a 4-byte big-endian count followed by 4-byte
 * big-endian elements.
 */
module AncestryCodec {

  import opened Basics

  function Split(v: Uint32): Bytes {
    [v / 0x100_0000, v / 0x1_0000 % 256, v / 0x100 % 256, v % 256]
  }

  function Join(b: Bytes): Uint32
    requires |b| == 4
  {
    var w: seq<nat> := b;
    w[0] * 0x100_0000 + w[1] * 0x1_0000 + w[2] * 0x100 + w[3]
  }

  lemma SplitJoin(v: Uint32)
    ensures |Split(v)| == 4 && Join(Split(v)) == v
  {
    var n: nat := v;
    var a, b, c := n / 0x100, n / 0x1_0000, n / 0x100_0000;
    assert b == a / 256 && c == b / 256;
    assert n == 256 * a + n % 256 && a == 256 * b + a % 256 && b == 256 * c + b % 256;
  }

  lemma JoinSplit(b: Bytes)
    requires |b| == 4
    ensures Split(Join(b)) == b
  {
    var v: nat, w: seq<nat> := Join(b), b;
    assert v / 0x100 == w[0] * 0x1_0000 + w[1] * 0x100 + w[2];
    assert v / 0x1_0000 == w[0] * 0x100 + w[1];
    assert v / 0x100_0000 == w[0];
  }

  function Words(vs: seq<Uint32>): Bytes {
    if vs == [] then [] else Words(vs[..|vs| - 1]) + Split(vs[|vs| - 1])
  }

  /** The column of vs; the count is what fits 32 bits. */
  function Encode(vs: seq<Uint32>): Bytes {
    Split(|vs| % TWO_32) + Words(vs)
  }

  lemma {:induction false} WordsLength(vs: seq<Uint32>)
    ensures |Words(vs)| == 4 * |vs|
  {
    if vs != [] { WordsLength(vs[..|vs| - 1]); }
  }

  /** The n elements after the count. */
  function Elements(raw: Bytes, n: nat): seq<Uint32>
    requires 4 + 4 * n <= |raw|
  {
    if n == 0 then [] else Elements(raw, n - 1) + [Join(raw[4 * n..4 * n + 4])]
  }

  function Count(raw: Bytes): nat
    requires |raw| >= 4
  {
    Join(raw[..4])
  }

  function Decode(raw: Bytes): Option<seq<Uint32>> {
    if |raw| == 0 then Some([])
    else if |raw| < 4 then None
    else if |raw| != 4 + 4 * Count(raw) then None
    else Some(Elements(raw, Count(raw)))
  }

  // ---------------------------------------------------------------- round trips

  lemma {:induction false} ElementsOfWords(head: Bytes, vs: seq<Uint32>, n: nat)
    requires |head| == 4 && n <= |vs| && |Words(vs)| == 4 * |vs|
    ensures Elements(head + Words(vs), n) == vs[..n]
  {
    if n > 0 {
      ElementsOfWords(head, vs, n - 1);
      WordAt(vs, n - 1);
      assert (head + Words(vs))[4 * n..4 * n + 4] == Words(vs)[4 * (n - 1)..4 * n];
      SplitJoin(vs[n - 1]);
      assert vs[..n] == vs[..n - 1] + [vs[n - 1]];
    }
  }

  lemma {:induction false} WordAt(vs: seq<Uint32>, i: nat)
    requires i < |vs|
    ensures |Words(vs)| == 4 * |vs| && Words(vs)[4 * i..4 * i + 4] == Split(vs[i])
  {
    WordsLength(vs);
    var init := vs[..|vs| - 1];
    WordsLength(init);
    if i < |init| {
      WordAt(init, i);
      assert Words(vs)[4 * i..4 * i + 4] == Words(init)[4 * i..4 * i + 4];
    }
  }

  lemma {:induction false} WordsOfElements(raw: Bytes, n: nat)
    requires 4 + 4 * n <= |raw|
    ensures |Elements(raw, n)| == n && Words(Elements(raw, n)) == raw[4..4 + 4 * n]
  {
    if n > 0 {
      WordsOfElements(raw, n - 1);
      var vs := Elements(raw, n);
      assert vs[..n - 1] == Elements(raw, n - 1);
      JoinSplit(raw[4 * n..4 * n + 4]);
      assert raw[4..4 + 4 * n] == raw[4..4 * n] + raw[4 * n..4 * n + 4];
    }
  }

  lemma ColumnHead(vs: seq<Uint32>)
    ensures |Encode(vs)| == 4 + 4 * |vs| && Count(Encode(vs)) == |vs| % TWO_32
  {
    WordsLength(vs);
    SplitJoin(|vs| % TWO_32);
    assert Encode(vs)[..4] == Split(|vs| % TWO_32);
  }

  /** A slice survives its column exactly when its length fits 32 bits. */
  lemma EncodeDecodes(vs: seq<Uint32>)
    ensures Decode(Encode(vs)) == Some(vs) <==> |vs| < TWO_32
  {
    ColumnHead(vs);
    WordsLength(vs);
    var head := Split(|vs| % TWO_32);
    if |vs| < TWO_32 {
      ElementsOfWords(head, vs, |vs|);
      assert vs[..|vs|] == vs;
    }
    HeadDecides(head + Words(vs), |vs|);
  }

  lemma HeadDecides(raw: Bytes, n: nat)
    requires |raw| == 4 + 4 * n
    ensures Decode(raw) == if Count(raw) == n then Some(Elements(raw, n)) else None
  {
  }

  /** Non-empty bytes that decode are the only column of what they decode to. */
  lemma DecodeEncodes(raw: Bytes)
    requires raw != [] && Decode(raw).Some?
    ensures Encode(Decode(raw).value) == raw
  {
    var n := Count(raw);
    WordsOfElements(raw, n);
    assert Split(n) == raw[..4] by { JoinSplit(raw[..4]); }
    assert n % TWO_32 == n;
    assert raw == raw[..4] + raw[4..4 + 4 * n];
  }

  /** The four bytes of n, most significant first. */
  predicate BigEndian(word: Bytes, n: nat) {
    && |word| == 4
    && word[0] == n / 0x100_0000 && word[1] == n / 0x1_0000 % 256
    && word[2] == n / 0x100 % 256 && word[3] == n % 256
  }

  lemma SplitIsBigEndian(word: Bytes, v: Uint32)
    requires word == Split(v)
    ensures BigEndian(word, v)
  {
  }

  lemma ColumnAt(vs: seq<Uint32>, i: nat)
    requires i < |vs| < TWO_32
    ensures |Encode(vs)| == 4 + 4 * |vs|
    ensures Encode(vs)[..4] == Split(|vs|) && Encode(vs)[4 + 4 * i..8 + 4 * i] == Split(vs[i])
  {
    WordAt(vs, i);
    Concatenated(Split(|vs|), Words(vs), i);
  }

  lemma Concatenated(head: Bytes, words: Bytes, i: nat)
    requires |head| == 4 && 4 * i + 4 <= |words|
    ensures (head + words)[..4] == head && (head + words)[4 + 4 * i..8 + 4 * i] == words[4 * i..4 * i + 4]
  {
  }

  /** The column is big-endian: the count and each element with its most significant byte first. */
  lemma ColumnIsBigEndian(vs: seq<Uint32>, i: nat)
    requires i < |vs| < TWO_32
    ensures |Encode(vs)| == 4 + 4 * |vs|
    ensures BigEndian(Encode(vs)[..4], |vs|) && BigEndian(Encode(vs)[4 + 4 * i..8 + 4 * i], vs[i])
  {
    ColumnAt(vs, i);
    SplitIsBigEndian(Encode(vs)[..4], |vs|);
    SplitIsBigEndian(Encode(vs)[4 + 4 * i..8 + 4 * i], vs[i]);
  }

  lemma WordsSnoc(head: Bytes, vs: seq<Uint32>, i: nat)
    requires i < |vs|
    ensures head + Words(vs[..i]) + Split(vs[i]) == head + Words(vs[..i + 1])
    ensures |Words(vs[..i + 1])| == 4 * (i + 1)
  {
    assert vs[..i + 1][..i] == vs[..i];
    WordsLength(vs[..i + 1]);
    assert head + Words(vs[..i]) + Split(vs[i]) == head + (Words(vs[..i]) + Split(vs[i]));
  }

  // ---------------------------------------------------------------- the loops

  method Put(out: array<Byte>, at: nat, v: Uint32)
    requires at + 4 <= out.Length
    modifies out
    ensures out[at..at + 4] == Split(v)
    ensures out[..at] == old(out[..at]) && out[at + 4..] == old(out[at + 4..])
  {
    var w := Split(v);
    out[at], out[at + 1], out[at + 2], out[at + 3] := w[0], w[1], w[2], w[3];
  }

  method EncodeUint32SliceBE(vs: seq<Uint32>) returns (out: array<Byte>)
    ensures fresh(out) && out[..] == Encode(vs)
  {
    out := new Byte[4 + 4 * |vs|];
    Put(out, 0, |vs| % TWO_32);
    ghost var head := Split(|vs| % TWO_32);
    assert vs[..|vs|] == vs;
    WordsLength([]);
    for i := 0 to |vs|
      invariant fresh(out) && |Words(vs[..i])| == 4 * i
      invariant out[..4 + 4 * i] == head + Words(vs[..i])
    {
      Put(out, 4 + 4 * i, vs[i]);
      assert out[..4 + 4 * (i + 1)] == out[..4 + 4 * i] + out[4 + 4 * i..4 + 4 * i + 4];
      WordsSnoc(head, vs, i);
    }
    assert out[..] == out[..4 + 4 * |vs|];
  }

  method DecodeUint32SliceBE(raw: Bytes) returns (r: Option<seq<Uint32>>)
    ensures r == Decode(raw)
  {
    if |raw| == 0 {
      return Some([]);
    }
    if |raw| < 4 {
      return None;
    }
    var count: nat := Join(raw[..4]);
    if |raw| != 4 + 4 * count {
      return None;
    }
    var out: seq<Uint32> := [];
    for i := 0 to count
      invariant out == Elements(raw, i)
    {
      out := out + [Join(raw[4 + 4 * i..8 + 4 * i])];
    }
    r := Some(out);
  }
}
