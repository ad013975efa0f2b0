/**
 * The resume-snapshot blob: a type-length-value stream (variable-size big-endian
 * types and lengths, strictly increasing types) that leaves zero fields out.
 */
module SnapshotCodec {

  import opened Basics
  import opened CreditTypes

  // ---------------------------------------------------------------- numbers

  function Pow(k: nat): nat { if k == 0 then 1 else 256 * Pow(k - 1) }

  /** v in k big-endian bytes. */
  function Big(v: nat, k: nat): Bytes {
    if k == 0 then [] else Big(v / 256, k - 1) + [v % 256]
  }

  function FromBig(b: Bytes): nat {
    if b == [] then 0
    else
      var last: nat := b[|b| - 1];
      FromBig(b[..|b| - 1]) * 256 + last
  }

  lemma {:induction false} BigRoundTrips(v: nat, k: nat)
    requires v < Pow(k)
    ensures |Big(v, k)| == k && FromBig(Big(v, k)) == v
  {
    if k > 0 {
      BigRoundTrips(v / 256, k - 1);
      var b := Big(v, k);
      assert b[..|b| - 1] == Big(v / 256, k - 1);
    }
  }

  lemma PowValues()
    ensures Pow(1) == 0x100 && Pow(2) == 0x1_0000 && Pow(4) == 0x1_0000_0000
    ensures Pow(8) == 0x1_0000_0000_0000_0000
  {
    assert Pow(3) == 0x100_0000;
    assert Pow(5) == 0x100_0000_0000;
    assert Pow(6) == 0x1_0000_0000_0000;
    assert Pow(7) == 0x100_0000_0000_0000;
  }

  const TWO_64: nat := 0x1_0000_0000_0000_0000

  /** A variable-size integer: one byte, or a marker and 2, 4 or 8 bytes. */
  function PutSize(n: nat): Bytes {
    if n < 0xfd then [n]
    else if n < 0x1_0000 then [0xfd] + Big(n, 2)
    else if n < 0x1_0000_0000 then [0xfe] + Big(n, 4)
    else [0xff] + Big(n, 8)
  }

  /** The integer at the front and the bytes it took; a longer form than needed is refused. */
  function GetSize(b: Bytes): (r: Option<(nat, nat)>)
    ensures r.Some? ==> 0 < r.value.1 <= |b|
  {
    if b == [] then None
    else if b[0] < 0xfd then Some((b[0], 1))
    else if b[0] == 0xfd then Wide(b, 2, 0xfd)
    else if b[0] == 0xfe then Wide(b, 4, 0x1_0000)
    else Wide(b, 8, 0x1_0000_0000)
  }

  function Wide(b: Bytes, k: nat, least: nat): Option<(nat, nat)> {
    if |b| < 1 + k then None
    else
      var n := FromBig(b[1..1 + k]);
      if n < least then None else Some((n, 1 + k))
  }

  lemma WideRoundTrips(marker: Byte, n: nat, k: nat, least: nat, rest: Bytes)
    requires least <= n < Pow(k)
    ensures Wide([marker] + Big(n, k) + rest, k, least) == Some((n, 1 + k))
  {
    BigRoundTrips(n, k);
    var b := [marker] + Big(n, k) + rest;
    assert b[1..1 + k] == Big(n, k);
  }

  lemma SizeRoundTrips(n: nat, rest: Bytes)
    requires n < TWO_64
    ensures GetSize(PutSize(n) + rest) == Some((n, |PutSize(n)|))
  {
    PowValues();
    if n < 0xfd {
    } else if n < 0x1_0000 {
      BigRoundTrips(n, 2);
      WideRoundTrips(0xfd, n, 2, 0xfd, rest);
    } else if n < 0x1_0000_0000 {
      BigRoundTrips(n, 4);
      WideRoundTrips(0xfe, n, 4, 0x1_0000, rest);
    } else {
      BigRoundTrips(n, 8);
      WideRoundTrips(0xff, n, 8, 0x1_0000_0000, rest);
    }
  }

  // ---------------------------------------------------------------- the stream

  const SCRIPT: nat := 1
  const MEMO: nat := 2
  const CREDIT_ONLY: nat := 3
  const AWAIT_POLLS: nat := 5

  const EMPTY := Snapshot([], [], false, 0)

  function Record(t: nat, v: Bytes): Bytes { PutSize(t) + PutSize(|v|) + v }

  function Field(present: bool, t: nat, v: Bytes): Bytes { if present then Record(t, v) else [] }

  function Encode(s: Snapshot): Bytes {
    Field(s.script != [], SCRIPT, s.script) + EncodeAfterScript(s)
  }

  function EncodeAfterScript(s: Snapshot): Bytes {
    Field(s.memo != [], MEMO, s.memo) + EncodeAfterMemo(s)
  }

  function EncodeAfterMemo(s: Snapshot): Bytes {
    Field(s.creditOnly, CREDIT_ONLY, [1]) + Field(s.polls > 0, AWAIT_POLLS, Big(s.polls, 4))
  }

  /** One record taken in; fixed-size fields need their size, unknown types are skipped. */
  function Absorb(s: Snapshot, t: nat, v: Bytes): Option<Snapshot> {
    if t == SCRIPT then Some(s.(script := v))
    else if t == MEMO then Some(s.(memo := v))
    else if t == CREDIT_ONLY then if |v| == 1 then Some(s.(creditOnly := v[0] != 0)) else None
    else if t == AWAIT_POLLS then if |v| == 4 then FourBytes(v); Some(s.(polls := FromBig(v))) else None
    else Some(s)
  }

  lemma FourBytes(v: Bytes)
    requires |v| == 4
    ensures FromBig(v) < 0x1_0000_0000
  {
    assert FromBig(v[..1]) < 0x100 by { assert v[..1][..0] == []; }
    assert v[..2][..1] == v[..1] && v[..3][..2] == v[..2];
    assert FromBig(v[..2]) < 0x1_0000;
    assert FromBig(v[..3]) < 0x100_0000;
  }

  /** A record at the front: its type, where its value starts, and where it ends. */
  datatype Header = Header(t: nat, from: nat, to: nat)

  function ReadHeader(b: Bytes): (r: Option<Header>)
    ensures r.Some? ==> 0 < r.value.from <= r.value.to <= |b|
  {
    var t := GetSize(b);
    if t.None? then None
    else
      var n := GetSize(b[t.value.1..]);
      if n.None? then None
      else
        var from := t.value.1 + n.value.1;
        if from + n.value.0 > |b| then None else Some(Header(t.value.0, from, from + n.value.0))
  }

  /** The rest of the stream, after a record of type last (-1 before the first). */
  function Parse(b: Bytes, last: int, s: Snapshot): Option<Snapshot>
    decreases |b|
  {
    if b == [] then Some(s)
    else
      var h := ReadHeader(b);
      if h.None? || h.value.t <= last then None
      else
        var s1 := Absorb(s, h.value.t, b[h.value.from..h.value.to]);
        if s1.None? then None else Parse(b[h.value.to..], h.value.t, s1.value)
  }

  function Decode(raw: Bytes): Option<Snapshot> { Parse(raw, -1, EMPTY) }

  lemma HeaderOfRecord(t: nat, v: Bytes, rest: Bytes)
    requires t < TWO_64 && |v| < TWO_64
    ensures var b, r := Record(t, v) + rest, Record(t, v);
            ReadHeader(b) == Some(Header(t, |r| - |v|, |r|)) && b[|r| - |v|..|r|] == v && b[|r|..] == rest
  {
    SizeRoundTrips(t, PutSize(|v|) + v + rest);
    SizeRoundTrips(|v|, v + rest);
    HeaderOfParts(t, PutSize(t), PutSize(|v|), v, rest);
  }

  lemma HeaderOfParts(t: nat, x: Bytes, y: Bytes, v: Bytes, rest: Bytes)
    requires GetSize(x + (y + v + rest)) == Some((t, |x|)) && GetSize(y + (v + rest)) == Some((|v|, |y|))
    ensures var b, n := x + y + v + rest, |x| + |y|;
            ReadHeader(b) == Some(Header(t, n, n + |v|)) && b[n..n + |v|] == v && b[n + |v|..] == rest
  {
    var b := x + y + v + rest;
    assert b == x + (y + v + rest);
    assert b[|x|..] == y + (v + rest);
  }

  /** A record in front of a stream is absorbed and parsing goes on behind it. */
  lemma ParseRecord(t: nat, v: Bytes, rest: Bytes, last: int, s: Snapshot)
    requires last < t < TWO_64 && |v| < TWO_64 && Absorb(s, t, v).Some?
    ensures Parse(Record(t, v) + rest, last, s) == Parse(rest, t, Absorb(s, t, v).value)
  {
    HeaderOfRecord(t, v, rest);
    assert Record(t, v) + rest != [];
  }

  /** Whether or not the record is there, parsing ends with the field set: an absent field is already zero. */
  lemma ParseOptional(present: bool, t: nat, v: Bytes, rest: Bytes, last: int, s: Snapshot, after: Snapshot)
    requires last < t < TWO_64 && |v| < TWO_64
    requires if present then Absorb(s, t, v) == Some(after) else after == s
    ensures Parse(Field(present, t, v) + rest, last, s) == Parse(rest, if present then t else last, after)
  {
    if present { ParseRecord(t, v, rest, last, s); } else { assert [] + rest == rest; }
  }

  /** Every snapshot survives its blob (lengths are 64-bit). */
  lemma SnapshotRoundTrips(s: Snapshot)
    requires |s.script| < TWO_64 && |s.memo| < TWO_64
    ensures Decode(Encode(s)) == Some(s)
  {
    var s1 := EMPTY.(script := s.script);
    var s2 := s1.(memo := s.memo);
    var l1 := if s.script != [] then SCRIPT else -1;
    var l2 := if s.memo != [] then MEMO else l1;
    ParseOptional(s.script != [], SCRIPT, s.script, EncodeAfterScript(s), -1, EMPTY, s1);
    ParseOptional(s.memo != [], MEMO, s.memo, EncodeAfterMemo(s), l1, s1, s2);
    ParseAfterMemo(s, s2, l2);
  }

  lemma ParseAfterMemo(s: Snapshot, s2: Snapshot, last: int)
    requires last < CREDIT_ONLY && s2 == s.(creditOnly := false, polls := 0)
    ensures Parse(EncodeAfterMemo(s), last, s2) == Some(s)
  {
    var s3 := s2.(creditOnly := s.creditOnly);
    var polls := Field(s.polls > 0, AWAIT_POLLS, Big(s.polls, 4));
    PowValues();
    BigRoundTrips(s.polls, 4);
    ParseOptional(s.creditOnly, CREDIT_ONLY, [1], polls, last, s2, s3);
    ParseOptional(s.polls > 0, AWAIT_POLLS, Big(s.polls, 4), [], if s.creditOnly then CREDIT_ONLY else last, s3, s);
    assert polls + [] == polls;
  }

  /**
   * The layout of the stream, field by field: type 1 is the script, 2 the memo, 3 the credit-only mark
   * and 5 the poll count in four big-endian bytes, each behind its type and length.
   */
  lemma SnapshotLayout(script: Bytes, memo: Bytes, polls: Uint32)
    requires 0 < |script| < 0xfd && 0 < |memo| < 0xfd && polls > 0
    ensures Encode(Snapshot(script, [], false, 0)) == [1, |script|] + script
    ensures Encode(Snapshot([], memo, false, 0)) == [2, |memo|] + memo
    ensures Encode(Snapshot([], [], true, 0)) == [3, 1, 1]
    ensures Encode(Snapshot([], [], false, polls))
         == [5, 4, polls / 0x100_0000, polls / 0x1_0000 % 256, polls / 0x100 % 256, polls % 256]
    ensures Encode(Snapshot([], [], false, 0)) == []
  {
    FourBig(polls);
    assert Record(SCRIPT, script) == [1, |script|] + script;
    assert Record(MEMO, memo) == [2, |memo|] + memo;
    assert Record(CREDIT_ONLY, [1]) == [3, 1, 1];
    assert Record(AWAIT_POLLS, Big(polls, 4)) == [5, 4] + Big(polls, 4);
  }

  lemma FourBig(v: Uint32)
    ensures Big(v, 4) == [v / 0x100_0000, v / 0x1_0000 % 256, v / 0x100 % 256, v % 256]
  {
    var a, b, c := v / 0x100, v / 0x1_0000, v / 0x100_0000;
    assert b == a / 256 && c == b / 256;
    assert Big(c, 1) == [c % 256] by { assert Big(c / 256, 0) == []; }
    assert Big(b, 2) == Big(c, 1) + [b % 256];
    assert Big(a, 3) == Big(b, 2) + [a % 256];
    assert Big(v, 4) == Big(a, 3) + [v % 256];
  }

  /** A record of any other type is skipped; an empty blob is the empty snapshot. */
  lemma UnknownIsSkipped(t: nat, v: Bytes, rest: Bytes, last: int, s: Snapshot)
    requires last < t < TWO_64 && |v| < TWO_64 && t != 1 && t != 2 && t != 3 && t != 5
    ensures Parse(Record(t, v) + rest, last, s) == Parse(rest, t, s)
    ensures Decode([]) == Some(Snapshot([], [], false, 0))
  {
    ParseRecord(t, v, rest, last, s);
  }

  /** A record out of order, or a fixed-size field of another size, refuses the whole stream. */
  lemma MalformedIsRefused(t: nat, v: Bytes, rest: Bytes, last: int, s: Snapshot)
    requires t < TWO_64 && |v| < TWO_64
    requires t <= last || (t == 3 && |v| != 1) || (t == 5 && |v| != 4)
    ensures Parse(Record(t, v) + rest, last, s).None?
  {
    HeaderOfRecord(t, v, rest);
    assert Record(t, v) + rest != [];
  }

  /** Any flag byte but zero means credit-only. */
  lemma AnyFlagIsRead(flag: Byte, rest: Bytes, last: int, s: Snapshot)
    requires last < 3
    ensures Parse(Record(3, [flag]) + rest, last, s) == Parse(rest, 3, s.(creditOnly := flag != 0))
  {
    ParseRecord(3, [flag], rest, last, s);
  }

  /** A size written in a longer form than it needs is refused, so every size has one form. */
  lemma LongSizeIsRefused(n: nat, rest: Bytes)
    ensures n < 0xfd ==> GetSize([0xfd] + Big(n, 2) + rest).None?
    ensures n < 0x1_0000 ==> GetSize([0xfe] + Big(n, 4) + rest).None?
    ensures n < TWO_32 ==> GetSize([0xff] + Big(n, 8) + rest).None?
  {
    PowValues();
    if n < 0xfd { WideRoundTrips(0xfd, n, 2, 0, rest); }
    if n < 0x1_0000 { WideRoundTrips(0xfe, n, 4, 0, rest); }
    if n < TWO_32 { WideRoundTrips(0xff, n, 8, 0, rest); }
  }

  // ---------------------------------------------------------------- the methods

  method EncodeSnapshot(s: Snapshot) returns (buf: Bytes)
    ensures buf == Encode(s)
  {
    buf := [];
    buf := AppendField(buf, |s.script| > 0, SCRIPT, s.script);
    buf := AppendField(buf, |s.memo| > 0, MEMO, s.memo);
    buf := AppendField(buf, s.creditOnly, CREDIT_ONLY, [1]);
    buf := AppendField(buf, s.polls > 0, AWAIT_POLLS, Big(s.polls, 4));
    Associates(Field(s.script != [], SCRIPT, s.script), Field(s.memo != [], MEMO, s.memo),
               Field(s.creditOnly, CREDIT_ONLY, [1]), Field(s.polls > 0, AWAIT_POLLS, Big(s.polls, 4)));
  }

  method AppendField(buf: Bytes, present: bool, t: nat, v: Bytes) returns (after: Bytes)
    ensures after == buf + Field(present, t, v)
  {
    after := buf;
    if present {
      after := after + Record(t, v);
    }
  }

  lemma Associates(a: Bytes, b: Bytes, c: Bytes, d: Bytes)
    ensures [] + a + b + c + d == a + (b + (c + d))
  {
    assert [] + a == a;
  }

  method DecodeSnapshot(raw: Bytes) returns (r: Option<Snapshot>)
    ensures r == Decode(raw)
  {
    var s, rest := EMPTY, raw;
    var last: int := -1;
    while rest != []
      invariant Decode(raw) == Parse(rest, last, s)
      decreases |rest|
    {
      var h := ReadHeader(rest);
      if h.None? || h.value.t <= last {
        return None;
      }
      var s1 := Absorb(s, h.value.t, rest[h.value.from..h.value.to]);
      if s1.None? {
        return None;
      }
      s, last, rest := s1.value, h.value.t, rest[h.value.to..];
    }
    r := Some(s);
  }
}
