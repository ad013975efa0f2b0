/**
 * Largest-first coin selection, in the 64-bit arithmetic of the source and in
 * exact arithmetic, with what it promises: correct totals, no smaller set that
 * would do, and errors returned exactly when they should be.
 */
module CoinSelect {

  import opened Basics

  datatype Coin = Coin(id: nat, amount: int)

  datatype Request = Request(target: int, minChange: int, sweepAll: bool)

  datatype Error = Shortfall | ChangeBelowMin | NoCandidates | InvalidTarget

  datatype Outcome = Selected(coins: seq<Coin>, total: int, change: int) | Failed(error: Error, total: int)

  /** The two arithmetics the loop is studied in. */
  datatype Arithmetic = Exact | Int64

  function Add(a: Arithmetic, x: int, y: int): int {
    if a.Exact? then x + y else Wrap64(x + y)
  }

  function Sum(cs: seq<Coin>): int {
    if cs == [] then 0 else cs[0].amount + Sum(cs[1..])
  }

  predicate NonNegative(cs: seq<Coin>) { forall i :: 0 <= i < |cs| ==> 0 <= cs[i].amount < TWO_63 }

  predicate Descending(cs: seq<Coin>) { forall i, j :: 0 <= i < j < |cs| ==> cs[i].amount >= cs[j].amount }

  // ---------------------------------------------------------------- the stable sort

  /** Places c before the coins that are no larger. */
  function Insert(c: Coin, s: seq<Coin>): seq<Coin> {
    if s == [] || c.amount >= s[0].amount then [c] + s else [s[0]] + Insert(c, s[1..])
  }

  function Sort(cs: seq<Coin>): seq<Coin> {
    if cs == [] then [] else Insert(cs[0], Sort(cs[1..]))
  }

  /** The coins of one amount, in order. */
  function Of(cs: seq<Coin>, amount: int): seq<Coin> {
    if cs == [] then []
    else if cs[0].amount == amount then [cs[0]] + Of(cs[1..], amount)
    else Of(cs[1..], amount)
  }

  lemma {:induction false} InsertPermutes(c: Coin, s: seq<Coin>)
    ensures multiset(Insert(c, s)) == multiset{c} + multiset(s)
  {
    if s != [] && c.amount < s[0].amount {
      InsertPermutes(c, s[1..]);
      assert s == [s[0]] + s[1..];
    }
  }

  predicate AtMost(s: seq<Coin>, bound: int) { forall i :: 0 <= i < |s| ==> s[i].amount <= bound }

  lemma ConsDescends(c: Coin, s: seq<Coin>)
    requires Descending(s) && AtMost(s, c.amount)
    ensures Descending([c] + s)
  {
  }

  lemma TailDescends(s: seq<Coin>)
    requires Descending(s) && s != []
    ensures Descending(s[1..]) && AtMost(s, s[0].amount) && AtMost(s[1..], s[0].amount)
  {
  }

  lemma {:induction false} InsertDescends(c: Coin, s: seq<Coin>, bound: int)
    requires Descending(s) && c.amount <= bound && AtMost(s, bound)
    ensures Descending(Insert(c, s)) && AtMost(Insert(c, s), bound)
  {
    if s == [] || c.amount >= s[0].amount {
      if s != [] { TailDescends(s); }
      ConsDescends(c, s);
    } else {
      TailDescends(s);
      InsertDescends(c, s[1..], s[0].amount);
      ConsDescends(s[0], Insert(c, s[1..]));
    }
  }

  lemma InsertSorts(c: Coin, s: seq<Coin>)
    requires Descending(s)
    ensures Descending(Insert(c, s)) && multiset(Insert(c, s)) == multiset{c} + multiset(s)
  {
    InsertPermutes(c, s);
    if s != [] { TailDescends(s); }
    InsertDescends(c, s, if s == [] || s[0].amount < c.amount then c.amount else s[0].amount);
  }

  lemma {:induction false} InsertStable(c: Coin, s: seq<Coin>, amount: int)
    ensures Of(Insert(c, s), amount) == if c.amount == amount then [c] + Of(s, amount) else Of(s, amount)
  {
    if s == [] || c.amount >= s[0].amount {
      assert ([c] + s)[1..] == s;
    } else {
      InsertStable(c, s[1..], amount);
      assert ([s[0]] + Insert(c, s[1..]))[1..] == Insert(c, s[1..]);
    }
  }

  /** Sorting yields a descending permutation in which equal amounts keep their order. */
  lemma {:induction false} SortSorts(cs: seq<Coin>)
    ensures Descending(Sort(cs)) && multiset(Sort(cs)) == multiset(cs)
    ensures forall amount :: Of(Sort(cs), amount) == Of(cs, amount)
  {
    if cs != [] {
      SortSorts(cs[1..]);
      InsertSorts(cs[0], Sort(cs[1..]));
      assert cs == [cs[0]] + cs[1..];
      forall amount ensures Of(Sort(cs), amount) == Of(cs, amount) {
        InsertStable(cs[0], Sort(cs[1..]), amount);
      }
    }
  }

  // ---------------------------------------------------------------- the loop

  predicate Enough(r: Request, total: int) {
    total >= r.target && (total == r.target || r.minChange == 0 || total - r.target >= r.minChange)
  }

  /** The accumulation from coin i on; rejected is the total at the first dust rejection. */
  function Pick(a: Arithmetic, s: seq<Coin>, r: Request, i: nat, total: int, rejected: Option<int>): Outcome
    requires i <= |s|
    decreases |s| - i
  {
    if i == |s| then if rejected.Some? then Failed(ChangeBelowMin, rejected.value) else Failed(Shortfall, total)
    else
      var t := Add(a, total, s[i].amount);
      if t < r.target then Pick(a, s, r, i + 1, t, rejected)
      else if Enough(r, t) then Selected(s[..i + 1], t, t - r.target)
      else Pick(a, s, r, i + 1, t, if rejected.Some? then rejected else Some(t))
  }

  function SumIn(a: Arithmetic, cs: seq<Coin>): int {
    if cs == [] then 0 else Add(a, SumIn(a, cs[..|cs| - 1]), cs[|cs| - 1].amount)
  }

  function Select(a: Arithmetic, cs: seq<Coin>, r: Request): Outcome {
    if r.sweepAll then
      if cs == [] then Failed(NoCandidates, 0) else Selected(cs, SumIn(a, cs), 0)
    else if r.target <= 0 then Failed(InvalidTarget, 0)
    else if cs == [] then Failed(NoCandidates, 0)
    else Pick(a, Sort(cs), r, 0, 0, None)
  }

  method SelectAll(cs: seq<Coin>) returns (o: Outcome)
    ensures o == if cs == [] then Failed(NoCandidates, 0) else Selected(cs, SumIn(Int64, cs), 0)
  {
    if |cs| == 0 {
      return Failed(NoCandidates, 0);
    }
    var total := 0;
    assert cs[..|cs|] == cs;
    for i := 0 to |cs|
      invariant total == SumIn(Int64, cs[..i])
    {
      assert cs[..i + 1][..i] == cs[..i];
      total := Wrap64(total + cs[i].amount);
    }
    o := Selected(cs, total, 0);
  }

  method LargestFirst(cs: seq<Coin>, r: Request) returns (o: Outcome)
    ensures o == Select(Int64, cs, r)
  {
    if r.sweepAll {
      o := SelectAll(cs);
      return;
    }
    if r.target <= 0 {
      return Failed(InvalidTarget, 0);
    }
    if |cs| == 0 {
      return Failed(NoCandidates, 0);
    }
    var sorted := Sort(cs);
    var total, rejectedTotal, rejectedForDust := 0, 0, false;
    var selected: seq<Coin> := [];
    assert sorted[..|sorted|] == sorted;
    for i := 0 to |sorted|
      invariant selected == sorted[..i]
      invariant Pick(Int64, sorted, r, 0, 0, None)
             == Pick(Int64, sorted, r, i, total, if rejectedForDust then Some(rejectedTotal) else None)
    {
      selected := selected + [sorted[i]];
      total := Wrap64(total + sorted[i].amount);
      if total < r.target {
        continue;
      }
      var change := total - r.target;
      if change == 0 || r.minChange == 0 || change >= r.minChange {
        return Selected(selected, total, change);
      }
      if !rejectedForDust {
        rejectedTotal, rejectedForDust := total, true;
      }
    }
    o := if rejectedForDust then Failed(ChangeBelowMin, rejectedTotal) else Failed(Shortfall, total);
  }

  // ---------------------------------------------------------------- sums

  lemma {:induction false} SumSnoc(cs: seq<Coin>, c: Coin)
    ensures Sum(cs + [c]) == Sum(cs) + c.amount
  {
    if cs == [] {
      assert (cs + [c])[1..] == [];
    } else {
      SumSnoc(cs[1..], c);
      assert (cs + [c])[1..] == cs[1..] + [c];
    }
  }

  lemma PrefixSum(s: seq<Coin>, i: nat)
    requires i < |s|
    ensures Sum(s[..i + 1]) == Sum(s[..i]) + s[i].amount
  {
    SumSnoc(s[..i], s[i]);
    assert s[..i + 1] == s[..i] + [s[i]];
  }

  lemma {:induction false} PrefixSumsGrow(s: seq<Coin>, i: nat, j: nat)
    requires NonNegative(s) && i <= j <= |s|
    ensures Sum(s[..i]) <= Sum(s[..j])
    decreases j
  {
    if i < j {
      PrefixSumsGrow(s, i, j - 1);
      PrefixSum(s, j - 1);
    }
  }

  lemma {:induction false} SumWithout(cs: seq<Coin>, i: nat)
    requires i < |cs|
    ensures Sum(cs) == cs[i].amount + Sum(cs[..i] + cs[i + 1..])
  {
    if i == 0 {
      assert cs[..0] + cs[1..] == cs[1..];
    } else {
      SumWithout(cs[1..], i - 1);
      assert cs[1..][..i - 1] + cs[1..][i..] == (cs[..i] + cs[i + 1..])[1..];
    }
  }

  lemma MultisetWithout(cs: seq<Coin>, i: nat)
    requires i < |cs|
    ensures multiset(cs) == multiset{cs[i]} + multiset(cs[..i] + cs[i + 1..])
  {
    assert cs == cs[..i] + [cs[i]] + cs[i + 1..];
  }

  lemma MultisetHead(s: seq<Coin>)
    requires s != []
    ensures multiset(s) == multiset{s[0]} + multiset(s[1..])
  {
    assert s == [s[0]] + s[1..];
  }

  lemma CancelOne(x: Coin, a: multiset<Coin>, b: multiset<Coin>)
    requires multiset{x} + a <= multiset{x} + b
    ensures a <= b
  {
    forall y ensures a[y] <= b[y] {
      assert (multiset{x} + a)[y] <= (multiset{x} + b)[y];
    }
  }

  lemma {:induction false} SamePieces(s: seq<Coin>, t: seq<Coin>)
    requires multiset(s) == multiset(t)
    ensures Sum(s) == Sum(t) && |s| == |t|
  {
    if s == [] {
      assert |multiset(t)| == 0;
    } else {
      assert s[0] in multiset(t);
      var i :| 0 <= i < |t| && t[i] == s[0];
      SumWithout(t, i);
      MultisetWithout(t, i);
      MultisetHead(s);
      CancelOne(s[0], multiset(s[1..]), multiset(t[..i] + t[i + 1..]));
      CancelOne(s[0], multiset(t[..i] + t[i + 1..]), multiset(s[1..]));
      SamePieces(s[1..], t[..i] + t[i + 1..]);
    }
  }

  lemma {:induction false} ShiftLowers(s: seq<Coin>, m: nat)
    requires Descending(s) && m < |s|
    ensures Sum(s[1..][..m]) <= Sum(s[..m])
  {
    if m > 0 {
      PrefixSum(s[1..], m - 1);
      assert s[..m] == [s[0]] + s[1..][..m - 1];
      assert s[..m][1..] == s[1..][..m - 1];
    }
  }

  /** No m of the coins are worth more than the m largest. */
  lemma {:induction false} LargestDominate(s: seq<Coin>, sub: seq<Coin>)
    requires Descending(s) && multiset(sub) <= multiset(s)
    ensures |sub| <= |s| && Sum(sub) <= Sum(s[..|sub|])
    decreases |s|
  {
    if s == [] {
      assert |multiset(sub)| == 0;
    } else {
      MultisetHead(s);
      TailDescends(s);
      if s[0] in sub {
        var i :| 0 <= i < |sub| && sub[i] == s[0];
        SumWithout(sub, i);
        MultisetWithout(sub, i);
        var rest := sub[..i] + sub[i + 1..];
        CancelOne(s[0], multiset(rest), multiset(s[1..]));
        LargestDominate(s[1..], rest);
        assert s[..|sub|][1..] == s[1..][..|rest|];
      } else {
        NotTheHead(s[0], sub, multiset(s[1..]));
        LargestDominate(s[1..], sub);
        ShiftLowers(s, |sub|);
      }
    }
  }

  lemma NotTheHead(x: Coin, sub: seq<Coin>, b: multiset<Coin>)
    requires x !in sub && multiset(sub) <= multiset{x} + b
    ensures multiset(sub) <= b
  {
    forall y ensures multiset(sub)[y] <= b[y] {
      assert multiset(sub)[y] <= (multiset{x} + b)[y];
      if y == x { assert x !in multiset(sub); }
    }
  }

  // ---------------------------------------------------------------- what the loop decides, in exact arithmetic

  /** The worth of the first i coins. */
  function Prefix(s: seq<Coin>, i: nat): int
    requires i <= |s|
  {
    Sum(s[..i])
  }

  /** Where the exact loop stops: the first prefix that is enough. */
  predicate StopsAt(s: seq<Coin>, r: Request, n: nat) {
    && 0 < n <= |s| && Enough(r, Prefix(s, n))
    && forall i: nat :: 0 < i < n ==> !Enough(r, Prefix(s, i))
  }

  predicate NeverEnough(s: seq<Coin>, r: Request) { forall i: nat :: 0 < i <= |s| ==> !Enough(r, Prefix(s, i)) }

  /** The first prefix that covers the target. */
  predicate FirstCovers(s: seq<Coin>, r: Request, n: nat) {
    && 0 < n <= |s| && Prefix(s, n) >= r.target
    && forall i: nat :: 0 < i < n ==> Prefix(s, i) < r.target
  }

  /** What Pick has gathered by coin i. */
  ghost predicate Gathered(s: seq<Coin>, r: Request, i: nat, total: int, rejected: Option<int>) {
    && i <= |s| && total == Prefix(s, i)
    && (forall j: nat :: 0 < j <= i ==> !Enough(r, Prefix(s, j)))
    && (rejected.None? ==> forall j: nat :: 0 < j <= i ==> Prefix(s, j) < r.target)
    && (rejected.Some? ==> exists n: nat :: n <= i && FirstCovers(s, r, n) && rejected.value == Prefix(s, n))
  }

  /** What an outcome of the exact loop says about the prefixes. */
  ghost predicate Explains(s: seq<Coin>, r: Request, o: Outcome) {
    match o
    case Selected(coins, t, change) =>
      StopsAt(s, r, |coins|) && coins == s[..|coins|] && t == Prefix(s, |coins|) && change == t - r.target
    case Failed(e, t) =>
      && NeverEnough(s, r)
      && (e == Shortfall || e == ChangeBelowMin)
      && (e == Shortfall ==> t == Prefix(s, |s|) && forall j: nat :: 0 < j <= |s| ==> Prefix(s, j) < r.target)
      && (e == ChangeBelowMin ==> exists n: nat :: FirstCovers(s, r, n) && t == Prefix(s, n))
  }

  lemma GatherOne(s: seq<Coin>, r: Request, i: nat, total: int, rejected: Option<int>)
    requires Gathered(s, r, i, total, rejected) && i < |s|
    ensures var t := total + s[i].amount;
            && t == Prefix(s, i + 1)
            && (t < r.target ==> Gathered(s, r, i + 1, t, rejected))
            && (t >= r.target && !Enough(r, t) ==>
                  Gathered(s, r, i + 1, t, if rejected.Some? then rejected else Some(t)))
            && (t >= r.target && Enough(r, t) ==> Explains(s, r, Selected(s[..i + 1], t, t - r.target)))
  {
    PrefixSum(s, i);
    var t := total + s[i].amount;
    if rejected.Some? {
      var n: nat :| n <= i && FirstCovers(s, r, n) && rejected.value == Prefix(s, n);
    } else if t >= r.target {
      assert FirstCovers(s, r, i + 1);
    }
  }

  lemma {:induction false} PickStops(s: seq<Coin>, r: Request, i: nat, total: int, rejected: Option<int>)
    requires Gathered(s, r, i, total, rejected)
    ensures Explains(s, r, Pick(Exact, s, r, i, total, rejected))
    decreases |s| - i
  {
    if i < |s| {
      GatherOne(s, r, i, total, rejected);
      var t := total + s[i].amount;
      if t < r.target {
        PickStops(s, r, i + 1, t, rejected);
      } else if !Enough(r, t) {
        PickStops(s, r, i + 1, t, if rejected.Some? then rejected else Some(t));
      }
    }
  }

  // ---------------------------------------------------------------- main results

  function Floor(r: Request): int { if r.minChange > 0 then r.minChange else 0 }

  predicate Bounded(cs: seq<Coin>, r: Request) { !r.sweepAll && r.target > 0 && cs != [] }

  lemma SortKeeps(cs: seq<Coin>)
    requires NonNegative(cs)
    ensures NonNegative(Sort(cs)) && |Sort(cs)| == |cs| && Sum(Sort(cs)) == Sum(cs)
  {
    SortSorts(cs);
    SamePieces(Sort(cs), cs);
    forall i | 0 <= i < |cs|
      ensures 0 <= Sort(cs)[i].amount < TWO_63
    {
      assert Sort(cs)[i] in multiset(cs);
    }
  }

  lemma PickFromStart(cs: seq<Coin>, r: Request)
    requires Bounded(cs, r)
    ensures Gathered(Sort(cs), r, 0, 0, None)
  {
    assert Sort(cs)[..0] == [];
  }

  /** No set smaller than the stopping prefix is enough. */
  lemma SmallerSetsFail(s: seq<Coin>, r: Request, n: nat, sub: seq<Coin>)
    requires Descending(s) && StopsAt(s, r, n) && r.target > 0
    requires multiset(sub) <= multiset(s) && |sub| < n
    ensures Sum(sub) < r.target + Floor(r)
  {
    LargestDominate(s, sub);
    if |sub| == 0 {
      assert s[..0] == [];
    } else {
      assert !Enough(r, Prefix(s, |sub|));
    }
  }

  lemma PrefixIsSubset(s: seq<Coin>, n: nat)
    requires n <= |s|
    ensures multiset(s[..n]) <= multiset(s)
  {
    assert s == s[..n] + s[n..];
  }

  /**
   * A selection covers the target with a correct total and change, from coins
   * that are candidates; and no smaller set of candidates covers the target
   * with change at or above the floor, or at all when there is no floor.
   */
  lemma SelectionIsMinimal(cs: seq<Coin>, r: Request, sub: seq<Coin>)
    requires Bounded(cs, r) && NonNegative(cs) && Select(Exact, cs, r).Selected?
    ensures var o := Select(Exact, cs, r);
            && o.total == Sum(o.coins) && o.total == r.target + o.change && Enough(r, o.total)
            && multiset(o.coins) <= multiset(cs) && Descending(o.coins)
            && (multiset(sub) <= multiset(cs) && |sub| < |o.coins| ==> Sum(sub) < r.target + Floor(r))
  {
    var s, o := Sort(cs), Select(Exact, cs, r);
    SortSorts(cs);
    PickFromStart(cs, r);
    PickStops(s, r, 0, 0, None);
    PrefixIsSubset(s, |o.coins|);
    if multiset(sub) <= multiset(cs) && |sub| < |o.coins| {
      SmallerSetsFail(s, r, |o.coins|, sub);
    }
  }

  /** A shortfall is reported exactly when all candidates together miss the target; the total is their sum. */
  lemma ShortfallExactly(cs: seq<Coin>, r: Request)
    requires Bounded(cs, r) && NonNegative(cs)
    ensures var o := Select(Exact, cs, r);
            && (o.Failed? && o.error == Shortfall <==> Sum(cs) < r.target)
            && (o.Failed? && o.error == Shortfall ==> o.total == Sum(cs))
  {
    var s := Sort(cs);
    SortKeeps(cs);
    PickFromStart(cs, r);
    PickStops(s, r, 0, 0, None);
    assert s[..|s|] == s;
    forall j: nat | 0 < j <= |s| ensures Prefix(s, j) <= Sum(s) { PrefixSumsGrow(s, j, |s|); }
  }

  /**
   * Selection fails on the change floor exactly when the candidates cover the
   * target, even all of them leave less than the floor, and no largest-first
   * prefix fits exactly; then no set of candidates at all clears the floor.
   */
  lemma ChangeBelowMinExactly(cs: seq<Coin>, r: Request, sub: seq<Coin>)
    requires Bounded(cs, r) && NonNegative(cs)
    ensures var o, s := Select(Exact, cs, r), Sort(cs);
            && (o.Failed? && o.error == ChangeBelowMin <==>
                && r.target <= Sum(cs) < r.target + Floor(r)
                && forall i: nat :: 0 < i <= |s| ==> Prefix(s, i) != r.target)
            && (o.Failed? && o.error == ChangeBelowMin && multiset(sub) <= multiset(cs) ==>
                  Sum(sub) < r.target + r.minChange)
            && (o.Failed? && o.error == ChangeBelowMin ==>
                  exists n: nat :: FirstCovers(s, r, n) && o.total == Prefix(s, n))
  {
    var s, o := Sort(cs), Select(Exact, cs, r);
    SortSorts(cs);
    SortKeeps(cs);
    PickFromStart(cs, r);
    PickStops(s, r, 0, 0, None);
    ShortfallExactly(cs, r);
    assert s[..|s|] == s;
    forall j: nat | 0 < j <= |s| ensures Prefix(s, j) <= Sum(s) { PrefixSumsGrow(s, j, |s|); }
    if o.Failed? && o.error == ChangeBelowMin {
      assert !Enough(r, Prefix(s, |s|));
      if multiset(sub) <= multiset(cs) {
        LargestDominate(s, sub);
        PrefixSumsGrow(s, |sub|, |s|);
      }
    }
  }
}
