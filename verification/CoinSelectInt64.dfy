/**
 * When the 64-bit loop is the exact one: on non-negative amounts the two give
 * the same outcome exactly when the total that should be reported fits 64 bits.
 */
module CoinSelectInt64 {

  import opened Basics
  import opened CoinSelect

  predicate Fits(x: int) { -TWO_63 <= x < TWO_63 }

  predicate RequestFits(r: Request) { Fits(r.target) && Fits(r.minChange) }

  lemma WrapFits(x: int)
    ensures Fits(Wrap64(x))
    ensures Fits(x) ==> Wrap64(x) == x
    ensures TWO_63 <= x < 3 * TWO_63 ==> Wrap64(x) == x - 2 * TWO_63
  {
    if Fits(x) {
      assert (x + TWO_63) % (2 * TWO_63) == x + TWO_63;
    } else if TWO_63 <= x < 3 * TWO_63 {
      assert (x + TWO_63) % (2 * TWO_63) == x + TWO_63 - 2 * TWO_63;
    }
  }

  lemma {:induction false} Int64Totals(s: seq<Coin>, r: Request, i: nat, total: int, rejected: Option<int>)
    requires i <= |s| && Fits(total) && (rejected.Some? ==> Fits(rejected.value))
    ensures Fits(Pick(Int64, s, r, i, total, rejected).total)
    decreases |s| - i
  {
    if i < |s| {
      var t := Add(Int64, total, s[i].amount);
      WrapFits(total + s[i].amount);
      Int64Totals(s, r, i + 1, t, rejected);
      Int64Totals(s, r, i + 1, t, if rejected.Some? then rejected else Some(t));
    }
  }

  lemma {:induction false} ExactStaysBig(s: seq<Coin>, r: Request, i: nat, total: int, rejected: int)
    requires i <= |s| && NonNegative(s) && total >= TWO_63 && rejected >= TWO_63
    ensures Pick(Exact, s, r, i, total, Some(rejected)).total >= TWO_63
    decreases |s| - i
  {
    if i < |s| {
      ExactStaysBig(s, r, i + 1, total + s[i].amount, rejected);
    }
  }

  /** Past the overflow the 64-bit total is negative, so only a recorded dust rejection can agree. */
  lemma {:induction false} AfterOverflow(s: seq<Coin>, r: Request, i: nat, total: int, rejected: int)
    requires i <= |s| && NonNegative(s) && RequestFits(r) && r.target > 0
    requires TWO_63 <= total < 2 * TWO_63 && Fits(rejected)
    ensures Pick(Int64, s, r, i, total - 2 * TWO_63, Some(rejected)) == Pick(Exact, s, r, i, total, Some(rejected))
            <==> Pick(Exact, s, r, i, total, Some(rejected)).total < TWO_63
    decreases |s| - i
  {
    Int64Totals(s, r, i, total - 2 * TWO_63, Some(rejected));
    if i < |s| {
      var t := total + s[i].amount;
      if !Enough(r, t) {
        WrapFits(t - 2 * TWO_63);
        AfterOverflow(s, r, i + 1, t, rejected);
      }
    }
  }

  lemma {:induction false} PickAgrees(s: seq<Coin>, r: Request, i: nat, total: int, rejected: Option<int>)
    requires i <= |s| && NonNegative(s) && RequestFits(r) && r.target > 0
    requires 0 <= total < TWO_63 && (rejected.Some? ==> Fits(rejected.value))
    ensures Pick(Int64, s, r, i, total, rejected) == Pick(Exact, s, r, i, total, rejected)
            <==> Pick(Exact, s, r, i, total, rejected).total < TWO_63
    decreases |s| - i
  {
    Int64Totals(s, r, i, total, rejected);
    if i < |s| {
      var t := total + s[i].amount;
      WrapFits(t);
      if t < TWO_63 {
        if t < r.target {
          PickAgrees(s, r, i + 1, t, rejected);
        } else if !Enough(r, t) {
          PickAgrees(s, r, i + 1, t, if rejected.Some? then rejected else Some(t));
        }
      } else if !Enough(r, t) {
        if rejected.Some? {
          AfterOverflow(s, r, i + 1, t, rejected.value);
        } else {
          ExactStaysBig(s, r, i + 1, t, t);
        }
      }
    }
  }

  lemma {:induction false} SweepTotals(cs: seq<Coin>)
    requires NonNegative(cs)
    ensures SumIn(Exact, cs) == Sum(cs) >= 0
    ensures SumIn(Int64, cs) == SumIn(Exact, cs) <==> Sum(cs) < TWO_63
    ensures Fits(SumIn(Int64, cs))
  {
    if cs != [] {
      var init, c := cs[..|cs| - 1], cs[|cs| - 1];
      SweepTotals(init);
      SumSnoc(init, c);
      assert cs == init + [c];
      WrapFits(SumIn(Int64, init) + c.amount);
    }
  }

  /** The totals a bounded selection may report fit: where it stops, or where it first covers and never stops. */
  ghost predicate TotalsFit(s: seq<Coin>, r: Request) {
    forall n: nat :: StopsAt(s, r, n) || (NeverEnough(s, r) && FirstCovers(s, r, n)) ==> Prefix(s, n) < TWO_63
  }

  /** What the exact selection reports fits exactly when the largest-first prefix it ends on does. */
  lemma ReportedFits(s: seq<Coin>, r: Request, o: Outcome)
    requires RequestFits(r) && |s| > 0 && Explains(s, r, o)
    ensures o.total < TWO_63 <==> TotalsFit(s, r)
  {
    match o
    case Selected(coins, total, change) => OneStop(s, r, |coins|);
    case Failed(e, total) =>
      if e == ChangeBelowMin {
        var n: nat :| FirstCovers(s, r, n) && total == Prefix(s, n);
        forall m: nat | FirstCovers(s, r, m) ensures m == n { }
      } else {
        assert Prefix(s, |s|) < r.target;
      }
  }

  lemma OneStop(s: seq<Coin>, r: Request, n: nat)
    requires StopsAt(s, r, n)
    ensures TotalsFit(s, r) <==> Prefix(s, n) < TWO_63
  {
    forall m: nat | StopsAt(s, r, m) ensures m == n { }
  }

  /**
   * On non-negative amounts the source's 64-bit selection is the exact one, and so has every
   * property of it, exactly when a sum over the candidates fits 64 bits: for a sweep all of
   * them, for a bounded request the largest-first prefix it ends on.
   */
  lemma Int64IsExactWhenTotalFits(cs: seq<Coin>, r: Request)
    requires NonNegative(cs) && RequestFits(r)
    ensures r.sweepAll ==> (Select(Int64, cs, r) == Select(Exact, cs, r) <==> Sum(cs) < TWO_63)
    ensures Bounded(cs, r) ==> (Select(Int64, cs, r) == Select(Exact, cs, r) <==> TotalsFit(Sort(cs), r))
    ensures !r.sweepAll && !Bounded(cs, r) ==> Select(Int64, cs, r) == Select(Exact, cs, r)
    ensures Sum(cs) < TWO_63 ==> Select(Int64, cs, r) == Select(Exact, cs, r)
  {
    SweepTotals(cs);
    if Bounded(cs, r) {
      var s := Sort(cs);
      SortKeeps(cs);
      PickAgrees(s, r, 0, 0, None);
      PickFromStart(cs, r);
      PickStops(s, r, 0, 0, None);
      TotalsAtMostSum(s, r, Select(Exact, cs, r));
      ReportedFits(s, r, Select(Exact, cs, r));
    }
  }

  lemma TotalsAtMostSum(s: seq<Coin>, r: Request, o: Outcome)
    requires NonNegative(s) && Explains(s, r, o)
    ensures o.total <= Sum(s)
  {
    assert s[..|s|] == s;
    if o.Selected? {
      PrefixSumsGrow(s, |o.coins|, |s|);
    } else if o.error == ChangeBelowMin {
      var n: nat :| FirstCovers(s, r, n) && o.total == Prefix(s, n);
      PrefixSumsGrow(s, n, |s|);
    }
  }

  /** Two coins of 2^62 cover a target of 2^63 - 1, yet the 64-bit loop reports a shortfall. */
  lemma OverflowReportsShortfall()
    ensures var cs, r := [Coin(0, TWO_63 / 2), Coin(1, TWO_63 / 2)], Request(TWO_63 - 1, 0, false);
            && NonNegative(cs) && RequestFits(r) && Sum(cs) >= r.target
            && Select(Exact, cs, r).Selected?
            && Select(Int64, cs, r) == Failed(Shortfall, -TWO_63)
  {
    var c, d := Coin(0, TWO_63 / 2), Coin(1, TWO_63 / 2);
    var cs, r := [c, d], Request(TWO_63 - 1, 0, false);
    assert cs[1..] == [d] && [d][1..] == [];
    assert Sum([d]) == d.amount;
    assert Sort([d]) == [d];
    assert Sort(cs) == cs;
    WrapFits(TWO_63 / 2);
    WrapFits(TWO_63);
    assert Pick(Int64, cs, r, 2, -TWO_63, None) == Failed(Shortfall, -TWO_63);
    assert Pick(Int64, cs, r, 1, TWO_63 / 2, None) == Failed(Shortfall, -TWO_63);
    assert Pick(Exact, cs, r, 1, TWO_63 / 2, None).Selected?;
  }
}
