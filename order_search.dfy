/**
 * The SARIMA order search shared by `train_sarima_model` and `train_model`:
 * the (p,d,q) and seasonal (P,D,Q,12) candidate grids, the order in which
 * the 64 combinations are tried, and the best-so-far selection that keeps
 * the first combination with strictly lowest AIC, skipping fits that raise.
 *
 * Fitting a model is an oracle `fit(y, order, seasonal)` that yields the
 * AIC of the fitted model, or None when the fit raises.
 */
module OrderSearch {
  import opened Wrappers

  /** A non-seasonal SARIMAX order (p, d, q). */
  datatype Order = Order(p: nat, d: nat, q: nat)

  /** A seasonal SARIMAX order (P, D, Q, s). */
  datatype SeasonalOrder = SeasonalOrder(p: nat, d: nat, q: nat, period: nat)

  /** One (order, seasonal order) pair the search tries. */
  type Candidate = (Order, SeasonalOrder)

  /** The best pair found so far together with its AIC. */
  datatype Choice = Choice(order: Order, seasonal: SeasonalOrder, aic: real)

  /** Python's `range(lo, hi)`. */
  function Range(lo: nat, hi: nat): (r: seq<nat>)
    ensures |r| == if lo <= hi then hi - lo else 0
    ensures forall k :: 0 <= k < |r| ==> r[k] == lo + k
    decreases hi - lo
  {
    if lo < hi then [lo] + Range(lo + 1, hi) else []
  }

  /** The part of `itertools.product(a, b, c)` whose first component is `x`. */
  function ProductWith(x: nat, b: seq<nat>, c: seq<nat>): seq<Order>
  {
    if b == [] then []
    else seq(|c|, k requires 0 <= k < |c| => Order(x, b[0], c[k])) + ProductWith(x, b[1..], c)
  }

  /** `list(itertools.product(a, b, c))`: the rightmost component varies fastest. */
  function Product(a: seq<nat>, b: seq<nat>, c: seq<nat>): seq<Order>
  {
    if a == [] then [] else ProductWith(a[0], b, c) + Product(a[1..], b, c)
  }

  /** `pdq`: every triple over `range(0, 2)`. */
  function Pdq(): seq<Order>
  {
    Product(Range(0, 2), Range(0, 2), Range(0, 2))
  }

  /** `seasonal_pdq`: each triple of `pdq` with the period 12 appended. */
  function SeasonalPdq(): seq<SeasonalOrder>
  {
    var pdq := Pdq();
    seq(|pdq|, k requires 0 <= k < |pdq| => SeasonalOrder(pdq[k].p, pdq[k].d, pdq[k].q, 12))
  }

  /** The pairs tried while `param` is fixed, in the inner loop's order. */
  function Pairs(param: Order, seasonal: seq<SeasonalOrder>): (r: seq<Candidate>)
    ensures |r| == |seasonal|
    ensures forall k :: 0 <= k < |r| ==> r[k] == (param, seasonal[k])
  {
    seq(|seasonal|, k requires 0 <= k < |seasonal| => (param, seasonal[k]))
  }

  /** Every pair in the order the nested loop visits them: `pdq` outside, `seasonal` inside. */
  function Candidates(pdq: seq<Order>, seasonal: seq<SeasonalOrder>): seq<Candidate>
  {
    if pdq == [] then [] else Candidates(pdq[..|pdq| - 1], seasonal) + Pairs(pdq[|pdq| - 1], seasonal)
  }

  /** The 64 pairs of the search, in visiting order. */
  function Grid(): seq<Candidate>
  {
    Candidates(Pdq(), SeasonalPdq())
  }

  /** True when `s < t` in lexicographic (tuple) order. */
  predicate LexLess(s: Order, t: Order)
  {
    s.p < t.p || (s.p == t.p && (s.d < t.d || (s.d == t.d && s.q < t.q)))
  }

  predicate StrictlyIncreasing(s: seq<nat>)
  {
    forall i, j :: 0 <= i < j < |s| ==> s[i] < s[j]
  }

  predicate LexSorted(s: seq<Order>)
  {
    forall i, j :: 0 <= i < j < |s| ==> LexLess(s[i], s[j])
  }

  lemma {:induction false} ProductWithLength(x: nat, b: seq<nat>, c: seq<nat>)
    ensures |ProductWith(x, b, c)| == |b| * |c|
  {
    if b != [] {
      ProductWithLength(x, b[1..], c);
      MulSucc(|b| - 1, |c|);
    }
  }

  /** `(n + 1) * m == n * m + m`: the inductive step of the product-length lemmas. */
  lemma MulSucc(n: nat, m: nat)
    ensures (n + 1) * m == n * m + m
  {
  }

  lemma {:induction false} ProductWithMembers(x: nat, b: seq<nat>, c: seq<nat>, o: Order)
    ensures o in ProductWith(x, b, c) <==> o.p == x && o.d in b && o.q in c
    ensures |ProductWith(x, b, c)| == |b| * |c|
  {
    ProductWithLength(x, b, c);
    if b != [] {
      ProductWithMembers(x, b[1..], c, o);
      var row := seq(|c|, k requires 0 <= k < |c| => Order(x, b[0], c[k]));
      assert o in row <==> o.p == x && o.d == b[0] && o.q in c by {
        if o.p == x && o.d == b[0] && o.q in c {
          var k :| 0 <= k < |c| && c[k] == o.q;
          assert row[k] == o;
        }
      }
      assert o.d in b <==> o.d == b[0] || o.d in b[1..] by {
        assert b == [b[0]] + b[1..];
      }
    }
  }

  /** `itertools.product(a, b, c)` holds exactly the triples whose components come from `a`, `b`, `c`. */
  lemma {:induction false} ProductMembers(a: seq<nat>, b: seq<nat>, c: seq<nat>, o: Order)
    ensures o in Product(a, b, c) <==> o.p in a && o.d in b && o.q in c
    ensures |Product(a, b, c)| == |a| * |b| * |c|
  {
    ProductLength(a, b, c, |b| * |c|);
    if a != [] {
      ProductMembers(a[1..], b, c, o);
      ProductWithMembers(a[0], b, c, o);
      assert o.p in a <==> o.p == a[0] || o.p in a[1..] by {
        assert a == [a[0]] + a[1..];
      }
    }
  }

  lemma {:induction false} ProductLength(a: seq<nat>, b: seq<nat>, c: seq<nat>, m: nat)
    requires m == |b| * |c|
    ensures |Product(a, b, c)| == |a| * m
    ensures |a| * m == |a| * |b| * |c|
  {
    if a != [] {
      ProductLength(a[1..], b, c, m);
      ProductWithLength(a[0], b, c);
      MulSucc(|a| - 1, m);
    }
  }

  lemma {:induction false} ProductWithSorted(x: nat, b: seq<nat>, c: seq<nat>)
    requires StrictlyIncreasing(b) && StrictlyIncreasing(c)
    ensures LexSorted(ProductWith(x, b, c))
  {
    if b != [] {
      var row := seq(|c|, k requires 0 <= k < |c| => Order(x, b[0], c[k]));
      var rest := ProductWith(x, b[1..], c);
      ProductWithSorted(x, b[1..], c);
      forall j | 0 <= j < |rest|
        ensures rest[j].p == x && b[0] < rest[j].d
      {
        ProductWithMembers(x, b[1..], c, rest[j]);
        var i :| 0 <= i < |b[1..]| && b[1..][i] == rest[j].d;
        assert b[0] < b[i + 1];
      }
      var s := row + rest;
      forall i, j | 0 <= i < j < |s|
        ensures LexLess(s[i], s[j])
      {
        if j < |row| {
        } else if i >= |row| {
          assert s[i] == rest[i - |row|] && s[j] == rest[j - |row|];
        } else {
          assert s[j] == rest[j - |row|];
        }
      }
    }
  }

  /** With strictly increasing ranges the product lists its triples in strictly increasing lexicographic order. */
  lemma {:induction false} ProductSorted(a: seq<nat>, b: seq<nat>, c: seq<nat>)
    requires StrictlyIncreasing(a) && StrictlyIncreasing(b) && StrictlyIncreasing(c)
    ensures LexSorted(Product(a, b, c))
  {
    if a != [] {
      var first := ProductWith(a[0], b, c);
      var rest := Product(a[1..], b, c);
      ProductWithSorted(a[0], b, c);
      ProductSorted(a[1..], b, c);
      forall j | 0 <= j < |rest|
        ensures a[0] < rest[j].p
      {
        ProductMembers(a[1..], b, c, rest[j]);
        var i :| 0 <= i < |a[1..]| && a[1..][i] == rest[j].p;
        assert a[0] < a[i + 1];
      }
      forall i | 0 <= i < |first|
        ensures first[i].p == a[0]
      {
        ProductWithMembers(a[0], b, c, first[i]);
      }
      var s := first + rest;
      forall i, j | 0 <= i < j < |s|
        ensures LexLess(s[i], s[j])
      {
        if j < |first| {
        } else if i >= |first| {
          assert s[i] == rest[i - |first|] && s[j] == rest[j - |first|];
        } else {
          assert s[i] == first[i] && s[j] == rest[j - |first|];
        }
      }
    }
  }

  /** `pdq` is exactly the 8 triples of {0,1}^3, in lexicographic order. */
  lemma PdqIsBinaryTriples()
    ensures |Pdq()| == 8
    ensures LexSorted(Pdq())
    ensures forall o :: o in Pdq() <==> o.p <= 1 && o.d <= 1 && o.q <= 1
  {
    var r := Range(0, 2);
    assert r == [0, 1];
    assert StrictlyIncreasing(r);
    ProductSorted(r, r, r);
    forall o ensures o in Pdq() <==> o.p <= 1 && o.d <= 1 && o.q <= 1 {
      ProductMembers(r, r, r, o);
    }
    ProductMembers(r, r, r, Order(0, 0, 0));
  }

  /** `seasonal_pdq` is `pdq` with period 12 appended to each triple, in the same order. */
  lemma SeasonalPdqFollowsPdq()
    ensures |SeasonalPdq()| == 8
    ensures forall k :: 0 <= k < 8 ==>
      SeasonalPdq()[k] == SeasonalOrder(Pdq()[k].p, Pdq()[k].d, Pdq()[k].q, 12)
  {
    PdqIsBinaryTriples();
  }

  lemma {:induction false} CandidatesLength(pdq: seq<Order>, seasonal: seq<SeasonalOrder>)
    ensures |Candidates(pdq, seasonal)| == |pdq| * |seasonal|
  {
    if pdq != [] {
      CandidatesLength(pdq[..|pdq| - 1], seasonal);
      assert |pdq| * |seasonal| == (|pdq| - 1) * |seasonal| + |seasonal|;
    }
  }

  /** The pair at position `i * |seasonal| + j` of the visiting order is `(pdq[i], seasonal[j])`. */
  lemma {:induction false} CandidateAt(pdq: seq<Order>, seasonal: seq<SeasonalOrder>, i: nat, j: nat)
    requires i < |pdq| && j < |seasonal|
    ensures |Candidates(pdq, seasonal)| == |pdq| * |seasonal|
    ensures i * |seasonal| + j < |Candidates(pdq, seasonal)|
    ensures Candidates(pdq, seasonal)[i * |seasonal| + j] == (pdq[i], seasonal[j])
  {
    var n := |pdq| - 1;
    var m := |seasonal|;
    var front := pdq[..n];
    var back := Pairs(pdq[n], seasonal);
    CandidatesLength(pdq, seasonal);
    CandidatesLength(front, seasonal);
    assert Candidates(pdq, seasonal) == Candidates(front, seasonal) + back;
    RowBound(i, j, n + 1, m);
    if i < n {
      CandidateAt(front, seasonal, i, j);
      RowBound(i, j, n, m);
    } else {
      assert back[j] == (pdq[i], seasonal[j]);
    }
  }

  /** Position `i * m + j` lies in row `i` of a table with `n` rows of `m` columns. */
  lemma RowBound(i: nat, j: nat, n: nat, m: nat)
    requires i < n && j < m
    ensures i * m + j < n * m
  {
    assert (i + 1) * m == i * m + m;
    MulMonotone(i + 1, n, m);
  }

  lemma {:induction false} MulMonotone(a: nat, b: nat, m: nat)
    requires a <= b
    ensures a * m <= b * m
  {
    if a < b {
      MulMonotone(a, b - 1, m);
      assert b * m == (b - 1) * m + m;
    }
  }

  /** The search visits all 64 combinations: `pdq` in the outer loop, `seasonal_pdq` in the inner one. */
  lemma GridVisitsAll(i: nat, j: nat)
    requires i < 8 && j < 8
    ensures |Grid()| == 64
    ensures Grid()[8 * i + j] == (Pdq()[i], SeasonalPdq()[j])
  {
    var pdq := Pdq();
    var seasonal := SeasonalPdq();
    PdqIsBinaryTriples();
    SeasonalPdqFollowsPdq();
    assert |pdq| == 8 && |seasonal| == 8;
    CandidateAt(pdq, seasonal, i, j);
    assert i * |seasonal| + j == 8 * i + j;
  }

  /** The AIC the oracle reports for the `k`th candidate, or None when that fit raises. */
  function AicAt<Y>(cands: seq<Candidate>, y: Y, fit: (Y, Order, SeasonalOrder) -> Option<real>, k: nat): Option<real>
    requires k < |cands|
  {
    fit(y, cands[k].0, cands[k].1)
  }

  /**
   * One step of the loop body: a successful fit replaces the best so far
   * when its AIC is strictly lower. `None` stands for `best_aic = inf`.
   */
  function Improve(best: Option<Choice>, c: Candidate, aic: Option<real>): Option<Choice>
  {
    match aic
    case None => best
    case Some(a) => if best.None? || a < best.value.aic then Some(Choice(c.0, c.1, a)) else best
  }

  /** The best-so-far value after the loop has visited every candidate of `cands`. */
  function Select<Y>(cands: seq<Candidate>, y: Y, fit: (Y, Order, SeasonalOrder) -> Option<real>): Option<Choice>
  {
    if cands == [] then None
    else
      var last := cands[|cands| - 1];
      Improve(Select(cands[..|cands| - 1], y, fit), last, fit(y, last.0, last.1))
  }

  /**
   * Candidate `k` fitted, its AIC is no greater than that of any successful
   * fit, and strictly lower than that of every successful fit before it.
   */
  predicate IsFirstMinimum<Y>(cands: seq<Candidate>, y: Y, fit: (Y, Order, SeasonalOrder) -> Option<real>, k: nat)
  {
    && k < |cands|
    && AicAt(cands, y, fit, k).Some?
    && (forall m :: 0 <= m < |cands| && AicAt(cands, y, fit, m).Some? ==>
          AicAt(cands, y, fit, k).value <= AicAt(cands, y, fit, m).value)
    && (forall m :: 0 <= m < k && AicAt(cands, y, fit, m).Some? ==>
          AicAt(cands, y, fit, k).value < AicAt(cands, y, fit, m).value)
  }

  function ChoiceAt<Y>(cands: seq<Candidate>, y: Y, fit: (Y, Order, SeasonalOrder) -> Option<real>, k: nat): Choice
    requires k < |cands| && AicAt(cands, y, fit, k).Some?
  {
    Choice(cands[k].0, cands[k].1, AicAt(cands, y, fit, k).value)
  }

  lemma AicAtPrefix<Y>(cands: seq<Candidate>, y: Y, fit: (Y, Order, SeasonalOrder) -> Option<real>, n: nat, m: nat)
    requires m < n <= |cands|
    ensures AicAt(cands[..n], y, fit, m) == AicAt(cands, y, fit, m)
  {
  }

  /** The search ends with nothing selected exactly when every fit raised. */
  lemma {:induction false} SelectNoneIffAllFail<Y>(cands: seq<Candidate>, y: Y, fit: (Y, Order, SeasonalOrder) -> Option<real>)
    ensures Select(cands, y, fit).None? <==> forall k :: 0 <= k < |cands| ==> AicAt(cands, y, fit, k).None?
  {
    if cands != [] {
      var n := |cands| - 1;
      SelectNoneIffAllFail(cands[..n], y, fit);
      forall m | 0 <= m < n {
        AicAtPrefix(cands, y, fit, n, m);
      }
      assert Select(cands, y, fit) == Improve(Select(cands[..n], y, fit), cands[n], AicAt(cands, y, fit, n));
    }
  }

  /** Whatever the search selects is the first candidate with the minimum AIC. */
  lemma {:induction false} SelectedIsFirstMinimum<Y>(cands: seq<Candidate>, y: Y, fit: (Y, Order, SeasonalOrder) -> Option<real>)
    returns (k: nat)
    requires Select(cands, y, fit).Some?
    ensures IsFirstMinimum(cands, y, fit, k)
    ensures Select(cands, y, fit).value == ChoiceAt(cands, y, fit, k)
  {
    var n := |cands| - 1;
    var front := cands[..n];
    var before := Select(front, y, fit);
    forall m | 0 <= m < n {
      AicAtPrefix(cands, y, fit, n, m);
    }
    var last := AicAt(cands, y, fit, n);
    if before.None? {
      SelectNoneIffAllFail(front, y, fit);
      k := n;
    } else {
      var k' := SelectedIsFirstMinimum(front, y, fit);
      if last.Some? && last.value < before.value.aic {
        k := n;
      } else {
        k := k';
      }
    }
  }

  /** Conversely, the first candidate with the minimum AIC is what the search selects. */
  lemma {:induction false} FirstMinimumIsSelected<Y>(cands: seq<Candidate>, y: Y, fit: (Y, Order, SeasonalOrder) -> Option<real>, k: nat)
    requires IsFirstMinimum(cands, y, fit, k)
    ensures Select(cands, y, fit) == Some(ChoiceAt(cands, y, fit, k))
  {
    var n := |cands| - 1;
    var front := cands[..n];
    forall m | 0 <= m < n {
      AicAtPrefix(cands, y, fit, n, m);
    }
    assert Select(cands, y, fit) == Improve(Select(front, y, fit), cands[n], AicAt(cands, y, fit, n));
    if k < n {
      assert IsFirstMinimum(front, y, fit, k);
      FirstMinimumIsSelected(front, y, fit, k);
      assert ChoiceAt(front, y, fit, k) == ChoiceAt(cands, y, fit, k);
    } else {
      var before := Select(front, y, fit);
      if before.Some? {
        var k' := SelectedIsFirstMinimum(front, y, fit);
      }
    }
  }

  /** Two first minima are the same candidate: ties go to the one visited earliest. */
  lemma FirstMinimumUnique<Y>(cands: seq<Candidate>, y: Y, fit: (Y, Order, SeasonalOrder) -> Option<real>, k1: nat, k2: nat)
    requires IsFirstMinimum(cands, y, fit, k1) && IsFirstMinimum(cands, y, fit, k2)
    ensures k1 == k2
  {
  }

  /** One more seasonal order is one more pair at the end of the row. */
  lemma PairsSnoc(param: Order, seasonal: seq<SeasonalOrder>, j: nat)
    requires j < |seasonal|
    ensures Pairs(param, seasonal[..j + 1]) == Pairs(param, seasonal[..j]) + [(param, seasonal[j])]
  {
  }

  /** Visiting one more candidate is one more `Improve` step. */
  lemma SelectSnoc<Y>(cands: seq<Candidate>, c: Candidate, y: Y, fit: (Y, Order, SeasonalOrder) -> Option<real>)
    ensures Select(cands + [c], y, fit) == Improve(Select(cands, y, fit), c, fit(y, c.0, c.1))
  {
    assert (cands + [c])[..|cands|] == cands;
  }

  /**
   * The nested loop of `train_sarima_model` / `train_model`: tries every pair,
   * skips a fit that raises, and keeps a pair only when its AIC is strictly
   * below the best so far.
   */
  method SearchOrders<Y>(pdq: seq<Order>, seasonal: seq<SeasonalOrder>, y: Y, fit: (Y, Order, SeasonalOrder) -> Option<real>)
    returns (best: Option<Choice>)
    ensures best == Select(Candidates(pdq, seasonal), y, fit)
  {
    best := None;
    var i := 0;
    while i < |pdq|
      invariant 0 <= i <= |pdq|
      invariant best == Select(Candidates(pdq[..i], seasonal), y, fit)
    {
      var param := pdq[i];
      var done := Candidates(pdq[..i], seasonal);
      var j := 0;
      assert done + Pairs(param, seasonal[..j]) == done;
      while j < |seasonal|
        invariant 0 <= j <= |seasonal|
        invariant best == Select(done + Pairs(param, seasonal[..j]), y, fit)
      {
        var paramSeasonal := seasonal[j];
        var aic := fit(y, param, paramSeasonal);
        match aic {
          case Some(a) =>
            if best.None? || a < best.value.aic {
              best := Some(Choice(param, paramSeasonal, a));
            }
          case None =>
        }
        PairsSnoc(param, seasonal, j);
        assert done + Pairs(param, seasonal[..j + 1]) == (done + Pairs(param, seasonal[..j])) + [(param, paramSeasonal)];
        SelectSnoc(done + Pairs(param, seasonal[..j]), (param, paramSeasonal), y, fit);
        j := j + 1;
      }
      assert seasonal[..j] == seasonal;
      assert pdq[..i + 1][..i] == pdq[..i];
      assert Candidates(pdq[..i + 1], seasonal) == done + Pairs(param, seasonal);
      i := i + 1;
    }
    assert pdq[..i] == pdq;
  }

  /** The `order` handed to the final SARIMAX: `best_pdq`, still None when no fit succeeded. */
  function BestOrder(best: Option<Choice>): Option<Order>
  {
    if best.Some? then Some(best.value.order) else None
  }

  /** The `seasonal_order` handed to the final SARIMAX: `best_seasonal_pdq`, or None. */
  function BestSeasonal(best: Option<Choice>): Option<SeasonalOrder>
  {
    if best.Some? then Some(best.value.seasonal) else None
  }

  /**
   * The search over the fixed grid: None exactly when all 64 fits raise,
   * and otherwise the first pair of the grid with the minimum AIC.
   */
  method SearchGrid<Y>(y: Y, fit: (Y, Order, SeasonalOrder) -> Option<real>)
    returns (best: Option<Choice>)
    ensures best == Select(Grid(), y, fit)
    ensures best.None? <==> forall k :: 0 <= k < |Grid()| ==> AicAt(Grid(), y, fit, k).None?
    ensures best.Some? ==> exists k :: IsFirstMinimum(Grid(), y, fit, k) && best.value == ChoiceAt(Grid(), y, fit, k)
  {
    best := SearchOrders(Pdq(), SeasonalPdq(), y, fit);
    SelectNoneIffAllFail(Grid(), y, fit);
    if best.Some? {
      var k := SelectedIsFirstMinimum(Grid(), y, fit);
    }
  }
}
