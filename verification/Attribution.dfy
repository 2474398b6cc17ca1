/**
 Per-pipeline event counts from per-exporter counters (otelcol/extensions/
 statuscfgextension/extension.go, computePipelineSnapshots). Floating point is exact
 here. Go visits maps in no particular order, so every loop over a map picks its next
 key arbitrarily.
 */
module Attribution {
  import opened FiniteSums
  import opened RealArith

  datatype PipelineTopology = PipelineTopology(receivers: seq<string>, exporters: seq<string>)

  datatype PipelineSnapshot = PipelineSnapshot(eventsIn: nat, eventsOut: int, eventsDropped: int)

  type Pipelines = map<string, PipelineTopology>

  /** Indexing a Go map of counters: a missing key reads as zero. */
  type Counters = map<string, nat>

  function Count(c: Counters, key: string): nat {
    if key in c then c[key] else 0
  }

  // --- The closed form

  function CountAll(keys: seq<string>, c: Counters): nat {
    if keys == [] then 0 else CountAll(keys[..|keys| - 1], c) + Count(c, keys[|keys| - 1])
  }

  /** Counters are added up, once per listing, in any order. */
  lemma {:induction false} CountAllAdds(a: seq<string>, b: seq<string>, c: Counters)
    ensures CountAll(a + b, c) == CountAll(a, c) + CountAll(b, c)
    ensures |b| == 1 ==> CountAll(b, c) == if b[0] in c then c[b[0]] else 0
    ensures |b| == 0 ==> CountAll(b, c) == 0
  {
    if b == [] {
      assert a + b == a;
    } else {
      assert (a + b)[..|a + b| - 1] == a + b[..|b| - 1];
      CountAllAdds(a, b[..|b| - 1], c);
    }
  }

  /** A pipeline's events_in: its receivers' counters, once per listing. */
  function In(p: Pipelines, n: string, accepted: Counters): nat {
    if n in p then CountAll(p[n].receivers, accepted) else 0
  }

  function Occurs(s: seq<string>, x: string): nat {
    if s == [] then 0 else Occurs(s[..|s| - 1], x) + if s[|s| - 1] == x then 1 else 0
  }

  lemma {:induction false} OccursIsMultiplicity(s: seq<string>, x: string)
    ensures Occurs(s, x) == multiset(s)[x]
  {
    if s != [] {
      OccursIsMultiplicity(s[..|s| - 1], x);
      assert s == s[..|s| - 1] + [s[|s| - 1]];
    }
  }

  /** How often a pipeline lists an exporter. */
  function Listed(p: Pipelines, n: string, x: string): nat {
    if n in p then Occurs(p[n].exporters, x) else 0
  }

  function Used(p: Pipelines): set<string> {
    set n, x | n in p && x in p[n].exporters :: x
  }

  /** m copies of v. */
  function Times(m: nat, v: real): real {
    if m == 0 then 0.0 else Times(m - 1, v) + v
  }

  lemma {:induction false} TimesIsProduct(m: nat, v: real)
    ensures Times(m, v) == Mul(m as real, v)
  {
    if m > 0 { TimesIsProduct(m - 1, v); }
  }

  /** A value per pipeline, counted once for every time it lists the exporter. */
  ghost function Column(p: Pipelines, x: string, v: string -> real): string -> real {
    n => Times(Listed(p, n, x), v(n))
  }

  ghost function Total(p: Pipelines, x: string, v: string -> real): real {
    Sum(p.Keys, Column(p, x, v))
  }

  ghost const ONE: string -> real := n => 1.0

  ghost function Inputs(p: Pipelines, accepted: Counters): string -> real {
    n => In(p, n, accepted) as real
  }

  /** A listing's share: by events_in, or even while none of the users has any. */
  function ShareOf(eventsIn: real, totalIn: real, users: real): real {
    if totalIn > 0.0 then Div(eventsIn, totalIn) else if users == 0.0 then 0.0 else Div(1.0, users)
  }

  ghost function Shares(p: Pipelines, x: string, accepted: Counters): string -> real {
    n => ShareOf(In(p, n, accepted) as real, Total(p, x, Inputs(p, accepted)), Total(p, x, ONE))
  }

  /** What one listing of exporter x brings pipeline n. */
  ghost function Cuts(p: Pipelines, x: string, accepted: Counters, c: Counters): string -> real {
    n => Mul(Shares(p, x, accepted)(n), Count(c, x) as real)
  }

  /** For every exporter, the value each listing of it brings a pipeline. */
  type Table = string -> (string -> real)

  ghost function CutTable(p: Pipelines, accepted: Counters, c: Counters): Table {
    x => Cuts(p, x, accepted, c)
  }

  /** A pipeline's values, exporter by exporter. */
  ghost function Row(p: Pipelines, n: string, t: Table): string -> real {
    x => Column(p, x, t(x))(n)
  }

  /** A pipeline's unrounded part of the totals in `c`. */
  ghost function Split(p: Pipelines, n: string, accepted: Counters, c: Counters): real {
    Sum(Used(p), Row(p, n, CutTable(p, accepted, c)))
  }

  /** An exporter's count times the pipeline's share per listing times its listings. */
  ghost function Weighted(p: Pipelines, n: string, accepted: Counters, c: Counters): string -> real {
    x => Mul(Listed(p, n, x) as real, Mul(Shares(p, x, accepted)(n), Count(c, x) as real))
  }

  lemma SplitIsWeightedSum(p: Pipelines, n: string, accepted: Counters, c: Counters)
    ensures Split(p, n, accepted, c) == Sum(Used(p), Weighted(p, n, accepted, c))
  {
    hide Sum, Listed, ShareOf, Count, Mul, Times;
    var row := Row(p, n, CutTable(p, accepted, c));
    forall x | x in Used(p) ensures row(x) == Weighted(p, n, accepted, c)(x) {
      TimesIsProduct(Listed(p, n, x), Cuts(p, x, accepted, c)(n));
    }
    SumSame(Used(p), row, Weighted(p, n, accepted, c));
  }

  /** math.Round. */
  function Round(x: real): int {
    if x >= 0.0 then (x + 0.5).Floor else -((0.5 - x).Floor)
  }

  /** Nearer to x than j, or as near and no nearer to zero. */
  predicate AsGood(k: int, j: int, x: real) {
    || Abs(k as real - x) < Abs(j as real - x)
    || (Abs(k as real - x) == Abs(j as real - x) && Abs(j as real) <= Abs(k as real))
  }

  /** The whole number nearest to x and, of two equally near, the one further from zero. */
  ghost predicate Nearest(k: int, x: real) {
    forall j: int :: AsGood(k, j, x)
  }

  lemma RoundIsNearest(x: real)
    ensures Nearest(Round(x), x)
  {
    var k := Round(x);
    assert if x >= 0.0 then k as real - 0.5 <= x < k as real + 0.5 else k as real - 0.5 < x <= k as real + 0.5;
    forall j: int ensures AsGood(k, j, x) {
      if j < k {
        assert j as real <= k as real - 1.0;
      } else if j > k {
        assert j as real >= k as real + 1.0;
      }
    }
  }

  // --- Shares of one exporter add up to one

  lemma {:induction false} OccursIffIn(s: seq<string>, x: string)
    ensures Occurs(s, x) > 0 <==> x in s
  {
    if s != [] {
      OccursIffIn(s[..|s| - 1], x);
      assert s == s[..|s| - 1] + [s[|s| - 1]];
    }
  }

  lemma ListedIffUsed(p: Pipelines, n: string, x: string)
    ensures Listed(p, n, x) > 0 <==> n in p && x in p[n].exporters
    ensures Listed(p, n, x) > 0 ==> x in Used(p)
  {
    if n in p { OccursIffIn(p[n].exporters, x); }
  }

  lemma {:induction false} TimesBounds(m: nat, v: real)
    requires v >= 0.0
    ensures Times(m, v) >= 0.0
    ensures m > 0 ==> Times(m, v) >= v
  {
    if m > 0 { TimesBounds(m - 1, v); }
  }

  lemma {:induction false} TimesScaled(m: nat, v: real, scale: real -> real)
    requires Additive(scale)
    ensures Times(m, scale(v)) == scale(Times(m, v))
  {
    if m > 0 {
      TimesScaled(m - 1, v, scale);
      assert AddsUp(scale, Times(m - 1, v), v);
    }
  }

  lemma {:induction false} TimesZero(m: nat)
    ensures Times(m, 0.0) == 0.0
  {
    if m > 0 { TimesZero(m - 1); }
  }

  /** A column of non-negative values totals at least each value that is listed. */
  lemma TotalBounds(p: Pipelines, x: string, v: string -> real)
    requires forall n :: v(n) >= 0.0
    ensures Total(p, x, v) >= 0.0
    ensures forall n :: Listed(p, n, x) > 0 ==> Total(p, x, v) >= v(n)
  {
    var zero := (n: string) => 0.0;
    var column := Column(p, x, v);
    forall n ensures column(n) >= 0.0 && (Listed(p, n, x) > 0 ==> column(n) >= v(n)) {
      TimesBounds(Listed(p, n, x), v(n));
    }
    SumZero(p.Keys, zero);
    SumOrdered(p.Keys, zero, column);
    forall n | Listed(p, n, x) > 0 ensures Total(p, x, v) >= v(n) {
      SumTake(p.Keys, n, column);
      SumZero(p.Keys - {n}, zero);
      SumOrdered(p.Keys - {n}, zero, column);
    }
  }

  lemma TotalScaled(p: Pipelines, x: string, u: string -> real, v: string -> real, scale: real -> real)
    requires Additive(scale)
    requires forall n :: n in p ==> u(n) == scale(v(n))
    ensures Total(p, x, u) == scale(Total(p, x, v))
  {
    forall n | n in p ensures Column(p, x, u)(n) == scale(Column(p, x, v)(n)) {
      TimesScaled(Listed(p, n, x), v(n), scale);
    }
    SumScaled(p.Keys, scale, Column(p, x, v), Column(p, x, u));
  }

  lemma DividingIsAdditive(d: real) returns (scale: real -> real)
    requires d != 0.0
    ensures Additive(scale) && (forall a :: scale(a) == Div(a, d)) && scale(d) == 1.0
  {
    hide Div;
    scale := a => Div(a, d);
    forall a, b ensures AddsUp(scale, a, b) { DivAdd(a, b, d); }
    DivZero(d);
    DivSelf(d);
  }

  /** Scaling every value scales the total. */
  lemma TotalTimes(p: Pipelines, x: string, u: string -> real, v: string -> real, k: real)
    requires forall n :: u(n) == Mul(v(n), k)
    ensures Total(p, x, u) == Mul(Total(p, x, v), k)
  {
    hide Mul;
    var scale := (a: real) => Mul(a, k);
    forall a, b ensures AddsUp(scale, a, b) { MulAdd(a, b, k); }
    MulZero(k);
    TotalScaled(p, x, u, v, scale);
  }

  lemma SharesTotalOne(p: Pipelines, x: string, accepted: Counters)
    requires x in Used(p)
    ensures Total(p, x, Shares(p, x, accepted)) == 1.0
  {
    hide Div;
    TotalBounds(p, x, ONE);
    TotalBounds(p, x, Inputs(p, accepted));
    var n :| n in p && x in p[n].exporters;
    ListedIffUsed(p, n, x);
    var total, users := Total(p, x, Inputs(p, accepted)), Total(p, x, ONE);
    if total > 0.0 {
      var scale := DividingIsAdditive(total);
      TotalScaled(p, x, Shares(p, x, accepted), Inputs(p, accepted), scale);
    } else {
      var scale := DividingIsAdditive(users);
      TotalScaled(p, x, Shares(p, x, accepted), ONE, scale);
    }
  }

  /** One exporter's column adds up to its counter. */
  lemma CutsTotalCounter(p: Pipelines, x: string, accepted: Counters, c: Counters)
    requires x in Used(p)
    ensures Total(p, x, Cuts(p, x, accepted, c)) == Count(c, x) as real
  {
    hide Mul, Shares;
    SharesTotalOne(p, x, accepted);
    MulOne(Count(c, x) as real);
    TotalTimes(p, x, Cuts(p, x, accepted, c), Shares(p, x, accepted), Count(c, x) as real);
  }

  /** Summing a table by pipelines or by exporters is the same. */
  lemma RowsEqualColumns(p: Pipelines, t: Table, totals: string -> real)
    requires forall x :: x in Used(p) ==> Total(p, x, t(x)) == totals(x)
    ensures Sum(p.Keys, n => Sum(Used(p), Row(p, n, t))) == Sum(Used(p), totals)
  {
    hide Times, Listed;
    SumSwap(p.Keys, Used(p), n => Row(p, n, t), x => Column(p, x, t(x)), n => Sum(Used(p), Row(p, n, t)), totals);
  }

  ghost function Totals(c: Counters): string -> real {
    x => Count(c, x) as real
  }

  /** Conservation: what the pipelines get adds up to the counters of the exporters that
      have a user, however often each is listed. */
  lemma SplitConserves(p: Pipelines, accepted: Counters, c: Counters)
    ensures Sum(p.Keys, n => Split(p, n, accepted, c)) == Sum(Used(p), Totals(c))
  {
    var t := CutTable(p, accepted, c);
    forall x | x in Used(p) ensures Total(p, x, t(x)) == Totals(c)(x) {
      CutsTotalCounter(p, x, accepted, c);
    }
    RowsEqualColumns(p, t, Totals(c));
    SumSame(p.Keys, n => Sum(Used(p), Row(p, n, t)), n => Split(p, n, accepted, c));
  }

  lemma NearestIsClose(k: int, x: real)
    requires Nearest(k, x)
    ensures x - 0.5 <= k as real <= x + 0.5
  {
    var j := x.Floor;
    assert AsGood(k, j, x) && AsGood(k, j + 1, x);
  }

  /** The rounded totals miss the counters by at most half an event per pipeline. */
  lemma RoundedTotalIsClose(p: Pipelines, accepted: Counters, c: Counters, reported: string -> int)
    requires forall n :: n in p ==> Nearest(reported(n), Split(p, n, accepted, c))
    ensures var total := Sum(p.Keys, n => reported(n) as real);
            var counted := Sum(Used(p), Totals(c));
            counted - 0.5 * |p.Keys| as real <= total <= counted + 0.5 * |p.Keys| as real
  {
    hide Split, Nearest;
    SplitConserves(p, accepted, c);
    var exact := (n: string) => Split(p, n, accepted, c);
    var rounded := (n: string) => reported(n) as real;
    var half := (n: string) => 0.5;
    var up := (n: string) => exact(n) + half(n);
    var down := (n: string) => rounded(n) + half(n);
    forall n | n in p ensures rounded(n) <= up(n) && exact(n) <= down(n) { NearestIsClose(reported(n), exact(n)); }
    SumOrdered(p.Keys, rounded, up);
    SumOrdered(p.Keys, exact, down);
    SumOfSums(p.Keys, exact, half, up);
    SumOfSums(p.Keys, rounded, half, down);
    SumConstant(p.Keys, 0.5, half);
    SumSame(p.Keys, exact, n => Split(p, n, accepted, c));
    SumSame(p.Keys, rounded, n => reported(n) as real);
  }

  // --- What single pipelines get

  function Own(p: Pipelines, n: string): set<string>
    requires n in p
  {
    set x | x in p[n].exporters
  }

  lemma RowSupport(p: Pipelines, n: string, t: Table)
    requires n in p
    ensures Sum(Used(p), Row(p, n, t)) == Sum(Own(p, n), Row(p, n, t))
  {
    forall x | x in Used(p) - Own(p, n) ensures Row(p, n, t)(x) == 0.0 {
      ListedIffUsed(p, n, x);
      assert Column(p, x, t(x))(n) == Times(0, t(x)(n));
    }
    SumSupport(Used(p), Own(p, n), Row(p, n, t));
  }

  lemma SoleUserGetsTotal(p: Pipelines, n: string, x: string, v: string -> real)
    requires n in p && forall m :: m in p && m != n ==> x !in p[m].exporters
    ensures Column(p, x, v)(n) == Total(p, x, v)
  {
    var column := Column(p, x, v);
    forall m | m in p.Keys - {n} ensures column(m) == 0.0 {
      ListedIffUsed(p, m, x);
      assert column(m) == Times(0, v(m));
    }
    SumTake(p.Keys, n, column);
    SumZero(p.Keys - {n}, column);
  }

  /** A pipeline whose exporters nobody else lists gets exactly their totals. */
  lemma UnsharedIsExact(p: Pipelines, n: string, accepted: Counters, c: Counters)
    requires n in p
    requires forall x, m :: x in p[n].exporters && m in p && m != n ==> x !in p[m].exporters
    ensures Split(p, n, accepted, c) == Sum(Own(p, n), Totals(c))
  {
    var t := CutTable(p, accepted, c);
    RowSupport(p, n, t);
    forall x | x in Own(p, n) ensures Row(p, n, t)(x) == Totals(c)(x) {
      SoleUserGetsTotal(p, n, x, t(x));
      CutsTotalCounter(p, x, accepted, c);
    }
    SumSame(Own(p, n), Row(p, n, t), Totals(c));
  }

  lemma IdleShareIsZero(p: Pipelines, n: string, x: string, accepted: Counters, m: string)
    requires In(p, n, accepted) == 0
    requires m in p && x in p[m].exporters && In(p, m, accepted) > 0
    ensures Shares(p, x, accepted)(n) == 0.0
  {
    hide Div;
    ListedIffUsed(p, m, x);
    TotalBounds(p, x, Inputs(p, accepted));
    assert Total(p, x, Inputs(p, accepted)) >= Inputs(p, accepted)(m) > 0.0;
    DivZero(Total(p, x, Inputs(p, accepted)));
  }

  lemma CrossDivide(a: real, b: real, t: real)
    requires t != 0.0
    ensures Mul(Div(a, t), b) == Mul(Div(b, t), a)
  {
    var q, r := Div(a, t), Div(b, t);
    MulDiv(a, t);
    MulDiv(b, t);
    assert a == Mul(t, q) && b == Mul(t, r);
    assert q * (t * r) == r * (t * q);
  }

  /** Once one of its users has input, an exporter is shared in proportion to the input. */
  lemma SharesAreProportional(p: Pipelines, x: string, n: string, m: string, busy: string, accepted: Counters)
    requires busy in p && x in p[busy].exporters && In(p, busy, accepted) > 0
    ensures Mul(Shares(p, x, accepted)(n), In(p, m, accepted) as real) ==
            Mul(Shares(p, x, accepted)(m), In(p, n, accepted) as real)
  {
    hide Div, Mul, In;
    ListedIffUsed(p, busy, x);
    TotalBounds(p, x, Inputs(p, accepted));
    assert Total(p, x, Inputs(p, accepted)) >= Inputs(p, accepted)(busy) > 0.0;
    CrossDivide(In(p, n, accepted) as real, In(p, m, accepted) as real, Total(p, x, Inputs(p, accepted)));
  }

  /** While none has, it is shared evenly between the listings. */
  lemma IdleSharesAreEven(p: Pipelines, x: string, n: string, m: string, accepted: Counters)
    requires forall k :: k in p && x in p[k].exporters ==> In(p, k, accepted) == 0
    ensures Shares(p, x, accepted)(n) == Shares(p, x, accepted)(m)
  {
    hide Div, In;
    var column := Column(p, x, Inputs(p, accepted));
    forall k | k in p.Keys ensures column(k) == 0.0 {
      ListedIffUsed(p, k, x);
      TimesZero(Listed(p, k, x));
      assert column(k) == Times(Listed(p, k, x), In(p, k, accepted) as real);
    }
    SumZero(p.Keys, column);
  }

  /** A pipeline with no input gets nothing of exporters that also serve one with input. */
  lemma IdleGetsNothing(p: Pipelines, n: string, accepted: Counters, c: Counters)
    requires n in p && In(p, n, accepted) == 0
    requires forall x :: x in p[n].exporters ==> exists m :: m in p && x in p[m].exporters && In(p, m, accepted) > 0
    ensures Split(p, n, accepted, c) == 0.0
  {
    hide Mul, Shares;
    var t := CutTable(p, accepted, c);
    RowSupport(p, n, t);
    forall x | x in Own(p, n) ensures Row(p, n, t)(x) == 0.0 {
      var m :| m in p && x in p[m].exporters && In(p, m, accepted) > 0;
      IdleShareIsZero(p, n, x, accepted, m);
      MulZero(Count(c, x) as real);
      assert t(x)(n) == 0.0;
      TimesZero(Listed(p, n, x));
    }
    SumZero(Own(p, n), Row(p, n, t));
  }

  /** A cell of a column of non-negative values is at most the column's total. */
  lemma CellIsPart(p: Pipelines, n: string, x: string, v: string -> real)
    requires n in p && forall m :: v(m) >= 0.0
    ensures 0.0 <= Column(p, x, v)(n) <= Total(p, x, v)
  {
    var column := Column(p, x, v);
    var zero := (m: string) => 0.0;
    forall m ensures column(m) >= 0.0 { TimesBounds(Listed(p, m, x), v(m)); }
    SumTake(p.Keys, n, column);
    SumZero(p.Keys - {n}, zero);
    SumOrdered(p.Keys - {n}, zero, column);
  }

  lemma SharesNonNegative(p: Pipelines, x: string, accepted: Counters)
    ensures forall m :: Shares(p, x, accepted)(m) >= 0.0
  {
    hide Div;
    TotalBounds(p, x, ONE);
    TotalBounds(p, x, Inputs(p, accepted));
    var total, users := Total(p, x, Inputs(p, accepted)), Total(p, x, ONE);
    forall m ensures Shares(p, x, accepted)(m) >= 0.0 {
      if total > 0.0 {
        DivNonNegative(In(p, m, accepted) as real, total);
      } else if users > 0.0 {
        DivNonNegative(1.0, users);
      }
    }
  }

  lemma CutIsNonNegative(p: Pipelines, m: string, x: string, accepted: Counters, c: Counters)
    ensures Cuts(p, x, accepted, c)(m) >= 0.0
  {
    hide Mul, Shares;
    SharesNonNegative(p, x, accepted);
    MulZero(Count(c, x) as real);
    MulOrdered(0.0, Shares(p, x, accepted)(m), Count(c, x) as real);
  }

  /** No pipeline is ever credited more than its exporters' whole totals. */
  lemma NeverOvercounts(p: Pipelines, n: string, accepted: Counters, c: Counters)
    requires n in p
    ensures 0.0 <= Split(p, n, accepted, c) <= Sum(Own(p, n), Totals(c))
  {
    var t := CutTable(p, accepted, c);
    RowSupport(p, n, t);
    var zero := (x: string) => 0.0;
    forall x | x in Own(p, n) ensures 0.0 <= Row(p, n, t)(x) <= Totals(c)(x) {
      forall m ensures t(x)(m) >= 0.0 { CutIsNonNegative(p, m, x, accepted, c); }
      CellIsPart(p, n, x, t(x));
      CutsTotalCounter(p, x, accepted, c);
    }
    SumZero(Own(p, n), zero);
    SumOrdered(Own(p, n), zero, Row(p, n, t));
    SumOrdered(Own(p, n), Row(p, n, t), Totals(c));
  }
}
