/** Jain's fairness index as benchmarks/e2e/collect.py computes it. */
module Fairness {
  import opened Arith
  import opened Sums

  /** One entry of the input: None, a NaN, or a number. */
  datatype Sample = Missing | NaN | Num(x: real)

  /** An entry takes part when it is present, not NaN and positive. */
  predicate TakesPart(v: Sample) { v.Num? && v.x > 0.0 }

  /** The entries that take part. */
  function Positives(values: seq<Sample>): (xs: seq<real>)
    ensures AllPositive(xs)
  {
    if values == [] then [] else Positives(values[..|values| - 1]) + Kept(values[|values| - 1])
  }

  function Kept(v: Sample): (xs: seq<real>)
    ensures AllPositive(xs)
  {
    if TakesPart(v) then [v.x] else []
  }

  predicate AllPositive(xs: seq<real>) { forall i :: 0 <= i < |xs| ==> 0.0 < xs[i] }

  function Sq(x: real): real { Times(x, x) }

  function SumSq(xs: seq<real>): real {
    if xs == [] then 0.0 else SumSq(xs[..|xs| - 1]) + Sq(xs[|xs| - 1])
  }

  function Count(xs: seq<real>): real { |xs| as real }

  /** Undefined stands for the NaN that an input without positive entries yields. */
  datatype Index = Undefined | Index(value: real)

  function JainFairness(values: seq<Sample>): Index
  {
    var xs := Positives(values);
    if xs == [] then Undefined else Index(Jain(xs))
  }

  /** The index of a nonempty list of positive numbers. */
  function Jain(xs: seq<real>): real
    requires xs != [] && AllPositive(xs)
  {
    SumsPositive(xs);
    Sq(Total(xs)) / Times(Count(xs), SumSq(xs))
  }

  lemma {:induction false} SumsPositive(xs: seq<real>)
    requires AllPositive(xs)
    ensures 0.0 <= Total(xs) && 0.0 <= SumSq(xs)
    ensures xs != [] ==> 0.0 < Total(xs) && 0.0 < SumSq(xs) && 0.0 < Times(Count(xs), SumSq(xs))
  {
    if xs != [] {
      hide Sq, Times;
      SumsPositive(xs[..|xs| - 1]);
      SqPos(xs[|xs| - 1]);
      TimesPos(Count(xs), SumSq(xs));
    }
  }

  lemma SqPos(x: real)
    requires 0.0 < x
    ensures 0.0 < Sq(x)
  {
    hide Times;
    TimesPos(x, x);
  }

  lemma TimesPos(a: real, b: real)
    requires 0.0 < a && 0.0 < b
    ensures 0.0 < Times(a, b)
  {
  }

  /** The filter goes entry by entry and keeps the order. */
  lemma {:induction false} PositivesSplit(a: seq<Sample>, b: seq<Sample>)
    ensures Positives(a + b) == Positives(a) + Positives(b)
    decreases |b|
  {
    hide Kept, AllPositive;
    if b == [] {
      assert a + b == a;
    } else {
      var n := |b| - 1;
      assert (a + b)[..|a| + n] == a + b[..n] && (a + b)[|a| + n] == b[n];
      PositivesSplit(a, b[..n]);
      var xs, ys, k := Positives(a), Positives(b[..n]), Kept(b[n]);
      assert xs + (ys + k) == xs + ys + k;
    }
  }

  /** The j-th number is entry at[j], these positions increase, and they are all that take part. */
  ghost predicate Keeps(values: seq<Sample>, xs: seq<real>, at: seq<nat>) {
    && |at| == |xs|
    && (forall j :: 0 <= j < |at| ==> at[j] < |values| && values[at[j]] == Num(xs[j]) && 0.0 < xs[j])
    && (forall j, k :: 0 <= j < k < |at| ==> at[j] < at[k])
    && (forall i :: 0 <= i < |values| && TakesPart(values[i]) ==> i in at)
  }

  /** The filter keeps exactly the entries that take part, in their order. */
  lemma {:induction false} PositivesKeep(values: seq<Sample>) returns (at: seq<nat>)
    ensures Keeps(values, Positives(values), at)
  {
    hide Keeps;
    if values == [] {
      at := [];
      KeepsNothing();
    } else {
      var n := |values| - 1;
      var front := PositivesKeep(values[..n]);
      at := front + if TakesPart(values[n]) then [n] else [];
      KeepsMore(values, Positives(values[..n]), front, n);
    }
  }

  lemma KeepsNothing()
    ensures Keeps([], [], [])
  {
  }

  lemma KeepsMore(values: seq<Sample>, xs: seq<real>, at: seq<nat>, n: nat)
    requires |values| == n + 1 && Keeps(values[..n], xs, at)
    ensures Keeps(values, xs + Kept(values[n]), at + if TakesPart(values[n]) then [n] else [])
  {
  }

  /**
   The index as the function returns it: undefined exactly when no entry is a positive
   number, otherwise between one over their number and one, and one exactly when all
   entries that take part are equal.
   */
  lemma JainFairnessBounds(values: seq<Sample>)
    ensures JainFairness(values).Undefined? <==> forall i :: 0 <= i < |values| ==> !TakesPart(values[i])
    ensures JainFairness(values).Index? ==>
              var index := JainFairness(values).value;
              && 1.0 / Count(Positives(values)) <= index <= 1.0
              && (index == 1.0 <==> EqualPositives(values))
  {
    hide Jain, Positives, Kept, AllPositive, EqualPositives;
    var at := PositivesKeep(values);
    if Positives(values) != [] {
      JainBounds(Positives(values));
      SameEntries(values, Positives(values), at);
      assert TakesPart(values[at[0]]);
    }
  }

  ghost predicate EqualPositives(values: seq<Sample>) {
    forall i, j :: 0 <= i < |values| && 0 <= j < |values| && TakesPart(values[i]) && TakesPart(values[j]) ==>
                     values[i] == values[j]
  }

  lemma SameEntries(values: seq<Sample>, xs: seq<real>, at: seq<nat>)
    requires Keeps(values, xs, at)
    ensures EqualPositives(values) <==> forall i, j :: 0 <= i < |xs| && 0 <= j < |xs| ==> xs[i] == xs[j]
  {
  }

  // ---- Cauchy-Schwarz ---------------------------------------------------------

  /** The sum of squared distances to x. */
  function Spread(xs: seq<real>, x: real): real {
    if xs == [] then 0.0 else Spread(xs[..|xs| - 1], x) + Sq(xs[|xs| - 1] - x)
  }

  function Gap(xs: seq<real>): real { Times(Count(xs), SumSq(xs)) - Sq(Total(xs)) }

  lemma {:induction false} SpreadExpands(xs: seq<real>, x: real)
    ensures Spread(xs, x) == SumSq(xs) - 2.0 * Times(Total(xs), x) + Times(Count(xs), Sq(x))
    ensures 0.0 <= Spread(xs, x)
    ensures Spread(xs, x) == 0.0 <==> forall i :: 0 <= i < |xs| ==> xs[i] == x
  {
    if xs == [] {
      assert Times(Total(xs), x) == 0.0 && Times(Count(xs), Sq(x)) == 0.0;
    } else {
      var front, y := xs[..|xs| - 1], xs[|xs| - 1];
      SpreadExpands(front, x);
      SquareOfDifference(y, x);
      TimesLeft(Total(front), y, x);
      TimesLeft(Count(front), 1.0, Sq(x));
      assert forall i :: 0 <= i < |front| ==> front[i] == xs[i];
      hide Sq, Times;
    }
  }

  lemma SquareOfDifference(y: real, x: real)
    ensures Sq(y - x) == Sq(y) - 2.0 * Times(y, x) + Sq(x)
    ensures 0.0 <= Sq(y - x) && (Sq(y - x) == 0.0 <==> y == x)
  {
    var d := y - x;
    assert Sq(d) == d * y - d * x;
    if d > 0.0 { MulPos(d, d); }
    if d < 0.0 { MulPos(-d, -d); }
  }

  lemma TimesLeft(a: real, b: real, c: real)
    ensures Times(a + b, c) == Times(a, c) + Times(b, c) && Times(1.0, c) == c
  {
  }

  /** The gap in the Cauchy-Schwarz inequality is never negative, and zero only for equal entries. */
  lemma {:induction false} GapOfEqualEntries(xs: seq<real>)
    ensures 0.0 <= Gap(xs)
    ensures Gap(xs) == 0.0 <==> forall i, j :: 0 <= i < |xs| && 0 <= j < |xs| ==> xs[i] == xs[j]
  {
    if xs == [] {
      assert Gap(xs) == 0.0;
    } else {
      var n := |xs| - 1;
      var front, x := xs[..n], xs[n];
      GapOfEqualEntries(front);
      SpreadExpands(front, x);
      GapGrows(Count(front), SumSq(front), Total(front), x);
      assert Gap(xs) == Gap(front) + Spread(front, x);
      hide Gap, Spread;
      assert forall i :: 0 <= i < n ==> front[i] == xs[i];
      if Spread(front, x) == 0.0 {
        assert forall i :: 0 <= i < |xs| ==> xs[i] == x;
      }
      if forall i, j :: 0 <= i < |xs| && 0 <= j < |xs| ==> xs[i] == xs[j] {
        assert forall i :: 0 <= i < n ==> front[i] == x;
      }
    }
  }

  lemma GapGrows(n: real, q: real, s: real, x: real)
    ensures Times(n + 1.0, q + Sq(x)) - Sq(s + x)
            == Times(n, q) - Sq(s) + (q - 2.0 * Times(s, x) + Times(n, Sq(x)))
  {
  }

  lemma SquareOfSum(s: real, x: real)
    ensures Sq(s + x) == Sq(s) + 2.0 * Times(s, x) + Sq(x)
  {
  }

  lemma {:induction false} SquaresWithinSquare(xs: seq<real>)
    requires AllPositive(xs)
    ensures SumSq(xs) <= Sq(Total(xs))
  {
    if xs != [] {
      var front, x := xs[..|xs| - 1], xs[|xs| - 1];
      SquaresWithinSquare(front);
      SumsPositive(front);
      SquareOfSum(Total(front), x);
      MulMono(0.0, Total(front), x);
    }
  }

  /** Between one n-th and one; one exactly when all entries are equal. */
  lemma JainBounds(xs: seq<real>)
    requires xs != [] && AllPositive(xs)
    ensures 1.0 / Count(xs) <= Jain(xs) <= 1.0
    ensures Jain(xs) == 1.0 <==> forall i, j :: 0 <= i < |xs| && 0 <= j < |xs| ==> xs[i] == xs[j]
  {
    SumsPositive(xs);
    GapOfEqualEntries(xs);
    SquaresWithinSquare(xs);
    IndexRange(Count(xs), SumSq(xs), Sq(Total(xs)));
  }

  lemma IndexRange(n: real, q: real, s2: real)
    requires 0.0 < n && 0.0 < q <= s2 <= Times(n, q)
    ensures 1.0 / n <= s2 / Times(n, q) <= 1.0
    ensures s2 / Times(n, q) == 1.0 <==> s2 == Times(n, q)
  {
  }

  function Mean(xs: seq<real>): real
    requires xs != []
  {
    Total(xs) / Count(xs)
  }

  function Variance(xs: seq<real>): real
    requires xs != []
  {
    Spread(xs, Mean(xs)) / Count(xs)
  }

  /** What the index measures: the squared mean over the squared mean plus the variance. */
  lemma JainIsMeanOverVariance(xs: seq<real>)
    requires xs != [] && AllPositive(xs)
    ensures 0.0 < Sq(Mean(xs)) + Variance(xs)
    ensures Jain(xs) == Sq(Mean(xs)) / (Sq(Mean(xs)) + Variance(xs))
  {
    hide Spread, SumSq, Total;
    SumsPositive(xs);
    SpreadExpands(xs, Mean(xs));
    MeanOverVariance(Count(xs), SumSq(xs), Total(xs));
  }

  /** With m = s / n and v = (q - 2 s m + n m^2) / n the squares' mean q / n is m^2 + v. */
  lemma MeanOverVariance(n: real, q: real, s: real)
    requires 0.0 < n && 0.0 < q && 0.0 < Times(n, q)
    ensures var m := s / n;
      var v := (q - 2.0 * Times(s, m) + Times(n, Sq(m))) / n;
      Sq(m) + v == q / n && 0.0 < q / n && Sq(s) / Times(n, q) == Sq(m) / (q / n)
  {
    var m := s / n;
    DivMul(s, n);
    DivPos(q, n);
    SquaredMean(n, s);
    MeanSquares(n, q, s);
    ScaleFraction(Sq(m), q, n);
  }

  lemma SquaredMean(n: real, s: real)
    requires 0.0 < n
    ensures Sq(s) == Times(Sq(s / n), Times(n, n)) && Times(s, s / n) == Times(n, Sq(s / n))
  {
    var m := s / n;
    DivMul(s, n);
    assert s == m * n;
  }

  lemma MeanSquares(n: real, q: real, s: real)
    requires 0.0 < n
    ensures var m := s / n; Sq(m) + (q - 2.0 * Times(s, m) + Times(n, Sq(m))) / n == q / n
  {
    var m := s / n;
    SquaredMean(n, s);
    hide Times, Sq;
    var g := Times(n, Sq(m));
    assert q - 2.0 * Times(s, m) + g == q - g;
    DifferenceOver(q, Sq(m), n, g);
  }

  lemma DifferenceOver(q: real, x: real, n: real, g: real)
    requires 0.0 < n && g == Times(n, x)
    ensures x + (q - g) / n == q / n
  {
  }

  lemma ScaleFraction(x: real, q: real, n: real)
    requires 0.0 < n && 0.0 < q && 0.0 < Times(n, q)
    ensures 0.0 < q / n
    ensures Times(x, Times(n, n)) / Times(n, q) == x / (q / n)
  {
  }

  // ---- Invariance -------------------------------------------------------------

  function Scaled(xs: seq<real>, c: real): seq<real> { seq(|xs|, i requires 0 <= i < |xs| => Times(c, xs[i])) }

  lemma {:induction false} ScaledSums(xs: seq<real>, c: real)
    ensures Total(Scaled(xs, c)) == Times(c, Total(xs))
    ensures SumSq(Scaled(xs, c)) == Times(Sq(c), SumSq(xs))
  {
    TimesAdd(c, 0.0, 0.0);
    TimesAdd(Sq(c), 0.0, 0.0);
    if xs != [] {
      hide Times, Sq;
      var front, x := xs[..|xs| - 1], xs[|xs| - 1];
      ScaledSums(front, c);
      assert Scaled(xs, c)[..|xs| - 1] == Scaled(front, c);
      TimesAdd(c, Total(front), x);
      TimesAdd(Sq(c), SumSq(front), Sq(x));
      SquareOfProduct(c, x);
    }
  }

  lemma SquareOfProduct(c: real, x: real)
    ensures Sq(Times(c, x)) == Times(Sq(c), Sq(x))
  {
  }

  /** Scaling all entries by the same positive factor leaves the index alone. */
  lemma JainScale(xs: seq<real>, c: real)
    requires xs != [] && AllPositive(xs) && 0.0 < c
    ensures AllPositive(Scaled(xs, c)) && Jain(Scaled(xs, c)) == Jain(xs)
  {
    forall i | 0 <= i < |xs|
      ensures 0.0 < Scaled(xs, c)[i]
    {
      MulPos(c, xs[i]);
    }
    SumsPositive(xs);
    SumsPositive(Scaled(xs, c));
    ScaledSums(xs, c);
    MulPos(c, c);
    hide Times, Sq;
    SquareOfProduct(c, Total(xs));
    CancelFactor(Sq(c), Sq(Total(xs)), Count(xs), SumSq(xs));
  }

  lemma CancelFactor(f: real, a: real, n: real, q: real)
    requires 0.0 < f && 0.0 < Times(n, q)
    ensures 0.0 < Times(n, Times(f, q))
    ensures Times(f, a) / Times(n, Times(f, q)) == a / Times(n, q)
  {
  }

  lemma {:induction false} SumsOfPermutation(xs: seq<real>, ys: seq<real>)
    requires multiset(xs) == multiset(ys)
    ensures |xs| == |ys| && Total(xs) == Total(ys) && SumSq(xs) == SumSq(ys)
    decreases |xs|
  {
    assert |multiset(xs)| == |xs| && |multiset(ys)| == |ys|;
    if xs != [] {
      hide Total, SumSq;
      var front, x := xs[..|xs| - 1], xs[|xs| - 1];
      assert xs == front + [x];
      assert x in multiset(xs);
      var k :| 0 <= k < |ys| && ys[k] == x;
      WithoutMultiset(ys, k);
      WithoutMultiset(xs, |xs| - 1);
      SumsOfPermutation(xs[..|xs| - 1] + xs[|xs| - 1 + 1..], ys[..k] + ys[k + 1..]);
      SumsWithout(ys, k);
      SumsWithout(xs, |xs| - 1);
    }
  }

  lemma WithoutMultiset(ys: seq<real>, k: nat)
    requires k < |ys|
    ensures multiset(ys[..k] + ys[k + 1..]) == multiset(ys) - multiset{ys[k]}
  {
    assert ys == ys[..k] + [ys[k]] + ys[k + 1..];
  }

  lemma {:induction false} SumsWithout(ys: seq<real>, k: nat)
    requires k < |ys|
    ensures var rest := ys[..k] + ys[k + 1..];
      Total(ys) == Total(rest) + ys[k] && SumSq(ys) == SumSq(rest) + Sq(ys[k])
  {
    hide Sq;
    var n := |ys| - 1;
    var rest := ys[..k] + ys[k + 1..];
    if k == n {
      assert rest == ys[..n];
    } else {
      SumsWithout(ys[..n], k);
      assert rest[..n - 1] == ys[..n][..k] + ys[..n][k + 1..];
    }
  }

  /** The order of the entries does not matter. */
  lemma JainPermutation(xs: seq<real>, ys: seq<real>)
    requires xs != [] && AllPositive(xs) && multiset(xs) == multiset(ys)
    ensures ys != [] && AllPositive(ys) && Jain(xs) == Jain(ys)
  {
    SumsOfPermutation(xs, ys);
    forall i | 0 <= i < |ys|
      ensures ys[i] in xs
    {
      assert ys[i] in multiset(ys);
    }
  }

  // ---- A lower bound for entries in a range -----------------------------------

  lemma {:induction false} SquaresInRange(xs: seq<real>, m: real, most: real)
    requires forall i :: 0 <= i < |xs| ==> m <= xs[i] <= most
    ensures SumSq(xs) + Times(Count(xs), Times(m, most)) <= Times(m + most, Total(xs))
  {
    TimesAdd(m + most, 0.0, 0.0);
    TimesLeft(0.0, 0.0, Times(m, most));
    if xs != [] {
      hide Times, Sq;
      var front, x := xs[..|xs| - 1], xs[|xs| - 1];
      SquaresInRange(front, m, most);
      TimesAdd(m + most, Total(front), x);
      TimesLeft(Count(front), 1.0, Times(m, most));
      SquareInRange(x, m, most);
    }
  }

  lemma SquareInRange(x: real, m: real, most: real)
    requires m <= x <= most
    ensures Sq(x) + Times(m, most) <= Times(m + most, x)
  {
  }

  /** Entries in [m, most] have an index of at least 4 m most / (m + most)^2. */
  lemma JainRangeFloor(xs: seq<real>, m: real, most: real)
    requires xs != [] && AllPositive(xs) && 0.0 < m <= most
    requires forall i :: 0 <= i < |xs| ==> m <= xs[i] <= most
    ensures 0.0 < Sq(m + most)
    ensures 4.0 * Times(m, most) / Sq(m + most) <= Jain(xs)
  {
    SumsPositive(xs);
    MulPos(m, most);
    MulPos(m + most, m + most);
    MulPos(Count(xs), Times(m, most));
    hide Times, Sq;
    SquaresInRange(xs, m, most);
    var n, q, s, g := Count(xs), SumSq(xs), Total(xs), Times(m, most);
    ProductUnderSquare(Times(n, g), q, Times(m + most, s));
    SquareOfProduct(m + most, s);
    Regroup(n, q, g);
    FractionLe(4.0 * g, Sq(m + most), Sq(s), Times(n, q));
  }

  /** Four times a product is at most the square of any bound on the sum. */
  lemma ProductUnderSquare(a: real, b: real, bound: real)
    requires 0.0 <= a && 0.0 <= b && a + b <= bound
    ensures 4.0 * Times(a, b) <= Sq(bound)
  {
  }

  lemma Regroup(n: real, q: real, g: real)
    ensures 4.0 * Times(Times(n, g), q) == Times(4.0 * g, Times(n, q))
  {
  }

  lemma FractionLe(a: real, b: real, c: real, d: real)
    requires 0.0 < b && 0.0 < d && Times(a, d) <= Times(b, c)
    ensures a / b <= c / d
  {
  }
}
