/** Split sizes by largest remainders against the frozen source ratio, in exact arithmetic. */
module Targets {

  datatype Split = Train | Valid | Test

  const SPLITS: seq<Split> := [Train, Valid, Test]

  datatype Counts = Counts(train: int, valid: int, test: int) {
    function At(s: Split): int {
      match s case Train => train case Valid => valid case Test => test
    }

    function With(s: Split, n: int): Counts {
      match s case Train => this.(train := n) case Valid => this.(valid := n) case Test => this.(test := n)
    }

    function Sum(): int {
      train + valid + test
    }
  }

  const DENOMINATOR := 6577

  function Ratio(s: Split): nat {
    match s case Train => 5251 case Valid => 662 case Test => 664
  }

  /** Whole part of the quota total * ratio / DENOMINATOR. */
  function Whole(total: nat, s: Split): nat {
    total * Ratio(s) / DENOMINATOR
  }

  /** Numerator of the rest of the quota. */
  function Rest(total: nat, s: Split): (r: nat)
    ensures r < DENOMINATOR
    ensures DENOMINATOR * Whole(total, s) + r == total * Ratio(s)
  {
    total * Ratio(s) % DENOMINATOR
  }

  /** Alphabetical rank of the split names. */
  function NameRank(s: Split): nat {
    match s case Test => 0 case Train => 1 case Valid => 2
  }

  /** The sort key (-remainder, name). */
  predicate Before(total: nat, a: Split, b: Split) {
    || Rest(total, a) > Rest(total, b)
    || (Rest(total, a) == Rest(total, b) && NameRank(a) < NameRank(b))
  }

  /** How many splits come before s. */
  function Rank(total: nat, s: Split): nat {
    (if Before(total, Train, s) then 1 else 0) + (if Before(total, Valid, s) then 1 else 0)
    + (if Before(total, Test, s) then 1 else 0)
  }

  /** What the whole parts leave undistributed. */
  function Leftover(total: nat): int {
    total - Whole(total, Train) - Whole(total, Valid) - Whole(total, Test)
  }

  function Target(total: nat, s: Split): nat {
    Whole(total, s) + if Rank(total, s) < Leftover(total) then 1 else 0
  }

  function TargetCounts(total: nat): Counts {
    Counts(Target(total, Train), Target(total, Valid), Target(total, Test))
  }

  function Smaller(total: nat, a: Split, b: Split): Split {
    if Before(total, a, b) then a else b
  }

  /** The three splits by sort key, found by comparing. */
  function Order(total: nat): (order: seq<Split>)
    ensures |order| == 3
    ensures forall k :: 0 <= k < 3 ==> Rank(total, order[k]) == k
  {
    var first := Smaller(total, Smaller(total, Train, Valid), Test);
    var rest := if first == Train then [Valid, Test] else if first == Valid then [Train, Test] else [Train, Valid];
    var second := Smaller(total, rest[0], rest[1]);
    [first, second, if second == rest[0] then rest[1] else rest[0]]
  }

  /** The rests add up to the leftover, and are each short of a whole. */
  lemma LeftoverIsRests(total: nat)
    ensures DENOMINATOR * Leftover(total) == Rest(total, Train) + Rest(total, Valid) + Rest(total, Test)
    ensures 0 <= Leftover(total) <= 2
  {
    assert total * DENOMINATOR == total * 5251 + total * 662 + total * 664;
  }

  lemma RanksApart(total: nat)
    ensures forall a, b :: a != b ==> Rank(total, a) != Rank(total, b)
    ensures forall s :: Rank(total, s) < 3
  {
  }

  /** The sizes after k extra sentences have been handed out. */
  function Served(total: nat, k: int): Counts {
    Counts(Whole(total, Train) + (if Rank(total, Train) < k then 1 else 0),
           Whole(total, Valid) + (if Rank(total, Valid) < k then 1 else 0),
           Whole(total, Test) + (if Rank(total, Test) < k then 1 else 0))
  }

  lemma ServeNext(total: nat, k: nat, s: Split)
    requires Rank(total, s) == k
    ensures Served(total, k).With(s, Served(total, k).At(s) + 1) == Served(total, k + 1)
  {
    hide Rank, Whole;
    RanksApart(total);
    assert forall a :: Rank(total, a) < k + 1 <==> Rank(total, a) < k || a == s;
  }

  /** The counting loop hands one extra sentence to each of the first splits of the order. */
  method ComputeTargets(total: nat) returns (result: Counts)
    ensures result == TargetCounts(total)
  {
    hide Rank, Whole, Rest;
    LeftoverIsRests(total);
    result := Counts(Whole(total, Train), Whole(total, Valid), Whole(total, Test));
    var order, extra := Order(total), total - result.Sum();
    for k := 0 to extra
      invariant result == Served(total, k)
    {
      ServeNext(total, k, order[k]);
      result := result.With(order[k], result.At(order[k]) + 1);
    }
  }

  /** Main result. The targets add up to the total. */
  lemma TargetsAddUp(total: nat)
    ensures TargetCounts(total).Sum() == total
  {
    LeftoverIsRests(total);
    RanksApart(total);
  }

  /** Scaled distance of a size from the quota of its split. */
  function Deviation(total: nat, s: Split, size: int): int {
    var d := DENOMINATOR * size - total * Ratio(s);
    if d < 0 then -d else d
  }

  function TotalDeviation(total: nat, c: Counts): int {
    Deviation(total, Train, c.train) + Deviation(total, Valid, c.valid) + Deviation(total, Test, c.test)
  }

  lemma ExtraNeedsRest(total: nat, s: Split)
    requires Rank(total, s) < Leftover(total)
    ensures Rest(total, s) > 0
  {
    LeftoverIsRests(total);
  }

  /** Main result. Every target is the quota rounded down or up: less than one sentence off. */
  lemma TargetsRoundQuotas(total: nat, s: Split)
    ensures Deviation(total, s, Target(total, s)) < DENOMINATOR
    ensures Target(total, s) == Whole(total, s) || (Target(total, s) == Whole(total, s) + 1 && Rest(total, s) > 0)
  {
    if Rank(total, s) < Leftover(total) {
      ExtraNeedsRest(total, s);
    }
  }

  /** A rest no served split lies below and no unserved split lies above. */
  lemma Threshold(total: nat) returns (cut: nat)
    ensures cut <= DENOMINATOR
    ensures forall s :: if Rank(total, s) < Leftover(total) then Rest(total, s) >= cut else Rest(total, s) <= cut
  {
    hide Rest, Whole;
    LeftoverIsRests(total);
    var order := Order(total);
    cut := if Leftover(total) == 0 then DENOMINATOR else Rest(total, order[Leftover(total) - 1]);
    RanksApart(total);
    forall s
      ensures if Rank(total, s) < Leftover(total) then Rest(total, s) >= cut else Rest(total, s) <= cut
    {
      assert s == order[0] || s == order[1] || s == order[2];
    }
  }

  lemma Monotone(c: int, d: int, e: int)
    requires (e >= 0 && c >= d) || (e <= 0 && c <= d)
    ensures c * e >= d * e
  {
  }

  /** The deviation is convex: moving a target by e sentences costs at least e times the slope at the cut. */
  lemma SlopeBound(total: nat, s: Split, cut: nat, e: int)
    requires cut <= DENOMINATOR
    requires if Rank(total, s) < Leftover(total) then Rest(total, s) >= cut else Rest(total, s) <= cut
    ensures Deviation(total, s, Target(total, s) + e) >= Deviation(total, s, Target(total, s))
            + (DENOMINATOR - 2 * cut) * e
  {
    var r, slope := Rest(total, s), DENOMINATOR - 2 * cut;
    if e == 0 {
    } else if Rank(total, s) < Leftover(total) {
      if e > 0 { Monotone(DENOMINATOR, slope, e); } else { Monotone(DENOMINATOR - 2 * r, slope, e); FarBelow(r, e); }
    } else {
      if e > 0 { Monotone(DENOMINATOR - 2 * r, slope, e); FarAbove(r, e); } else { Monotone(-DENOMINATOR, slope, e); }
    }
  }

  lemma FarBelow(r: nat, e: int)
    requires r < DENOMINATOR && e < 0
    ensures r - DENOMINATOR * (1 + e) >= DENOMINATOR - r + (DENOMINATOR - 2 * r) * e
  {
    assert (DENOMINATOR - 2 * r) * e == DENOMINATOR * e - 2 * (r * e);
    Monotone(DENOMINATOR, r, -1 - e);
    assert (DENOMINATOR - r) * (-1 - e) >= 0;
  }

  lemma FarAbove(r: nat, e: int)
    requires r < DENOMINATOR && e > 0
    ensures DENOMINATOR * e - r >= r + (DENOMINATOR - 2 * r) * e
  {
    assert (DENOMINATOR - 2 * r) * e == DENOMINATOR * e - 2 * (r * e);
    Monotone(r, 0, e - 1);
    assert r * e == r * (e - 1) + r;
  }

  lemma CommonSlope(slope: int, a: int, b: int, c: int)
    requires a + b + c == 0
    ensures slope * a + slope * b + slope * c == 0
  {
    assert slope * a + slope * b + slope * c == slope * (a + b + c);
  }

  /** Main result. No other integer sizes with the same total deviate less from the quotas. */
  lemma TargetsDeviateLeast(total: nat, other: Counts)
    requires other.Sum() == total
    ensures TotalDeviation(total, TargetCounts(total)) <= TotalDeviation(total, other)
  {
    hide Deviation, Target, Rank, Leftover, Rest;
    var cut := Threshold(total);
    var t := TargetCounts(total);
    TargetsAddUp(total);
    var a, b, c := other.train - t.train, other.valid - t.valid, other.test - t.test;
    SlopeBound(total, Train, cut, a);
    SlopeBound(total, Valid, cut, b);
    SlopeBound(total, Test, cut, c);
    CommonSlope(DENOMINATOR - 2 * cut, a, b, c);
  }

  /** The extra sentences go to the largest rests; of equal rests "test" comes before "train" before "valid". */
  lemma ExtraGoesToLargest(total: nat, s: Split, t: Split)
    requires Target(total, s) > Whole(total, s) && Target(total, t) == Whole(total, t)
    ensures Rest(total, s) > Rest(total, t)
            || (Rest(total, s) == Rest(total, t) && (s == Test || (s == Train && t == Valid)))
  {
    hide Rest, Whole;
    RanksApart(total);
    RanksFollowKey(total, s, t);
  }

  lemma RanksFollowKey(total: nat, s: Split, t: Split)
    requires Rank(total, s) < Rank(total, t)
    ensures Before(total, s, t)
  {
    hide Rest, Whole;
  }

  /** For the frozen source the targets are the source's own sizes. */
  lemma SourceKeepsItsSizes()
    ensures TargetCounts(6577) == Counts(5251, 662, 664)
  {
    WholeQuota(Train);
    WholeQuota(Valid);
    WholeQuota(Test);
  }

  lemma WholeQuota(s: Split)
    ensures Whole(6577, s) == Ratio(s) && Rest(6577, s) == 0
  {
    assert 6577 * Ratio(s) == Ratio(s) * DENOMINATOR;
  }
}
