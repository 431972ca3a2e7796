/** The MVP screening rule of `check_mvp`: a stock passes when, over its
    15-day window, it rose on at least 12 of the 14 day-over-day steps
    (Momentum), its volume grew by at least 25% (Volume) and its price grew
    by at least 20% (Price). Decimal prices are exact reals, volumes are
    unbounded integers. */
module Screening {

  /** Number of trading days in one window. */
  const Window: nat := 15

  /** Index of the oldest day of a window, the baseline of both growth tests. */
  const Baseline: nat := Window - 1

  /** Number of day-over-day comparisons in a window. */
  const Steps: nat := Window - 1

  /** Fifteen prices, index 0 the most recent day and index 14 the oldest. */
  type Prices = s: seq<real> | |s| == Window witness seq(Window, _ => 0.0)

  /** Fifteen volumes, aligned day by day with the prices. */
  type Volumes = s: seq<int> | |s| == Window witness seq(Window, _ => 0)

  /** One symbol's window of history. */
  datatype StockRecord = StockRecord(symbol: string, prices: Prices, volumes: Volumes)

  /** Day i is an up-day: its price exceeds that of the older day i+1. */
  predicate RiseAt(p: seq<real>, i: nat)
    requires i + 1 < |p|
  {
    p[i] > p[i + 1]
  }

  /** Number of up-days among the first n comparisons. */
  function UpDaysIn(p: seq<real>, n: nat): (c: nat)
    requires n < |p|
    ensures c <= n
  {
    if n == 0 then 0
    else UpDaysIn(p, n - 1) + (if RiseAt(p, n - 1) then 1 else 0)
  }

  /** Number of up-days among the 14 comparisons of a window. */
  function UpDays(p: Prices): nat
  {
    UpDaysIn(p, Steps)
  }

  /** The positions i < n at which the price rose from day i+1 to day i. */
  ghost function RiseIndices(p: seq<real>, n: nat): set<nat>
    requires n < |p|
  {
    set i: nat | i < n && RiseAt(p, i)
  }

  /** The counter equals the number of rising positions. */
  lemma {:induction false} UpDaysInCountsRises(p: seq<real>, n: nat)
    requires n < |p|
    ensures UpDaysIn(p, n) == |RiseIndices(p, n)|
  {
    if n == 0 {
      assert RiseIndices(p, 0) == {};
    } else {
      UpDaysInCountsRises(p, n - 1);
      if RiseAt(p, n - 1) {
        assert RiseIndices(p, n) == RiseIndices(p, n - 1) + {n - 1};
      } else {
        assert RiseIndices(p, n) == RiseIndices(p, n - 1);
      }
    }
  }

  /** Every comparison is a rise exactly when the counter is at its maximum. */
  lemma {:induction false} UpDaysInAllRises(p: seq<real>, n: nat)
    requires n < |p|
    ensures UpDaysIn(p, n) == n <==> forall i :: 0 <= i < n ==> RiseAt(p, i)
  {
    if n > 0 {
      UpDaysInAllRises(p, n - 1);
    }
  }

  /** No comparison is a rise exactly when the counter is zero. */
  lemma {:induction false} UpDaysInNoRises(p: seq<real>, n: nat)
    requires n < |p|
    ensures UpDaysIn(p, n) == 0 <==> forall i :: 0 <= i < n ==> !RiseAt(p, i)
  {
    if n > 0 {
      UpDaysInNoRises(p, n - 1);
    }
  }

  /** The source's momentum test on the ratio up_days / 14 is exactly
      "at least 12 up-days": 11/14 is below 0.8 and 12/14 above it. */
  lemma MomentumThreshold(upDays: nat)
    ensures (upDays as real) / (Steps as real) > 0.8 <==> upDays >= 12
  {
  }

  /** The rule: both baselines non-zero, at least 12 up-days, volume growth
      of at least 25% and price growth of at least 20% from day 14 to day 0. */
  predicate Mvp(r: StockRecord)
  {
    && r.volumes[Baseline] != 0
    && r.prices[Baseline] != 0.0
    && UpDays(r.prices) >= 12
    && (r.volumes[0] - r.volumes[Baseline]) as real / r.volumes[Baseline] as real >= 0.25
    && (r.prices[0] - r.prices[Baseline]) / r.prices[Baseline] >= 0.20
  }

  /** `check_mvp`: counts the up-days, guards both denominators before
      dividing, then combines the three factors. */
  method CheckMvp(r: StockRecord) returns (pass: bool)
    ensures pass == Mvp(r)
  {
    var upDays := 0;
    for i := 0 to Steps
      invariant upDays == UpDaysIn(r.prices, i)
    {
      if RiseAt(r.prices, i) {
        upDays := upDays + 1;
      }
    }
    var upRatio := upDays as real / Steps as real;

    if r.volumes[Baseline] == 0 {
      return false;
    }
    var volumeIncrease := (r.volumes[0] - r.volumes[Baseline]) as real;
    var volumeRatio := volumeIncrease / r.volumes[Baseline] as real;

    if r.prices[Baseline] == 0.0 {
      return false;
    }
    var priceIncrease := r.prices[0] - r.prices[Baseline];
    var priceRatio := priceIncrease / r.prices[Baseline];

    var momentum := upRatio > 0.8;
    var volumeGrowth := volumeRatio >= 0.25;
    var priceGrowth := priceRatio >= 0.20;
    MomentumThreshold(upDays);
    pass := momentum && volumeGrowth && priceGrowth;
  }

  /** A zero baseline volume or a zero baseline price fails the rule,
      whatever the other values are. */
  lemma ZeroBaselineFails(r: StockRecord)
    ensures r.volumes[Baseline] == 0 ==> !Mvp(r)
    ensures r.prices[Baseline] == 0.0 ==> !Mvp(r)
  {
  }

  /** Dividing by a positive number keeps a lower bound; dividing by a
      negative one turns it into an upper bound. */
  lemma QuotientAtLeast(x: real, b: real, t: real)
    requires b != 0.0
    ensures x / b >= t <==> if b > 0.0 then x >= t * b else x <= t * b
  {
    var q := x / b;
    assert q * b == x;
    if b > 0.0 {
      assert (q - t) * b == x - t * b;
      assert q >= t <==> (q - t) * b >= 0.0;
    } else {
      assert (q - t) * b == x - t * b;
      assert q >= t <==> (q - t) * b <= 0.0;
    }
  }

  /** The volume test is inclusive: with a positive baseline it holds exactly
      when 4 * v0 >= 5 * v14 (for a negative baseline the inequality turns). */
  lemma VolumeGrowthThreshold(v0: int, v14: int)
    requires v14 != 0
    ensures (v0 - v14) as real / v14 as real >= 0.25
            <==> if v14 > 0 then 4 * v0 >= 5 * v14 else 4 * v0 <= 5 * v14
  {
    QuotientAtLeast((v0 - v14) as real, v14 as real, 0.25);
  }

  /** The price test is inclusive: with a positive baseline it holds exactly
      when 5 * p0 >= 6 * p14 (for a negative baseline the inequality turns). */
  lemma PriceGrowthThreshold(p0: real, p14: real)
    requires p14 != 0.0
    ensures (p0 - p14) / p14 >= 0.20
            <==> if p14 > 0.0 then 5.0 * p0 >= 6.0 * p14 else 5.0 * p0 <= 6.0 * p14
  {
    QuotientAtLeast(p0 - p14, p14, 0.20);
  }

  /** With positive baselines the rule is a statement about integers and
      exact products: at least 12 up-days, 4 * v0 >= 5 * v14 and
      5 * p0 >= 6 * p14. */
  lemma MvpWithPositiveBaselines(r: StockRecord)
    requires r.volumes[Baseline] > 0 && r.prices[Baseline] > 0.0
    ensures Mvp(r) <==> && UpDays(r.prices) >= 12
                        && 4 * r.volumes[0] >= 5 * r.volumes[Baseline]
                        && 5.0 * r.prices[0] >= 6.0 * r.prices[Baseline]
  {
    VolumeGrowthThreshold(r.volumes[0], r.volumes[Baseline]);
    PriceGrowthThreshold(r.prices[0], r.prices[Baseline]);
  }

  /** A window that rose on every one of its 14 steps has full momentum. */
  lemma AllRisesGiveFullMomentum(p: Prices)
    requires forall i :: 0 <= i < Steps ==> RiseAt(p, i)
    ensures UpDays(p) == Steps
  {
    UpDaysInAllRises(p, Steps);
  }

  /** Prices rising 110 -> 134 and volumes 1500 -> 2900 (listed newest
      first) pass. */
  lemma RisingSeriesPasses()
    ensures Mvp(StockRecord("TEST",
      [134.0, 132.0, 131.0, 129.0, 128.0, 127.0, 126.0, 124.0, 123.0, 122.0, 121.0, 119.0, 117.0, 115.0, 110.0],
      [2900, 2800, 2700, 2600, 2500, 2400, 2300, 2200, 2100, 2000, 1900, 1800, 1700, 1600, 1500]))
  {
    var p: Prices := [134.0, 132.0, 131.0, 129.0, 128.0, 127.0, 126.0, 124.0, 123.0, 122.0, 121.0, 119.0, 117.0, 115.0, 110.0];
    AllRisesGiveFullMomentum(p);
  }

  /** A flat window (every price 100, every volume 1000) fails: no up-day
      and no growth. */
  lemma ConstantSeriesFails()
    ensures !Mvp(StockRecord("FAIL", seq(15, _ => 100.0), seq(15, _ => 1000)))
  {
    var p: Prices := seq(15, _ => 100.0);
    UpDaysInNoRises(p, Steps);
  }

  /** Volumes 1250 against 1000 (exactly 25%) with 14 rises pass. */
  lemma VolumeBoundaryPasses()
    ensures Mvp(StockRecord("BORDERLINE_TRUE",
      [120.0, 110.0, 109.0, 108.0, 107.0, 106.0, 105.0, 104.0, 103.0, 102.0, 101.0, 100.0, 99.0, 98.0, 90.0],
      [1250, 1000, 1000, 1000, 1000, 1000, 1000, 1000, 1000, 1000, 1000, 1000, 1000, 1000, 1000]))
  {
    var p: Prices := [120.0, 110.0, 109.0, 108.0, 107.0, 106.0, 105.0, 104.0, 103.0, 102.0, 101.0, 100.0, 99.0, 98.0, 90.0];
    AllRisesGiveFullMomentum(p);
  }

  /** Volumes 1249 against 1000 (just under 25%) fail, all else passing. */
  lemma VolumeBelowBoundaryFails()
    ensures !Mvp(StockRecord("BORDERLINE_FALSE",
      [119.9, 110.0, 109.0, 108.0, 107.0, 106.0, 105.0, 104.0, 103.0, 102.0, 101.0, 100.0, 99.0, 98.0, 90.0],
      [1249, 1000, 1000, 1000, 1000, 1000, 1000, 1000, 1000, 1000, 1000, 1000, 1000, 1000, 1000]))
  {
    VolumeGrowthThreshold(1249, 1000);
  }

  /** Price 120 against 100 (exactly 20%) and volume 1250 against 1000
      (exactly 25%) with 14 rises pass: both tests are inclusive. */
  lemma ExactThresholdsPass()
    ensures Mvp(StockRecord("EXACT",
      [120.0, 113.0, 112.0, 111.0, 110.0, 109.0, 108.0, 107.0, 106.0, 105.0, 104.0, 103.0, 102.0, 101.0, 100.0],
      [1250, 1000, 1000, 1000, 1000, 1000, 1000, 1000, 1000, 1000, 1000, 1000, 1000, 1000, 1000]))
  {
    var p: Prices := [120.0, 113.0, 112.0, 111.0, 110.0, 109.0, 108.0, 107.0, 106.0, 105.0, 104.0, 103.0, 102.0, 101.0, 100.0];
    AllRisesGiveFullMomentum(p);
  }
}
