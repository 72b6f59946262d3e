/**
 * The pace table of src/data/pace-chart.ts: for every pace from 2:50 to
 * 10:00 per kilometre in steps of five seconds, the finishing time over
 * ten distances from 1 km to the marathon.
 *
 * JavaScript numbers are modelled as exact reals where the source
 * multiplies by a fractional distance, and as integers for paces, which
 * are whole seconds.  `Math.floor`, the truncating `%` and `Math.round`
 * are written out.
 */
module PaceChart {

  datatype Pace = Pace(minutes: int, seconds: int)

  datatype TotalTime = TotalTime(hours: int, minutes: int, seconds: int)

  datatype DistanceTime = DistanceTime(distanceKm: real, totalTime: TotalTime)

  datatype PaceChartEntry = PaceChartEntry(pacePerKm: Pace, times: seq<DistanceTime>)

  /** JavaScript's `a % b` on integers for `b > 0`: the remainder takes the sign of `a`. */
  function RemInt(a: int, b: int): (r: int)
    requires b > 0
    ensures -b < r < b
    ensures a >= 0 ==> 0 <= r
    ensures a <= 0 ==> r <= 0
  {
    if a >= 0 then a % b else -((-a) % b)
  }

  /** JavaScript's `Math.floor` on reals. */
  function Floor(x: real): int
  {
    x.Floor
  }

  /** JavaScript's `x % b` on reals for `b > 0`: `x` minus `b` times the quotient truncated toward zero. */
  function RemReal(x: real, b: real): real
    requires b > 0.0
  {
    if x >= 0.0 then x - b * (Floor(x / b) as real)
    else x + b * (Floor(-x / b) as real)
  }

  /** For the two divisors the table uses, a non-negative `x` is a whole multiple of `b` plus a remainder below `b`. */
  lemma RemRealBounds(x: real, b: real)
    requires b == 60.0 || b == 3600.0
    requires x >= 0.0
    ensures 0.0 <= RemReal(x, b) < b
    ensures x == b * (Floor(x / b) as real) + RemReal(x, b)
  {
    if b == 60.0 {
      assert RemReal(x, 60.0) == x - 60.0 * (Floor(x / 60.0) as real);
    } else {
      assert RemReal(x, 3600.0) == x - 3600.0 * (Floor(x / 3600.0) as real);
    }
  }

  /** JavaScript's `Math.round`: the nearest integer, halves rounded up. */
  function Round(x: real): (r: int)
    ensures x - 0.5 < r as real <= x + 0.5
  {
    Floor(x + 0.5)
  }

  /** `paceToSeconds`. */
  function PaceToSeconds(pace: Pace): int
  {
    pace.minutes * 60 + pace.seconds
  }

  /** `secondsToPace`: `Math.floor(t / 60)` minutes and `t % 60` seconds. */
  function SecondsToPace(totalSeconds: int): Pace
  {
    Pace(totalSeconds / 60, RemInt(totalSeconds, 60))
  }

  /** `secondsToTotalTime`: whole hours, whole minutes of the rest, and the remaining seconds rounded. */
  function SecondsToTotalTime(totalSeconds: real): TotalTime
  {
    var hours := Floor(totalSeconds / 3600.0);
    var remaining := RemReal(totalSeconds, 3600.0);
    var minutes := Floor(remaining / 60.0);
    var seconds := Round(RemReal(remaining, 60.0));
    TotalTime(hours, minutes, seconds)
  }

  /** The time in seconds a total time shows. */
  function TotalSeconds(t: TotalTime): int
  {
    t.hours * 3600 + t.minutes * 60 + t.seconds
  }

  /** A pace in normal form. */
  predicate NormalPace(p: Pace)
  {
    0 <= p.minutes && 0 <= p.seconds < 60
  }

  /** A non-negative whole number of seconds splits into a normal pace and back. */
  lemma PaceRoundTrip(t: int)
    requires t >= 0
    ensures NormalPace(SecondsToPace(t))
    ensures PaceToSeconds(SecondsToPace(t)) == t
  {
  }

  /** A normal pace survives the trip through seconds. */
  lemma SecondsRoundTrip(p: Pace)
    requires NormalPace(p)
    ensures SecondsToPace(PaceToSeconds(p)) == p
  {
    var t := PaceToSeconds(p);
    assert t == p.minutes * 60 + p.seconds;
    assert t / 60 == p.minutes && t % 60 == p.seconds by {
      assert 0 <= p.seconds < 60;
    }
  }

  /** Without a non-negative total the truncating `%` breaks the round trip: -30 seconds are not -1:30. */
  lemma NegativePaceDoesNotRoundTrip()
    ensures SecondsToPace(PaceToSeconds(Pace(-1, 30))) == Pace(-1, -30)
  {
  }

  /** A whole number of seconds splits exactly into hours, minutes below 60 and seconds below 60. */
  lemma TotalTimeExact(n: int)
    requires n >= 0
    ensures 0 <= SecondsToTotalTime(n as real).minutes < 60
    ensures 0 <= SecondsToTotalTime(n as real).seconds < 60
    ensures TotalSeconds(SecondsToTotalTime(n as real)) == n
  {
    var x := n as real;
    var h := Floor(x / 3600.0);
    assert h == n / 3600;
    var rem := RemReal(x, 3600.0);
    assert rem == (n % 3600) as real;
    var m := Floor(rem / 60.0);
    assert m == (n % 3600) / 60;
    var s := RemReal(rem, 60.0);
    assert s == ((n % 3600) % 60) as real;
  }

  /** Any non-negative time is shown within half a second, with minutes below 60 and seconds at most 60. */
  lemma TotalTimeClose(x: real)
    requires x >= 0.0
    ensures 0 <= SecondsToTotalTime(x).minutes < 60
    ensures 0 <= SecondsToTotalTime(x).seconds <= 60
    ensures x - 0.5 < TotalSeconds(SecondsToTotalTime(x)) as real <= x + 0.5
  {
    var h := Floor(x / 3600.0);
    var rem := RemReal(x, 3600.0);
    assert rem == x - 3600.0 * h as real;
    var m := Floor(rem / 60.0);
    var s := RemReal(rem, 60.0);
    assert s == rem - 60.0 * m as real;
    assert 0 <= m < 60;
  }

  /** Rounding can show 60 seconds: 59.5 s is shown as 0:00:60. */
  lemma RoundingReachesSixty()
    ensures SecondsToTotalTime(59.5) == TotalTime(0, 0, 60)
  {
    assert Floor(59.5 / 3600.0) == 0;
    assert RemReal(59.5, 3600.0) == 59.5;
    assert Floor(59.5 / 60.0) == 0;
    assert RemReal(59.5, 60.0) == 59.5;
  }

  // ---------------------------------------------------------------------
  // The table

  const Max1kmSpeed := Pace(2, 50)
  const Min1kmSpeed := Pace(10, 0)
  const IntervalInSeconds := 5
  const DistancesKms: seq<real> := [1.0, 5.0, 10.0, 20.0, 21.0975, 25.0, 30.0, 35.0, 40.0, 42.195]

  /** `distancesKms.map(...)`: the finishing time over each distance at `paceSeconds` per kilometre. */
  function TimesFor(paceSeconds: int): (r: seq<DistanceTime>)
    ensures |r| == |DistancesKms|
    ensures forall j :: 0 <= j < |r| ==> r[j].distanceKm == DistancesKms[j]
  {
    seq(|DistancesKms|, j requires 0 <= j < |DistancesKms| =>
      DistanceTime(DistancesKms[j], SecondsToTotalTime(paceSeconds as real * DistancesKms[j])))
  }

  /** The table row for one pace. */
  function Entry(paceSeconds: int): PaceChartEntry
  {
    PaceChartEntry(SecondsToPace(paceSeconds), TimesFor(paceSeconds))
  }

  /** The number of paces from the fastest to the slowest in steps of the interval. */
  function EntryCount(): nat
  {
    (PaceToSeconds(Min1kmSpeed) - PaceToSeconds(Max1kmSpeed)) / IntervalInSeconds + 1
  }

  /** The table the loop builds: the row for every `interval`-th pace from the fastest. */
  function Chart(): seq<PaceChartEntry>
  {
    seq(EntryCount(), i requires 0 <= i < EntryCount() => Entry(PaceToSeconds(Max1kmSpeed) + IntervalInSeconds * i))
  }

  /** `getPaceChart`. */
  method GetPaceChart() returns (paceChart: seq<PaceChartEntry>)
    ensures paceChart == Chart()
  {
    var minPaceSeconds := PaceToSeconds(Max1kmSpeed);
    var maxPaceSeconds := PaceToSeconds(Min1kmSpeed);
    paceChart := [];
    var paceSeconds := minPaceSeconds;
    while paceSeconds <= maxPaceSeconds
      invariant paceSeconds == minPaceSeconds + IntervalInSeconds * |paceChart|
      invariant |paceChart| <= EntryCount()
      invariant paceSeconds <= maxPaceSeconds ==> |paceChart| < EntryCount()
      invariant forall i :: 0 <= i < |paceChart| ==> paceChart[i] == Entry(minPaceSeconds + IntervalInSeconds * i)
      decreases maxPaceSeconds - paceSeconds
    {
      var pacePerKm := SecondsToPace(paceSeconds);
      var times := TimesFor(paceSeconds);
      paceChart := paceChart + [PaceChartEntry(pacePerKm, times)];
      paceSeconds := paceSeconds + IntervalInSeconds;
    }
  }

  /** 87 rows, from 2:50 to 10:00. */
  lemma ChartBounds()
    ensures |Chart()| == 87
    ensures Chart()[0].pacePerKm == Pace(2, 50)
    ensures Chart()[86].pacePerKm == Pace(10, 0)
  {
    assert EntryCount() == 87;
    assert Chart()[86] == Entry(600);
  }

  /** Row `i` is the pace of 170 + 5i seconds in normal form. */
  lemma ChartPaces(i: int)
    requires 0 <= i < |Chart()|
    ensures NormalPace(Chart()[i].pacePerKm)
    ensures PaceToSeconds(Chart()[i].pacePerKm) == 170 + 5 * i
  {
    PaceRoundTrip(170 + 5 * i);
  }

  /** The paces strictly increase down the table. */
  lemma ChartIncreasing(i: int, j: int)
    requires 0 <= i < j < |Chart()|
    ensures PaceToSeconds(Chart()[i].pacePerKm) < PaceToSeconds(Chart()[j].pacePerKm)
  {
    ChartPaces(i);
    ChartPaces(j);
  }

  /** A row's time over the `j`-th distance is the pace times the distance, to within half a second. */
  lemma EntryTimes(paceSeconds: int, j: int)
    requires paceSeconds >= 0 && 0 <= j < |DistancesKms|
    ensures var x := paceSeconds as real * DistancesKms[j];
      x - 0.5 < TotalSeconds(Entry(paceSeconds).times[j].totalTime) as real <= x + 0.5
  {
    assert DistancesKms[j] > 0.0;
    TotalTimeClose(paceSeconds as real * DistancesKms[j]);
  }

  /** Every row lists the ten distances in order, each with the pace's time over it to within half a second. */
  lemma ChartTimes(i: int, j: int)
    requires 0 <= i < |Chart()|
    ensures |Chart()[i].times| == 10
    ensures 0 <= j < 10 ==> Chart()[i].times[j].distanceKm == DistancesKms[j]
    ensures 0 <= j < 10 ==>
      var x := (170 + 5 * i) as real * DistancesKms[j];
      x - 0.5 < TotalSeconds(Chart()[i].times[j].totalTime) as real <= x + 0.5
  {
    assert Chart()[i] == Entry(170 + 5 * i);
    if 0 <= j < 10 {
      EntryTimes(170 + 5 * i, j);
    }
  }
}
