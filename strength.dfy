/**
 * The aggregation behind the strength-evolution panel of
 * src/components/StrengthEvolutionPanel.tsx: the chart of the heaviest
 * weight lifted per day and exercise, the exercises that have any data,
 * and the first-day/last-day gain of each muscle group.
 *
 * Weights are exact reals, so `Math.max` is exact and the gain is the
 * exact quotient; dates are ISO date strings compared lexicographically.
 */
module Strength {
  import opened Wrappers
  import opened Order
  import opened Domain

  const StrengthPrefix := "StrengthTraining"

  /** `activity.type.startsWith('StrengthTraining')`. */
  predicate IsStrengthActivity(a: Activity)
  {
    StrengthPrefix <= TypeName(a.activityType)
  }

  /** The strength types in the order the gains are listed. */
  const StrengthTypes: seq<ActivityType> := [
    StrengthTrainingLegs, StrengthTrainingArms, StrengthTrainingCore,
    StrengthTrainingChest, StrengthTrainingShoulders, StrengthTrainingBack]

  /** `activities.filter(isStrengthActivity)`. */
  function StrengthOnly(acts: seq<Activity>): seq<Activity>
  {
    if acts == [] then []
    else (if IsStrengthActivity(acts[0]) then [acts[0]] else []) + StrengthOnly(acts[1..])
  }

  /** The filter keeps exactly the strength activities. */
  lemma {:induction false} StrengthOnlyMembers(acts: seq<Activity>)
    ensures forall a :: a in StrengthOnly(acts) <==> a in acts && IsStrengthActivity(a)
  {
    if acts != [] {
      StrengthOnlyMembers(acts[1..]);
      assert acts == [acts[0]] + acts[1..];
    }
  }

  // ---------------------------------------------------------------------
  // The chart

  /** The positive weights of the repetitions of type `t`, in order. */
  function PositiveWeights(reps: seq<Repetition>, t: RepetitionType): seq<real>
  {
    if reps == [] then []
    else
      var last := reps[|reps| - 1];
      PositiveWeights(reps[..|reps| - 1], t) + (if last.repetitionType == t && last.weightKg > 0.0 then [last.weightKg] else [])
  }

  /** The weights the chart collects for `date` and `t`, over the activities in order. */
  function DayWeights(acts: seq<Activity>, date: string, t: RepetitionType): seq<real>
  {
    if acts == [] then []
    else
      var last := acts[|acts| - 1];
      DayWeights(acts[..|acts| - 1], date, t) + (if last.date == date then PositiveWeights(last.repetitions, t) else [])
  }

  /** `ws.length > 0 ? Math.max(...ws) : null`. */
  function MaxOf(ws: seq<real>): (r: Option<real>)
    ensures r.None? <==> ws == []
  {
    if ws == [] then None
    else
      var last := ws[|ws| - 1];
      match MaxOf(ws[..|ws| - 1])
      case None => Some(last)
      case Some(m) => Some(if last > m then last else m)
  }

  /** The maximum is one of the weights and no weight exceeds it. */
  lemma {:induction false} MaxOfIsMax(ws: seq<real>)
    ensures MaxOf(ws).Some? ==> MaxOf(ws).value in ws && forall i :: 0 <= i < |ws| ==> ws[i] <= MaxOf(ws).value
  {
    if ws != [] {
      var init := ws[..|ws| - 1];
      MaxOfIsMax(init);
      assert forall i :: 0 <= i < |init| ==> ws[i] == init[i];
    }
  }

  /** A point of the chart: a date and, per exercise, the day's heaviest weight or nothing. */
  datatype ChartPoint = ChartPoint(date: string, weights: map<RepetitionType, Option<real>>)

  function ChartPointDate(p: ChartPoint): string { p.date }

  /** The point the chart computes for `date` from the strength activities `acts`. */
  function PointFor(acts: seq<Activity>, date: string): ChartPoint
  {
    ChartPoint(date, map t | t in RepetitionTypes :: MaxOf(DayWeights(acts, date, t)))
  }

  /** `ts.some(t => point[t] !== null)`. */
  predicate SomeWeight(p: ChartPoint, ts: seq<RepetitionType>)
  {
    ts != [] && ((ts[0] in p.weights && p.weights[ts[0]].Some?) || SomeWeight(p, ts[1..]))
  }

  /** Some exercise has a weight on that day. */
  predicate HasData(p: ChartPoint)
  {
    SomeWeight(p, RepetitionTypes)
  }

  /** `some` finds exactly the exercises of `ts` with a weight. */
  lemma {:induction false} SomeWeightExists(p: ChartPoint, ts: seq<RepetitionType>)
    ensures SomeWeight(p, ts) <==> exists k :: 0 <= k < |ts| && ts[k] in p.weights && p.weights[ts[k]].Some?
  {
    if ts != [] {
      SomeWeightExists(p, ts[1..]);
      if exists k :: 0 <= k < |ts| && ts[k] in p.weights && p.weights[ts[k]].Some? {
        var k :| 0 <= k < |ts| && ts[k] in p.weights && p.weights[ts[k]].Some?;
        if k > 0 {
          assert ts[1..][k - 1] == ts[k];
        }
      }
      if SomeWeight(p, ts[1..]) {
        var k :| 0 <= k < |ts[1..]| && ts[1..][k] in p.weights && p.weights[ts[1..][k]].Some?;
        assert ts[k + 1] == ts[1..][k];
      }
    }
  }

  /** A point has data exactly when some exercise has a weight on it. */
  lemma HasDataExists(p: ChartPoint)
    ensures HasData(p) <==> exists t :: t in p.weights && p.weights[t].Some?
  {
    SomeWeightExists(p, RepetitionTypes);
    if exists t :: t in p.weights && p.weights[t].Some? {
      var t :| t in p.weights && p.weights[t].Some?;
      assert t == RepetitionTypes[0] || t == RepetitionTypes[1];
    }
  }

  /**
   * What the chart is: one point per date that has a positive weight, each
   * the day's maximum per exercise, in strictly increasing date order.
   */
  ghost predicate IsChart(activities: seq<Activity>, points: seq<ChartPoint>)
  {
    var strength := StrengthOnly(activities);
    && (forall i, j :: 0 <= i < j < |points| ==> StrLt(points[i].date, points[j].date))
    && (forall i :: 0 <= i < |points| ==> points[i] == PointFor(strength, points[i].date) && HasData(points[i]))
    && (forall i :: 0 <= i < |strength| && HasData(PointFor(strength, strength[i].date)) ==>
          exists j :: 0 <= j < |points| && points[j].date == strength[i].date)
  }

  lemma EveryRepetitionType(t: RepetitionType)
    ensures t in RepetitionTypes
  {
  }

  /** One more activity adds its weights to the ones already collected for its date. */
  lemma DayWeightsStep(acts: seq<Activity>, i: nat, date: string, t: RepetitionType)
    requires i < |acts|
    ensures DayWeights(acts[..i + 1], date, t)
         == DayWeights(acts[..i], date, t) + (if acts[i].date == date then PositiveWeights(acts[i].repetitions, t) else [])
  {
    assert acts[..i + 1][..i] == acts[..i];
  }

  lemma PositiveWeightsStep(reps: seq<Repetition>, j: nat, t: RepetitionType)
    requires j < |reps|
    ensures PositiveWeights(reps[..j + 1], t)
         == PositiveWeights(reps[..j], t) + (if reps[j].repetitionType == t && reps[j].weightKg > 0.0 then [reps[j].weightKg] else [])
  {
    assert reps[..j + 1][..j] == reps[..j];
  }

  /** The weights collected for an exercise are exactly the positive weights lifted in it. */
  lemma {:induction false} PositiveWeightsMembers(reps: seq<Repetition>, t: RepetitionType)
    ensures forall i :: 0 <= i < |PositiveWeights(reps, t)| ==> PositiveWeights(reps, t)[i] > 0.0
    ensures forall w :: w in PositiveWeights(reps, t) <==>
      w > 0.0 && exists j :: 0 <= j < |reps| && reps[j].repetitionType == t && reps[j].weightKg == w
  {
    if reps != [] {
      var n := |reps| - 1;
      PositiveWeightsMembers(reps[..n], t);
      forall w | w > 0.0 && (exists j :: 0 <= j < |reps| && reps[j].repetitionType == t && reps[j].weightKg == w)
        ensures w in PositiveWeights(reps, t)
      {
        var j :| 0 <= j < |reps| && reps[j].repetitionType == t && reps[j].weightKg == w;
        if j < n {
          assert reps[..n][j] == reps[j];
        }
      }
      forall w | w in PositiveWeights(reps, t)
        ensures exists j :: 0 <= j < |reps| && reps[j].repetitionType == t && reps[j].weightKg == w
      {
        if w in PositiveWeights(reps[..n], t) {
          var j :| 0 <= j < n && reps[..n][j].repetitionType == t && reps[..n][j].weightKg == w;
          assert reps[j] == reps[..n][j];
        }
      }
    }
  }

  /** The inner loop of the grouping: push each positive weight onto its exercise's list. */
  method PushWeights(dateData: map<RepetitionType, seq<real>>, reps: seq<Repetition>) returns (r: map<RepetitionType, seq<real>>)
    requires forall t :: t in dateData
    ensures forall t :: t in r && r[t] == dateData[t] + PositiveWeights(reps, t)
  {
    r := dateData;
    for j := 0 to |reps|
      invariant forall t :: t in r && r[t] == dateData[t] + PositiveWeights(reps[..j], t)
    {
      var rep := reps[j];
      forall t ensures PositiveWeights(reps[..j + 1], t)
          == PositiveWeights(reps[..j], t) + (if rep.repetitionType == t && rep.weightKg > 0.0 then [rep.weightKg] else []) {
        PositiveWeightsStep(reps, j, t);
      }
      if rep.weightKg > 0.0 {
        r := r[rep.repetitionType := r[rep.repetitionType] + [rep.weightKg]];
      }
    }
    assert reps[..|reps|] == reps;
  }

  /**
   * The first loop of `chartData`: the `dataByDate` map, with its dates in
   * first-seen order, holding every date's positive weights per exercise.
   */
  method GroupByDate(strength: seq<Activity>) returns (dataByDate: map<string, map<RepetitionType, seq<real>>>, dates: seq<string>)
    ensures forall k :: 0 <= k < |dates| ==> dates[k] in dataByDate
    ensures forall k, l :: 0 <= k < l < |dates| ==> dates[k] != dates[l]
    ensures forall k :: 0 <= k < |strength| ==> strength[k].date in dates
    ensures forall d, t :: d in dataByDate ==> t in dataByDate[d] && dataByDate[d][t] == DayWeights(strength, d, t)
  {
    dataByDate, dates := map[], [];
    for i := 0 to |strength|
      invariant forall k :: 0 <= k < |dates| ==> dates[k] in dataByDate
      invariant forall d :: d in dataByDate ==> d in dates
      invariant forall k, l :: 0 <= k < l < |dates| ==> dates[k] != dates[l]
      invariant forall k :: 0 <= k < i ==> strength[k].date in dataByDate
      invariant forall d, t :: d in dataByDate ==> t in dataByDate[d] && dataByDate[d][t] == DayWeights(strength[..i], d, t)
      invariant forall d, t :: d !in dataByDate ==> DayWeights(strength[..i], d, t) == []
    {
      var activity := strength[i];
      var dateKey := activity.date;
      ghost var start := dataByDate;
      if dateKey !in dataByDate {
        var emptyRecord := map t | t in RepetitionTypes :: [];
        forall t: RepetitionType ensures t in emptyRecord {
          EveryRepetitionType(t);
        }
        dataByDate := dataByDate[dateKey := emptyRecord];
        dates := dates + [dateKey];
      }
      assert forall t :: dataByDate[dateKey][t] == DayWeights(strength[..i], dateKey, t);
      var dateData := PushWeights(dataByDate[dateKey], activity.repetitions);
      ghost var before := dataByDate;
      ghost var done, next := strength[..i], strength[..i + 1];
      dataByDate := dataByDate[dateKey := dateData];
      forall d, t ensures DayWeights(next, d, t)
          == DayWeights(done, d, t) + (if activity.date == d then PositiveWeights(activity.repetitions, t) else []) {
        DayWeightsStep(strength, i, d, t);
      }
      forall d, t | d !in dataByDate
        ensures DayWeights(next, d, t) == []
      {
        assert d != dateKey && d !in start;
      }
      forall d, t | d in dataByDate
        ensures t in dataByDate[d] && dataByDate[d][t] == DayWeights(next, d, t)
      {
        if d != dateKey {
          assert dataByDate[d] == before[d];
        }
      }
    }
    assert strength[..|strength|] == strength;
  }

  /** The points of `ds`, in that order, keeping those with data. */
  ghost function ChartOf(strength: seq<Activity>, ds: seq<string>): seq<ChartPoint>
  {
    if ds == [] then []
    else
      var p := PointFor(strength, ds[|ds| - 1]);
      ChartOf(strength, ds[..|ds| - 1]) + (if HasData(p) then [p] else [])
  }

  /** Every point is the day's point for its date and has data. */
  ghost predicate DayPoints(strength: seq<Activity>, c: seq<ChartPoint>)
  {
    forall p :: 0 <= p < |c| ==> c[p] == PointFor(strength, c[p].date) && HasData(c[p])
  }

  /** Every date of `ds` whose point has data has a point in `c`. */
  ghost predicate Covers(strength: seq<Activity>, c: seq<ChartPoint>, ds: seq<string>)
  {
    forall l :: 0 <= l < |ds| && HasData(PointFor(strength, ds[l])) ==> exists p :: 0 <= p < |c| && c[p].date == ds[l]
  }

  ghost predicate DistinctDates(c: seq<ChartPoint>)
  {
    forall p, q :: 0 <= p < q < |c| ==> c[p].date != c[q].date
  }

  /** Each kept point is the day's point and has data. */
  lemma {:induction false} ChartOfDays(strength: seq<Activity>, ds: seq<string>)
    ensures DayPoints(strength, ChartOf(strength, ds))
  {
    if ds != [] {
      var n := |ds| - 1;
      ChartOfDays(strength, ds[..n]);
      var c0, c := ChartOf(strength, ds[..n]), ChartOf(strength, ds);
      var pt := PointFor(strength, ds[n]);
      assert c == c0 + (if HasData(pt) then [pt] else []);
      forall p | 0 <= p < |c|
        ensures c[p] == PointFor(strength, c[p].date) && HasData(c[p])
      {
        if p < |c0| {
          assert c[p] == c0[p];
        } else {
          assert c[p] == pt;
        }
      }
    }
  }

  /** Each kept point's date is one of `ds`. */
  lemma {:induction false} ChartOfDates(strength: seq<Activity>, ds: seq<string>)
    ensures forall p :: 0 <= p < |ChartOf(strength, ds)| ==> ChartOf(strength, ds)[p].date in ds
  {
    if ds != [] {
      var n := |ds| - 1;
      var init := ds[..n];
      ChartOfDates(strength, init);
      var c0, c := ChartOf(strength, init), ChartOf(strength, ds);
      var pt := PointFor(strength, ds[n]);
      assert c == c0 + (if HasData(pt) then [pt] else []);
      forall p | 0 <= p < |c|
        ensures c[p].date in ds
      {
        if p < |c0| {
          assert c[p] == c0[p] && c0[p].date in init;
        } else {
          assert c[p] == pt;
        }
      }
    }
  }

  /** Every date of `ds` with data is kept. */
  lemma {:induction false} ChartOfCovers(strength: seq<Activity>, ds: seq<string>)
    ensures Covers(strength, ChartOf(strength, ds), ds)
  {
    if ds != [] {
      var n := |ds| - 1;
      var init := ds[..n];
      ChartOfCovers(strength, init);
      var c0, c := ChartOf(strength, init), ChartOf(strength, ds);
      var pt := PointFor(strength, ds[n]);
      assert c == c0 + (if HasData(pt) then [pt] else []);
      forall l | 0 <= l < |ds| && HasData(PointFor(strength, ds[l]))
        ensures exists p :: 0 <= p < |c| && c[p].date == ds[l]
      {
        if l < n {
          assert init[l] == ds[l];
          var p :| 0 <= p < |c0| && c0[p].date == init[l];
          assert c[p] == c0[p];
        } else {
          assert c[|c| - 1] == pt;
        }
      }
    }
  }

  /** Distinct dates give points with distinct dates. */
  lemma {:induction false} ChartOfDistinct(strength: seq<Activity>, ds: seq<string>)
    requires forall k, l :: 0 <= k < l < |ds| ==> ds[k] != ds[l]
    ensures DistinctDates(ChartOf(strength, ds))
  {
    if ds != [] {
      var n := |ds| - 1;
      var init := ds[..n];
      ChartOfDistinct(strength, init);
      ChartOfDates(strength, init);
      var c0, c := ChartOf(strength, init), ChartOf(strength, ds);
      var pt := PointFor(strength, ds[n]);
      assert c == c0 + (if HasData(pt) then [pt] else []);
      forall p, q | 0 <= p < q < |c|
        ensures c[p].date != c[q].date
      {
        assert c[p] == c0[p] && c0[p].date in init;
        if q == |c0| {
          assert c[q] == pt;
          var k :| 0 <= k < n && init[k] == c0[p].date;
          assert ds[k] == init[k];
        } else {
          assert c[q] == c0[q];
        }
      }
    }
  }

  /** The inner loop of the second loop: set each exercise's entry to the maximum of its weights, or nothing. */
  method BuildPoint(date: string, weights: map<RepetitionType, seq<real>>) returns (point: ChartPoint)
    requires forall t :: t in weights
    ensures point.date == date
    ensures forall t :: t in point.weights && point.weights[t] == MaxOf(weights[t])
  {
    var values: map<RepetitionType, Option<real>> := map[];
    for i := 0 to |RepetitionTypes|
      invariant forall j :: 0 <= j < i ==> RepetitionTypes[j] in values && values[RepetitionTypes[j]] == MaxOf(weights[RepetitionTypes[j]])
      invariant forall t :: t in values ==> values[t] == MaxOf(weights[t])
    {
      var repType := RepetitionTypes[i];
      var repWeights := weights[repType];
      values := values[repType := MaxOf(repWeights)];
    }
    forall t ensures t in values {
      assert t == RepetitionTypes[0] || t == RepetitionTypes[1];
    }
    point := ChartPoint(date, values);
  }

  /** The point built from a day's record of weights is the day's point. */
  lemma PointFromRecord(strength: seq<Activity>, date: string, weights: map<RepetitionType, seq<real>>, point: ChartPoint)
    requires forall t :: t in weights && weights[t] == DayWeights(strength, date, t)
    requires point.date == date
    requires forall t :: t in point.weights && point.weights[t] == MaxOf(weights[t])
    ensures point == PointFor(strength, date)
  {
    forall t ensures t in RepetitionTypes { EveryRepetitionType(t); }
    assert point.weights == PointFor(strength, date).weights;
  }

  /** One more date adds its point when it has data. */
  lemma ChartOfStep(strength: seq<Activity>, ds: seq<string>, k: nat)
    requires k < |ds|
    ensures ChartOf(strength, ds[..k + 1])
         == ChartOf(strength, ds[..k]) + (if HasData(PointFor(strength, ds[k])) then [PointFor(strength, ds[k])] else [])
  {
    assert ds[..k + 1][..k] == ds[..k];
  }

  /** The second loop of `chartData`: one point per date that has data, in the map's order. */
  method PointsOf(strength: seq<Activity>, dataByDate: map<string, map<RepetitionType, seq<real>>>, dates: seq<string>)
    returns (data: seq<ChartPoint>)
    requires forall k :: 0 <= k < |dates| ==> dates[k] in dataByDate
    requires forall d, t :: d in dataByDate ==> t in dataByDate[d] && dataByDate[d][t] == DayWeights(strength, d, t)
    ensures data == ChartOf(strength, dates)
  {
    data := [];
    for k := 0 to |dates|
      invariant data == ChartOf(strength, dates[..k])
    {
      var date := dates[k];
      var weights := dataByDate[date];
      var point := BuildPoint(date, weights);
      PointFromRecord(strength, date, weights, point);
      ChartOfStep(strength, dates, k);
      if HasData(point) {
        data := data + [point];
      }
    }
    assert dates[..|dates|] == dates;
  }

  /** `chartData`: group by date in first-seen order, take each day's maxima, drop empty days, sort by date. */
  method ChartData(activities: seq<Activity>) returns (points: seq<ChartPoint>)
    ensures IsChart(activities, points)
  {
    var strength := StrengthOnly(activities);
    if |strength| == 0 {
      return [];
    }
    var dataByDate, dates := GroupByDate(strength);
    var data := PointsOf(strength, dataByDate, dates);
    ChartOfDays(strength, dates);
    ChartOfCovers(strength, dates);
    ChartOfDistinct(strength, dates);
    points := SortByDate(data, ChartPointDate);
    ChartPointsDistinct(data, points);
    SortedDistinctIsStrict(points);
    ReorderedDayPoints(strength, data, points);
    ReorderedCovers(strength, data, points, dates);
  }

  /** Sorted with distinct dates means strictly increasing dates. */
  lemma SortedDistinctIsStrict(points: seq<ChartPoint>)
    requires SortedByDate(points, ChartPointDate)
    requires DistinctDates(points)
    ensures forall i, j :: 0 <= i < j < |points| ==> StrLt(points[i].date, points[j].date)
  {
    forall i, j | 0 <= i < j < |points|
      ensures StrLt(points[i].date, points[j].date)
    {
      assert StrLe(ChartPointDate(points[i]), ChartPointDate(points[j]));
    }
  }

  /** Points drawn from day points are day points. */
  lemma ReorderedDayPoints(strength: seq<Activity>, data: seq<ChartPoint>, points: seq<ChartPoint>)
    requires DayPoints(strength, data)
    requires forall i :: 0 <= i < |points| ==> points[i] in data
    ensures DayPoints(strength, points)
  {
    forall i | 0 <= i < |points|
      ensures points[i] == PointFor(strength, points[i].date) && HasData(points[i])
    {
      var p :| 0 <= p < |data| && data[p] == points[i];
    }
  }

  /** A reordering keeps every date that had a point. */
  lemma ReorderedCovers(strength: seq<Activity>, data: seq<ChartPoint>, points: seq<ChartPoint>, dates: seq<string>)
    requires multiset(points) == multiset(data)
    requires Covers(strength, data, dates)
    requires forall k :: 0 <= k < |strength| ==> strength[k].date in dates
    ensures forall i :: 0 <= i < |strength| && HasData(PointFor(strength, strength[i].date)) ==>
      exists j :: 0 <= j < |points| && points[j].date == strength[i].date
  {
    forall i | 0 <= i < |strength| && HasData(PointFor(strength, strength[i].date))
      ensures exists j :: 0 <= j < |points| && points[j].date == strength[i].date
    {
      var l :| 0 <= l < |dates| && dates[l] == strength[i].date;
      var p :| 0 <= p < |data| && data[p].date == dates[l];
      assert data[p] in multiset(points);
      var j :| 0 <= j < |points| && points[j] == data[p];
    }
  }

  /** An element at two positions is counted at least twice. */
  lemma TwiceCounted(points: seq<ChartPoint>, i: int, j: int)
    requires 0 <= i < j < |points| && points[i] == points[j]
    ensures multiset(points)[points[i]] >= 2
  {
    var x := points[i];
    var front := points[..j];
    assert points == front + [x] + points[j + 1..];
    assert front == front[..i] + [x] + front[i + 1..];
    assert multiset(front)[x] >= 1;
  }

  /** A reordering of points with distinct dates has distinct dates, and holds the same points. */
  lemma ChartPointsDistinct(data: seq<ChartPoint>, points: seq<ChartPoint>)
    requires multiset(points) == multiset(data)
    requires DistinctDates(data)
    ensures forall i :: 0 <= i < |points| ==> points[i] in data
    ensures DistinctDates(points)
  {
    forall i | 0 <= i < |points|
      ensures points[i] in data
    {
      assert points[i] in multiset(points);
    }
    forall i, j | 0 <= i < j < |points|
      ensures points[i].date != points[j].date
    {
      if points[i].date == points[j].date {
        var p :| 0 <= p < |data| && data[p] == points[i];
        var q :| 0 <= q < |data| && data[q] == points[j];
        assert p == q;
        TwiceCounted(points, i, j);
        AtMostOnce(data, p);
        assert false;
      }
    }
  }

  /** In a list with distinct dates, an element occurs once. */
  lemma AtMostOnce(data: seq<ChartPoint>, p: nat)
    requires p < |data|
    requires forall a, b :: 0 <= a < b < |data| ==> data[a].date != data[b].date
    ensures multiset(data)[data[p]] == 1
  {
    var x := data[p];
    assert data == data[..p] + [x] + data[p + 1..];
    forall a | 0 <= a < |data| && a != p ensures data[a] != x {}
    assert x !in data[..p];
    assert x !in data[p + 1..];
  }

  /** Some point has a weight for `t`. */
  predicate HasPoint(points: seq<ChartPoint>, t: RepetitionType)
  {
    exists i :: 0 <= i < |points| && t in points[i].weights && points[i].weights[t].Some?
  }

  /** The exercises of `ts` that some point has a weight for, in the order of `ts`. */
  function ActiveAmong(ts: seq<RepetitionType>, points: seq<ChartPoint>): (r: seq<RepetitionType>)
    ensures forall t :: t in r <==> t in ts && HasPoint(points, t)
  {
    if ts == [] then []
    else (if HasPoint(points, ts[0]) then [ts[0]] else []) + ActiveAmong(ts[1..], points)
  }

  /** `activeRepetitionTypes`: the exercises drawn as lines. */
  function ActiveRepetitionTypes(points: seq<ChartPoint>): seq<RepetitionType>
  {
    ActiveAmong(RepetitionTypes, points)
  }

  /** An exercise is drawn exactly when some point of the chart has a weight for it; none is drawn twice. */
  lemma ActiveRepetitionTypesExact(points: seq<ChartPoint>)
    ensures forall t :: t in ActiveRepetitionTypes(points) <==> HasPoint(points, t)
    ensures |ActiveRepetitionTypes(points)| <= |RepetitionTypes|
    ensures forall i, j :: 0 <= i < j < |ActiveRepetitionTypes(points)| ==> ActiveRepetitionTypes(points)[i] != ActiveRepetitionTypes(points)[j]
  {
    forall t ensures t in RepetitionTypes { EveryRepetitionType(t); }
    var ts := RepetitionTypes;
    assert ts[1..] == [CableTricepPushdown];
    assert ts[1..][1..] == [];
    var r2 := ActiveAmong(ts[1..], points);
    assert r2 == (if HasPoint(points, CableTricepPushdown) then [CableTricepPushdown] else []) + ActiveAmong([], points);
    assert ActiveAmong(ts, points) == (if HasPoint(points, BicepCurl) then [BicepCurl] else []) + r2;
  }

  /** The activity lifted a positive weight in exercise `t`. */
  predicate Lifts(a: Activity, t: RepetitionType)
  {
    exists j :: 0 <= j < |a.repetitions| && a.repetitions[j].repetitionType == t && a.repetitions[j].weightKg > 0.0
  }

  /** An activity contributes weights for `t` exactly when it lifted a positive weight in `t`. */
  lemma PositiveWeightsNonEmpty(a: Activity, t: RepetitionType)
    ensures PositiveWeights(a.repetitions, t) != [] <==> Lifts(a, t)
  {
    PositiveWeightsMembers(a.repetitions, t);
    if PositiveWeights(a.repetitions, t) != [] {
      assert PositiveWeights(a.repetitions, t)[0] in PositiveWeights(a.repetitions, t);
    }
    if Lifts(a, t) {
      var j :| 0 <= j < |a.repetitions| && a.repetitions[j].repetitionType == t && a.repetitions[j].weightKg > 0.0;
      assert a.repetitions[j].weightKg in PositiveWeights(a.repetitions, t);
    }
  }

  /** A day has weights for `t` exactly when one of its activities lifted a positive weight in `t`. */
  lemma {:induction false} DayWeightsNonEmpty(acts: seq<Activity>, date: string, t: RepetitionType)
    ensures DayWeights(acts, date, t) != [] <==> exists k :: 0 <= k < |acts| && acts[k].date == date && Lifts(acts[k], t)
  {
    if acts != [] {
      var n := |acts| - 1;
      var init := acts[..n];
      var lastWs := if acts[n].date == date then PositiveWeights(acts[n].repetitions, t) else [];
      assert DayWeights(acts, date, t) == DayWeights(init, date, t) + lastWs;
      DayWeightsNonEmpty(init, date, t);
      PositiveWeightsNonEmpty(acts[n], t);
      if DayWeights(acts, date, t) != [] {
        if DayWeights(init, date, t) != [] {
          var k :| 0 <= k < n && init[k].date == date && Lifts(init[k], t);
          assert acts[k] == init[k];
        } else {
          assert lastWs != [];
          assert acts[n].date == date && Lifts(acts[n], t);
        }
      }
      if exists k :: 0 <= k < |acts| && acts[k].date == date && Lifts(acts[k], t) {
        var k :| 0 <= k < |acts| && acts[k].date == date && Lifts(acts[k], t);
        if k < n {
          assert init[k] == acts[k];
          assert DayWeights(init, date, t) != [];
        } else {
          assert lastWs != [];
        }
      }
    }
  }

  /** A weight for `t` on a chart point comes from a strength activity of that day that lifted in `t`. */
  lemma PointWeightLifted(strength: seq<Activity>, p: ChartPoint, t: RepetitionType)
    requires p == PointFor(strength, p.date)
    requires t in p.weights && p.weights[t].Some?
    ensures exists k :: 0 <= k < |strength| && strength[k].date == p.date && Lifts(strength[k], t)
  {
    assert MaxOf(DayWeights(strength, p.date, t)).Some?;
    DayWeightsNonEmpty(strength, p.date, t);
  }

  /** A strength activity that lifted in `t` gives its day's point a weight for `t`, so the point has data. */
  lemma LiftedPointHasData(strength: seq<Activity>, k: int, t: RepetitionType)
    requires 0 <= k < |strength| && Lifts(strength[k], t)
    ensures t in PointFor(strength, strength[k].date).weights
    ensures PointFor(strength, strength[k].date).weights[t].Some?
    ensures HasData(PointFor(strength, strength[k].date))
  {
    EveryRepetitionType(t);
    DayWeightsNonEmpty(strength, strength[k].date, t);
    HasDataExists(PointFor(strength, strength[k].date));
  }

  /** An exercise is drawn exactly when some strength activity lifted a positive weight in it. */
  lemma DrawnIffLifted(activities: seq<Activity>, points: seq<ChartPoint>, t: RepetitionType)
    requires IsChart(activities, points)
    ensures t in ActiveRepetitionTypes(points) <==> exists a :: a in activities && IsStrengthActivity(a) && Lifts(a, t)
  {
    var strength := StrengthOnly(activities);
    ActiveRepetitionTypesExact(points);
    StrengthOnlyMembers(activities);
    if HasPoint(points, t) {
      var i :| 0 <= i < |points| && t in points[i].weights && points[i].weights[t].Some?;
      PointWeightLifted(strength, points[i], t);
      var k :| 0 <= k < |strength| && strength[k].date == points[i].date && Lifts(strength[k], t);
      assert strength[k] in strength;
    }
    if exists a :: a in activities && IsStrengthActivity(a) && Lifts(a, t) {
      var a :| a in activities && IsStrengthActivity(a) && Lifts(a, t);
      assert a in strength;
      var k :| 0 <= k < |strength| && strength[k] == a;
      LiftedPointHasData(strength, k, t);
      var j :| 0 <= j < |points| && points[j].date == strength[k].date;
      assert points[j] == PointFor(strength, points[j].date);
    }
  }

  // ---------------------------------------------------------------------
  // Muscle-group gains

  datatype MuscleGroupGain = MuscleGroupGain(
    muscle: ActivityType,
    groupName: string,
    gainPercent: real,
    firstWeight: Option<real>,
    lastWeight: Option<real>)

  /** MUSCLE_GROUP_LABELS. */
  function MuscleLabel(t: ActivityType): string
    requires t in StrengthTypes
  {
    match t
    case StrengthTrainingLegs => "Legs"
    case StrengthTrainingArms => "Arms"
    case StrengthTrainingCore => "Core"
    case StrengthTrainingChest => "Chest"
    case StrengthTrainingShoulders => "Shoulders"
    case StrengthTrainingBack => "Back"
  }

  /** `filter(a => a.type === muscleType)`. */
  function OfMuscle(acts: seq<Activity>, m: ActivityType): seq<Activity>
  {
    if acts == [] then []
    else (if acts[0].activityType == m then [acts[0]] else []) + OfMuscle(acts[1..], m)
  }

  /** `w` is a positive weight of one of the activity's repetitions. */
  predicate Lifted(a: Activity, w: real)
  {
    w > 0.0 && exists j :: 0 <= j < |a.repetitions| && a.repetitions[j].weightKg == w
  }

  /** `reps.filter(r => r.weightKg > 0).map(r => r.weightKg)`. */
  function AllPositiveWeights(reps: seq<Repetition>): seq<real>
  {
    if reps == [] then []
    else (if reps[0].weightKg > 0.0 then [reps[0].weightKg] else []) + AllPositiveWeights(reps[1..])
  }

  /** The positive weights of every activity of `acts` on `date` (the `flatMap`). */
  function WeightsOn(acts: seq<Activity>, date: string): seq<real>
  {
    if acts == [] then []
    else (if acts[0].date == date then AllPositiveWeights(acts[0].repetitions) else []) + WeightsOn(acts[1..], date)
  }

  /** The filter keeps exactly the activities of that muscle group. */
  lemma {:induction false} OfMuscleMembers(acts: seq<Activity>, m: ActivityType)
    ensures forall a :: a in OfMuscle(acts, m) <==> a in acts && a.activityType == m
  {
    if acts != [] {
      OfMuscleMembers(acts[1..], m);
      assert acts == [acts[0]] + acts[1..];
    }
  }

  /** The `filter`/`map` keeps exactly the positive weights lifted. */
  lemma {:induction false} AllPositiveWeightsMembers(reps: seq<Repetition>)
    ensures forall w :: w in AllPositiveWeights(reps) <==>
      w > 0.0 && exists j :: 0 <= j < |reps| && reps[j].weightKg == w
  {
    if reps != [] {
      AllPositiveWeightsMembers(reps[1..]);
      forall w | w > 0.0 && (exists j :: 0 <= j < |reps| && reps[j].weightKg == w)
        ensures w in AllPositiveWeights(reps)
      {
        var j :| 0 <= j < |reps| && reps[j].weightKg == w;
        if j > 0 {
          assert reps[1..][j - 1] == reps[j];
        }
      }
      forall w | w in AllPositiveWeights(reps[1..])
        ensures exists j :: 0 <= j < |reps| && reps[j].weightKg == w
      {
        var j :| 0 <= j < |reps[1..]| && reps[1..][j].weightKg == w;
        assert reps[j + 1] == reps[1..][j];
      }
    }
  }

  /** The `flatMap` collects exactly the positive weights lifted on that date. */
  lemma {:induction false} WeightsOnMembers(acts: seq<Activity>, date: string)
    ensures forall w :: w in WeightsOn(acts, date) <==> exists a :: a in acts && a.date == date && Lifted(a, w)
  {
    if acts != [] {
      WeightsOnMembers(acts[1..], date);
      AllPositiveWeightsMembers(acts[0].repetitions);
      assert acts == [acts[0]] + acts[1..];
      forall w | w in WeightsOn(acts, date)
        ensures exists a :: a in acts && a.date == date && Lifted(a, w)
      {
        if acts[0].date == date && w in AllPositiveWeights(acts[0].repetitions) {
          assert Lifted(acts[0], w);
        } else {
          assert w in WeightsOn(acts[1..], date);
          var a :| a in acts[1..] && a.date == date && Lifted(a, w);
          assert a in acts;
        }
      }
      forall w | exists a :: a in acts && a.date == date && Lifted(a, w)
        ensures w in WeightsOn(acts, date)
      {
        var a :| a in acts && a.date == date && Lifted(a, w);
        if a == acts[0] {
          assert w in AllPositiveWeights(acts[0].repetitions);
        } else {
          assert a in acts[1..];
        }
      }
    }
  }

  /** The percentage gain from the first to the last weight, 0 without both or with a zero first weight. */
  function GainPercent(firstWeight: Option<real>, lastWeight: Option<real>): real
  {
    if firstWeight.Some? && lastWeight.Some? && firstWeight.value > 0.0
    then (lastWeight.value - firstWeight.value) / firstWeight.value * 100.0
    else 0.0
  }

  /** The gain of one muscle group, as `muscleGroupGains` computes it. */
  function MuscleGain(activities: seq<Activity>, m: ActivityType): MuscleGroupGain
    requires m in StrengthTypes
  {
    var acts := SortByDate(OfMuscle(StrengthOnly(activities), m), ActivityDate);
    if |acts| == 0 then MuscleGroupGain(m, MuscleLabel(m), 0.0, None, None)
    else
      var firstWeight := MaxOf(WeightsOn(acts, acts[0].date));
      var lastWeight := MaxOf(WeightsOn(acts, acts[|acts| - 1].date));
      MuscleGroupGain(m, MuscleLabel(m), GainPercent(firstWeight, lastWeight), firstWeight, lastWeight)
  }

  /** `muscleGroupGains`: one entry per strength type, in the fixed order. */
  function MuscleGroupGains(activities: seq<Activity>): (r: seq<MuscleGroupGain>)
    ensures |r| == |StrengthTypes|
    ensures forall i :: 0 <= i < |r| ==> r[i].muscle == StrengthTypes[i] && r[i].groupName == MuscleLabel(StrengthTypes[i])
  {
    seq(|StrengthTypes|, i requires 0 <= i < |StrengthTypes| => MuscleGain(activities, StrengthTypes[i]))
  }

  /** The "StrengthTraining" prefix selects exactly the six strength types. */
  lemma StrengthActivityTypes(a: Activity)
    ensures IsStrengthActivity(a) <==> a.activityType in StrengthTypes
  {
    var name := TypeName(a.activityType);
    if a.activityType in StrengthTypes {
      assert name[..16] == StrengthPrefix;
    } else {
      assert name[0] != 'S' || name[1] != 't';
    }
  }

  /** A group never trained has no weights and no gain. */
  lemma UntrainedGroupHasNoGain(activities: seq<Activity>, m: ActivityType)
    requires m in StrengthTypes
    requires forall i :: 0 <= i < |activities| ==> activities[i].activityType != m
    ensures MuscleGain(activities, m) == MuscleGroupGain(m, MuscleLabel(m), 0.0, None, None)
  {
    var acts := OfMuscle(StrengthOnly(activities), m);
    OfMuscleMembers(StrengthOnly(activities), m);
    StrengthOnlyMembers(activities);
  }

  /** What a gain means: nonzero only with both weights, with the sign of the change and equal to it relative to the first weight. */
  ghost predicate GainAgrees(gain: real, first: Option<real>, last: Option<real>)
  {
    && (gain != 0.0 ==> first.Some? && last.Some?)
    && (first.Some? && last.Some? ==>
          && (gain > 0.0 <==> last.value > first.value)
          && (gain == 0.0 <==> last.value == first.value)
          && gain * first.value == (last.value - first.value) * 100.0)
  }

  /** With a positive first weight, the gain formula means what it should. */
  lemma GainPercentAgrees(first: Option<real>, last: Option<real>)
    requires first.Some? ==> first.value > 0.0
    ensures GainAgrees(GainPercent(first, last), first, last)
  {
    if first.Some? && last.Some? {
      var f, l := first.value, last.value;
      var q := (l - f) / f;
      assert q * f == l - f;
      if q > 0.0 {
        assert q * f > 0.0;
      } else if q < 0.0 {
        assert q * f < 0.0;
      }
    }
  }

  /** Every weight collected for a day is positive. */
  lemma {:induction false} WeightsOnPositive(acts: seq<Activity>, date: string)
    ensures forall i :: 0 <= i < |WeightsOn(acts, date)| ==> WeightsOn(acts, date)[i] > 0.0
  {
    WeightsOnMembers(acts, date);
    forall i | 0 <= i < |WeightsOn(acts, date)|
      ensures WeightsOn(acts, date)[i] > 0.0
    {
      var w := WeightsOn(acts, date)[i];
      assert w in WeightsOn(acts, date);
      var a :| a in acts && a.date == date && Lifted(a, w);
    }
  }

  /** The daily maximum, when there is one, is positive. */
  lemma DayMaxPositive(acts: seq<Activity>, date: string)
    ensures MaxOf(WeightsOn(acts, date)).Some? ==> MaxOf(WeightsOn(acts, date)).value > 0.0
  {
    WeightsOnPositive(acts, date);
    MaxOfIsMax(WeightsOn(acts, date));
  }

  /** The gain is positive exactly when the last day's weight beats the first day's, and zero when they tie. */
  lemma GainSign(activities: seq<Activity>, m: ActivityType)
    requires m in StrengthTypes
    ensures GainAgrees(MuscleGain(activities, m).gainPercent, MuscleGain(activities, m).firstWeight, MuscleGain(activities, m).lastWeight)
  {
    var acts := SortByDate(OfMuscle(StrengthOnly(activities), m), ActivityDate);
    if |acts| > 0 {
      DayMaxPositive(acts, acts[0].date);
      var g := MuscleGain(activities, m);
      assert g.firstWeight == MaxOf(WeightsOn(acts, acts[0].date));
      GainPercentAgrees(g.firstWeight, g.lastWeight);
    }
  }

  /** An activity of group `m` among `activities` is one of the group's sorted activities. */
  lemma MuscleActivities(activities: seq<Activity>, m: ActivityType)
    requires m in StrengthTypes
    ensures forall a :: a in SortByDate(OfMuscle(StrengthOnly(activities), m), ActivityDate) <==> a in activities && a.activityType == m
  {
    var s := OfMuscle(StrengthOnly(activities), m);
    var acts := SortByDate(s, ActivityDate);
    OfMuscleMembers(StrengthOnly(activities), m);
    StrengthOnlyMembers(activities);
    forall a ensures a in acts <==> a in s {
      assert a in acts <==> a in multiset(acts);
    }
    forall a | a in activities && a.activityType == m
      ensures IsStrengthActivity(a)
    {
      StrengthActivityTypes(a);
    }
  }

  /** In activities sorted by date, the first is the earliest and the last the latest. */
  lemma SortedEnds(acts: seq<Activity>)
    requires |acts| > 0
    requires SortedByDate(acts, ActivityDate)
    ensures forall b :: b in acts ==> StrLe(acts[0].date, b.date) && StrLe(b.date, acts[|acts| - 1].date)
  {
    forall b | b in acts
      ensures StrLe(acts[0].date, b.date) && StrLe(b.date, acts[|acts| - 1].date)
    {
      var j :| 0 <= j < |acts| && acts[j] == b;
      if 0 < j {
        assert StrLe(ActivityDate(acts[0]), ActivityDate(acts[j]));
      }
      if j < |acts| - 1 {
        assert StrLe(ActivityDate(acts[j]), ActivityDate(acts[|acts| - 1]));
      }
    }
  }

  /** No activity of group `m` is dated before `d`, and one is dated `d`. */
  ghost predicate EarliestDay(activities: seq<Activity>, m: ActivityType, d: string)
  {
    && (exists a :: a in activities && a.activityType == m && a.date == d)
    && (forall b :: b in activities && b.activityType == m ==> StrLe(d, b.date))
  }

  /** No activity of group `m` is dated after `d`, and one is dated `d`. */
  ghost predicate LatestDay(activities: seq<Activity>, m: ActivityType, d: string)
  {
    && (exists a :: a in activities && a.activityType == m && a.date == d)
    && (forall b :: b in activities && b.activityType == m ==> StrLe(b.date, d))
  }

  /** `w` was lifted in group `m` on `d`, and nothing heavier was. */
  ghost predicate HeaviestOn(activities: seq<Activity>, m: ActivityType, d: string, w: real)
  {
    && (exists a :: a in activities && a.activityType == m && a.date == d && Lifted(a, w))
    && (forall b, v :: b in activities && b.activityType == m && b.date == d && Lifted(b, v) ==> v <= w)
  }

  /** Some activity of group `m` dated `d` has a set with a positive weight. */
  ghost predicate LiftedOn(activities: seq<Activity>, m: ActivityType, d: string)
  {
    exists a, w :: a in activities && a.activityType == m && a.date == d && Lifted(a, w)
  }

  /** The group's earliest training day is the date of the first of its sorted activities. */
  lemma EarliestIsFirst(acts: seq<Activity>, activities: seq<Activity>, m: ActivityType, d: string)
    requires forall a :: a in acts <==> a in activities && a.activityType == m
    requires SortedByDate(acts, ActivityDate)
    requires EarliestDay(activities, m, d)
    ensures |acts| > 0 && acts[0].date == d
  {
    var a :| a in activities && a.activityType == m && a.date == d;
    assert a in acts;
    SortedEnds(acts);
    assert acts[0] in acts;
    StrLeAntisymmetric(acts[0].date, d);
  }

  /** The group's latest training day is the date of the last of its sorted activities. */
  lemma LatestIsLast(acts: seq<Activity>, activities: seq<Activity>, m: ActivityType, d: string)
    requires forall a :: a in acts <==> a in activities && a.activityType == m
    requires SortedByDate(acts, ActivityDate)
    requires LatestDay(activities, m, d)
    ensures |acts| > 0 && acts[|acts| - 1].date == d
  {
    var a :| a in activities && a.activityType == m && a.date == d;
    assert a in acts;
    SortedEnds(acts);
    assert acts[|acts| - 1] in acts;
    StrLeAntisymmetric(acts[|acts| - 1].date, d);
  }

  /** A day on which the group lifted a positive weight has a day maximum. */
  lemma LiftedOnHasMax(acts: seq<Activity>, activities: seq<Activity>, m: ActivityType, d: string)
    requires forall a :: a in acts <==> a in activities && a.activityType == m
    requires LiftedOn(activities, m, d)
    ensures MaxOf(WeightsOn(acts, d)).Some?
  {
    WeightsOnMembers(acts, d);
    var a, w :| a in activities && a.activityType == m && a.date == d && Lifted(a, w);
    assert w in WeightsOn(acts, d);
  }

  /** The maximum of a day's weights over the group's activities is the heaviest weight of that day. */
  lemma DayMaxIsHeaviest(acts: seq<Activity>, activities: seq<Activity>, m: ActivityType, d: string)
    requires forall a :: a in acts <==> a in activities && a.activityType == m
    requires MaxOf(WeightsOn(acts, d)).Some?
    ensures HeaviestOn(activities, m, d, MaxOf(WeightsOn(acts, d)).value)
  {
    var ws := WeightsOn(acts, d);
    var w := MaxOf(ws).value;
    WeightsOnMembers(acts, d);
    MaxOfIsMax(ws);
    assert w in ws;
    var a :| a in acts && a.date == d && Lifted(a, w);
    forall b, v | b in activities && b.activityType == m && b.date == d && Lifted(b, v)
      ensures v <= w
    {
      assert v in ws;
    }
  }

  /** A positive lift on the group's earliest day gives it a first weight. */
  lemma FirstWeightPresent(activities: seq<Activity>, m: ActivityType, d: string)
    requires m in StrengthTypes
    requires EarliestDay(activities, m, d) && LiftedOn(activities, m, d)
    ensures MuscleGain(activities, m).firstWeight.Some?
  {
    var acts := SortByDate(OfMuscle(StrengthOnly(activities), m), ActivityDate);
    assert |acts| > 0 && acts[0].date == d by {
      MuscleActivities(activities, m);
      EarliestIsFirst(acts, activities, m, d);
    }
    assert MaxOf(WeightsOn(acts, d)).Some? by {
      MuscleActivities(activities, m);
      LiftedOnHasMax(acts, activities, m, d);
    }
  }

  /** The first weight is the heaviest weight lifted for the group on its earliest training day. */
  lemma FirstWeightIsEarliestDayMax(activities: seq<Activity>, m: ActivityType)
    requires m in StrengthTypes
    ensures MuscleGain(activities, m).firstWeight.Some? ==>
      exists d :: EarliestDay(activities, m, d) && HeaviestOn(activities, m, d, MuscleGain(activities, m).firstWeight.value)
    ensures forall d :: EarliestDay(activities, m, d) && LiftedOn(activities, m, d) ==> MuscleGain(activities, m).firstWeight.Some?
  {
    var acts := SortByDate(OfMuscle(StrengthOnly(activities), m), ActivityDate);
    forall d | EarliestDay(activities, m, d) && LiftedOn(activities, m, d)
      ensures MuscleGain(activities, m).firstWeight.Some?
    {
      FirstWeightPresent(activities, m, d);
    }
    if |acts| > 0 {
      var d := acts[0].date;
      if MaxOf(WeightsOn(acts, d)).Some? {
        MuscleActivities(activities, m);
        SortedEnds(acts);
        DayMaxIsHeaviest(acts, activities, m, d);
        assert acts[0] in acts;
        assert EarliestDay(activities, m, d);
      }
    }
  }

  /** A positive lift on the group's latest day gives it a last weight. */
  lemma LastWeightPresent(activities: seq<Activity>, m: ActivityType, d: string)
    requires m in StrengthTypes
    requires LatestDay(activities, m, d) && LiftedOn(activities, m, d)
    ensures MuscleGain(activities, m).lastWeight.Some?
  {
    var acts := SortByDate(OfMuscle(StrengthOnly(activities), m), ActivityDate);
    assert |acts| > 0 && acts[|acts| - 1].date == d by {
      MuscleActivities(activities, m);
      LatestIsLast(acts, activities, m, d);
    }
    assert MaxOf(WeightsOn(acts, d)).Some? by {
      MuscleActivities(activities, m);
      LiftedOnHasMax(acts, activities, m, d);
    }
  }

  /** The last weight is the heaviest weight lifted for the group on its latest training day. */
  lemma LastWeightIsLatestDayMax(activities: seq<Activity>, m: ActivityType)
    requires m in StrengthTypes
    ensures MuscleGain(activities, m).lastWeight.Some? ==>
      exists d :: LatestDay(activities, m, d) && HeaviestOn(activities, m, d, MuscleGain(activities, m).lastWeight.value)
    ensures forall d :: LatestDay(activities, m, d) && LiftedOn(activities, m, d) ==> MuscleGain(activities, m).lastWeight.Some?
  {
    var acts := SortByDate(OfMuscle(StrengthOnly(activities), m), ActivityDate);
    forall d | LatestDay(activities, m, d) && LiftedOn(activities, m, d)
      ensures MuscleGain(activities, m).lastWeight.Some?
    {
      LastWeightPresent(activities, m, d);
    }
    if |acts| > 0 {
      var d := acts[|acts| - 1].date;
      if MaxOf(WeightsOn(acts, d)).Some? {
        MuscleActivities(activities, m);
        SortedEnds(acts);
        DayMaxIsHeaviest(acts, activities, m, d);
        assert acts[|acts| - 1] in acts;
        assert LatestDay(activities, m, d);
      }
    }
  }
}
