/**
 * The weekly training plan editor of src/components/Schedule.tsx: the
 * check box for (day, activity) reads the day's list, and clicking it
 * removes the activity from that day or appends it.
 */
module WeeklySchedule {
  import opened Domain

  /** A schedule as the `Schedule` type demands it: a list for every weekday. */
  ghost predicate Complete(schedule: Schedule)
  {
    forall d: Day :: d in schedule
  }

  /** `dayActivities.filter((a) => a !== activity)`. */
  function Without(xs: seq<ActivityType>, activity: ActivityType): seq<ActivityType>
  {
    if xs == [] then []
    else (if xs[0] != activity then [xs[0]] else []) + Without(xs[1..], activity)
  }

  /** `isActive`: the day's list includes the activity. */
  predicate IsActive(schedule: Schedule, day: Day, activity: ActivityType)
    requires day in schedule
  {
    activity in schedule[day]
  }

  /** `toggleActivity`: drop every occurrence of a listed activity, or append an unlisted one, on that day only. */
  function ToggleActivity(schedule: Schedule, day: Day, activity: ActivityType): (r: Schedule)
    requires day in schedule
    ensures r.Keys == schedule.Keys
    ensures forall d :: d in schedule && d != day ==> r[d] == schedule[d]
  {
    var dayActivities := schedule[day];
    var newDayActivities :=
      if activity in dayActivities then Without(dayActivities, activity)
      else dayActivities + [activity];
    schedule[day := newDayActivities]
  }

  /** The filter distributes over concatenation. */
  lemma {:induction false} WithoutAppend(xs: seq<ActivityType>, ys: seq<ActivityType>, activity: ActivityType)
    ensures Without(xs + ys, activity) == Without(xs, activity) + Without(ys, activity)
  {
    if xs != [] {
      WithoutAppend(xs[1..], ys, activity);
      assert (xs + ys)[1..] == xs[1..] + ys;
    } else {
      assert xs + ys == ys;
    }
  }

  /** The filter removes every copy of the activity and keeps every copy of each other one. */
  lemma {:induction false} WithoutCounts(xs: seq<ActivityType>, activity: ActivityType)
    ensures multiset(Without(xs, activity))[activity] == 0
    ensures forall b :: b != activity ==> multiset(Without(xs, activity))[b] == multiset(xs)[b]
  {
    if xs != [] {
      WithoutCounts(xs[1..], activity);
      assert xs == [xs[0]] + xs[1..];
    }
  }

  /** Filtering out an activity that is not listed changes nothing. */
  lemma {:induction false} WithoutAbsent(xs: seq<ActivityType>, activity: ActivityType)
    requires activity !in xs
    ensures Without(xs, activity) == xs
  {
    if xs != [] {
      assert xs[0] != activity;
      WithoutAbsent(xs[1..], activity);
      assert xs == [xs[0]] + xs[1..];
    }
  }

  /** Toggling flips whether the activity is on that day. */
  lemma ToggleFlips(schedule: Schedule, day: Day, activity: ActivityType)
    requires day in schedule
    ensures IsActive(ToggleActivity(schedule, day, activity), day, activity) <==> !IsActive(schedule, day, activity)
  {
    WithoutCounts(schedule[day], activity);
  }

  /** Toggling one activity leaves every other activity's box as it was, on every day. */
  lemma ToggleKeepsOthers(schedule: Schedule, day: Day, activity: ActivityType, d: Day, b: ActivityType)
    requires day in schedule && d in schedule
    requires d != day || b != activity
    ensures IsActive(ToggleActivity(schedule, day, activity), d, b) <==> IsActive(schedule, d, b)
  {
    if d == day {
      WithoutCounts(schedule[day], activity);
      assert b in Without(schedule[day], activity) <==> b in multiset(Without(schedule[day], activity));
    }
  }

  /** A listed activity is removed with all its copies, and the other activities keep their order. */
  lemma ToggleRemoves(schedule: Schedule, day: Day, activity: ActivityType)
    requires day in schedule && activity in schedule[day]
    ensures ToggleActivity(schedule, day, activity)[day] == Without(schedule[day], activity)
    ensures activity !in ToggleActivity(schedule, day, activity)[day]
  {
    WithoutCounts(schedule[day], activity);
  }

  /** An unlisted activity is appended at the end. */
  lemma ToggleAppends(schedule: Schedule, day: Day, activity: ActivityType)
    requires day in schedule && activity !in schedule[day]
    ensures ToggleActivity(schedule, day, activity)[day] == schedule[day] + [activity]
  {
  }

  /** Toggling an unlisted activity twice gives back the original schedule. */
  lemma ToggleTwiceRestores(schedule: Schedule, day: Day, activity: ActivityType)
    requires day in schedule && activity !in schedule[day]
    ensures ToggleActivity(ToggleActivity(schedule, day, activity), day, activity) == schedule
  {
    var xs := schedule[day];
    WithoutAppend(xs, [activity], activity);
    WithoutAbsent(xs, activity);
    assert Without([activity], activity) == [];
    assert Without(xs + [activity], activity) == xs;
  }

  /** A complete schedule stays complete. */
  lemma ToggleKeepsComplete(schedule: Schedule, day: Day, activity: ActivityType)
    requires Complete(schedule)
    ensures Complete(ToggleActivity(schedule, day, activity))
  {
  }

  /** The default plan is complete and has nothing on any day. */
  lemma DefaultScheduleEmpty(d: Day, activity: ActivityType)
    ensures Complete(DefaultSchedule)
    ensures !IsActive(DefaultSchedule, d, activity)
  {
    assert d in Days by {
      match d
      case Monday => case Tuesday => case Wednesday => case Thursday =>
      case Friday => case Saturday => case Sunday =>
    }
    forall e: Day ensures e in DefaultSchedule {
      assert e == Days[0] || e == Days[1] || e == Days[2] || e == Days[3] || e == Days[4] || e == Days[5] || e == Days[6];
    }
  }
}
