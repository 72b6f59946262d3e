/**
 * The `UserDataProvider` of src/hooks/useUserData.tsx: an in-memory cache
 * of the user's profile, the first pages of activities and stats entries
 * and their counts, kept in step with the local `Database`.  Each callback
 * writes the store first and then updates the cache with a list transform.
 */
module UserData {
  import opened Wrappers
  import opened Order
  import opened Domain
  import opened Store

  /** ACTIVITIES_PAGE_SIZE and STATS_ENTRIES_PAGE_SIZE. */
  const PageSize := 50

  /** Registration is complete once height, date of birth and sex are known. */
  predicate CheckIsRegistered(p: UserProfile)
  {
    p.heightCm.Some? && p.dateOfBirth.Some? && p.sex.Some?
  }

  /** `prev.map(e => e.id === id ? updated : e)`. */
  function ReplaceById(xs: seq<StatsEntry>, id: string, updated: StatsEntry): (r: seq<StatsEntry>)
    ensures |r| == |xs|
    ensures forall i :: 0 <= i < |xs| ==> r[i] == if xs[i].id == id then updated else xs[i]
  {
    if xs == [] then []
    else [if xs[0].id == id then updated else xs[0]] + ReplaceById(xs[1..], id, updated)
  }

  /** `prev.filter(x => x.id !== id)`. */
  function WithoutId<T(==)>(xs: seq<T>, id: string, idOf: T -> string): (r: seq<T>)
    ensures |r| <= |xs|
    ensures forall i :: 0 <= i < |r| ==> r[i] in xs && idOf(r[i]) != id
    ensures forall i :: 0 <= i < |xs| && idOf(xs[i]) != id ==> xs[i] in r
  {
    if xs == [] then []
    else (if idOf(xs[0]) == id then [] else [xs[0]]) + WithoutId(xs[1..], id, idOf)
  }

  /** The provider's state. */
  datatype Cache = Cache(
    isLoading: bool,
    isRegistered: bool,
    userProfile: UserProfile,
    activities: seq<Activity>,
    activityCount: int,
    statsEntries: seq<StatsEntry>,
    statsEntryCount: int)

  class UserDataProvider {
    const db: Database
    var isLoading: bool
    var isRegistered: bool
    var userProfile: UserProfile
    var activities: seq<Activity>
    var activityCount: int
    var statsEntries: seq<StatsEntry>
    var statsEntryCount: int

    function Contents(): Cache
      reads this
    {
      Cache(isLoading, isRegistered, userProfile, activities, activityCount, statsEntries, statsEntryCount)
    }

    ghost predicate Valid()
      reads this, db
    {
      db.Valid()
    }

    /** The provider's first render: loading, unregistered, default profile, nothing cached. */
    constructor (db: Database)
      ensures this.db == db
      ensures Contents() == Cache(true, false, DefaultUserProfile, [], 0, [], 0)
    {
      this.db := db;
      isLoading, isRegistered, userProfile := true, false, DefaultUserProfile;
      activities, activityCount, statsEntries, statsEntryCount := [], 0, [], 0;
    }

    /** The mount effect: the stored profile when there is one, the first page of each list and the counts. */
    method LoadInitialData()
      modifies this
      ensures !isLoading
      ensures userProfile == if db.profile.Some? then db.profile.value else old(userProfile)
      ensures isRegistered == if db.profile.Some? then CheckIsRegistered(db.profile.value) else old(isRegistered)
      ensures activities == Window(Descending(db.activities, ActivityDate), 0, PageSize)
      ensures activityCount == |db.activities|
      ensures statsEntries == Window(Descending(db.statsEntries, StatsDate), 0, PageSize)
      ensures statsEntryCount == |db.statsEntries|
    {
      var savedUserProfile := db.LoadUserProfile();
      if savedUserProfile.Some? {
        userProfile := savedUserProfile.value;
        isRegistered := CheckIsRegistered(savedUserProfile.value);
      }
      LoadFirstActivities();
      LoadFirstStatsEntries();
      isLoading := false;
    }

    /** The activities half of the mount effect. */
    method LoadFirstActivities()
      modifies this
      ensures Contents() == old(Contents()).(
        activities := Window(Descending(db.activities, ActivityDate), 0, PageSize),
        activityCount := |db.activities|)
    {
      var initialActivities := db.LoadActivities(PageSize, 0);
      var activityCountResult := db.GetActivityCount();
      activities, activityCount := initialActivities, activityCountResult;
    }

    /** The stats half of the mount effect. */
    method LoadFirstStatsEntries()
      modifies this
      ensures Contents() == old(Contents()).(
        statsEntries := Window(Descending(db.statsEntries, StatsDate), 0, PageSize),
        statsEntryCount := |db.statsEntries|)
    {
      var initialStatsEntries := db.LoadStatsEntries(PageSize, 0);
      var statsEntryCountResult := db.GetStatsEntryCount();
      statsEntries, statsEntryCount := initialStatsEntries, statsEntryCountResult;
    }

    /** `setUserProfile`: cache the profile, recompute registration, persist it. */
    method SetUserProfile(p: UserProfile)
      modifies this, db
      ensures Contents() == old(Contents()).(userProfile := p, isRegistered := CheckIsRegistered(p))
      ensures db.Contents() == old(db.Contents()).(profile := Some(p))
    {
      userProfile := p;
      isRegistered := CheckIsRegistered(p);
      db.SaveUserProfile(p);
    }

    /** `loadMoreActivities`: append the page that starts where the cached list ends. */
    method LoadMoreActivities(limit: int)
      modifies this
      ensures Contents() == old(Contents()).(
        activities := old(activities) + Window(Descending(db.activities, ActivityDate), |old(activities)|, limit))
    {
      var more := db.LoadActivities(limit, |activities|);
      activities := activities + more;
    }

    /** `addActivity`: persist, then put the activity first and count it. */
    method AddActivity(a: Activity)
      requires Valid()
      modifies this, db
      ensures Valid()
      ensures db.Contents() == old(db.Contents()).(activities := old(db.activities)[a.id := a])
      ensures Contents() == old(Contents()).(activities := [a] + old(activities), activityCount := old(activityCount) + 1)
    {
      db.SaveActivity(a);
      activities := [a] + activities;
      activityCount := activityCount + 1;
    }

    /** `updateActivities`: bulk upsert, then reload the first page and the count. */
    method UpdateActivities(xs: seq<Activity>)
      requires Valid()
      modifies this, db
      ensures Valid()
      ensures db.Contents() == old(db.Contents()).(activities := UpsertAll(old(db.activities), xs, ActivityId))
      ensures Contents() == old(Contents()).(
        activities := Window(Descending(db.activities, ActivityDate), 0, PageSize),
        activityCount := |db.activities|)
    {
      db.SaveActivities(xs);
      var reloaded := db.LoadActivities(PageSize, 0);
      var count := db.GetActivityCount();
      activities, activityCount := reloaded, count;
    }

    /** `deleteActivity`: delete from the store, drop it from the cache, decrement the count. */
    method DeleteActivity(id: string)
      requires Valid()
      modifies this, db
      ensures Valid()
      ensures db.Contents() == old(db.Contents()).(activities := old(db.activities) - {id})
      ensures Contents() == old(Contents()).(
        activities := WithoutId(old(activities), id, ActivityId), activityCount := old(activityCount) - 1)
    {
      db.DeleteActivity(id);
      activities := WithoutId(activities, id, ActivityId);
      activityCount := activityCount - 1;
    }

    /** `loadMoreStatsEntries`: append the page that starts where the cached list ends. */
    method LoadMoreStatsEntries(limit: int)
      modifies this
      ensures Contents() == old(Contents()).(
        statsEntries := old(statsEntries) + Window(Descending(db.statsEntries, StatsDate), |old(statsEntries)|, limit))
    {
      var more := db.LoadStatsEntries(limit, |statsEntries|);
      statsEntries := statsEntries + more;
    }

    /**
     * `addStatsEntry`: one entry per date.  When the store already has an
     * entry on that date, it is overwritten under its own id and replaced
     * in the cache; otherwise the entry is stored, put first and counted.
     */
    method AddStatsEntry(entry: StatsEntry)
      requires Valid()
      modifies this, db
      ensures Valid()
      ensures var existing := FirstWithDate(Ascending(old(db.statsEntries), StatsDate), StatsDate, entry.date);
        if existing.Some? then
          var updated := entry.(id := existing.value.id);
          && db.Contents() == old(db.Contents()).(statsEntries := old(db.statsEntries)[updated.id := updated])
          && Contents() == old(Contents()).(statsEntries := ReplaceById(old(statsEntries), updated.id, updated))
        else
          && db.Contents() == old(db.Contents()).(statsEntries := old(db.statsEntries)[entry.id := entry])
          && Contents() == old(Contents()).(
               statsEntries := [entry] + old(statsEntries), statsEntryCount := old(statsEntryCount) + 1)
    {
      var existing := db.LoadStatsEntryByDate(entry.date);
      if existing.Some? {
        ReplaceStatsEntry(entry.(id := existing.value.id));
      } else {
        InsertStatsEntry(entry);
      }
    }

    /** The update branch of `addStatsEntry`: overwrite the stored entry and replace it in the cache. */
    method ReplaceStatsEntry(updated: StatsEntry)
      requires Valid()
      modifies this, db
      ensures Valid()
      ensures db.Contents() == old(db.Contents()).(statsEntries := old(db.statsEntries)[updated.id := updated])
      ensures Contents() == old(Contents()).(statsEntries := ReplaceById(old(statsEntries), updated.id, updated))
    {
      db.SaveStatsEntry(updated);
      statsEntries := ReplaceById(statsEntries, updated.id, updated);
    }

    /** The insert branch of `addStatsEntry`: store the new entry, put it first and count it. */
    method InsertStatsEntry(entry: StatsEntry)
      requires Valid()
      modifies this, db
      ensures Valid()
      ensures db.Contents() == old(db.Contents()).(statsEntries := old(db.statsEntries)[entry.id := entry])
      ensures Contents() == old(Contents()).(statsEntries := [entry] + old(statsEntries), statsEntryCount := old(statsEntryCount) + 1)
    {
      db.SaveStatsEntry(entry);
      statsEntries := [entry] + statsEntries;
      statsEntryCount := statsEntryCount + 1;
    }

    /** `updateStatsEntries`: bulk upsert, then reload the first page and the count. */
    method UpdateStatsEntries(xs: seq<StatsEntry>)
      requires Valid()
      modifies this, db
      ensures Valid()
      ensures db.Contents() == old(db.Contents()).(statsEntries := UpsertAll(old(db.statsEntries), xs, StatsId))
      ensures Contents() == old(Contents()).(
        statsEntries := Window(Descending(db.statsEntries, StatsDate), 0, PageSize),
        statsEntryCount := |db.statsEntries|)
    {
      db.SaveStatsEntries(xs);
      var reloaded := db.LoadStatsEntries(PageSize, 0);
      var count := db.GetStatsEntryCount();
      statsEntries, statsEntryCount := reloaded, count;
    }

    /** `deleteStatsEntry`: delete from the store, drop it from the cache, decrement the count. */
    method DeleteStatsEntry(id: string)
      requires Valid()
      modifies this, db
      ensures Valid()
      ensures db.Contents() == old(db.Contents()).(statsEntries := old(db.statsEntries) - {id})
      ensures Contents() == old(Contents()).(
        statsEntries := WithoutId(old(statsEntries), id, StatsId), statsEntryCount := old(statsEntryCount) - 1)
    {
      db.DeleteStatsEntry(id);
      statsEntries := WithoutId(statsEntries, id, StatsId);
      statsEntryCount := statsEntryCount - 1;
    }
  }

  // ---------------------------------------------------------------------
  // Properties

  /** The default profile is not registered; filling in height, birth date and sex registers it. */
  lemma RegistrationNeedsThreeFields(h: real, dob: string, sex: Sex)
    ensures !CheckIsRegistered(DefaultUserProfile)
    ensures CheckIsRegistered(DefaultUserProfile.(heightCm := Some(h), dateOfBirth := Some(dob), sex := Some(sex)))
  {
  }

  /** Registration does not depend on the targets or the schedule. */
  lemma RegistrationIgnoresPlan(p: UserProfile, w: Option<real>, d: Option<string>, s: Schedule)
    ensures CheckIsRegistered(p.(targetWeightKg := w, targetDate := d, schedule := s)) == CheckIsRegistered(p)
  {
  }

  /** Replacing an id that no cached entry has leaves the list as it is. */
  lemma {:induction false} ReplaceByIdAbsent(xs: seq<StatsEntry>, id: string, updated: StatsEntry)
    requires forall i :: 0 <= i < |xs| ==> xs[i].id != id
    ensures ReplaceById(xs, id, updated) == xs
  {
    if xs != [] {
      ReplaceByIdAbsent(xs[1..], id, updated);
    }
  }

  /** After a replacement keeping the id, exactly the positions that held that id hold the new entry. */
  lemma ReplaceByIdPositions(xs: seq<StatsEntry>, updated: StatsEntry)
    ensures var r := ReplaceById(xs, updated.id, updated);
      forall i :: 0 <= i < |r| ==> (r[i] == updated || r[i] == xs[i]) && (r[i].id == updated.id <==> xs[i].id == updated.id)
  {
  }

  /** The filter distributes over concatenation, so it keeps the order of what remains. */
  lemma {:induction false} WithoutIdAppend<T>(a: seq<T>, b: seq<T>, id: string, idOf: T -> string)
    ensures WithoutId(a + b, id, idOf) == WithoutId(a, id, idOf) + WithoutId(b, id, idOf)
  {
    if a == [] {
      assert a + b == b;
    } else {
      assert (a + b)[1..] == a[1..] + b;
      WithoutIdAppend(a[1..], b, id, idOf);
    }
  }

  /** The filter on one element keeps it exactly when its id differs. */
  lemma WithoutIdSingle<T>(x: T, id: string, idOf: T -> string)
    ensures WithoutId([x], id, idOf) == if idOf(x) == id then [] else [x]
  {
    assert [x][1..] == [];
  }

  /** Deleting an id that is not cached leaves the cached list unchanged. */
  lemma {:induction false} WithoutIdAbsent<T>(xs: seq<T>, id: string, idOf: T -> string)
    requires forall i :: 0 <= i < |xs| ==> idOf(xs[i]) != id
    ensures WithoutId(xs, id, idOf) == xs
  {
    if xs != [] {
      WithoutIdAbsent(xs[1..], id, idOf);
    }
  }

  /** Deleting twice is deleting once. */
  lemma WithoutIdIdempotent<T>(xs: seq<T>, id: string, idOf: T -> string)
    ensures WithoutId(WithoutId(xs, id, idOf), id, idOf) == WithoutId(xs, id, idOf)
  {
    var r := WithoutId(xs, id, idOf);
    WithoutIdAbsent(r, id, idOf);
  }

  /**
   * The cached count follows the store only while ids are fresh when added
   * and present when deleted: saving an id already stored, or deleting an
   * id not stored, leaves the store's size alone although the count moves.
   */
  lemma CountTracksStore(m: map<string, Activity>, a: Activity, id: string)
    ensures a.id !in m ==> |m[a.id := a]| == |m| + 1
    ensures a.id in m ==> |m[a.id := a]| == |m|
    ensures id in m ==> |m - {id}| == |m| - 1
    ensures id !in m ==> |m - {id}| == |m|
  {
    if a.id !in m {
      assert m[a.id := a].Keys == m.Keys + {a.id};
    } else {
      assert m[a.id := a].Keys == m.Keys;
    }
    if id in m {
      assert (m - {id}).Keys == m.Keys - {id};
    } else {
      assert m - {id} == m;
    }
  }

  /**
   * `addStatsEntry` on a date already stored adds no key: the entry that
   * had the date is overwritten under its own id, which is stored.
   */
  lemma AddStatsSameDateKeepsKeys(m: map<string, StatsEntry>, entry: StatsEntry)
    requires Keyed(m, StatsId)
    ensures var existing := FirstWithDate(Ascending(m, StatsDate), StatsDate, entry.date);
      existing.Some? ==>
        var updated := entry.(id := existing.value.id);
        && m[updated.id := updated].Keys == m.Keys
        && |m[updated.id := updated]| == |m|
        && m[updated.id := updated][updated.id].date == entry.date
  {
    var existing := FirstWithDate(Ascending(m, StatsDate), StatsDate, entry.date);
    if existing.Some? {
      AscendingContents(m, StatsDate);
      assert existing.value in m.Values;
      var k :| k in m && m[k] == existing.value;
      assert StatsId(m[k]) == k;
      var updated := entry.(id := existing.value.id);
      assert updated.id in m;
      assert m[updated.id := updated].Keys == m.Keys;
    }
  }

  /** The cache after `updateActivities` holds the store's newest activities, at most a page of them. */
  lemma UpdateShowsNewest(m: map<string, Activity>)
    ensures var r := Window(Descending(m, ActivityDate), 0, PageSize);
      && |r| == Min(PageSize, |m|)
      && (forall i :: 0 <= i < |r| ==> r[i] in m.Values)
      && (forall i, j :: 0 <= i < j < |r| ==> StrLe(r[j].date, r[i].date))
  {
    PageNewestFirst(m, 0, PageSize);
    AscendingContents(m, ActivityDate);
  }
}
