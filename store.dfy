/**
 * The local structured store (src/hooks/db.ts): one object store of
 * activities keyed by `id` with a `by-date` and a `by-type` index, a
 * singleton profile under the key 'user', the stats and diet collections
 * that src/hooks/useUserData.tsx and src/hooks/useBackup.ts use with the
 * same keyed semantics, and the backup-folder handle record that
 * src/hooks/useBackup.ts keeps under the key 'handle'.
 */
module Store {
  import opened Wrappers
  import opened Order
  import opened Domain

  // ---------------------------------------------------------------------
  // Keyed collections as values

  /** Every record is stored under its own id (the store's keyPath). */
  ghost predicate Keyed<T>(m: map<string, T>, id: T -> string)
  {
    forall k :: k in m ==> id(m[k]) == k
  }

  /** `put` of each record of `xs` in turn: a later record replaces an earlier one with the same id. */
  function UpsertAll<T>(m: map<string, T>, xs: seq<T>, id: T -> string): (r: map<string, T>)
    decreases |xs|
  {
    if xs == [] then m
    else UpsertAll(m, xs[..|xs| - 1], id)[id(xs[|xs| - 1]) := xs[|xs| - 1]]
  }

  /** The ids that `xs` carries. */
  function Ids<T>(xs: seq<T>, id: T -> string): set<string>
  {
    set i | 0 <= i < |xs| :: id(xs[i])
  }

  lemma {:induction false} UpsertAllKeys<T>(m: map<string, T>, xs: seq<T>, id: T -> string)
    ensures UpsertAll(m, xs, id).Keys == m.Keys + Ids(xs, id)
    decreases |xs|
  {
    if xs != [] {
      var init := xs[..|xs| - 1];
      UpsertAllKeys(m, init, id);
      assert xs == init + [xs[|xs| - 1]];
      assert Ids(xs, id) == Ids(init, id) + {id(xs[|xs| - 1])};
    }
  }

  /** A record whose id `xs` does not carry keeps its stored value. */
  lemma {:induction false} UpsertAllOthers<T>(m: map<string, T>, xs: seq<T>, id: T -> string, k: string)
    requires k in m && k !in Ids(xs, id)
    ensures k in UpsertAll(m, xs, id) && UpsertAll(m, xs, id)[k] == m[k]
    decreases |xs|
  {
    if xs != [] {
      var init := xs[..|xs| - 1];
      assert Ids(init, id) <= Ids(xs, id);
      UpsertAllOthers(m, init, id, k);
    }
  }

  /** The stored value under an id that `xs` carries is the last record of `xs` with that id. */
  lemma {:induction false} UpsertAllLast<T>(m: map<string, T>, xs: seq<T>, id: T -> string, i: int)
    requires 0 <= i < |xs|
    requires forall j :: i < j < |xs| ==> id(xs[j]) != id(xs[i])
    ensures id(xs[i]) in UpsertAll(m, xs, id) && UpsertAll(m, xs, id)[id(xs[i])] == xs[i]
    decreases |xs|
  {
    if i < |xs| - 1 {
      UpsertAllLast(m, xs[..|xs| - 1], id, i);
    }
  }

  lemma {:induction false} UpsertAllKeyed<T>(m: map<string, T>, xs: seq<T>, id: T -> string)
    requires Keyed(m, id)
    ensures Keyed(UpsertAll(m, xs, id), id)
    decreases |xs|
  {
    if xs != [] {
      UpsertAllKeyed(m, xs[..|xs| - 1], id);
    }
  }

  /** The stored records of `m` at the ids listed in `ids`. */
  function Restrict<T>(m: map<string, T>, ids: seq<string>): (r: map<string, T>)
    requires forall i :: 0 <= i < |ids| ==> ids[i] in m
    ensures forall k :: k in r <==> k in ids
  {
    map k | k in ids :: m[k]
  }

  lemma RestrictStep<T>(base: map<string, T>, m: map<string, T>, ids: seq<string>)
    requires ids != [] && forall i :: 0 <= i < |ids| ==> ids[i] in m
    ensures (base + Restrict(m, ids[..|ids| - 1]))[ids[|ids| - 1] := m[ids[|ids| - 1]]] == base + Restrict(m, ids)
  {
    var n := |ids| - 1;
    var init := ids[..n];
    assert ids == init + [ids[n]];
    var lhs := (base + Restrict(m, init))[ids[n] := m[ids[n]]];
    var rhs := base + Restrict(m, ids);
    assert lhs.Keys == rhs.Keys;
    forall k | k in lhs
      ensures lhs[k] == rhs[k]
    {
      if k in ids {
        assert rhs[k] == m[k];
        if k != ids[n] {
          assert k in init;
        }
      }
    }
  }

  /** Upserting stored records overlays them on the base collection. */
  lemma {:induction false} UpsertAllLookup<T>(base: map<string, T>, m: map<string, T>, ids: seq<string>, id: T -> string)
    requires Keyed(m, id)
    requires forall i :: 0 <= i < |ids| ==> ids[i] in m
    ensures UpsertAll(base, Lookup(m, ids), id) == base + Restrict(m, ids)
    decreases |ids|
  {
    if ids != [] {
      var n := |ids| - 1;
      var init := ids[..n];
      var xs := Lookup(m, ids);
      assert xs[..n] == Lookup(m, init);
      UpsertAllLookup(base, m, init, id);
      assert id(xs[n]) == ids[n];
      assert UpsertAll(base, xs, id) == (base + Restrict(m, init))[ids[n] := m[ids[n]]];
      RestrictStep(base, m, ids);
    }
  }

  /** Putting back every stored record of a collection, in any index order, changes nothing. */
  lemma UpsertAscending<T>(base: map<string, T>, m: map<string, T>, id: T -> string, field: T -> string)
    requires Keyed(m, id)
    ensures UpsertAll(base, Ascending(m, field), id) == base + m
  {
    var ids := IndexIds(m, field, m.Keys);
    UpsertAllLookup(base, m, ids, id);
    RestrictAll(m, ids);
  }

  lemma RestrictAll<T>(m: map<string, T>, ids: seq<string>)
    requires forall k :: k in ids <==> k in m
    ensures Restrict(m, ids) == m
  {
    var r := Restrict(m, ids);
    assert r.Keys == m.Keys;
  }

  // ---------------------------------------------------------------------
  // Offset/limit pagination over a cursor

  function Min(a: int, b: int): int { if a <= b then a else b }

  /** Where reading starts: `offset` clamped to the cursor. */
  function Start(n: nat, offset: int): (s: nat)
    ensures s <= n
  {
    if offset <= 0 then 0 else Min(offset, n)
  }

  /**
   * What the paging loop yields: skip `offset` records, then take records
   * until `limit` are taken.  A limit of 0 (also `undefined`) takes
   * everything; a negative limit stops after the first record, because the
   * loop tests `length >= limit` only after a push.
   */
  function Window<T>(cursor: seq<T>, offset: int, limit: int): (r: seq<T>)
  {
    var rest := cursor[Start(|cursor|, offset)..];
    if limit == 0 then rest
    else if limit < 0 then rest[..Min(1, |rest|)]
    else rest[..Min(limit, |rest|)]
  }

  lemma WindowBounds<T>(cursor: seq<T>, offset: int, limit: int)
    ensures var r := Window(cursor, offset, limit);
      && (limit > 0 ==> |r| <= limit)
      && r == cursor[Start(|cursor|, offset)..Start(|cursor|, offset) + |r|]
      && (limit == 0 ==> |r| == |cursor| - Start(|cursor|, offset))
  {
  }

  /** Pages read one after the other concatenate into one longer page. */
  lemma WindowConcat<T>(cursor: seq<T>, n: nat, k: nat)
    requires k > 0
    ensures Window(cursor, 0, n) + Window(cursor, |Window(cursor, 0, n)|, k)
         == (if n == 0 then cursor else Window(cursor, 0, n + k))
  {
  }

  /**
   * The cursor walk of `loadActivities`: a `skipped` counter passes over the
   * first `offset` records, after which each record is pushed and the walk
   * stops once `limit` (when non-zero) records are held.
   */
  method ReadPage<T>(cursor: seq<T>, limit: int, offset: int) returns (page: seq<T>)
    ensures page == Window(cursor, offset, limit)
  {
    var start := Start(|cursor|, offset);
    page := [];
    var skipped := 0;
    var i := 0;
    while i < |cursor|
      invariant 0 <= i <= |cursor|
      invariant skipped == Min(i, start)
      invariant i <= start ==> page == []
      invariant start <= i ==> page == cursor[start..i]
      invariant limit != 0 ==> |page| < (if limit < 0 then 1 else limit)
    {
      if skipped < offset {
        skipped := skipped + 1;
        i := i + 1;
        continue;
      }
      page := page + [cursor[i]];
      if limit != 0 && |page| >= limit {
        break;
      }
      i := i + 1;
    }
  }

  /** A readwrite transaction that puts every record of `xs`, in order. */
  method PutAll<T>(m: map<string, T>, xs: seq<T>, id: T -> string) returns (r: map<string, T>)
    ensures r == UpsertAll(m, xs, id)
  {
    r := m;
    for i := 0 to |xs|
      invariant r == UpsertAll(m, xs[..i], id)
    {
      assert xs[..i + 1][..i] == xs[..i];
      r := r[id(xs[i]) := xs[i]];
    }
    assert xs[..|xs|] == xs;
  }

  /** The first record of `s` dated `date`: what an index `get` on a date returns. */
  function FirstWithDate<T>(s: seq<T>, dateOf: T -> string, date: string): (r: Option<T>)
    ensures r.Some? ==> r.value in s && dateOf(r.value) == date
    ensures r.None? <==> forall x :: x in s ==> dateOf(x) != date
  {
    if s == [] then None
    else if dateOf(s[0]) == date then Some(s[0])
    else FirstWithDate(s[1..], dateOf, date)
  }

  /** The ids of the stored activities of type `t`. */
  function OfType(m: map<string, Activity>, t: ActivityType): (s: set<string>)
    ensures s <= m.Keys
  {
    set k | k in m && m[k].activityType == t
  }

  // ---------------------------------------------------------------------
  // The database

  /** What the store holds. */
  datatype LocalData = LocalData(
    profile: Option<UserProfile>,
    activities: map<string, Activity>,
    statsEntries: map<string, StatsEntry>,
    dietEntries: map<string, DietEntry>,
    folderHandle: Option<FolderHandle>)

  ghost predicate WellKeyed(d: LocalData)
  {
    Keyed(d.activities, ActivityId) && Keyed(d.statsEntries, StatsId) && Keyed(d.dietEntries, DietId)
  }

  const EmptyStore := LocalData(None, map[], map[], map[], None)

  class Database {
    var profile: Option<UserProfile>
    var activities: map<string, Activity>
    var statsEntries: map<string, StatsEntry>
    var dietEntries: map<string, DietEntry>
    var folderHandle: Option<FolderHandle>

    function Contents(): LocalData
      reads this
    {
      LocalData(profile, activities, statsEntries, dietEntries, folderHandle)
    }

    ghost predicate Valid()
      reads this
    {
      WellKeyed(Contents())
    }

    /** A freshly created database: every object store empty. */
    constructor ()
      ensures Valid() && Contents() == EmptyStore
    {
      profile, activities, statsEntries, dietEntries, folderHandle := None, map[], map[], map[], None;
    }

    // --- user profile (singleton under 'user')

    method LoadUserProfile() returns (p: Option<UserProfile>)
      ensures p == profile
    {
      p := profile;
    }

    method SaveUserProfile(p: UserProfile)
      modifies this
      ensures Contents() == old(Contents()).(profile := Some(p))
    {
      profile := Some(p);
    }

    // --- activities

    method LoadActivities(limit: int, offset: int) returns (r: seq<Activity>)
      ensures r == Window(Descending(activities, ActivityDate), offset, limit)
    {
      var cursor := Descending(activities, ActivityDate);
      r := ReadPage(cursor, limit, offset);
    }

    method LoadAllActivities() returns (r: seq<Activity>)
      ensures r == Ascending(activities, ActivityDate)
      ensures |r| == |activities|
      ensures forall a :: a in r <==> a in activities.Values
      ensures SortedByDate(r, ActivityDate)
    {
      r := Ascending(activities, ActivityDate);
      AscendingContents(activities, ActivityDate);
      AscendingSorted(activities, ActivityDate);
    }

    method GetActivityCount() returns (n: nat)
      ensures n == |activities|
    {
      n := |activities|;
    }

    method LoadActivityById(id: string) returns (a: Option<Activity>)
      ensures a == if id in activities then Some(activities[id]) else None
    {
      a := if id in activities then Some(activities[id]) else None;
    }

    method SaveActivity(a: Activity)
      requires Valid()
      modifies this
      ensures Valid()
      ensures Contents() == old(Contents()).(activities := old(activities)[a.id := a])
    {
      activities := activities[a.id := a];
    }

    method SaveActivities(xs: seq<Activity>)
      requires Valid()
      modifies this
      ensures Valid()
      ensures Contents() == old(Contents()).(activities := UpsertAll(old(activities), xs, ActivityId))
    {
      UpsertAllKeyed(activities, xs, ActivityId);
      activities := PutAll(activities, xs, ActivityId);
    }

    method DeleteActivity(id: string)
      requires Valid()
      modifies this
      ensures Valid()
      ensures Contents() == old(Contents()).(activities := old(activities) - {id})
    {
      activities := activities - {id};
    }

    method LoadActivitiesByType(t: ActivityType) returns (r: seq<Activity>)
      ensures r == Lookup(activities, IndexIds(activities, ActivityTypeTag, OfType(activities, t)))
      ensures |r| == |OfType(activities, t)|
      ensures forall a :: a in r <==> a in activities.Values && a.activityType == t
    {
      var ids := IndexIds(activities, ActivityTypeTag, OfType(activities, t));
      r := Lookup(activities, ids);
      forall a | a in r
        ensures a in activities.Values && a.activityType == t
      {
        var i :| 0 <= i < |r| && r[i] == a;
        assert ids[i] in OfType(activities, t);
      }
      forall a | a in activities.Values && a.activityType == t
        ensures a in r
      {
        var k :| k in activities && activities[k] == a;
        assert k in ids;
        var i :| 0 <= i < |ids| && ids[i] == k;
        assert r[i] == a;
      }
    }

    // --- stats entries (same keyed semantics, `by-date` index)

    method LoadStatsEntries(limit: int, offset: int) returns (r: seq<StatsEntry>)
      ensures r == Window(Descending(statsEntries, StatsDate), offset, limit)
    {
      var cursor := Descending(statsEntries, StatsDate);
      r := ReadPage(cursor, limit, offset);
    }

    method LoadAllStatsEntries() returns (r: seq<StatsEntry>)
      ensures r == Ascending(statsEntries, StatsDate)
    {
      r := Ascending(statsEntries, StatsDate);
    }

    method GetStatsEntryCount() returns (n: nat)
      ensures n == |statsEntries|
    {
      n := |statsEntries|;
    }

    method LoadStatsEntryByDate(date: string) returns (e: Option<StatsEntry>)
      ensures e == FirstWithDate(Ascending(statsEntries, StatsDate), StatsDate, date)
      ensures e.Some? ==> e.value in statsEntries.Values && e.value.date == date
      ensures e.None? <==> forall x :: x in statsEntries.Values ==> x.date != date
    {
      AscendingContents(statsEntries, StatsDate);
      e := FirstWithDate(Ascending(statsEntries, StatsDate), StatsDate, date);
    }

    method SaveStatsEntry(e: StatsEntry)
      requires Valid()
      modifies this
      ensures Valid()
      ensures Contents() == old(Contents()).(statsEntries := old(statsEntries)[e.id := e])
    {
      statsEntries := statsEntries[e.id := e];
    }

    method SaveStatsEntries(xs: seq<StatsEntry>)
      requires Valid()
      modifies this
      ensures Valid()
      ensures Contents() == old(Contents()).(statsEntries := UpsertAll(old(statsEntries), xs, StatsId))
    {
      UpsertAllKeyed(statsEntries, xs, StatsId);
      statsEntries := PutAll(statsEntries, xs, StatsId);
    }

    method DeleteStatsEntry(id: string)
      requires Valid()
      modifies this
      ensures Valid()
      ensures Contents() == old(Contents()).(statsEntries := old(statsEntries) - {id})
    {
      statsEntries := statsEntries - {id};
    }

    // --- diet entries

    method LoadAllDietEntries() returns (r: seq<DietEntry>)
      ensures r == Ascending(dietEntries, DietDate)
    {
      r := Ascending(dietEntries, DietDate);
    }

    method SaveDietEntries(xs: seq<DietEntry>)
      requires Valid()
      modifies this
      ensures Valid()
      ensures Contents() == old(Contents()).(dietEntries := UpsertAll(old(dietEntries), xs, DietId))
    {
      UpsertAllKeyed(dietEntries, xs, DietId);
      dietEntries := PutAll(dietEntries, xs, DietId);
    }

    // --- backup folder handle (store 'backupFolderHandle', key 'handle')

    method StoreFolderHandle(h: FolderHandle)
      modifies this
      ensures Contents() == old(Contents()).(folderHandle := Some(h))
    {
      folderHandle := Some(h);
    }

    method GetStoredFolderHandle() returns (h: Option<FolderHandle>)
      ensures h == folderHandle
    {
      h := folderHandle;
    }

    method RemoveStoredFolderHandle()
      modifies this
      ensures Contents() == old(Contents()).(folderHandle := None)
    {
      folderHandle := None;
    }
  }

  // ---------------------------------------------------------------------
  // Properties of the store's operations

  /** After a save, the activity reads back by its id and every other id is unchanged. */
  lemma SaveThenLoad(m: map<string, Activity>, a: Activity, other: string)
    requires other != a.id
    ensures m[a.id := a][a.id] == a
    ensures (other in m[a.id := a]) == (other in m)
    ensures other in m ==> m[a.id := a][other] == m[other]
  {
  }

  /** The cursor opened in direction "prev" yields only stored records. */
  lemma DescendingMembers<T>(m: map<string, T>, field: T -> string)
    ensures var down := Descending(m, field);
      forall i :: 0 <= i < |down| ==> down[i] in m.Values
  {
    var ids := IndexIds(m, field, m.Keys);
    var up := Ascending(m, field);
    var down := Descending(m, field);
    forall i | 0 <= i < |down|
      ensures down[i] in m.Values
    {
      var j := |up| - 1 - i;
      assert down[i] == up[j] == m[ids[j]];
    }
  }

  /** The cursor opened in direction "prev" yields non-increasing field values (newest first). */
  lemma DescendingSorted<T>(m: map<string, T>, field: T -> string)
    ensures var down := Descending(m, field);
      forall i, j :: 0 <= i < j < |down| ==> StrLe(field(down[j]), field(down[i]))
  {
    var up := Ascending(m, field);
    var down := Descending(m, field);
    AscendingSorted(m, field);
    forall i, j | 0 <= i < j < |down|
      ensures StrLe(field(down[j]), field(down[i]))
    {
      var i', j' := |up| - 1 - j, |up| - 1 - i;
      assert 0 <= i' < j' < |up|;
      assert StrLe(field(up[i']), field(up[j']));
    }
  }

  /** A window of a cursor is a contiguous run of it. */
  lemma WindowIsSlice<T>(cursor: seq<T>, offset: int, limit: int)
    ensures var r := Window(cursor, offset, limit);
      var s := Start(|cursor|, offset);
      s + |r| <= |cursor| && forall i :: 0 <= i < |r| ==> r[i] == cursor[s + i]
  {
  }

  /** The activity pages are read newest first, hold only stored activities and respect the limit. */
  lemma PageNewestFirst(m: map<string, Activity>, offset: int, limit: int)
    ensures var r := Window(Descending(m, ActivityDate), offset, limit);
      && (forall i :: 0 <= i < |r| ==> r[i] in m.Values)
      && (forall i, j :: 0 <= i < j < |r| ==> StrLe(r[j].date, r[i].date))
      && (limit > 0 ==> |r| <= limit)
  {
    var down := Descending(m, ActivityDate);
    var r := Window(down, offset, limit);
    var s := Start(|down|, offset);
    WindowIsSlice(down, offset, limit);
    assert forall i :: 0 <= i < |r| ==> r[i] in m.Values by {
      DescendingMembers(m, ActivityDate);
    }
    assert forall i, j :: 0 <= i < j < |r| ==> StrLe(r[j].date, r[i].date) by {
      DescendingSorted(m, ActivityDate);
      forall i, j | 0 <= i < j < |r|
        ensures StrLe(r[j].date, r[i].date)
      {
        assert StrLe(ActivityDate(down[s + j]), ActivityDate(down[s + i]));
      }
    }
  }

  /** `loadActivities` with offset `k` continues exactly where a first page of `k` ends. */
  lemma PagesContinue(m: map<string, Activity>, n: nat, k: nat)
    requires n > 0 && k > 0
    ensures var c := Descending(m, ActivityDate);
      Window(c, 0, n) + Window(c, |Window(c, 0, n)|, k) == Window(c, 0, n + k)
  {
    WindowConcat(Descending(m, ActivityDate), n, k);
  }
}
