/**
 * The statistics page's `StatsPage`: the task list of the current profile and the profile
 * registry, read from the storage the main page writes. The charts and cards are computed by
 * loops proved against the functions of module Statistics; refreshing the page also sorts the
 * task list in place, newest first, which the registry methods inherit.
 */
module Stats {
  import opened Common
  import opened Calendar
  import opened Ordering
  import opened Tasks
  import opened Tally
  import opened Profiles
  import opened Statistics

  /** The key of `updateRecentTasks`' sort: the creation time, 0 for a record without one. */
  function CreatedKey(t: Task): int {
    if t.createdAt.Some? then t.createdAt.value else 0
  }

  /** The five tasks of the recent-tasks card, taken from the list sorted newest first. */
  function RecentTasks(ts: seq<Task>): seq<Task> {
    Take(SortDesc(ts, CreatedKey), 5)
  }

  /**
   * The card shows at most five tasks, newest first, all from the list, and no task left out
   * of it was created later than one shown.
   */
  lemma RecentTasksSound(ts: seq<Task>)
    ensures |RecentTasks(ts)| == if |ts| < 5 then |ts| else 5
    ensures NonIncreasing(RecentTasks(ts), CreatedKey)
    ensures forall t :: t in RecentTasks(ts) ==> t in ts
    ensures forall i, j :: 0 <= i < |RecentTasks(ts)| <= j < |ts| ==>
              CreatedKey(RecentTasks(ts)[i]) >= CreatedKey(SortDesc(ts, CreatedKey)[j])
  {
    var s := SortDesc(ts, CreatedKey);
    forall t | t in RecentTasks(ts) ensures t in ts {
      assert t in multiset(s);
    }
  }

  /** `deleteProfile`'s outcomes. */
  datatype DeleteOutcome = Deleted | LastProfile | UnknownProfile | Cancelled

  /** `createProfile`'s outcomes. */
  datatype CreateOutcome = Created | EmptyName | NameInUse

  /** Everything `updateAllStats` shows. */
  datatype StatsView = StatsView(
    summary: Summary,
    priorities: seq<nat>,
    monthly: Monthly,
    tagChart: seq<TagCount>,
    metrics: Metrics,
    recent: seq<Task>,
    topTags: seq<TagCount>)

  /**
   * The figures `updateAllStats` shows for a list: all of them on the list as it is, but the
   * top tags on the list after the recent-tasks card has sorted it.
   */
  function StatsOf(ts: seq<Task>, today: Date): StatsView {
    StatsView(SummaryOf(ts, today), PriorityCounts(ts), MonthlyData(ts, today.year), TopTags(AllTags(ts), 5),
              MetricsOf(ts, today), RecentTasks(ts), TopTags(AllTags(SortDesc(ts, CreatedKey)), 10))
  }

  class StatsPage {
    var tasks: seq<Task>
    var profiles: seq<Profile>
    var current: Option<Profile>
    var storage: Storage

    /** The registry invariant of this page: a current profile exactly when there are profiles, one of them. */
    ghost predicate Valid()
      reads this
    {
      (current.None? <==> profiles == []) && (current.Some? ==> current.value in profiles)
    }

    /**
     * `init`'s data steps: `loadProfiles` (which creates no profile), `loadTasks` (which keeps
     * the empty list without a current profile) and `updateAllStats`. `today` stands for the clock.
     */
    constructor (st: Storage, today: Date)
      ensures Valid()
      ensures profiles == ParsedProfiles(st.profiles) && storage == st
      ensures current == ResolveCurrent(profiles, st.currentId)
      ensures tasks == SortDesc(LoadTasksFor(st, current, []), CreatedKey)
    {
      var ps := ParsedProfiles(st.profiles);
      var cur := ResolveCurrent(ps, st.currentId);
      assert (cur.None? <==> ps == []) && (cur.Some? ==> cur.value in ps);
      tasks, profiles, current, storage := [], ps, cur, st;
      new;
      Reload(today);
    }

    /**
     * `loadTasks` followed by `updateAllStats`, as `init`, `switchProfile` and `deleteProfile`
     * end; the figures go to the page, the sort stays in the list.
     */
    method Reload(today: Date)
      modifies this`tasks
      ensures tasks == SortDesc(LoadTasksFor(storage, current, old(tasks)), CreatedKey)
    {
      LoadTasks();
      var view := UpdateAllStats(today);
    }

    /** `loadTasks`: the list stored for the current profile; nothing changes without one. */
    method LoadTasks()
      modifies this`tasks
      ensures tasks == LoadTasksFor(storage, current, old(tasks))
    {
      tasks := LoadTasksFor(storage, current, tasks);
    }

    // ---------------------------------------------------------------- figures

    /** `getPriorityData`: one pass over the tasks, one counter per priority. */
    method GetPriorityData() returns (values: seq<nat>)
      ensures values == PriorityCounts(tasks)
      ensures values[0] + values[1] + values[2] + values[3] == |tasks|
    {
      var low, medium, high, urgent := 0, 0, 0, 0;
      var i := 0;
      while i < |tasks|
        invariant 0 <= i <= |tasks|
        invariant low == Count(tasks[..i], HasPriority(Low)) && medium == Count(tasks[..i], HasPriority(Medium))
        invariant high == Count(tasks[..i], HasPriority(High)) && urgent == Count(tasks[..i], HasPriority(Urgent))
      {
        CountStep(tasks, i, HasPriority(Low));
        CountStep(tasks, i, HasPriority(Medium));
        CountStep(tasks, i, HasPriority(High));
        CountStep(tasks, i, HasPriority(Urgent));
        var p := EffectivePriority(tasks[i].priority);
        if p == Low {
          low := low + 1;
        } else if p == Medium {
          medium := medium + 1;
        } else if p == High {
          high := high + 1;
        } else {
          urgent := urgent + 1;
        }
        i := i + 1;
      }
      assert tasks[..i] == tasks;
      values := [low, medium, high, urgent];
      PriorityCountsSum(tasks);
    }

    /** `getMonthlyData`: twelve buckets for the current year, filled in one pass. */
    method GetMonthlyData(today: Date) returns (m: Monthly)
      ensures m == MonthlyData(tasks, today.year)
    {
      var year := today.year;
      var created: seq<nat> := seq(12, _ => 0);
      var completed: seq<nat> := seq(12, _ => 0);
      var i := 0;
      while i < |tasks|
        invariant 0 <= i <= |tasks|
        invariant |created| == 12 && |completed| == 12
        invariant created == MonthlyData(tasks[..i], year).created
        invariant completed == MonthlyData(tasks[..i], year).completed
      {
        assert tasks[..i + 1] == tasks[..i] + [tasks[i]];
        MonthlyDataSnoc(tasks[..i], tasks[i], year);
        var t := tasks[i];
        if t.date.year == year && 1 <= t.date.month <= 12 {
          var k := t.date.month - 1;
          created := created[k := created[k] + 1];
          if t.status == COMPLETED {
            completed := completed[k := completed[k] + 1];
          }
        }
        i := i + 1;
      }
      assert tasks[..i] == tasks;
      m := Monthly(created, completed);
    }

    /** The tag counting of `getTagsData` and `updateTopTags`: every tag of every task in turn. */
    method CountTags() returns (counts: seq<TagCount>)
      ensures counts == TallyOf(AllTags(tasks))
    {
      counts := [];
      var i := 0;
      while i < |tasks|
        invariant 0 <= i <= |tasks|
        invariant counts == TallyOf(AllTags(tasks[..i]))
      {
        counts := CountEach(counts, AllTags(tasks[..i]), tasks[i].tags);
        AllTagsStep(tasks, i);
        i := i + 1;
      }
      assert tasks[..i] == tasks;
    }

    /** The inner `forEach`: one task's tags counted in turn into the counts of `before`. */
    static method CountEach(counts: seq<TagCount>, before: seq<string>, tags: seq<string>) returns (r: seq<TagCount>)
      requires counts == TallyOf(before)
      ensures r == TallyOf(before + tags)
    {
      r := counts;
      var j := 0;
      assert before + tags[..0] == before;
      while j < |tags|
        invariant 0 <= j <= |tags|
        invariant r == TallyOf(before + tags[..j])
      {
        TallyOfPrefixStep(before, tags, j);
        r := Bump(r, tags[j]);
        j := j + 1;
      }
      assert tags[..j] == tags;
    }

    /**
     * `getTagsData` (n = 5) and `updateTopTags` (n = 10): the `n` most used tags with their
     * numbers of uses, most used first.
     */
    method TopTagEntries(n: nat) returns (top: seq<TagCount>)
      ensures top == TopTags(AllTags(tasks), n)
      ensures |top| <= n && NonIncreasing(top, CountKey)
      ensures forall i :: 0 <= i < |top| ==>
                top[i].tag in AllTags(tasks) && top[i].count == multiset(AllTags(tasks))[top[i].tag]
    {
      var counts := CountTags();
      top := Take(SortDesc(counts, CountKey), n);
      TopTagsCounts(AllTags(tasks), n);
      TopTagsOrder(AllTags(tasks), n, 0);
    }

    /** `calculatePerformanceMetrics`: the two rates, and the completion days summed in one pass. */
    method CalculatePerformanceMetrics(today: Date) returns (m: Metrics)
      ensures m == MetricsOf(tasks, today)
      ensures 0 <= m.completionRate <= 100 && 0 <= m.overdueRate <= 100
    {
      var total := |tasks|;
      var completionRate := Percent(Count(tasks, IsCompleted), total);
      var overdueRate := Percent(Count(tasks, OverdueOn(today)), total);
      var totalDays := 0;
      var completedCount: nat := 0;
      var i := 0;
      while i < |tasks|
        invariant 0 <= i <= |tasks|
        invariant Totals(totalDays, completedCount) == CompletionTotals(tasks[..i])
      {
        var t := tasks[i];
        assert tasks[..i + 1][..i] == tasks[..i];
        if t.status == COMPLETED && t.createdAt.Some? {
          totalDays := totalDays + CompletionDays(t);
          completedCount := completedCount + 1;
        }
        i := i + 1;
      }
      assert tasks[..i] == tasks;
      var avg := if completedCount > 0 then RoundDiv(totalDays, completedCount) else 0;
      m := Metrics(completionRate, overdueRate, avg);
    }

    /** `updateRecentTasks`: sorts the list itself newest first and shows its first five. */
    method UpdateRecentTasks() returns (recent: seq<Task>)
      modifies this`tasks
      ensures tasks == SortDesc(old(tasks), CreatedKey)
      ensures multiset(tasks) == multiset(old(tasks))
      ensures recent == RecentTasks(old(tasks))
    {
      tasks := SortDesc(tasks, CreatedKey);
      recent := Take(tasks, 5);
    }

    /**
     * `updateAllStats`: the cards, the charts and the metrics on the list as it is, then the
     * recent tasks (which reorder the list) and the top tags on the reordered list.
     */
    method UpdateAllStats(today: Date) returns (view: StatsView)
      modifies this`tasks
      ensures tasks == SortDesc(old(tasks), CreatedKey)
      ensures view == StatsOf(old(tasks), today)
    {
      var summary := SummaryOf(tasks, today);
      var priorities := GetPriorityData();
      var monthly := GetMonthlyData(today);
      var tagChart := TopTagEntries(5);
      var metrics := CalculatePerformanceMetrics(today);
      var recent := UpdateRecentTasks();
      var topTags := TopTagEntries(10);
      view := StatsView(summary, priorities, monthly, tagChart, metrics, recent, topTags);
    }

    // ---------------------------------------------------------------- profiles

    /** `switchProfile`: stores only the current id, loads that profile's tasks and refreshes. */
    method SwitchProfile(p: Profile, today: Date)
      modifies this`current, this`storage, this`tasks
      ensures current == Some(p)
      ensures storage == old(storage).(currentId := Some(p.id))
      ensures tasks == SortDesc(StoredTasks(storage, p.id), CreatedKey)
      ensures p in profiles ==> Valid()
    {
      current := Some(p);
      storage := storage.(currentId := Some(p.id));
      Reload(today);
    }

    /**
     * `createProfile`: refuses a blank name and a name used in any case; otherwise appends the
     * profile, stores the list, and switches to it. `id` stands for `profile_${Date.now()}`.
     */
    method CreateProfile(name: string, icon: string, color: string, id: string, now: int, today: Date)
      returns (outcome: CreateOutcome)
      modifies this`profiles, this`current, this`storage, this`tasks
      ensures Text.Trim(name) == [] ==> outcome == EmptyName
      ensures Text.Trim(name) != [] && NameTaken(old(profiles), Text.Trim(name)) ==> outcome == NameInUse
      ensures Text.Trim(name) != [] && !NameTaken(old(profiles), Text.Trim(name)) ==> outcome == Created
      ensures outcome != Created ==>
                profiles == old(profiles) && current == old(current) && storage == old(storage) && tasks == old(tasks)
      ensures outcome == Created ==>
                profiles == old(profiles) + [Profile(id, Text.Trim(name), icon, color, now)]
                && current == Some(Profile(id, Text.Trim(name), icon, color, now))
                && storage == old(storage).(profiles := Stored(profiles), currentId := Some(id))
                && tasks == SortDesc(StoredTasks(storage, id), CreatedKey)
      ensures old(Valid()) || outcome == Created ==> Valid()
      ensures UniqueNames(old(profiles)) ==> UniqueNames(profiles)
    {
      var trimmed := Text.Trim(name);
      if trimmed == [] {
        return EmptyName;
      }
      if NameTaken(profiles, trimmed) {
        return NameInUse;
      }
      var p := Profile(id, trimmed, icon, color, now);
      if UniqueNames(profiles) {
        AddFreeNameKeepsUnique(profiles, p);
      }
      profiles := profiles + [p];
      storage := storage.(profiles := Stored(profiles));
      SwitchProfile(p, today);
      return Created;
    }

    /**
     * `deleteProfile`: refuses when one profile or none is left, ignores an unknown id, and
     * once confirmed removes the profile, moves the current profile to the first remaining one
     * if it was the one removed, stores the list alone (the stored current id is left as it
     * was), reloads and refreshes.
     */
    method DeleteProfile(id: string, confirmed: bool, today: Date) returns (outcome: DeleteOutcome)
      modifies this`profiles, this`current, this`storage, this`tasks
      ensures |old(profiles)| <= 1 ==> outcome == LastProfile
      ensures |old(profiles)| > 1 && FindProfile(old(profiles), id).None? ==> outcome == UnknownProfile
      ensures |old(profiles)| > 1 && FindProfile(old(profiles), id).Some? ==>
                outcome == (if confirmed then Deleted else Cancelled)
      ensures outcome != Deleted ==>
                profiles == old(profiles) && current == old(current) && storage == old(storage) && tasks == old(tasks)
      ensures outcome == Deleted ==>
                profiles == WithoutProfile(old(profiles), id)
                && current == (if old(current).Some? && old(current).value.id == id
                               then (if profiles != [] then Some(profiles[0]) else None)
                               else old(current))
                && storage == old(storage).(profiles := Stored(profiles))
                && tasks == SortDesc(LoadTasksFor(storage, current, old(tasks)), CreatedKey)
      ensures old(Valid()) && UniqueIds(old(profiles)) ==> Valid()
    {
      if |profiles| <= 1 {
        return LastProfile;
      }
      if FindProfile(profiles, id).None? {
        return UnknownProfile;
      }
      if !confirmed {
        return Cancelled;
      }
      RemoveProfile(id);
      Reload(today);
      return Deleted;
    }

    /** The confirmed part of `deleteProfile` before the reload: the list, the current profile, the stored list. */
    method RemoveProfile(id: string)
      requires FindProfile(profiles, id).Some?
      modifies this`profiles, this`current, this`storage
      ensures profiles == WithoutProfile(old(profiles), id)
      ensures current == (if old(current).Some? && old(current).value.id == id
                          then (if profiles != [] then Some(profiles[0]) else None)
                          else old(current))
      ensures storage == old(storage).(profiles := Stored(profiles))
      ensures old(Valid()) && UniqueIds(old(profiles)) ==> Valid()
    {
      if UniqueIds(profiles) {
        WithoutProfileRemovesOne(profiles, id);
      }
      var wasCurrent := current.Some? && current.value.id == id;
      profiles := WithoutProfile(profiles, id);
      if wasCurrent {
        current := if profiles != [] then Some(profiles[0]) else None;
      }
      storage := storage.(profiles := Stored(profiles));
    }
  }
}
