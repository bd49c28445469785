/**
 * The main page's `FuturTaskApp`: the task list of the current profile, the edit state, the
 * filters and search, and the profile registry, with the storage they are saved in. Each
 * method is one user action with its effect on the fields and on storage; the confirmation
 * dialogs become a `confirmed` flag, and ids and the clock are parameters.
 */
module App {
  import opened Common
  import opened Text
  import opened Calendar
  import opened Ordering
  import opened Tasks
  import opened Profiles

  datatype CreateOutcome = Created | EmptyName | NameInUse
  datatype DeleteOutcome = Deleted | LastProfile | UnknownProfile | Cancelled

  /** `tasks.findIndex(t => t.id === this.currentEditId)`: nothing matches while no edit is open. */
  function EditTarget(ts: seq<Task>, editId: Option<string>): (r: Option<nat>)
    ensures r.Some? ==> editId.Some? && r == FindIndex(ts, editId.value)
    ensures editId.Some? && FindIndex(ts, editId.value).Some? ==> r.Some?
  {
    if editId.Some? then FindIndex(ts, editId.value) else None
  }

  /**
   * The list after saving a form while `editId` is being edited: refused (None) for a blank
   * title, a missing date, or no task with that id; otherwise only the first task with the id
   * is replaced, by the edited task.
   */
  function ApplyEdit(ts: seq<Task>, editId: Option<string>, f: EditForm): Option<seq<Task>> {
    var k := EditTarget(ts, editId);
    if Acceptable(f) && k.Some? then Some(ts[k.value := Edited(ts[k.value], f)]) else None
  }

  /**
   * A saved edit replaces exactly one task, the first with the edited id, by the edited task
   * (well-formed, same id and creation time: the contract of Edited); every other task stays
   * where it was.
   */
  lemma ApplyEditSound(ts: seq<Task>, editId: Option<string>, f: EditForm)
    ensures ApplyEdit(ts, editId, f).Some? <==> Acceptable(f) && editId.Some? && FindIndex(ts, editId.value).Some?
    ensures ApplyEdit(ts, editId, f).Some? ==>
              var r := ApplyEdit(ts, editId, f).value;
              var k := FindIndex(ts, editId.value).value;
              |r| == |ts| && r[k] == Edited(ts[k], f) && r[k].id == editId.value
              && forall i :: 0 <= i < |ts| && i != k ==> r[i] == ts[i]
  {
    var ok := Acceptable(f);
    var k := EditTarget(ts, editId);
    if ok && k.Some? {
      var e := Edited(ts[k.value], f);
      var r := ts[k.value := e];
      assert ApplyEdit(ts, editId, f) == Some(r);
      forall i | 0 <= i < |ts| && i != k.value ensures r[i] == ts[i] {
      }
    } else {
      assert ApplyEdit(ts, editId, f) == None;
    }
  }

  class FuturTaskApp {
    var tasks: seq<Task>
    var currentEditId: Option<string>
    var searchQuery: string
    var filters: Filters
    var profiles: seq<Profile>
    var current: Option<Profile>
    var storage: Storage

    /** The registry invariant: at least one profile, and the current profile is one of them. */
    ghost predicate Valid()
      reads this
    {
      |profiles| > 0 && current.Some? && current.value in profiles
    }

    /**
     * `init`'s data steps: `loadProfiles` (creating the default profile when none is stored)
     * and then `loadTasks` for the current profile.
     */
    constructor (st: Storage, now: int)
      ensures Valid()
      ensures ParsedProfiles(st.profiles) == [] ==>
                profiles == [DefaultProfile(now)] && storage == SavedProfiles(st, profiles, current)
      ensures ParsedProfiles(st.profiles) != [] ==> profiles == ParsedProfiles(st.profiles) && storage == st
      ensures current == ResolveCurrent(profiles, storage.currentId)
      ensures tasks == StoredTasks(storage, current.value.id)
      ensures currentEditId.None? && searchQuery == [] && filters == NO_FILTERS
    {
      tasks := [];
      currentEditId := None;
      searchQuery := [];
      filters := NO_FILTERS;
      profiles := ParsedProfiles(st.profiles);
      current := None;
      storage := st;
      new;
      if profiles == [] {
        CreateDefaultProfile(now);
      }
      current := ResolveCurrent(profiles, storage.currentId);
      LoadTasks();
    }

    /** `createDefaultProfile`: appends the default profile, makes it current and saves. */
    method CreateDefaultProfile(now: int)
      modifies this`profiles, this`current, this`storage
      ensures profiles == old(profiles) + [DefaultProfile(now)]
      ensures current == Some(DefaultProfile(now))
      ensures storage == SavedProfiles(old(storage), profiles, current)
    {
      profiles := profiles + [DefaultProfile(now)];
      current := Some(DefaultProfile(now));
      SaveProfiles();
    }

    /** `saveProfiles`. */
    method SaveProfiles()
      modifies this`storage
      ensures storage == SavedProfiles(old(storage), profiles, current)
    {
      storage := SavedProfiles(storage, profiles, current);
    }

    /** The profile-scoped `saveTasks`. */
    method SaveTasks()
      modifies this`storage
      ensures storage == SaveTasksFor(old(storage), current, tasks)
      ensures current.Some? ==> StoredTasks(storage, current.value.id) == tasks
    {
      storage := SaveTasksFor(storage, current, tasks);
    }

    /** The profile-scoped `loadTasks`. */
    method LoadTasks()
      modifies this`tasks
      ensures tasks == LoadTasksFor(storage, current, old(tasks))
    {
      tasks := LoadTasksFor(storage, current, tasks);
    }

    // ---------------------------------------------------------------- tasks

    /**
     * `addTask`: with a title that is not blank and a date, appends a new pending task and
     * saves; otherwise changes nothing. `id` and `now` stand for `Date.now()` and the clock.
     */
    method AddTask(title: string, description: string, tagsField: string, date: Option<Date>,
                   priority: Priority, id: string, now: int) returns (added: bool)
      modifies this`tasks, this`storage
      ensures added <==> Trim(title) != [] && date.Some?
      ensures added ==> tasks == old(tasks) + [NewTask(id, title, description, tagsField, date.value, priority, now)]
      ensures added ==> storage == SaveTasksFor(old(storage), current, tasks)
      ensures !added ==> tasks == old(tasks) && storage == old(storage)
    {
      if Trim(title) == [] || date.None? {
        return false;
      }
      StoreList(tasks + [NewTask(id, title, description, tagsField, date.value, priority, now)]);
      return true;
    }

    /** `editTask`: remembers the id and fills the form, when a task has that id. */
    method BeginEdit(id: string) returns (form: Option<EditForm>)
      modifies this`currentEditId
      ensures FindIndex(tasks, id).None? ==> form.None? && currentEditId == old(currentEditId)
      ensures FindIndex(tasks, id).Some? ==>
                currentEditId == Some(id) && form == Some(FormOf(tasks[FindIndex(tasks, id).value]))
    {
      var k := FindIndex(tasks, id);
      if k.None? {
        return None;
      }
      currentEditId := Some(id);
      form := Some(FormOf(tasks[k.value]));
    }

    /**
     * `saveEditTask`: applies the form to the task being edited, saves, and closes the edit
     * (which forgets the id); a refused form changes nothing.
     */
    method SaveEditTask(f: EditForm) returns (saved: bool)
      modifies this`tasks, this`storage, this`currentEditId
      ensures saved <==> ApplyEdit(old(tasks), old(currentEditId), f).Some?
      ensures saved ==> tasks == ApplyEdit(old(tasks), old(currentEditId), f).value
                        && storage == SaveTasksFor(old(storage), current, tasks) && currentEditId.None?
      ensures !saved ==> tasks == old(tasks) && storage == old(storage) && currentEditId == old(currentEditId)
    {
      var r := ApplyEdit(tasks, currentEditId, f);
      saved := r.Some?;
      if saved {
        CommitEdit(r.value);
      }
    }

    /** The end of a saved edit: the new list is stored and the edit is closed. */
    method CommitEdit(ts: seq<Task>)
      modifies this`tasks, this`storage, this`currentEditId
      ensures tasks == ts && storage == SaveTasksFor(old(storage), current, ts) && currentEditId.None?
    {
      StoreList(ts);
      currentEditId := None;
    }

    /** `this.tasks = ts` followed by `saveTasks`. */
    method StoreList(ts: seq<Task>)
      modifies this`tasks, this`storage
      ensures tasks == ts && storage == SaveTasksFor(old(storage), current, ts)
    {
      tasks := ts;
      SaveTasks();
    }

    /** The in-place write `this.tasks[k] = t` followed by `saveTasks`. */
    method ReplaceAt(k: nat, t: Task)
      requires k < |tasks|
      modifies this`tasks, this`storage
      ensures tasks == old(tasks)[k := t]
      ensures storage == SaveTasksFor(old(storage), current, tasks)
    {
      tasks := tasks[k := t];
      SaveTasks();
    }

    /** `toggleTaskStatus`: flips the status of the first task with that id and saves. */
    method ToggleTaskStatus(id: string)
      modifies this`tasks, this`storage
      ensures FindIndex(old(tasks), id).None? ==> tasks == old(tasks) && storage == old(storage)
      ensures FindIndex(old(tasks), id).Some? ==>
                var k := FindIndex(old(tasks), id).value;
                tasks == old(tasks)[k := old(tasks)[k].(status := Toggled(old(tasks)[k].status))]
                && storage == SaveTasksFor(old(storage), current, tasks)
    {
      var k := FindIndex(tasks, id);
      if k.None? {
        return;
      }
      var t := tasks[k.value];
      ReplaceAt(k.value, t.(status := Toggled(t.status)));
    }

    /** `deleteTask`: once confirmed, drops every task with that id and saves. */
    method DeleteTask(id: string, confirmed: bool)
      modifies this`tasks, this`storage
      ensures confirmed ==> tasks == RemoveId(old(tasks), id) && storage == SaveTasksFor(old(storage), current, tasks)
      ensures !confirmed ==> tasks == old(tasks) && storage == old(storage)
    {
      if confirmed {
        tasks := RemoveId(tasks, id);
        SaveTasks();
      }
    }

    /** `deleteAllTasks`. */
    method DeleteAllTasks()
      modifies this`tasks, this`storage
      ensures tasks == [] && storage == SaveTasksFor(old(storage), current, [])
    {
      tasks := [];
      SaveTasks();
    }

    // ---------------------------------------------------------------- view

    /** The list as displayed: `getFilteredTasks` in the display order. */
    ghost function View(): seq<Task>
      reads this
    {
      DisplayOrder(FilterTasks(tasks, filters, searchQuery))
    }

    /** One of the filter selects changes. */
    method SetFilters(f: Filters)
      modifies this`filters
      ensures filters == f
    {
      filters := f;
    }

    /** The search input changes: the query is kept trimmed, so a blank input matches every task. */
    method SetSearch(query: string)
      modifies this`searchQuery
      ensures searchQuery == Trim(query)
      ensures forall t: Task :: Contains(t.title, Trim(query)) ==> IsTaskMatch(t, searchQuery)
      ensures AllSpace(query) ==> forall t: Task :: IsTaskMatch(t, searchQuery)
    {
      searchQuery := Trim(query);
      TrimEmptyIffBlank(query);
      forall t: Task | Contains(t.title, searchQuery) ensures IsTaskMatch(t, searchQuery) {
        SearchFindsSubstring(t, searchQuery);
      }
    }

    /** `clearFilters`: afterwards every task is displayed. */
    method ClearFilters()
      modifies this`filters, this`searchQuery
      ensures filters == NO_FILTERS && searchQuery == []
      ensures multiset(View()) == multiset(tasks)
    {
      filters := NO_FILTERS;
      searchQuery := [];
      NoFiltersKeepsAll(tasks);
    }

    // ---------------------------------------------------------------- profiles

    /** `switchProfile`: makes `p` current, saves, and loads its tasks. */
    method SwitchProfile(p: Profile)
      modifies this`current, this`storage, this`tasks
      ensures current == Some(p)
      ensures storage == SavedProfiles(old(storage), profiles, current)
      ensures tasks == StoredTasks(storage, p.id)
      ensures p in profiles ==> Valid()
    {
      current := Some(p);
      SaveProfiles();
      LoadTasks();
    }

    /**
     * `createProfile`: refuses a blank name and a name already used in any case; otherwise
     * appends the profile, saves, and switches to it. `id` stands for `profile_${Date.now()}`.
     */
    method CreateProfile(name: string, icon: string, color: string, id: string, now: int)
      returns (outcome: CreateOutcome)
      modifies this`profiles, this`current, this`storage, this`tasks
      ensures Trim(name) == [] ==> outcome == EmptyName
      ensures Trim(name) != [] && NameTaken(old(profiles), Trim(name)) ==> outcome == NameInUse
      ensures Trim(name) != [] && !NameTaken(old(profiles), Trim(name)) ==> outcome == Created
      ensures outcome != Created ==>
                profiles == old(profiles) && current == old(current) && storage == old(storage) && tasks == old(tasks)
      ensures outcome == Created ==>
                profiles == old(profiles) + [Profile(id, Trim(name), icon, color, now)]
                && current == Some(Profile(id, Trim(name), icon, color, now))
                && storage == SavedProfiles(old(storage), profiles, current)
                && tasks == StoredTasks(storage, id)
      ensures old(Valid()) || outcome == Created ==> Valid()
      ensures UniqueNames(old(profiles)) ==> UniqueNames(profiles)
    {
      var trimmed := Trim(name);
      if trimmed == [] {
        return EmptyName;
      }
      if NameTaken(profiles, trimmed) {
        return NameInUse;
      }
      var p := Profile(id, trimmed, icon, color, now);
      if UniqueNames(profiles) {
        AddFreeNameKeepsUnique(profiles, p);
      }
      profiles := profiles + [p];
      SaveProfiles();
      SwitchProfile(p);
      return Created;
    }

    /**
     * `deleteProfile`: refuses when one profile or none is left, ignores an unknown id, and
     * once confirmed removes the profile, moves the current profile to the first remaining one
     * if it was the one removed, saves, and reloads the tasks. The removed profile's task
     * entry stays in storage.
     */
    method DeleteProfile(id: string, confirmed: bool) returns (outcome: DeleteOutcome)
      modifies this`profiles, this`current, this`storage, this`tasks
      ensures |old(profiles)| <= 1 ==> outcome == LastProfile
      ensures |old(profiles)| > 1 && FindProfile(old(profiles), id).None? ==> outcome == UnknownProfile
      ensures |old(profiles)| > 1 && FindProfile(old(profiles), id).Some? ==>
                outcome == (if confirmed then Deleted else Cancelled)
      ensures outcome != Deleted ==>
                profiles == old(profiles) && current == old(current) && storage == old(storage) && tasks == old(tasks)
      ensures outcome == Deleted ==>
                profiles == WithoutProfile(old(profiles), id)
                && current == (if old(current).Some? && old(current).value.id == id
                               then (if profiles != [] then Some(profiles[0]) else None)
                               else old(current))
                && storage == SavedProfiles(old(storage), profiles, current)
                && tasks == LoadTasksFor(storage, current, old(tasks))
      ensures storage.tasks == old(storage.tasks)
      ensures old(Valid()) && UniqueIds(old(profiles)) ==> Valid()
    {
      if |profiles| <= 1 {
        return LastProfile;
      }
      if FindProfile(profiles, id).None? {
        return UnknownProfile;
      }
      if !confirmed {
        return Cancelled;
      }
      RemoveProfile(id);
      LoadTasks();
      return Deleted;
    }

    /** The confirmed part of `deleteProfile` before the reload: the list, the current profile, the save. */
    method RemoveProfile(id: string)
      requires |profiles| > 1 && FindProfile(profiles, id).Some?
      modifies this`profiles, this`current, this`storage
      ensures profiles == WithoutProfile(old(profiles), id)
      ensures current == (if old(current).Some? && old(current).value.id == id
                          then (if profiles != [] then Some(profiles[0]) else None)
                          else old(current))
      ensures storage == SavedProfiles(old(storage), profiles, current)
      ensures old(Valid()) && UniqueIds(old(profiles)) ==> Valid()
    {
      if Valid() && UniqueIds(profiles) {
        RemovalKeepsRegistry(profiles, id, current.value);
      }
      var wasCurrent := current.Some? && current.value.id == id;
      profiles := WithoutProfile(profiles, id);
      if wasCurrent {
        current := if profiles != [] then Some(profiles[0]) else None;
      }
      SaveProfiles();
    }
  }

  /**
   * Removing a known profile from at least two with unique ids leaves some profile, and the
   * current profile, moved to the first remaining one if it was removed, is one of them.
   */
  lemma RemovalKeepsRegistry(ps: seq<Profile>, id: string, cur: Profile)
    requires |ps| > 1 && FindProfile(ps, id).Some? && UniqueIds(ps) && cur in ps
    ensures WithoutProfile(ps, id) != []
    ensures cur.id != id ==> cur in WithoutProfile(ps, id)
  {
    WithoutProfileRemovesOne(ps, id);
  }
}
