/**
 * Profiles and the browser storage both pages share: the profile list, the id of the current
 * profile and one task list per profile. The JSON encoding is abstracted away: an entry is
 * missing, unreadable, or a parsed value.
 */
module Profiles {
  import opened Common
  import opened Text
  import opened Tasks

  /** A profile record; `createdAt` is milliseconds since 1970-01-01. */
  datatype Profile = Profile(id: string, name: string, icon: string, color: string, createdAt: int)

  /** A stored entry: missing, present but not valid JSON, or a parsed value. */
  datatype Blob<T> = Absent | Corrupt | Stored(value: T)

  /**
   * The entries "futurTask-profiles" and "futurTask-currentProfile", and the entries
   * "futurTask-tasks-<id>" keyed here by the profile id alone.
   */
  datatype Storage = Storage(
    profiles: Blob<seq<Profile>>,
    currentId: Option<string>,
    tasks: map<string, Blob<seq<Task>>>)

  /** `createDefaultProfile`'s record; `now` stands for the clock. */
  function DefaultProfile(now: int): Profile {
    Profile("default", "Principal", "\U{1F464}", "#00ff88", now)
  }

  /** The list `loadProfiles` reads: a missing entry leaves the initial empty list, unreadable JSON gives none. */
  function ParsedProfiles(b: Blob<seq<Profile>>): seq<Profile> {
    match b
    case Stored(ps) => ps
    case _ => []
  }

  /** `profiles.find(p => p.id === id)`: the first profile with that id. */
  function FindProfile(ps: seq<Profile>, id: string): (r: Option<Profile>)
    ensures r.Some? ==> r.value in ps && r.value.id == id
    ensures r.None? <==> forall i :: 0 <= i < |ps| ==> ps[i].id != id
    ensures ps != [] && ps[0].id == id ==> r == Some(ps[0])
    decreases |ps|
  {
    if ps == [] then None
    else if ps[0].id == id then Some(ps[0])
    else FindProfile(ps[1..], id)
  }

  /**
   * The current profile after `loadProfiles`: the profile the stored id names, otherwise the
   * first profile, and none only when there are no profiles.
   */
  function ResolveCurrent(ps: seq<Profile>, stored: Option<string>): (r: Option<Profile>)
    ensures r.None? <==> ps == []
    ensures r.Some? ==> r.value in ps
    ensures stored.Some? && FindProfile(ps, stored.value).Some? ==> r == FindProfile(ps, stored.value)
  {
    if stored.Some? && FindProfile(ps, stored.value).Some? then FindProfile(ps, stored.value)
    else if ps != [] then Some(ps[0])
    else None
  }

  /** `saveProfiles`: the list is written, and the current id when there is a current profile. */
  function SavedProfiles(st: Storage, ps: seq<Profile>, current: Option<Profile>): (r: Storage)
    ensures r.tasks == st.tasks
    ensures ParsedProfiles(r.profiles) == ps
    ensures current.Some? ==> r.currentId == Some(current.value.id)
    ensures current.None? ==> r.currentId == st.currentId
  {
    st.(profiles := Stored(ps), currentId := if current.Some? then Some(current.value.id) else st.currentId)
  }

  // ---------------------------------------------------------------- tasks per profile

  /** What `loadTasks` reads for a profile: a missing or unreadable entry gives no tasks. */
  function StoredTasks(st: Storage, id: string): seq<Task> {
    if id in st.tasks && st.tasks[id].Stored? then st.tasks[id].value else []
  }

  /** `saveTasks` under a profile id. */
  function WithTasks(st: Storage, id: string, ts: seq<Task>): (r: Storage)
    ensures r.profiles == st.profiles && r.currentId == st.currentId
    ensures StoredTasks(r, id) == ts
    ensures forall other :: other != id ==> StoredTasks(r, other) == StoredTasks(st, other)
  {
    st.(tasks := st.tasks[id := Stored(ts)])
  }

  /** `saveTasks`, which does nothing without a current profile. */
  function SaveTasksFor(st: Storage, current: Option<Profile>, ts: seq<Task>): (r: Storage)
    ensures current.None? ==> r == st
    ensures current.Some? ==> StoredTasks(r, current.value.id) == ts
  {
    if current.Some? then WithTasks(st, current.value.id, ts) else st
  }

  /** `loadTasks`, which keeps the list it has without a current profile. */
  function LoadTasksFor(st: Storage, current: Option<Profile>, ts: seq<Task>): (r: seq<Task>)
    ensures current.None? ==> r == ts
  {
    if current.Some? then StoredTasks(st, current.value.id) else ts
  }

  /** Saving and then loading under the same profile gives back the list; other profiles are untouched. */
  lemma SaveThenLoad(st: Storage, current: Option<Profile>, ts: seq<Task>, other: Profile, held: seq<Task>)
    ensures LoadTasksFor(SaveTasksFor(st, current, ts), current, ts) == ts
    ensures current.Some? && other.id != current.value.id ==>
              LoadTasksFor(SaveTasksFor(st, current, ts), Some(other), held) == LoadTasksFor(st, Some(other), held)
  {
  }

  // ---------------------------------------------------------------- names and ids

  /** `profiles.some(p => p.name.toLowerCase() === name.toLowerCase())`. */
  predicate NameTaken(ps: seq<Profile>, name: string) {
    exists i :: 0 <= i < |ps| && Lower(ps[i].name) == Lower(name)
  }

  /** No two profiles have names that differ only in case. */
  predicate UniqueNames(ps: seq<Profile>) {
    forall i, j :: 0 <= i < j < |ps| ==> Lower(ps[i].name) != Lower(ps[j].name)
  }

  predicate UniqueIds(ps: seq<Profile>) {
    forall i, j :: 0 <= i < j < |ps| ==> ps[i].id != ps[j].id
  }

  /** The duplicate test ignores case. */
  lemma NameTakenIgnoresCase(ps: seq<Profile>, name: string)
    ensures NameTaken(ps, Lower(name)) == NameTaken(ps, name)
  {
    LowerIdempotent(name);
  }

  /** Adding a profile whose name is not taken keeps names unique. */
  lemma AddFreeNameKeepsUnique(ps: seq<Profile>, p: Profile)
    requires UniqueNames(ps) && !NameTaken(ps, p.name)
    ensures UniqueNames(ps + [p])
  {
    var qs := ps + [p];
    forall i, j | 0 <= i < j < |qs| ensures Lower(qs[i].name) != Lower(qs[j].name) {
      if j == |ps| {
        assert qs[i] == ps[i];
      }
    }
  }

  /** `profiles.filter(p => p.id !== id)`. */
  function WithoutProfile(ps: seq<Profile>, id: string): (r: seq<Profile>)
    ensures |r| <= |ps|
    ensures forall p :: p in r <==> p in ps && p.id != id
    decreases |ps|
  {
    if ps == [] then []
    else if ps[0].id == id then WithoutProfile(ps[1..], id)
    else [ps[0]] + WithoutProfile(ps[1..], id)
  }

  /**
   * With unique ids, removing a profile that exists removes exactly one entry and keeps ids
   * and names unique.
   */
  lemma {:induction false} WithoutProfileRemovesOne(ps: seq<Profile>, id: string)
    requires UniqueIds(ps) && FindProfile(ps, id).Some?
    ensures |WithoutProfile(ps, id)| == |ps| - 1
    ensures IsSubsequence(WithoutProfile(ps, id), ps)
    decreases |ps|
  {
    if ps[0].id == id {
      WithoutAbsent(ps[1..], id);
      SubsequenceOfSelf(ps[1..]);
    } else {
      assert UniqueIds(ps[1..]);
      WithoutProfileRemovesOne(ps[1..], id);
      var r := WithoutProfile(ps, id);
      assert r[1..] == WithoutProfile(ps[1..], id);
    }
  }

  lemma {:induction false} WithoutAbsent(ps: seq<Profile>, id: string)
    requires forall i :: 0 <= i < |ps| ==> ps[i].id != id
    ensures WithoutProfile(ps, id) == ps
    decreases |ps|
  {
    if ps != [] {
      WithoutAbsent(ps[1..], id);
      assert [ps[0]] + ps[1..] == ps;
    }
  }

  /** Removing profiles keeps the names and ids that remain unique. */
  lemma {:induction false} WithoutProfileKeepsUnique(ps: seq<Profile>, id: string)
    ensures UniqueNames(ps) ==> UniqueNames(WithoutProfile(ps, id))
    ensures UniqueIds(ps) ==> UniqueIds(WithoutProfile(ps, id))
    decreases |ps|
  {
    if ps != [] {
      assert UniqueNames(ps) ==> UniqueNames(ps[1..]);
      assert UniqueIds(ps) ==> UniqueIds(ps[1..]);
      WithoutProfileKeepsUnique(ps[1..], id);
      if ps[0].id != id {
        assert ps == [ps[0]] + ps[1..];
        PrependKeepsUnique(ps[0], ps[1..], WithoutProfile(ps[1..], id));
      }
    }
  }

  /** Putting a profile before a selection of a list it heads with unique names or ids keeps them unique. */
  lemma PrependKeepsUnique(p: Profile, ps: seq<Profile>, rest: seq<Profile>)
    requires forall q :: q in rest ==> q in ps
    ensures UniqueNames([p] + ps) && UniqueNames(rest) ==> UniqueNames([p] + rest)
    ensures UniqueIds([p] + ps) && UniqueIds(rest) ==> UniqueIds([p] + rest)
  {
    var q, r := [p] + ps, [p] + rest;
    forall j | 0 < j < |r| ensures exists k :: 0 < k < |q| && q[k] == r[j] {
      assert r[j] == rest[j - 1] && rest[j - 1] in rest;
      var k :| 0 <= k < |ps| && ps[k] == r[j];
      assert q[k + 1] == r[j];
    }
    if UniqueNames(q) && UniqueNames(rest) {
      forall i, j | 0 <= i < j < |r| ensures Lower(r[i].name) != Lower(r[j].name) {
        if i == 0 {
          var k :| 0 < k < |q| && q[k] == r[j];
          assert q[0] == r[0];
        } else {
          assert r[i] == rest[i - 1] && r[j] == rest[j - 1];
        }
      }
    }
    if UniqueIds(q) && UniqueIds(rest) {
      forall i, j | 0 <= i < j < |r| ensures r[i].id != r[j].id {
        if i == 0 {
          var k :| 0 < k < |q| && q[k] == r[j];
          assert q[0] == r[0];
        } else {
          assert r[i] == rest[i - 1] && r[j] == rest[j - 1];
        }
      }
    }
  }

  /**
   * A current id left behind by a deleted profile resolves, on the next load, to the first
   * remaining profile.
   */
  lemma StaleCurrentResolvesToFirst(ps: seq<Profile>, id: string)
    requires WithoutProfile(ps, id) != []
    ensures ResolveCurrent(WithoutProfile(ps, id), Some(id)) == Some(WithoutProfile(ps, id)[0])
  {
    var r := WithoutProfile(ps, id);
    assert r[0] in r;
  }
}
