/**
 * A task of the tracker and the pure operations on task lists: parsing the tags field, the
 * edit form, search, the filter view, the display order, the overdue and due-soon tests,
 * counting by a criterion and the progress percentage.
 */
module Tasks {
  import opened Common
  import opened Text
  import opened Calendar
  import opened Ordering

  /** The values of the priority select; `Unset` is a task stored without a priority. */
  datatype Priority = Low | Medium | High | Urgent | Unset

  /** `task.priority || "medium"`: a task without a priority is shown and counted as medium. */
  function EffectivePriority(p: Priority): (r: Priority)
    ensures r != Unset
    ensures p == Unset ==> r == Medium
    ensures p != Unset ==> r == p
  {
    if p == Unset then Medium else p
  }

  /**
   * A task record. `date` is the due day; `status` is the string the status select holds;
   * `createdAt` is milliseconds since 1970-01-01 (None for a record stored without it).
   */
  datatype Task = Task(
    id: string,
    title: string,
    description: string,
    tags: seq<string>,
    date: Date,
    priority: Priority,
    status: string,
    createdAt: Option<int>)

  const PENDING: string := "pending"
  const COMPLETED: string := "completed"

  // ---------------------------------------------------------------- tags

  /** A tag as the tags field yields it: starts with "#", lower case, no whitespace. */
  predicate IsTag(s: string) {
    StartsWith(s, "#") && IsLowerCase(s) && HasNoSpace(s)
  }

  /** Keeps the words that start with "#" and lower-cases them, in order. */
  function HashTags(ws: seq<string>): (r: seq<string>)
    requires forall i :: 0 <= i < |ws| ==> HasNoSpace(ws[i])
    ensures |r| <= |ws|
    ensures forall i :: 0 <= i < |r| ==> IsTag(r[i])
    decreases |ws|
  {
    if ws == [] then []
    else if StartsWith(ws[0], "#") then
      LowerOfTag(ws[0]);
      [Lower(ws[0])] + HashTags(ws[1..])
    else HashTags(ws[1..])
  }

  /** A word that starts with "#" is a tag once lower-cased. */
  lemma LowerOfTag(w: string)
    requires StartsWith(w, "#") && HasNoSpace(w)
    ensures IsTag(Lower(w))
  {
    LowerIdempotent(w);
    LowerSlices(w, 1);
    assert w[..1] == "#";
    assert Lower(w)[..1] == Lower("#") == "#";
  }

  /**
   * `parseTags`: the whitespace-separated words of the field that start with "#", lower-cased,
   * in their order, duplicates kept. The early return for an empty field yields the same
   * empty list, since the empty string has no words.
   */
  function ParseTags(s: string): (r: seq<string>)
    ensures s == [] ==> r == []
    ensures forall i :: 0 <= i < |r| ==> IsTag(r[i])
  {
    HashTags(Words(s))
  }

  lemma {:induction false} HashTagsConcat(a: seq<string>, b: seq<string>)
    requires forall i :: 0 <= i < |a| ==> HasNoSpace(a[i])
    requires forall i :: 0 <= i < |b| ==> HasNoSpace(b[i])
    ensures HashTags(a + b) == HashTags(a) + HashTags(b)
    decreases |a|
  {
    if a != [] {
      assert (a + b)[1..] == a[1..] + b;
      HashTagsConcat(a[1..], b);
    } else {
      assert a + b == b;
    }
  }

  /** The words on the two sides of a whitespace character are parsed independently, in order. */
  lemma ParseTagsSplit(a: string, c: char, b: string)
    requires IsSpace(c)
    ensures ParseTags(a + [c] + b) == ParseTags(a) + ParseTags(b)
  {
    SplitAcrossSpace(a, c, b, []);
    HashTagsConcat(Words(a), Words(b));
  }

  /** A single word is one tag, lower-cased, exactly when it starts with "#". */
  lemma ParseTagsWord(w: string)
    requires w != [] && HasNoSpace(w)
    ensures ParseTags(w) == (if StartsWith(w, "#") then [Lower(w)] else [])
  {
    SplitOneWord(w, []);
    assert [] + w == w;
  }

  /** Well-formed tags survive a round trip through `join(" ")` and `parseTags`. */
  lemma {:induction false} ParseTagsOfJoin(tags: seq<string>)
    requires forall i :: 0 <= i < |tags| ==> IsTag(tags[i])
    ensures ParseTags(JoinWords(tags)) == tags
  {
    JoinWordsEnds(tags);
    WordsOfJoin(tags);
    HashTagsOfTags(tags);
  }

  lemma {:induction false} HashTagsOfTags(tags: seq<string>)
    requires forall i :: 0 <= i < |tags| ==> IsTag(tags[i])
    ensures (forall i :: 0 <= i < |tags| ==> HasNoSpace(tags[i])) && HashTags(tags) == tags
    decreases |tags|
  {
    if tags != [] {
      HashTagsOfTags(tags[1..]);
      assert [tags[0]] + tags[1..] == tags;
    }
  }

  // ---------------------------------------------------------------- adding and editing

  /** The task `addTask` builds from the form; `id` and `now` stand for `Date.now()` and the clock. */
  function NewTask(id: string, title: string, description: string, tags: string, date: Date,
                   priority: Priority, now: int): (r: Task)
    requires Trim(title) != []
    ensures WellFormed(r)
    ensures r.id == id && r.date == date && r.priority == priority
    ensures r.title == Trim(title) && r.description == Trim(description) && r.tags == ParseTags(Trim(tags))
    ensures r.status == PENDING && r.createdAt == Some(now)
  {
    TrimIdempotent(title);
    TrimIdempotent(description);
    Task(id, Trim(title), Trim(description), ParseTags(Trim(tags)), date, priority, PENDING, Some(now))
  }

  /** What `addTask` stores: trimmed, non-empty title, trimmed description, parsed tags. */
  predicate WellFormed(t: Task) {
    t.title != [] && Trim(t.title) == t.title && Trim(t.description) == t.description
    && forall i :: 0 <= i < |t.tags| ==> IsTag(t.tags[i])
  }

  /** The fields of the edit form; `date` is None when the date input is empty. */
  datatype EditForm = EditForm(
    title: string,
    description: string,
    tags: string,
    date: Option<Date>,
    priority: Priority,
    status: string)

  /** `editTask`: the form filled from a task, tags joined by spaces, no priority shown as medium. */
  function FormOf(t: Task): (f: EditForm)
    ensures f.title == t.title && f.description == t.description && f.status == t.status
    ensures f.tags == JoinWords(t.tags) && f.date == Some(t.date)
    ensures f.priority == EffectivePriority(t.priority) && f.priority != Unset
  {
    EditForm(t.title, t.description, JoinWords(t.tags), Some(t.date), EffectivePriority(t.priority), t.status)
  }

  /** The forms `addTask` and `saveEditTask` accept: a title that is not blank, and a date. */
  predicate Acceptable(f: EditForm) {
    Trim(f.title) != [] && f.date.Some?
  }

  /** The task after saving a form over it: every field replaced but `id` and `createdAt`. */
  function Edited(t: Task, f: EditForm): (r: Task)
    requires Acceptable(f)
    ensures WellFormed(r)
    ensures r.id == t.id && r.createdAt == t.createdAt
    ensures r.title == Trim(f.title) && r.description == Trim(f.description) && r.tags == ParseTags(Trim(f.tags))
    ensures r.date == f.date.value && r.priority == f.priority && r.status == f.status
  {
    TrimIdempotent(f.title);
    TrimIdempotent(f.description);
    Task(t.id, Trim(f.title), Trim(f.description), ParseTags(Trim(f.tags)), f.date.value,
         f.priority, f.status, t.createdAt)
  }

  /** Opening a well-formed task for editing and saving the form unchanged only fills in the priority. */
  lemma EditUnchangedForm(t: Task)
    requires WellFormed(t)
    ensures Acceptable(FormOf(t))
    ensures Edited(t, FormOf(t)) == t.(priority := EffectivePriority(t.priority))
  {
    TrimOfTrimmed(t.title);
    forall i | 0 <= i < |t.tags| ensures t.tags[i] != [] {
      assert StartsWith(t.tags[i], "#");
    }
    JoinWordsEnds(t.tags);
    var j := JoinWords(t.tags);
    if j != [] {
      var last := t.tags[|t.tags| - 1];
      assert IsTag(last);
      assert !IsSpace(j[|j| - 1]) by {
        assert j[|j| - 1] == last[|last| - 1];
      }
      assert !IsSpace(j[0]) by {
        assert StartsWith(t.tags[0], "#");
        assert j[0] == t.tags[0][0] == '#';
      }
    }
    TrimOfTrimmed(j);
    ParseTagsOfJoin(t.tags);
  }

  // ---------------------------------------------------------------- find, toggle, delete

  /** `tasks.findIndex(t => t.id === id)`, None standing for -1: the first task with that id. */
  function FindIndex(ts: seq<Task>, id: string): (r: Option<nat>)
    ensures r.Some? ==> r.value < |ts| && ts[r.value].id == id
    ensures r.Some? ==> forall j :: 0 <= j < r.value ==> ts[j].id != id
    ensures r.None? <==> forall j :: 0 <= j < |ts| ==> ts[j].id != id
    decreases |ts|
  {
    if ts == [] then None
    else if ts[0].id == id then Some(0)
    else match FindIndex(ts[1..], id)
      case None => None
      case Some(k) => Some(k + 1)
  }

  /** `status === "completed" ? "pending" : "completed"`. */
  function Toggled(s: string): (r: string)
    ensures r == PENDING || r == COMPLETED
    ensures r == COMPLETED <==> s != COMPLETED
  {
    if s == COMPLETED then PENDING else COMPLETED
  }

  /** Toggling twice gives back a pending or completed status. */
  lemma ToggleTwice(s: string)
    requires s == PENDING || s == COMPLETED
    ensures Toggled(Toggled(s)) == s
  {
  }

  /** `tasks.filter(t => t.id !== id)`. */
  function RemoveId(ts: seq<Task>, id: string): (r: seq<Task>)
    ensures |r| <= |ts|
    ensures forall i :: 0 <= i < |r| ==> r[i].id != id
    ensures forall t :: t in r <==> t in ts && t.id != id
    decreases |ts|
  {
    if ts == [] then []
    else if ts[0].id == id then RemoveId(ts[1..], id)
    else [ts[0]] + RemoveId(ts[1..], id)
  }

  /** The remaining tasks keep their relative order, and nothing changes when the id is absent. */
  lemma {:induction false} RemoveIdKeepsOrder(ts: seq<Task>, id: string)
    ensures IsSubsequence(RemoveId(ts, id), ts)
    ensures (forall i :: 0 <= i < |ts| ==> ts[i].id != id) ==> RemoveId(ts, id) == ts
    decreases |ts|
  {
    if ts != [] {
      RemoveIdKeepsOrder(ts[1..], id);
      var r := RemoveId(ts, id);
      if ts[0].id != id {
        assert r[1..] == RemoveId(ts[1..], id);
        assert [ts[0]] + ts[1..] == ts;
      }
    }
  }

  // ---------------------------------------------------------------- search and filters

  /**
   * `isTaskMatch`: the empty query matches everything; otherwise the lower-cased query must
   * occur in the lower-cased title, description or one of the tags.
   */
  predicate IsTaskMatch(t: Task, query: string) {
    query == [] ||
    var q := Lower(query);
    Contains(Lower(t.title), q) || Contains(Lower(t.description), q)
    || exists i :: 0 <= i < |t.tags| && Contains(Lower(t.tags[i]), q)
  }

  /** Typing one more character can only narrow the search. */
  lemma SearchNarrows(t: Task, query: string, c: char)
    requires IsTaskMatch(t, query + [c])
    ensures IsTaskMatch(t, query)
  {
    if query != [] {
      LowerConcat(query, [c]);
      var q := Lower(query);
      assert Lower(query + [c]) == q + [LowerChar(c)];
      if Contains(Lower(t.title), q + [LowerChar(c)]) {
        ContainsShorter(Lower(t.title), q, LowerChar(c));
      } else if Contains(Lower(t.description), q + [LowerChar(c)]) {
        ContainsShorter(Lower(t.description), q, LowerChar(c));
      } else {
        var i :| 0 <= i < |t.tags| && Contains(Lower(t.tags[i]), q + [LowerChar(c)]);
        ContainsShorter(Lower(t.tags[i]), q, LowerChar(c));
      }
    }
  }

  /** The search ignores the case of the query. */
  lemma SearchIgnoresCase(t: Task, query: string)
    ensures IsTaskMatch(t, Lower(query)) == IsTaskMatch(t, query)
  {
    LowerIdempotent(query);
  }

  /** A task whose title, description or a tag contains the query verbatim is found. */
  lemma SearchFindsSubstring(t: Task, query: string)
    requires Contains(t.title, query) || Contains(t.description, query)
             || exists i :: 0 <= i < |t.tags| && Contains(t.tags[i], query)
    ensures IsTaskMatch(t, query)
  {
    if query != [] {
      if Contains(t.title, query) {
        ContainsLower(t.title, query);
      } else if Contains(t.description, query) {
        ContainsLower(t.description, query);
      } else {
        var i :| 0 <= i < |t.tags| && Contains(t.tags[i], query);
        ContainsLower(t.tags[i], query);
      }
    }
  }

  /** The filter selects; None and "" stand for "all". Months are 1..12. */
  datatype Filters = Filters(year: Option<int>, month: Option<int>, status: string, tag: string)

  const NO_FILTERS: Filters := Filters(None, None, "", "")

  /** The condition `getFilteredTasks` applies to one task: every set filter and the search. */
  predicate Passes(t: Task, f: Filters, query: string) {
    (f.year.None? || t.date.year == f.year.value)
    && (f.month.None? || t.date.month == f.month.value)
    && (f.status == [] || t.status == f.status)
    && (f.tag == [] || f.tag in t.tags)
    && IsTaskMatch(t, query)
  }

  /** `getFilteredTasks`: the tasks that pass the filters and the search. */
  function FilterTasks(ts: seq<Task>, f: Filters, query: string): (r: seq<Task>)
    ensures |r| <= |ts|
    ensures forall i :: 0 <= i < |r| ==> Passes(r[i], f, query)
    ensures forall t :: t in r <==> t in ts && Passes(t, f, query)
    decreases |ts|
  {
    if ts == [] then []
    else if Passes(ts[0], f, query) then [ts[0]] + FilterTasks(ts[1..], f, query)
    else FilterTasks(ts[1..], f, query)
  }

  /** The filtered view keeps the list order. */
  lemma {:induction false} FilterTasksKeepsOrder(ts: seq<Task>, f: Filters, query: string)
    ensures IsSubsequence(FilterTasks(ts, f, query), ts)
    decreases |ts|
  {
    if ts != [] {
      FilterTasksKeepsOrder(ts[1..], f, query);
      var r := FilterTasks(ts, f, query);
      if Passes(ts[0], f, query) {
        assert r[1..] == FilterTasks(ts[1..], f, query);
      }
    }
  }

  /** With every filter at "all" and an empty search the view is the whole list. */
  lemma {:induction false} NoFiltersKeepsAll(ts: seq<Task>)
    ensures FilterTasks(ts, NO_FILTERS, "") == ts
    decreases |ts|
  {
    if ts != [] {
      NoFiltersKeepsAll(ts[1..]);
      assert [ts[0]] + ts[1..] == ts;
    }
  }

  // ---------------------------------------------------------------- display order

  /** The sort key of the list: the due day (`new Date(task.date)` in whole days). */
  function DueKey(t: Task): int {
    DayNumber(t.date)
  }

  /** `filteredTasks.sort((a, b) => new Date(b.date) - new Date(a.date))`. */
  function DisplayOrder(ts: seq<Task>): seq<Task> {
    SortDesc(ts, DueKey)
  }

  /**
   * The display order is a permutation of the view, latest due date first, and tasks due the
   * same day keep their relative order.
   */
  lemma DisplayOrderSound(ts: seq<Task>, day: int)
    ensures multiset(DisplayOrder(ts)) == multiset(ts)
    ensures forall i, j :: 0 <= i < j < |DisplayOrder(ts)| ==>
              DayNumber(DisplayOrder(ts)[i].date) >= DayNumber(DisplayOrder(ts)[j].date)
    ensures WithKey(DisplayOrder(ts), DueKey, day) == WithKey(ts, DueKey, day)
  {
    var r := DisplayOrder(ts);
    assert NonIncreasing(r, DueKey);
    forall i, j | 0 <= i < j < |r| ensures DayNumber(r[i].date) >= DayNumber(r[j].date) {
      assert DueKey(r[i]) >= DueKey(r[j]);
    }
    SortDescStable(ts, DueKey, day);
  }

  // ---------------------------------------------------------------- due dates

  /** `isTaskOverdue`: not completed and due strictly before today. */
  predicate IsOverdue(t: Task, today: Date) {
    t.status != COMPLETED && DayNumber(t.date) < DayNumber(today)
  }

  /**
   * `isTaskDueSoon`: not completed and due today or tomorrow (a due date is midnight of its day,
   * `tomorrow` is the present moment plus one day).
   */
  predicate IsDueSoon(t: Task, today: Date) {
    t.status != COMPLETED && DayNumber(today) <= DayNumber(t.date) <= DayNumber(today) + 1
  }

  /** A task is never both overdue and due soon, and a completed task is neither. */
  lemma OverdueAndDueSoonExclusive(t: Task, today: Date)
    ensures !(IsOverdue(t, today) && IsDueSoon(t, today))
    ensures t.status == COMPLETED ==> !IsOverdue(t, today) && !IsDueSoon(t, today)
  {
  }

  // ---------------------------------------------------------------- counting

  /** The conditions the pages count tasks by. */
  datatype Criterion =
    | IsCompleted
    | OverdueOn(today: Date)
    | HasPriority(p: Priority)
    | DueIn(year: int, month: int)
    | CompletedDueIn(year: int, month: int)
    | CompletedWithCreation

  predicate Holds(t: Task, c: Criterion) {
    match c
    case IsCompleted => t.status == COMPLETED
    case OverdueOn(today) => IsOverdue(t, today)
    case HasPriority(p) => EffectivePriority(t.priority) == p
    case DueIn(y, m) => t.date.year == y && t.date.month == m
    case CompletedDueIn(y, m) => t.date.year == y && t.date.month == m && t.status == COMPLETED
    case CompletedWithCreation => t.status == COMPLETED && t.createdAt.Some?
  }

  /** `tasks.filter(criterion).length`, counted from the front as a `forEach` counts. */
  function Count(ts: seq<Task>, c: Criterion): (r: nat)
    ensures r <= |ts|
    decreases |ts|
  {
    if ts == [] then 0
    else Count(ts[..|ts| - 1], c) + (if Holds(ts[|ts| - 1], c) then 1 else 0)
  }

  /** One more task of the list counted: the step of a `forEach` that counts. */
  lemma CountStep(ts: seq<Task>, i: nat, c: Criterion)
    requires i < |ts|
    ensures Count(ts[..i + 1], c) == Count(ts[..i], c) + (if Holds(ts[i], c) then 1 else 0)
  {
    assert ts[..i + 1][..i] == ts[..i];
  }

  /** Criteria no task satisfies together count at most the whole list between them. */
  lemma {:induction false} CountDisjoint(ts: seq<Task>, c: Criterion, d: Criterion)
    requires forall i :: 0 <= i < |ts| ==> !(Holds(ts[i], c) && Holds(ts[i], d))
    ensures Count(ts, c) + Count(ts, d) <= |ts|
    decreases |ts|
  {
    if ts != [] {
      CountDisjoint(ts[..|ts| - 1], c, d);
    }
  }

  lemma {:induction false} CountAppend(a: seq<Task>, b: seq<Task>, c: Criterion)
    ensures Count(a + b, c) == Count(a, c) + Count(b, c)
    decreases |b|
  {
    if b == [] {
      assert a + b == a;
    } else {
      CountAppend(a, b[..|b| - 1], c);
      assert (a + b)[..|a + b| - 1] == a + b[..|b| - 1];
    }
  }

  /** A criterion implied by another one counts at least as many tasks. */
  lemma {:induction false} CountMonotone(ts: seq<Task>, c: Criterion, d: Criterion)
    requires forall i :: 0 <= i < |ts| ==> Holds(ts[i], c) ==> Holds(ts[i], d)
    ensures Count(ts, c) <= Count(ts, d)
    decreases |ts|
  {
    if ts != [] {
      CountMonotone(ts[..|ts| - 1], c, d);
    }
  }

  /** The count is the length when every task satisfies the criterion and 0 when none does. */
  lemma {:induction false} CountExtremes(ts: seq<Task>, c: Criterion)
    ensures (forall i :: 0 <= i < |ts| ==> Holds(ts[i], c)) ==> Count(ts, c) == |ts|
    ensures (forall i :: 0 <= i < |ts| ==> !Holds(ts[i], c)) ==> Count(ts, c) == 0
    decreases |ts|
  {
    if ts != [] {
      CountExtremes(ts[..|ts| - 1], c);
    }
  }

  /** `updateProgress`: the share of completed tasks, rounded to a whole percent, 0 for no tasks. */
  function ProgressPercent(ts: seq<Task>): (r: int)
    ensures 0 <= r <= 100
    ensures ts == [] ==> r == 0
  {
    Percent(Count(ts, IsCompleted), |ts|)
  }

  /** All done shows 100%, nothing done shows 0%. */
  lemma ProgressExtremes(ts: seq<Task>)
    ensures ts != [] && (forall i :: 0 <= i < |ts| ==> ts[i].status == COMPLETED) ==> ProgressPercent(ts) == 100
    ensures (forall i :: 0 <= i < |ts| ==> ts[i].status != COMPLETED) ==> ProgressPercent(ts) == 0
  {
    CountExtremes(ts, IsCompleted);
    if ts != [] {
      PercentExtremes(|ts|);
    }
  }

  // ---------------------------------------------------------------- tag list

  /** Every task's tags, task after task. */
  function AllTags(ts: seq<Task>): (r: seq<string>)
    decreases |ts|
  {
    if ts == [] then [] else AllTags(ts[..|ts| - 1]) + ts[|ts| - 1].tags
  }

  lemma AllTagsStep(ts: seq<Task>, i: nat)
    requires i < |ts|
    ensures AllTags(ts[..i + 1]) == AllTags(ts[..i]) + ts[i].tags
  {
    assert ts[..i + 1][..i] == ts[..i];
  }

  lemma {:induction false} AllTagsMembers(ts: seq<Task>, tag: string)
    ensures tag in AllTags(ts) <==> exists i :: 0 <= i < |ts| && tag in ts[i].tags
    decreases |ts|
  {
    if ts != [] {
      var init := ts[..|ts| - 1];
      AllTagsMembers(init, tag);
      if tag in AllTags(ts) && tag !in ts[|ts| - 1].tags {
        var i :| 0 <= i < |init| && tag in init[i].tags;
        assert ts[i] == init[i];
      }
      if exists i :: 0 <= i < |ts| && tag in ts[i].tags {
        var i :| 0 <= i < |ts| && tag in ts[i].tags;
        if i < |init| {
          assert init[i] == ts[i];
        }
      }
    }
  }

  /** `getAllTags`: every tag in use, once, in string order. */
  function TagOptions(ts: seq<Task>): seq<string> {
    SortedDistinct(AllTags(ts))
  }

  lemma TagOptionsSound(ts: seq<Task>, tag: string)
    ensures StrictlyIncreasing(TagOptions(ts))
    ensures tag in TagOptions(ts) <==> exists i :: 0 <= i < |ts| && tag in ts[i].tags
  {
    SortedDistinctSound(AllTags(ts));
    AllTagsMembers(ts, tag);
  }
}
