# FuturTask core in Dafny

FuturTask is a task tracker that runs in the browser. The user keeps tasks with:
- a title, a description and `#tags`;
- a due date, a priority and a status.

The tasks are kept per profile in local storage. The main page (`FuturTaskApp`) adds, edits, toggles, deletes, filters and searches tasks. It also creates, switches and deletes profiles. The statistics page (`StatsPage`) loads the same storage and computes:
- the summary cards;
- the priority, monthly and tag charts;
- the performance metrics;
- the recent tasks and the top tags.

A service worker caches the application shell. Static assets are served cache-first and everything else network-first. Old cache generations are deleted on activation.

The model is organised as follows:

- `common.dfy`, `text.dfy`, `calendar.dfy`, `ordering.dfy`: the JavaScript building blocks the core relies on:
  - `trim`, `toLowerCase`, `includes` and `split(/\s+/)`;
  - `Math.ceil` and `Math.round` on exact quotients;
  - dates as day numbers;
  - the stable `Array.prototype.sort` with a numeric comparator;
  - string order.
- `tasks.dfy`: the task record and the pure task-list logic:
  - tag parsing, the edit form, search and filters;
  - the display order, overdue and due-soon;
  - counts and progress.
- `tally.dfy`: the `{tag: count}` object built by a `forEach` and its top-N entries.
- `profiles.dfy`: profiles and the storage keys (`futurTask-profiles`, `futurTask-currentProfile`, `futurTask-tasks-<id>`). A stored entry is absent, unreadable or parsed.
- `app.dfy`: class `FuturTaskApp`. Its fields are those of the source, including the storage. One method per user action, with its effect on the fields and on storage.
- `statistics.dfy`: the values the statistics page computes, as functions of the task list.
- `stats_page.dfy`: class `StatsPage`. The loops of the statistics page are proved equal to those functions, and the page's profile actions are modelled.
- `service_worker.dfy`:
  - `isStaticAsset`;
  - the cache storage as an ordered list of named caches;
  - the install, activate and fetch handlers as steps over it;
  - class `Worker`, which holds the storage.

The clock, `Date.now()` ids, user confirmations and network answers are parameters: `now`, `today`, `id`, `confirmed`, `net`.

Where the code does less than its own messages say, the model follows the code:
- Deleting a profile does not delete its tasks. The confirmation text (script.js:1339, stats.js:851) says "Toutes les tâches associées seront également supprimées", but the code writes only the profile list, so the `futurTask-tasks-<id>` entry stays in storage.
- The statistics page's `switchProfile` stores only the current id, not the profile list.
- The statistics page's `updateRecentTasks` sorts the page's own task list in place, newest first. The order then stays for the next computation.
- The main page defines `loadTasks` and `saveTasks` twice. The later, profile-scoped definitions (script.js:1367-1391) replace the earlier ones, and those are the ones modelled.

## Model

| member | source | states |
|---|---|---|
| Text.LowerIdempotent | script.js:840-846 | A lower-cased string is lower case, so lowering again changes nothing. |
| Text.ContainsLower | script.js:840-846 | A substring stays a substring when both sides are lower-cased. |
| Text.TrimStart | script.js:197 | `trim` drops exactly the leading whitespace, and what remains starts with a non-space. |
| Text.TrimEnd | script.js:197 | `trim` drops exactly the trailing whitespace. |
| Text.TrimIdempotent | script.js:197-199 | Trimming twice equals trimming once. |
| Text.TrimEmptyIffBlank | script.js:204 | A field is empty after `trim` exactly when it holds only whitespace, which is when `addTask` refuses the title. |
| Text.Words | script.js:775-776 | `split(/\s+/)` after `trim`: non-empty words without whitespace. |
| Text.WordsOfJoin | script.js:775-776 | Splitting undoes `join(" ")` on words without whitespace. |
| Calendar.NextDayInMonth | script.js:876-884 | Within a month, the next calendar day is the next day number. |
| Calendar.CeilDiv | stats.js:537 | `Math.ceil(a / b)` is the least integer not below the quotient. |
| Calendar.RoundDiv | stats.js:543-544 | `Math.round(a / b)` is within half a unit of the quotient, with halves rounded up. |
| Calendar.RoundDivBetween | stats.js:543-544 | An average of values in `lo..hi` rounds into `lo..hi`. |
| Calendar.Percent | stats.js:525-528 | `total > 0 ? Math.round(part / total * 100) : 0` lies in 0..100 for a part of the total, and is 0 without a total. |
| Calendar.PercentExtremes | script.js:642-654 | All of the total gives 100% and none of it gives 0%. |
| Ordering.SortDesc | script.js:475 | The sort gives the same elements, each key no smaller than the next. |
| Ordering.SortDescStable | script.js:475 | Elements with equal keys keep their relative order, as `Array.prototype.sort` is stable. |
| Ordering.SortedDistinctSound | script.js:782-790 | `Array.from(new Set(xs)).sort()` is strictly increasing and holds exactly the elements of `xs`. |
| Ordering.StrLessTotal | script.js:789 | String order is total on distinct strings, so the default sort has one result. |
| Tasks.EffectivePriority | stats.js:455 | `priority \|\| "medium"`: a missing priority counts as medium, and a set one is kept. |
| Tasks.ParseTags | script.js:773-780 | Parsing an empty field gives no tags, and every parsed tag starts with "#", is lower case and has no whitespace. |
| Tasks.ParseTagsSplit | script.js:773-780 | The words on the two sides of a space are parsed independently and in order. |
| Tasks.ParseTagsWord | script.js:778-779 | One word gives one lower-cased tag exactly when it starts with "#". |
| Tasks.ParseTagsOfJoin | script.js:247-263 | Tags joined with spaces for the edit form parse back to the same tags. |
| Tasks.NewTask | script.js:196-236 | `addTask` builds a pending task with the given id, date and priority and a creation time. The title and description are the trimmed inputs, and the tags are parsed from the trimmed tag field. The result is well formed. |
| Tasks.FormOf | script.js:238-256 | `editTask` fills the form with the task's title, description, status and date, the tags joined with spaces, and the priority (medium when missing). |
| Tasks.Edited | script.js:258-293 | Saving a form keeps `id` and `createdAt`. The title and description become the trimmed form fields and the tags are parsed from the trimmed tag field. Date, priority and status are taken from the form, and the task is well formed. |
| Tasks.EditUnchangedForm | script.js:238-293 | Opening a well-formed task and saving the form unchanged gives the same task, with only a missing priority filled in. |
| Tasks.FindIndex | script.js:276 | `findIndex` returns the first task with the id, and None exactly when no task has it. |
| Tasks.Toggled | script.js:314-331 | The new status is "completed" exactly when the old one was not. |
| Tasks.ToggleTwice | script.js:314-331 | Toggling a pending or completed task twice restores its status. |
| Tasks.RemoveId | script.js:304 | The filter keeps exactly the tasks whose id differs. |
| Tasks.RemoveIdKeepsOrder | script.js:304 | The kept tasks stay in their order, and an absent id changes nothing. |
| Tasks.SearchNarrows | script.js:837-849 | Typing one more character can only narrow the search. |
| Tasks.SearchIgnoresCase | script.js:837-849 | The search result does not depend on the case of the query. |
| Tasks.SearchFindsSubstring | script.js:837-849 | A task whose title, description or a tag contains the query is found. |
| Tasks.FilterTasks | script.js:386-405 | The view holds exactly the tasks that pass every set filter and the search. |
| Tasks.FilterTasksKeepsOrder | script.js:386-405 | The view keeps the list order. |
| Tasks.NoFiltersKeepsAll | script.js:369-384 | With all filters cleared and an empty search, the view is the whole list. |
| Tasks.DisplayOrderSound | script.js:475 | The displayed list is a permutation of the view, latest due date first, and stable for equal dates. |
| Tasks.OverdueAndDueSoonExclusive | script.js:868-884 | No task is both overdue and due soon, and a completed task is neither. |
| Tasks.CountDisjoint | stats.js:156-170 | Criteria that no task meets together count at most the whole list. |
| Tasks.CountMonotone | stats.js:465-493 | A criterion implied by another counts at least as many tasks. |
| Tasks.CountExtremes | script.js:642-654 | The count is the length when all tasks qualify, and 0 when none does. |
| Tasks.ProgressPercent | script.js:642-654 | The progress lies in 0..100, and is 0 for an empty list. |
| Tasks.ProgressExtremes | script.js:642-654 | All tasks done shows 100%, and none done shows 0%. |
| Tasks.AllTagsMembers | script.js:782-790 | A tag is among all tags exactly when some task has it. |
| Tasks.TagOptionsSound | script.js:782-790 | The tag filter options are the tags in use, each once, in string order. |
| Tally.Bump | stats.js:418 | `counts[tag] = (counts[tag] \|\| 0) + 1` increments an existing key in place, or appends the key with 1. |
| Tally.TallyOf | stats.js:495-504 | The counts object has exactly the tags that occur, each once, with its number of occurrences. |
| Tally.TallyInFirstOccurrenceOrder | stats.js:495-504 | Entries come in the order their tags first occur, which is the object's key order. |
| Tally.TopTagsCounts | stats.js:411-426 | At most N entries, each a tag in use with its true count. |
| Tally.TopTagsOrder | stats.js:411-426 | The entries are most frequent first, and ties keep first-occurrence order. |
| Tally.TopTagsLeaveOutNoMoreFrequent | stats.js:411-426 | No tag left out occurs more often than a tag that is shown. |
| Tally.CutOffNoLarger | stats.js:423-424 | After a sort by decreasing count, an entry cut off by `slice` counts no more than a kept one. |
| Profiles.FindProfile | script.js:1100-1104 | `profiles.find` returns the first profile with the id, and None exactly when there is none. |
| Profiles.ResolveCurrent | script.js:1098-1108 | The current profile is the stored one when it exists, and the first profile otherwise. There is none only without profiles. |
| Profiles.SavedProfiles | script.js:1125-1130 | `saveProfiles` writes the list, and writes the current id only when there is a current profile. Task entries are untouched. |
| Profiles.WithTasks | script.js:1385-1391 | Saving a list under one profile id changes that entry only. |
| Profiles.SaveThenLoad | script.js:1367-1391 | Loading after saving under the same profile gives the list back, and other profiles' lists are unchanged. |
| Profiles.NameTakenIgnoresCase | script.js:1275-1277 | The duplicate-name test ignores case. |
| Profiles.AddFreeNameKeepsUnique | script.js:1264-1303 | Adding a profile whose name is free keeps names unique regardless of case. |
| Profiles.WithoutProfile | script.js:1342 | The filter keeps exactly the profiles with another id. |
| Profiles.WithoutProfileRemovesOne | script.js:1342 | With unique ids, deleting a known profile removes exactly one and keeps the order. |
| Profiles.WithoutProfileKeepsUnique | script.js:1342 | Removing profiles keeps names and ids unique. |
| Profiles.StaleCurrentResolvesToFirst | stats.js:118-128 | A stored current id whose profile was deleted resolves to the first remaining profile on the next load. |
| App.ApplyEditSound | script.js:258-293 | A save is accepted exactly when the title is not blank, the date is set and the edited id is found. It then replaces only the first task with that id. |
| App.FuturTaskApp.constructor | script.js:1082-1123 | Loading creates the default profile when none is stored, resolves the current profile and loads its tasks. The registry invariant holds. |
| App.FuturTaskApp.CreateDefaultProfile | script.js:1111-1123 | Appends the default profile, makes it current and saves. |
| App.FuturTaskApp.SaveTasks | script.js:1385-1391 | The list is stored under the current profile, and nothing happens without one. |
| App.FuturTaskApp.LoadTasks | script.js:1367-1383 | The current profile's list is read (empty when missing or unreadable), and kept without a current profile. |
| App.FuturTaskApp.AddTask | script.js:196-236 | A task is added and saved exactly when the title is not blank and a date is set. Otherwise nothing changes. |
| App.FuturTaskApp.BeginEdit | script.js:238-256 | A known id is remembered and the form is filled from its task. An unknown id changes nothing. |
| App.FuturTaskApp.SaveEditTask | script.js:258-293 | The outcome follows ApplyEdit. A saved edit is stored and closes the edit, and a refused one changes nothing. |
| App.FuturTaskApp.ToggleTaskStatus | script.js:314-331 | Only the first task with the id changes, and only its status. An unknown id changes nothing. |
| App.FuturTaskApp.DeleteTask | script.js:295-312 | Once confirmed, every task with the id is removed and the list saved. Otherwise nothing changes. |
| App.FuturTaskApp.DeleteAllTasks | script.js:333-339 | The list becomes empty and is saved, so a second call leaves it empty. |
| App.FuturTaskApp.SetSearch | script.js:84-87 | The query is stored trimmed. A task whose title contains it is found, and a blank input matches every task. |
| App.FuturTaskApp.ClearFilters | script.js:369-384 | Filters and search are reset, and the view then shows every task. |
| App.FuturTaskApp.SwitchProfile | script.js:1237-1252 | The profile becomes current, the registry is saved, and its tasks are loaded. |
| App.FuturTaskApp.CreateProfile | script.js:1264-1303 | Refuses a blank name or a name taken in any case. A non-blank free name is always created: the profile is appended, the registry saved and the profile made current. Unique names are kept. |
| App.FuturTaskApp.DeleteProfile | script.js:1325-1365 | Refuses the last profile, ignores an unknown id and waits for confirmation. It then removes the profile, moves current to the first remaining profile if needed, saves and reloads. Stored task lists are untouched. |
| App.FuturTaskApp.RemoveProfile | script.js:1341-1349 | The confirmed deletion filters the profile out, moves current to the first remaining profile if it was the deleted one, and saves the registry. The registry invariant is kept. |
| App.RemovalKeepsRegistry | script.js:1326-1346 | With more than one profile and a known id, some profile remains, and a current profile with another id is among them. |
| Statistics.SummaryOf | stats.js:156-170 | The cards show total, completed, pending = total − completed, and overdue. Overdue is at most pending. |
| Statistics.PriorityCountsSum | stats.js:445-463 | Every task falls in exactly one priority bar. |
| Statistics.MonthlyData | stats.js:465-493 | Twelve buckets for the year, by due date. Each month's completed count is at most its created count. |
| Statistics.MonthlyDataAppend | stats.js:476-486 | One more task moves only its own month's bucket, and only when it is due in the year shown. |
| Statistics.MonthlyDataSnoc | stats.js:476-486 | One more task adds one to its month's created count, and one to its completed count when it is completed, if it is due in the year shown. Otherwise nothing changes. |
| Statistics.CompletionDays | stats.js:535-537 | The days from creation to the due date, rounded up. |
| Statistics.CompletionDaysOfDay | stats.js:535-537 | A task created during day d and due on day e counts e − d days. |
| Statistics.CompletionTotals | stats.js:530-541 | The counted tasks are exactly the completed tasks that have a creation time. |
| Statistics.AverageCompletionDays | stats.js:543-544 | The average is 0 when no task counts. |
| Statistics.AverageBetween | stats.js:530-544 | The average lies between the fewest and the most days of the tasks it averages. |
| Statistics.MetricsOf | stats.js:516-551 | Both rates lie in 0..100 and are 0 without tasks. The completion rate equals the main page's progress, and the two rates sum to at most 101. |
| Stats.RecentTasksSound | stats.js:380-385 | At most five tasks, newest first, all from the list, and none newer left out. |
| Stats.StatsPage.constructor | stats.js:107-154 | The profiles and the current profile are loaded without creating a default. The current profile's tasks are loaded and end up sorted newest first. |
| Stats.StatsPage.LoadTasks | stats.js:131-147 | The current profile's list is read, and kept without a current profile. |
| Stats.StatsPage.GetPriorityData | stats.js:445-463 | The counting loop yields PriorityCounts, which sum to the number of tasks. |
| Stats.StatsPage.GetMonthlyData | stats.js:465-493 | The bucket loop yields MonthlyData for the current year. |
| Stats.StatsPage.CountTags | stats.js:495-504 | The nested `forEach` yields TallyOf over every tag of every task. |
| Stats.StatsPage.CountEach | stats.js:500-502 | The inner `forEach` adds one task's tags to the counts, giving TallyOf the longer tag list. |
| Stats.StatsPage.TopTagEntries | stats.js:411-426 | The top-N entries: at most N, most frequent first, each with its true count. |
| Stats.StatsPage.CalculatePerformanceMetrics | stats.js:516-551 | The loop yields MetricsOf, with both rates in 0..100. |
| Stats.StatsPage.UpdateRecentTasks | stats.js:380-385 | The page's list is sorted in place, newest first. The card shows the first five. |
| Stats.StatsPage.UpdateAllStats | stats.js:149-154 | Every figure is StatsOf the list as it was, and the list is left sorted newest first. |
| Stats.StatsPage.SwitchProfile | stats.js:748-757 | Only the current id is stored. The profile's tasks are loaded and the figures refreshed. |
| Stats.StatsPage.CreateProfile | stats.js:783-818 | Validation as on the main page, and a non-blank free name is always created. The list is then stored, followed by a switch to the new profile. |
| Stats.StatsPage.DeleteProfile | stats.js:840-874 | As on the main page, but only the profile list is written, and the current id is not. |
| ServiceWorker.EndsWithAny | sw.js:153 | `some(ext => pathname.endsWith(ext))` holds exactly when one extension ends the path. |
| ServiceWorker.ShellIsStatic | sw.js:128-157 | The seven same-origin shell files are static assets. |
| ServiceWorker.FirstHolder | sw.js:75 | The first cache in creation order that holds the URL, and None exactly when none does. |
| ServiceWorker.Match | sw.js:75 | `caches.match` gives a response stored for the URL, and None exactly when no cache holds it. |
| ServiceWorker.MatchWhenHoldersAgree | sw.js:75 | When some cache holds the URL and all holders store the same response, `caches.match` gives that response. |
| ServiceWorker.Opened | sw.js:24-25 | `caches.open` keeps every existing cache and adds the named one only when it is missing. |
| ServiceWorker.PutLeavesOtherUrls | sw.js:89 | Storing a response for one URL leaves `caches.match` unchanged for every other URL. |
| ServiceWorker.StoreAll | sw.js:28 | A successful `addAll` stores every asset with its response and keeps the other entries. |
| ServiceWorker.InstallStep | sw.js:20-38 | The static cache is opened in every case. Assets are added all or nothing, exactly when every fetch is ok. Other caches are untouched. |
| ServiceWorker.InstallKeepsOtherCaches | sw.js:20-38 | Install writes only the static cache, and every other cache it leaves was there before. |
| ServiceWorker.ActivateStep | sw.js:41-65 | Exactly the caches named static or dynamic remain, intact and in order. |
| ServiceWorker.FetchStep | sw.js:68-125 | Non-GET requests are not intercepted. A static hit changes nothing. A received response is passed through. Storage changes only on a 200, which goes to the static cache for a static miss and to the dynamic cache otherwise. Offline, a static miss gets the fallback and any other GET gets `caches.match`. |
| ServiceWorker.StaticMissOffline | sw.js:94-101 | Offline, a static GET that no cache answers gets the fallback page. |
| ServiceWorker.NetworkFirstMissThenOffline | sw.js:108-124 | A non-static GET answered with 200 goes to the dynamic cache and is served from there once the network fails. |
| ServiceWorker.FetchOnlyAdds | sw.js:68-125 | A fetch never removes a cache or an entry. |
| ServiceWorker.MatchAfterPut | sw.js:86-92 | A URL no cache held, once put, is matched with that response. |
| ServiceWorker.StaticMissThenHit | sw.js:74-93 | A static miss answered with 200 is served from the cache the next time, whatever the network does, and changes nothing. |
| ServiceWorker.InstalledShellKept | sw.js:20-65 | After a successful install and an activate, an installed URL matches the response fetched at install. |
| ServiceWorker.ShellServedOffline | sw.js:20-98 | After install and activate, a GET for a shell path is answered with the installed response even offline. |
| ServiceWorker.ShellFallbackOffline | sw.js:94-98 | After a successful install and an activate, an offline GET for "/" or "/index.html" that no cache holds is answered with the installed `/index.html`. |
| ServiceWorker.StepsKeepNamesDistinct | sw.js:20-125 | Install, activate and fetch keep cache names unique. |
| ServiceWorker.ActivateKeepsNamesDistinct | sw.js:41-65 | Deleting caches keeps the remaining names unique. |
| ServiceWorker.ActivateKeepsOrder | sw.js:41-65 | Two kept caches come from two positions of the old storage, in the same order. |
| ServiceWorker.Worker.Install | sw.js:20-38 | The storage becomes InstallStep's result. `skipWaiting` is reached only when `addAll` succeeded. |
| ServiceWorker.Worker.Activate | sw.js:41-65 | The deletion loop leaves ActivateStep's storage. |
| ServiceWorker.Worker.Fetch | sw.js:68-125 | The storage and the answer are FetchStep's. |

## Left out

- Rendering, the DOM, themes, notifications, modals, the install prompt and timers are left out. The model keeps the data each of them reads and writes.
- JSON is not modelled. A stored entry is missing, unreadable or an already-parsed value. Fields of a parsed record are assumed to have their declared types.
- Time zones are left out. Dates are UTC day numbers, and "today" is given as a date. The source mixes local midnight (`setHours(0,0,0,0)`) with UTC parsing of "YYYY-MM-DD".
- Floating point is left out. `Math.round(k / n * 100)` and the average are computed on exact quotients, so a value that lands within rounding error of .5 may differ from the browser's.
- SortedDistinctSound: proves the order of Ordering.StrLess, which compares characters as Unicode code points. The default `sort()` at script.js:789 compares UTF-16 code units. The two orders differ only between a character above U+FFFF and one in U+E000..U+FFFF. For example, "#🎉" sorts before "#～" in the browser and after it in the model.
- TagOptionsSound: Tasks.TagOptions inherits that code-point order from Ordering.StrLess. Tags that mix characters above U+FFFF with characters in U+E000..U+FFFF can appear in the filter in a different order than the browser shows.
- Text.LowerChar: maps only the ASCII and Latin-1 capitals. Full Unicode case mapping is not modelled.
- Tasks.EffectivePriority: a stored priority outside low/medium/high/urgent is not modelled. The source would add a fifth key to the priority counts.
- Statistics.MonthlyData: months are indices 0..11. The French short month labels are not modelled.
- Stats.CreatedKey: a task without `createdAt` sorts as time 0. In the source it compares as NaN, and the result then depends on the engine.
- The search highlight (`highlightSearchMatch`), `escapeHtml`, `populateYearFilter` and `checkNotifications` are left out. They only format or display what the model computes.
- Deleting a profile leaves its `futurTask-tasks-<id>` entry in storage, as the code does, although its confirmation text (script.js:1339, stats.js:851) announces that the tasks are deleted too.
- ServiceWorker.FetchStep: the request's path is given with the request rather than parsed from the URL. `caches.match` compares URLs only, not `Vary` or the request method.
- ServiceWorker.FetchStep: the `cache.put` of a fetched response happens in the same step as the answer. In the source it is not awaited and can complete later.
- ServiceWorker.PutIn: writes every cache carrying the name. Cache names are unique in the browser, so this equals writing the one named cache, and StepsKeepNamesDistinct shows the steps keep names unique.
- `clients.claim`, the `message`, `push`, `notificationclick`, `error` and `unhandledrejection` handlers, and the unused `CACHE_NAME` are left out.
- Caches of the same version in another tab, and storage shared between tabs, are not modelled.
