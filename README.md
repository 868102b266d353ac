# gmon core, modelled in Dafny

gmon is a small monitoring dashboard on top of Prometheus. This project
models three pieces of it and proves properties of the model:

- **The status-timeline engine** (`pkg/prom/prom.go`, module `Prom` in
  `prom.dfy`). For every active scrape target, `Apps` works out whether the
  target is UP, DOWN or UNKNOWN, since when, and for how long. It does this
  with four history lookups (first/last up, first/last down). It then groups
  the targets into applications and sorts the applications by a fixed
  display rank (`number`) and each application's instances by address.
  `LastSample` reduces a combined instant query to one sample, keyed
  "instance,name".
- **The login session table** (`pkg/xhttp/session.go`, module `Sessions` in
  `sessions.dfy`). It is a map from session id to expiry. `SetSession`
  inserts a session that lives 12 hours. Above 100 sessions it evicts the
  earliest-expiring surplus and then expired sessions in expiry order.
  `GetSession`, `Expired` and `DelSession` look up and remove sessions.
- **The line chart's data buffer** (`pkg/static/js/line.js`, module `Chart`
  in `chart.dfy`). `push` appends a timestamp and one value per series to
  parallel arrays. Once `maxPoints` is exceeded, it shifts the oldest point
  off every array it touched.

Support modules:

- `Sorting` (`sorting.dfy`): an in-place insertion sort on an array,
  parameterised by a total preorder. It proves that the result is sorted,
  is a permutation of the input, and comes with a permutation witness. It
  stands in for Go's `sort.Slice`.
- `Lex` (`lex.dfy`): Go's string `<` as lexicographic order on characters,
  and the proof that it gives a total preorder
  (on valid UTF-8 it agrees with Go's byte-wise order).
- `Wrappers` (`wrappers.dfy`): `Option` and `Result`.

The environment is passed in as parameters:

- The Prometheus server is an oracle. The target list comes in as a
  `Result`. Each history lookup is answered by a `Backend` function. An
  instant query is represented by its answer, a `QueryAnswer`.
- The session clock is a parameter `now`, in whole seconds. The random
  session id is a parameter, `None` when the random source fails. The
  cookie is the value of `session_id`, or `None` when the request has none.

## Model

| member | source | states |
|---|---|---|
| Prom.Apps | pkg/prom/prom.go:51-127 | A failed target discovery is returned as the error. Otherwise the result holds the grouped apps of all active targets: as many apps as groups, distinct names, each app holding exactly its targets' instances, apps in non-decreasing rank of their first instance's job, and each app's instances sorted by address. |
| Prom.GroupTargets | pkg/prom/prom.go:61-114 | The scan over active targets equals `Grouped`: each resolved instance is appended to the first app with the same `app` label, or starts a new app at the end. |
| Prom.Arrange | pkg/prom/prom.go:116-124 | On apps with distinct names: the result is the same apps, ordered by `number` of the first instance's job. Each app's instances are a permutation of its own, ordered by address. |
| Prom.GroupedBucket | pkg/prom/prom.go:102-113 | The app named n holds exactly the instances of the targets labelled n, resolved, in target order. |
| Prom.GroupedShape | pkg/prom/prom.go:102-113 | Grouping yields distinct names and no empty app. The app names are exactly the targets' app labels, and there is one instance per target. |
| Prom.AddInstance | pkg/prom/prom.go:102-113 | One pass of the scan-and-append loop. Existing apps keep their names and places, and apps with other names are untouched. A new app holding just the instance is added at the end only when no app has the name. |
| Prom.AddInstanceBucket | pkg/prom/prom.go:102-113 | After one pass, the app with the target's name has gained exactly that instance at the end. Every other name's instances are unchanged. |
| Prom.IndexOfApp | pkg/prom/prom.go:102-107 | Returns the first app with the name, or -1 when none has it. |
| Prom.Resolve | pkg/prom/prom.go:65-100 | Name and address come from the job and instance labels. The status is UP iff the target is healthy and DOWN iff it is unhealthy. The duration is between 0 and the int64 maximum, and is 0 unless the target is healthy. An unknown-health target has the zero time and shows as "UNKNOWN". |
| Prom.HealthyTimeline | pkg/prom/prom.go:73-84 | Up since the last down sample, or since the first up sample if there is none. When that start time and the last up sample are both found and their difference fits in int64 nanoseconds, the duration is last-up minus start in nanoseconds, clamped at 0. |
| Prom.UnhealthyTimeline | pkg/prom/prom.go:86-91 | Down since the last up sample, or since the first down sample if there is none. The duration is 0. |
| Prom.Sub | pkg/prom/prom.go:81 | `end.Sub(start)` is in the int64 nanosecond range, is negative iff end is before start, and is exact when it fits. |
| Prom.HistoryTime | pkg/prom/prom.go:150-208 | The error result is always nil. The time is the zero time iff the query fails, is not a vector, or returns an empty vector. Otherwise it is the first element's value in seconds. |
| Prom.AppRank | pkg/prom/prom.go:117-119 | The sort key of an app lies in 1..255 and is `number` of its first instance's job name. |
| Prom.SortByAddr | pkg/prom/prom.go:120-124 | One app's instances come back as a permutation, ordered by address. |
| Prom.Number | pkg/prom/prom.go:129-148 | Ranks lie in 1..255. "prom" is 255. Any name outside the six known apps is 254. The known apps rank 1..6 in their listed order, each iff the name matches. |
| Prom.DisplayOrder | pkg/prom/prom.go:129-148 | go < java < mysql < redis < windows < linux, then any other name, then prom, by rank. |
| Prom.StatusString | pkg/prom/prom.go:299-308 | "UP" iff StatusUp, "DOWN" iff StatusDown, "UNKNOWN" iff neither. |
| Prom.Vector | pkg/prom/prom.go:237-249 | Succeeds iff the answer is a vector, with that vector as value. A non-vector answer is the "cannot convert" error. |
| Prom.LastSample | pkg/prom/prom.go:210-235 | Query errors propagate. Otherwise the result is the snapshot of the vector (`SampleOf`): no sample for an empty vector, else the first point's timestamp and one entry per "instance,name" key holding the value of the last point with that key. |
| Prom.Snapshot | pkg/prom/prom.go:219-234 | The loop over the vector builds its snapshot. The sample is created at the first point with that point's timestamp, and later points with the same key overwrite earlier ones. |
| Prom.SampleKeyDistinct | pkg/prom/prom.go:221-224 | A missing label reads as "", as a Go map lookup gives. For instance labels without a comma, two points get the same "instance,name" key iff they share both the instance and the name label. |
| Prom.LatestByKeyUnique | pkg/prom/prom.go:219-233 | The snapshot map is determined by the vector: two maps satisfying the last-wins rule are equal. |
| Prom.TwoKeysTwoEntries | pkg/prom/prom.go:221-232 | Two points with different instance/name keys produce two separate entries, each holding its own value. |
| Lex.LessIrreflexive | pkg/prom/prom.go:122 | No string is less than itself under Go's string order. |
| Lex.LessTransitive | pkg/prom/prom.go:122 | Go's string order is transitive. |
| Lex.LessTrichotomous | pkg/prom/prom.go:122 | Any two strings are equal or one is less than the other. |
| Sorting.SortSlice | pkg/prom/prom.go:117-124 | For a total preorder, the array ends sorted and is a permutation of its old contents, with a witness mapping each position to its old one. |
| Sessions.SessionTable.GetSession | pkg/xhttp/session.go:33-52 | A missing cookie is an error. Otherwise there is a session iff the id is in the table, and the session carries that id and its stored expiry. |
| Sessions.SessionTable.Expired | pkg/xhttp/session.go:25-31 | Expired iff there is no cookie, no session under its id, or the session expires before now. |
| Sessions.SessionTable.constructor | pkg/xhttp/session.go:21-23 | The table starts empty, which satisfies the 100-session bound. |
| Sessions.SessionTable.SetSession | pkg/xhttp/session.go:54-111 | A random-source failure is returned and changes nothing. Otherwise the table is the old table plus the new id expiring now + 12 h, after eviction (`Evicted`). Either way the table keeps the bound of at most 100 sessions between calls. |
| Sessions.Evict | pkg/xhttp/session.go:80-108 | Above 100 sessions: only existing entries survive, unchanged. At most 100 survive, none of them expired. No survivor expires before a removed session. An unexpired session is removed only when exactly 100 remain. |
| Sessions.Entries | pkg/xhttp/session.go:85-88 | Lists every session of the table exactly once, with its expiry, in some order. |
| Sessions.SortedEntries | pkg/xhttp/session.go:84-91 | Lists every session exactly once, ordered by non-decreasing expiry. |
| Sessions.DeleteSurplus | pkg/xhttp/session.go:93-98 | Removes exactly the first `len - 100` sessions of the listing. |
| Sessions.DeleteExpired | pkg/xhttp/session.go:99-107 | Continuing from the surplus, removes sessions for as long as they are expired. It stops at the first unexpired session or at the end, and removes exactly the sessions before that stopping point. |
| Sessions.EvictedKeepsFullOrUnexpired | pkg/xhttp/session.go:93-107 | After eviction from over 100 sessions, either exactly 100 remain or exactly the unexpired sessions remain. |
| Sessions.EvictedBounded | pkg/xhttp/session.go:80-108 | Eviction always leaves at most 100 sessions. |
| Sessions.DistinctIds | pkg/xhttp/session.go:85-88 | A list of sessions with distinct ids has as many ids as entries. |
| Sessions.SessionTable.DelSession | pkg/xhttp/session.go:113-133 | A missing cookie is an error and changes nothing. Otherwise exactly the cookie's id is removed, and the 100-session bound is kept. |
| Chart.Line.Push | pkg/static/js/line.js:227-251 | The new buffer is `Pushed` of the old one: time appended to `data[0]` and `values[i]` to `data[i + 1]`. When `data[0]` exceeds `maxPoints`, the front of each touched array is shifted off. |
| Chart.PushedSlidesWindow | pkg/static/js/line.js:233-247 | Each touched array is the old array plus the new value, minus its first element exactly when `data[0]` overflows. |
| Chart.PushedEndsWithValue | pkg/static/js/line.js:233-247 | Each touched array ends with its pushed value. It is empty only when it was empty and the push overflowed. |
| Chart.PushedLeavesRest | pkg/static/js/line.js:235-238 | Arrays past the last series given a value are unchanged. |
| Chart.PushedKeepsBound | pkg/static/js/line.js:240-247 | An x array within `maxPoints` stays within it. Without overflow it grows by exactly one. |
| Chart.PushedKeepsEqualLengths | pkg/static/js/line.js:233-247 | A push with one value per series keeps all arrays the same length. |
| Chart.PushedAllKeepsRecent | pkg/static/js/line.js:233-247 | Starting from empty arrays, a sequence of `push(time, ...values)` calls leaves each array that every call reaches holding exactly the most recent `maxPoints` values pushed onto it, oldest first: the timestamps for the x array, that series' values for a series array. |
| Chart.FullPushesKeepRecent | pkg/static/js/line.js:233-247 | From a fresh buffer, when every push carries one value per series (as the dashboard's calls do), every array keeps exactly its last `maxPoints` values, so the chart shows the most recent `maxPoints` whole data points. |
| Chart.Line.constructor | pkg/static/js/line.js:118 | The buffer starts as one empty array for x values and one per series. |

## Left out

- The Prometheus HTTP client, `Init`, `withTimeout`, the query timeout and the PromQL text of the lookups: the backend is an oracle answering each lookup.
- Floating-point sample values: they are integers here. A history lookup reads its seconds from the value (`int64(vector[0].Value)`), and `int64` truncation of fractional values is not modelled.
- Prom.Arrange: Go's `sort.Slice` is not stable, so the order among apps of equal rank and among instances with equal addresses is unspecified. The contract states only the sort order and the permutation; the insertion sort used here happens to be stable.
- Prom.Resolve, Prom.HealthyTimeline, Prom.UnhealthyTimeline: Go's `IsZero()` is also true of `time.Unix(s, 0)` when s is the zero instant 0001-01-01 (-62135596800). The fallback tests here check only for `ZeroTime`. A lookup that returns exactly that value therefore does not fall back to the first-up or first-down lookup as it would in Go. `Sub` treats both forms alike.
- Prom.HealthyTimeline: when neither a down sample nor an up sample is found for the start but the last up sample is, Go (and `Resolve`) report the zero time and a duration saturated at the int64 maximum (about 292 years). The lemma states the duration only when both ends are found and the difference fits, so that case is covered by `Resolve` and `Sub`, not by a stated timeline.
- Target health strings other than good/bad are all `HealthUnknown`. Target labels missing from a target read as "" in Go; targets carry their label values directly here.
- `*App` and `*Instance` pointers are modelled as values. Nothing in the core aliases them after `Apps` returns.
- JSON marshalling of `XTime`, `XDuration` and `Status` beyond `Status.String`.
- The session `sync.RWMutex`: each operation is modelled as atomic.
- `crypto/rand`, base64 encoding of the id, and cookie writing and escaping: the id and the cookie value are parameters.
- Sessions.SessionTable.Expired: the source reads the clock again after the lookup; here one `now` serves the whole call.
- Sessions.SessionTable.SetSession: the source reads the clock once for the new session's expiry and again on every pass of the expired-session loop. Here one `now` serves the whole call, for the expiry and for every expiry test.
- Sessions.SessionTable.SetSession: Go's instants have nanosecond precision, and here they are whole seconds. A `Before(now)` test between two instants less than a second apart can therefore come out differently.
- Lex.LessIrreflexive, Lex.LessTransitive, Lex.LessTrichotomous: Go compares strings byte by byte. The model compares characters (code points). The two orders agree on valid UTF-8, since UTF-8 preserves code-point order. They can differ for Go strings holding invalid UTF-8.
- Sessions.Evict: Go iterates the map in random order, and `sort.Slice` is unstable, so which of several sessions with equal expiry goes first is unspecified. The contract states what holds for every such order, not which sessions are chosen.
- Chart.Line.constructor: the uPlot options, series styles, axes, formatting and `setData` redraw are not modelled. `maxPoints` (`Math.round(width / 1.5)`) is a constructor parameter.
- Chart.Line.Push: more values than series would make the source throw on `data[i + 1]`; the model requires at most one value per series.
- Logging (`log.Printf` of the expression in `LastSample`, `console.log` in `push`) is not modelled.
- The HTTP handlers, templates, configuration, `main` and the rest of `pkg/xhttp`: not part of this model.
