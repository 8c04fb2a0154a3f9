# academia-notifier: change detection and session handling

A Dafny model of the core of `academia-notifier`, a Worker that polls a student-portal
scraper for marks and attendance and posts a notification when either changed. The model
covers:

- the normalisation of raw mark and attendance records to `(courseCode, value)` pairs;
- the diff that keeps every current pair with no equal pair in the previous snapshot;
- the `/` handler's cycle: resolve the session token (cached or by login), fetch both
  resources, re-login and refetch once on a `logout` flag, load the previous snapshot
  (empty when `force` is set), diff, then persist the new snapshot or leave it alone;
- the `/reset` handler, which empties the stored snapshot and stamps it.

Modules, leaves first:

| module | file | contents |
|---|---|---|
| `Wrappers` | `wrappers.dfy` | `Option` |
| `Records` | `records.dfy` | raw records, normalised `Entry`, normalisation |
| `DiffEngine` | `diff_engine.dfy` | the `some`/`filter` diff and its laws |
| `SessionStore` | `session_store.dfy` | the `notifier` namespace as a `map`, its keys, typed reads, the snapshot write |
| `Upstream` | `upstream.dfy` | response payloads and the upstream oracle |
| `SyncCycle` | `sync_cycle.dfy` | the handlers as functions of the store, and the lemmas about them |
| `Handlers` | `handlers.dfy` | class `Notifier`: the handlers as methods that `put` key by key |

The store is a `map<string, StoredValue>` field of class `Handlers.Notifier`; lists are
stored as lists (`StoredValue.List`), tokens and stamps as text. The upstream service is
a value of type `Upstream.Service`: `login(n)` is what the n-th login of a cycle returns
(`None` when it throws), `fetchInfo(token, n)` what the n-th paired fetch returns when
sent with `token` (`Unreachable` when it throws). A payload whose record list is missing
is `None` in its `marks`/`attendance` field, and a mark without `overall` has `None`
there; normalising either throws in the handler, which the model reports as
`Failed(MissingRecords)`. The current time is a parameter `now`.

Each handler method is proved to leave the store exactly as a function of `SyncCycle`
says (`RunCycle` against `CycleSpec`, built from `SessionSpec` and `Decide`; `Reset`
against `ResetSpec`), and the lemmas of `SyncCycle` and `DiffEngine` state what those
functions promise.

Points of the code's behaviour that the model keeps as they are:

- A `logout` flag on the second fetch is not checked: its payloads are used as they are
  (src/index.ts:62-68).
- A retry login that throws leaves the first token stored (line 60 already ran); the
  snapshot keys are untouched on every failure (`SyncCycle.CycleFrame`).
- The snapshot is written as three separate puts (lines 106-108), not one combined write.
- A cycle also fails, after the token writes, when a payload lacks its record list or a
  mark lacks its `overall` object (lines 70-72 throw); both end in `Failed(MissingRecords)`.
- The token key is `csrfToken`.

## Model

| member | source | states |
|---|---|---|
| `Records.NormalizeMarks` | src/index.ts:70-73 | fails exactly when some mark lacks `overall`; otherwise same length and order, entry i has raw i's `courseCode` and `overall.total` |
| `Records.NormalizeAttendance` | src/index.ts:74-79 | same length and order; entry i has raw i's `courseCode` and `attendancePercentage` |
| `Records.MarkDisplayFieldsIgnored` | src/index.ts:70-73 | raw mark lists that agree position by position on code and `overall` normalise alike, and lists that normalise to the same entries agree on them; `courseName`/`courseType` never matter |
| `Records.AttendanceDisplayFieldsIgnored` | src/index.ts:74-79 | two raw attendance lists normalise equal iff they agree on code and percentage; `courseTitle` never matters |
| `DiffEngine.AnyMatch` | src/index.ts:90-93 | `prev.some(...)` is true iff some previous entry has the same code and the same value, i.e. iff the pair occurs in `prev` |
| `DiffEngine.Diff` | src/index.ts:88-103 | the result is a subsequence of `current` (order kept); a pair is in it iff it is in `current` and not in `prev`; each kept pair keeps its multiplicity, each matched pair is dropped entirely |
| `DiffEngine.DiffNonEmptyIffHasNew` | src/index.ts:105 | `diff.length` is truthy iff some current pair has no equal previous pair |
| `DiffEngine.DiffSelfIsEmpty` | src/index.ts:88-103 | a list diffed against itself is empty |
| `DiffEngine.DiffAgainstEmpty` | src/index.ts:88-94 | against an empty previous list every current entry is new, in order |
| `DiffEngine.DiffDependsOnlyOnPrevPairs` | src/index.ts:88-103 | two previous lists with the same pairs (any order, any repetition) give the same diff |
| `DiffEngine.DiffIgnoresPrevOrder` | src/index.ts:88-103 | a permutation of the previous list gives the same diff |
| `DiffEngine.RemovedCoursesNeverReported` | src/index.ts:88-103 | previous entries whose course no longer appears upstream do not change the diff, so a removal alone is never reported |
| `DiffEngine.SingleValueChangeIsReported` | src/index.ts:88-94 | with unique codes, changing one course's value yields a diff of exactly that changed entry |
| `SessionStore.StoredList` | src/index.ts:81-86 | an absent list key reads as the empty list; a stored list reads as itself |
| `SessionStore.CachedToken` | src/index.ts:57-58 | a cached token is used only when present and non-empty |
| `SessionStore.WriteSnapshot` | src/index.ts:106-108 | both lists and the stamp get the new values; every other key, the token included, is kept; well-typedness is kept |
| `SyncCycle.SessionSpec` | src/index.ts:57-68 | only the token key changes, and it ends holding the last fetch's token; a fetch happens exactly when a token was resolved (cached and non-empty, else the first login's) and is sent with it; logins = (no usable cache ? 1 : 0) + (first fetch flagged `logout` ? 1 : 0); an unflagged first fetch gives exactly its payloads; after a flagged one, a second fetch happens exactly when the second login succeeds, with that login's token, and its payloads are used whatever their flags; each thrown login or fetch gives its failure |
| `Upstream.LoggedOut` | src/index.ts:64 | the session counts as expired when either payload carries `logout`, and only then |
| `SyncCycle.ExpiredSessionRefetchesBoth` | src/index.ts:64-67 | a flagged first fetch followed by a successful login stores the new token and refetches both resources with it; the cycle goes on with the second fetch's payloads |
| `SyncCycle.AttendanceOnlyLogoutRefetchesBoth` | src/index.ts:64-67 | a `logout` flag on the attendance payload alone causes a second fetch, sent with the new login's token |
| `SyncCycle.Current` | src/index.ts:70-79 | normalised lists exist exactly when both payloads carry their lists and every mark has `overall`; then entry i is raw i's code with its `overall.total` (marks) or its `attendancePercentage` (attendance) |
| `SyncCycle.Previous` | src/index.ts:81-86 | when forced both baseline lists are empty; otherwise they are the stored lists, an absent key reading as empty |
| `SyncCycle.Decide` | src/index.ts:81-108 | notifies iff some current mark or attendance pair is new against the baseline (empty when forced); then both lists and the stamp are overwritten and nothing else; otherwise the store is unchanged |
| `SyncCycle.CycleSpec` | src/index.ts:57-108 | a cycle makes at most two logins and two fetches |
| `SyncCycle.CycleFrame` | src/index.ts:57-108 | a cycle changes at most the token and the three snapshot keys; without a notification only the token; a notification stamps `now`; a well-typed store stays well-typed |
| `SyncCycle.UnchangedDataIsNoChange` | src/index.ts:88-105 | upstream data equal to the stored lists gives "No new updates found" and rewrites no snapshot key |
| `SyncCycle.ForcedCycleNotifies` | src/index.ts:81-108 | a forced cycle with non-empty data notifies whatever was stored, and stores exactly the fetched lists |
| `SyncCycle.AbsentSnapshotMakesAllNew` | src/index.ts:81-86 | with no stored lists, non-empty data notifies |
| `SyncCycle.ChangedMarkIsNotified` | src/index.ts:88-107 | one changed mark notifies; the stored marks become the new marks and the attendance is rewritten with its old value |
| `SyncCycle.ResetSpec` | src/index.ts:40-46 | both lists become empty, the stamp is `now`, the token is unchanged |
| `SyncCycle.ResetIsIdempotent` | src/index.ts:42-44 | resetting twice equals resetting once with the later stamp |
| `SyncCycle.ResetThenCycleNotifies` | src/index.ts:83-105 | after a reset, a non-forced cycle with non-empty data notifies |
| `Handlers.Notifier.Get` | src/index.ts:58 | returns the stored value iff the key is present |
| `Handlers.Notifier.Put` | src/index.ts:60 | the key now holds the value; all other keys unchanged |
| `Handlers.Notifier.LoadList` | src/index.ts:83 | reads a stored list, absent as empty |
| `Handlers.Notifier.Reset` | src/index.ts:40-46 | the store afterwards is `ResetSpec` of the store before; well-typedness kept |
| `Handlers.Notifier.OpenSession` | src/index.ts:57-68 | store, logins, fetch tokens and payloads are exactly `SessionSpec` of the store before |
| `Handlers.Notifier.DiffAndPersist` | src/index.ts:81-108 | outcome and store are exactly `Decide` of the store before |
| `Handlers.Notifier.RunCycle` | src/index.ts:48-152 | outcome, store and upstream calls are exactly `CycleSpec` of the store before; well-typedness kept |

## Left out

- Hono routing, `/ping` and the default export (src/index.ts:1-3, 36-38, 154): framework plumbing.
- The HTTP requests of `fetchScraper`, `login` and `fetchInfo` (src/index.ts:5-34): replaced by the `Upstream.Service` oracle. A login whose response lacks `cookies` (an undefined token) is not distinguished from one that returns a token.
- `Promise.all` (src/index.ts:28-33): the paired fetch is one step returning both payloads.
- The Discord embeds and post (src/index.ts:110-148): the model ends in the outcome `Notified`; the message contents and the post's success or failure are not modelled.
- `JSON.stringify`/`JSON.parse` of the stored lists: lists are stored as values; stored text that is not a list is excluded by the well-typedness invariant rather than parsed.
- `new Date().toISOString()`: the stamp is the parameter `now`.
- Environment and query parsing (src/index.ts:41, 49-55): `force` is a boolean parameter, true exactly when the query value is `"true"`.
- Numeric semantics of scores and percentages: values are integers compared only by equality.
- A mark whose `overall` lacks `total`, or an attendance record without `attendancePercentage`: the source copies `undefined` without throwing; in the model these values are always present.
- Storage failures: `get` and `put` are assumed to succeed; a rejected `notifier.get` (src/index.ts:58, 83, 86) or `notifier.put` would abort the handler, and the source never checks either.
- Concurrent cycles against the same store: one cycle at a time, as the source assumes.
