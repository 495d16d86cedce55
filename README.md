# qBittorrent → Nextcloud bridge, modelled in Dafny

`main.py` is a long-running poller. At start it checks that seven
environment variables are set and that qBittorrent answers, then it logs in.
After that it loops while `RUN_FLAG` is true:

- It renews the login session once the session is strictly older than
  3300 s.
- Every 15 s (strictly more) it asks the qBittorrent Web API for the
  completed torrents and keeps those whose tag string does not contain the
  "done" tag.
- It tags each kept torrent as done with `addTags`, one request per
  torrent.
- If any torrent was kept, it runs `occ files:scan` once inside the
  Nextcloud container, as `www-data`, on the configured path below the
  user's `files` directory.

There is no exception handling. Any failed login, query, mark or rescan ends
`run_forever`.

The model has these modules:

- `Failures`: the exceptions, one constructor per `raise`, and `Result`/`Outcome`.
- `Text`: Python's `startswith`, `endswith` and `in` on strings. `in` is a
  substring test.
- `Startup`: `check_env` as a loop (`CheckEnv`) with its reference function
  `FirstMissing`. It also holds the `BASE_URL` rewrite as written
  (`BaseUrl`) and as intended (`IntendedBaseUrl`).
- `Torrents`: the completion filter `Untracked`, the status check
  `Completed`, and the tag effect of `addTags` on the remote
  (`AddTag`/`Tagged`). It also defines `Pending`, the hashes a
  poll marks when every addTags succeeds (a failing poll marks a prefix of
  them).
- `Rescan`: the path sanitisation of `update_nextcloud_files`. This is the
  `..` test, the strip loop (`StripLeadingSlashes`, against `StripSlashes`)
  and `posixpath.join` (`Join`).
- `Polling`: `run_forever` as a state machine over values (`State`, `Trans`).
  - Every call to qBittorrent, Docker or the clock is answered by an
    `Oracle`. The oracle is a set of total functions indexed by the number
    of earlier calls of that kind.
  - Each `time.time()` consumes the next clock reading.
  - Every remote effect is appended to a trace of `Event`s.
- `PollingProps`, `LoopProps`, `RunProps`: what one poll, one iteration, the
  loop and the whole run promise.
- `Bridge`: the class whose fields are the variables `run_forever` updates.
  - Its methods do the work step by step: the `for` loop that marks, the
    `while RUN_FLAG` loop, and the strip loop through `Rescan`.
  - Each method's contract equates its new state and outcome with the
    matching `Polling` function of its old state.

## Model

| member | source | states |
|---|---|---|
| Startup.FirstMissing | main.py:62-74 | None exactly when every required name is present; otherwise the result is a missing name all of whose predecessors in the list are present (the first missing one) |
| Startup.CheckEnv | main.py:57-78 | the probe is issued iff all seven names are present; a missing name raises naming the first missing one; after the names, a non-200 probe raises, otherwise it passes |
| Startup.SchemeGuardAlwaysTrue | main.py:39 | no string starts with both "http://" and "https://", so the guard is true for every input |
| Startup.BaseUrl | main.py:38-41 | the rewrite as written returns "http://" + the configured value for every input |
| Startup.IntendedBaseUrl | main.py:39-41 | the rewrite the warning describes: a URL with either scheme is kept, any other gets "http://", and the result always has a scheme |
| Startup.HttpsUrlIsMangled | main.py:38-41 | "https://qb:8080" becomes "http://https://qb:8080", which differs from the intended result |
| Text.ContainsEmpty | main.py:116 | every tag string contains the empty tag |
| Torrents.UntrackedEmptyTag | main.py:116 | an empty done tag filters out every torrent |
| Text.ContainsGrow | main.py:116 | an occurrence of the done tag survives any extension of the tag string |
| Torrents.Untracked | main.py:116 | the filter's output is no longer than its input, and every kept torrent comes from the input and lacks the done tag |
| Torrents.UntrackedKeeps | main.py:116 | every input torrent whose tags lack the done tag is kept |
| Torrents.UntrackedAppend | main.py:116 | filtering distributes over concatenation, so input order is preserved |
| Torrents.UntrackedSingle | main.py:116 | a single torrent is kept exactly when its tags lack the done tag |
| Torrents.UntrackedIdempotent | main.py:116 | filtering an already filtered list changes nothing |
| Torrents.UntrackedExample | main.py:116 | with done tag "done", [h1 untagged, h2 tagged "done"] filters to [h1] |
| Torrents.Completed | main.py:110-116 | a non-200 status raises QueryFailed before any filtering; otherwise the result is at most as long as the body and holds exactly the body's torrents without the done tag |
| Torrents.AddTag | main.py:128-133 | after addTags the tag string contains the done tag and still begins with the old tags |
| Torrents.Tagged | main.py:133-136 | a successful addTags keeps the set of known hashes, tags the marked hash, leaves every other hash unchanged and only extends tag strings |
| Torrents.Snapshot | main.py:110-115 | the GET lists only known hashes, each with the remote's current tag string, and no more entries than were completed |
| Torrents.PendingMembers | main.py:110-116 | a hash is among those a poll marks when every addTags succeeds (a failing poll marks a prefix of them) exactly when it is listed as completed, known, and its tags lack the done tag |
| Torrents.PendingDistinct | main.py:110-116 | a duplicate-free listing gives a duplicate-free pending list |
| Torrents.PendingFiltered | main.py:110-116 | the pending list, built head first in listing order, is the hash list of the filtered snapshot the query returns |
| Rescan.StripSlashesSpec | main.py:150-151 | the stripped path starts with no "/", and the original is a run of "/" followed by it |
| Rescan.StripSlashesIdempotent | main.py:150-151 | stripping again changes nothing |
| Rescan.StripLeadingSlashes | main.py:150-151 | the loop computes StripSlashes: no leading "/", and only leading slashes are removed |
| Rescan.FilesDir | main.py:154 | join(user, "files") inserts "/" unless user is empty or ends in "/" |
| Rescan.SanitizePath | main.py:144-154 | the statements compute RescanPath; an accepted path is absolute only if the user is |
| Rescan.RescanPathUnderFiles | main.py:147-154 | an accepted path is FilesDir(user) + "/" + the stripped relative path, and that relative part holds no ".." (the user part is not checked) |
| Rescan.RescanPathRejectsInnerDots | main.py:147-149 | "a..b" is refused although it has no ".." segment |
| Polling.ConfigAfterCheck | main.py:114-146 | once `check_env` has passed, the done tag (read at lines 114 and 128), the user, the relative path and the container (lines 144-146) are the variables' own values, never the fallback "None" |
| Polling.RescanSpec | main.py:140-173 | the container lookup and the exec are recorded, after the ".." check only; it passes iff no ".." occurs and the container is found with exit code 0; nothing else changes |
| Polling.TraceAppend | main.py:183-194 | the record of marks and of completed iterations adds up over consecutive parts of a run |
| Polling.MarkEventsSpec | main.py:189-190 | the marking loop's requests name the hashes in list order, one each |
| PollingProps.MarkAllEffect | main.py:189-190 | the marking loop sends one addTags per hash, in list order, for a prefix of the list; every answer before the last one sent was 200 and a raise means the last was not, so it stops at the first non-200 answer and raises MarkFailed (tagged in the model with that hash); it passes iff every answer is 200 and then marks all; nothing but marks, trace and remote changes |
| PollingProps.MarkAllTrace | main.py:189-190 | the marking loop's requests are one addTags per hash of a prefix of the list, in list order, with the current session and the done tag |
| PollingProps.MarkAllFrame | main.py:189-190 | the marking loop changes only marks, trace and remote; passing means every hash was sent; a raise is MarkFailed tagged with the last hash sent |
| PollingProps.MarkAllOutcome | main.py:189-190 | the marking loop passes exactly when every one of its addTags answers is 200 |
| PollingProps.MarkAllStops | main.py:134-136 | when the marking loop raises, every addTags answer before the last one sent was 200 and the last was not: it stops at the first failure, with no per-item isolation |
| PollingProps.MarksSucceedCons | main.py:189-190 | all marks succeed iff the first does and all the rest do |
| PollingProps.MarkAllTags | main.py:189-190 | the marking loop only extends tag strings, leaves unlisted hashes untouched, and when every mark succeeds every listed known hash carries the done tag |
| PollingProps.TaggedNotPending | main.py:116 | a hash whose tags already hold the done tag is not pending |
| PollingProps.QueryPending | main.py:110-121 | a 200 query returns the filtered snapshot, whose hashes are the pending list |
| PollingProps.MarkThenRescanEffect | main.py:189-192 | all marks precede the rescan; the rescan is issued only if every mark succeeded and the list was non-empty, at most once; the outcome passes iff the marks and (if issued) the rescan pass |
| PollingProps.MarkThenRescanSteps | main.py:189-192 | the requests of the marks and the rescan, in that order, and the outcome: it passes iff every mark and (on a non-empty list) the rescan pass |
| PollingProps.MarkThenRescanTags | main.py:189-192 | the marks and the rescan only extend tag strings, and tag every listed known hash when every mark succeeds |
| PollingProps.PollEffect | main.py:188-192 | exactly one query per poll; a non-200 query raises and nothing else is sent; otherwise the marks then at most one rescan; the poll passes iff query, every mark and the rescan succeed |
| PollingProps.PollFailed | main.py:110-113 | a query not answered 200 raises QueryFailed after recording the query alone, with nothing else changed |
| PollingProps.PollQueried | main.py:188-192 | after a 200 query the poll marks a prefix of the pending hashes then rescans at most once, and passes iff every mark and the rescan (if any) pass |
| PollingProps.PollFrame | main.py:188-192 | a poll changes only queries, marks, rescans, trace and remote, counts one query, and its first request is the query with the current session |
| PollingProps.RescanExecConfined | main.py:147-167 | the only command the rescan runs is `occ files:scan --path` on FilesDir(user) + "/" + the relative path stripped of leading slashes, and only when the relative path holds no ".."; that stripped part holds no ".." and starts with no "/" |
| PollingProps.RescanEventsQuiet | main.py:156-169 | the Docker calls mark nothing and complete no iteration |
| PollingProps.PollTags | main.py:188-190 | after a poll tag strings have only grown, and if the query and every mark succeeded every pending hash carries the done tag |
| PollingProps.PollAddedMarks | main.py:188-192 | the addTags requests of a poll are the first n pending hashes in order, and a poll completes no iteration |
| PollingProps.PollMarks | main.py:188-192 | a poll extends the trace, and its addTags requests are a prefix of the pending hashes (all of them when every mark succeeds) |
| PollingProps.PollSkipsTagged | main.py:188-190 | a poll never marks a torrent whose tags already hold the done tag |
| LoopProps.RenewEffect | main.py:184-186 | the session is renewed iff the first clock reading is strictly more than 3300 s after the session start; session_start then comes from a fresh reading; a failed login raises LoginFailed; nothing else changes |
| LoopProps.PollPhaseEffect | main.py:187-193 | a poll runs iff the reading is strictly more than 15 s after last_run, and its first request is the query with the current session; otherwise only the clock advances; last_run changes only after a successful poll, and then from the reading after the poll (the second of the phase) |
| LoopProps.StepRenewal | main.py:184-186 | within an iteration the renewal decision is taken first, its login is the first request, and a failed login raises before any query and leaves last_run alone |
| LoopProps.StepPoll | main.py:187-194 | after a successful renewal the iteration polls iff more than 15 s have passed, using the new session; an iteration that does not poll only sleeps; last_run moves only on success |
| RunProps.AddedSplit | main.py:183-194 | the requests of consecutive transitions add up |
| RunProps.PollFresh | main.py:188-192 | a poll marks only known hashes that lacked the done tag, marks none twice when the listing has no duplicate, and after success all of them carry the tag |
| RunProps.PollPhaseFresh | main.py:187-193 | the same for the poll half of an iteration |
| RunProps.StepFresh | main.py:183-194 | the same for a whole iteration, which records exactly one sleep when it passes and none when it raises |
| RunProps.StepRaises | main.py:183-194 | every exception of an iteration is a failed login, query, mark, or rescan |
| RunProps.PollRaises | main.py:188-192 | every exception of a poll is a failed query, a failed mark, RelativePath, a missing or invalid container (the configured one), a failed exec, or a failed login (the class of exceptions of one iteration) |
| RunProps.PollPhaseRaises | main.py:187-193 | every exception of the poll half of an iteration is in that same class |
| RunProps.LoopLength | main.py:183-195 | the loop returns normally only after one iteration per leading true reading of RUN_FLAG; when it raises it has completed fewer, and the exception is one of the loop body's |
| RunProps.DistinctConcat | main.py:189-190 | joining two duplicate-free, disjoint lists of hashes gives a duplicate-free list |
| RunProps.StepKeeps | main.py:183-194 | an iteration never marks a hash marked before, and after success every marked hash is known and carries the done tag |
| RunProps.LoopMarksOnce | main.py:183-195 | over the whole loop no hash is marked twice, when no listing holds a duplicate |
| RunProps.StepSkipsTagged | main.py:183-194 | a tagged, never-marked hash stays tagged and unmarked through an iteration, whether it passes or raises |
| RunProps.LoopSkipsTagged | main.py:183-195 | the same over the whole loop |
| RunProps.StartEffect | main.py:176-182 | before the loop the bridge sends nothing, the probe alone, or the probe and one login (nothing when a variable is missing, both when the start passes), marks nothing, leaves the remote alone, sets last_run to 0 and raises only for a missing variable, a failed probe or a failed login |
| RunProps.RunLengthSpec | main.py:176-195 | run_forever returns normally only after the flag reads false, having run one iteration per leading true reading; a raise after the start means fewer iterations and comes from the loop body; a raise at the start is the start's |
| RunProps.RunMarksEachTorrentOnce | main.py:176-195 | over a whole run no torrent is marked twice, when the API never lists a hash twice in one answer |
| RunProps.RunSkipsTagged | main.py:176-195 | a torrent whose tags hold the done tag when the run starts is never marked |
| RunProps.FirstIterationPolls | main.py:180-188 | because last_run starts at 0, the first iteration sends exactly one query, given a monotone clock past 15 s and a passing start and renewal |
| Bridge.Bridge.constructor | main.py:180-182 | a fresh bridge starts in the initial state over the given remote |
| Bridge.Bridge.Now | main.py:184-187 | `time.time()` returns the next clock reading and consumes it |
| Bridge.Bridge.Login | main.py:81-97 | the method computes LoginSpec in place |
| Bridge.Bridge.GetCompletedTorrents | main.py:100-121 | the method computes QuerySpec in place |
| Bridge.Bridge.MarkTorrentAsDone | main.py:124-137 | the method computes MarkSpec in place |
| Bridge.Bridge.UpdateNextcloudFiles | main.py:140-173 | the method computes RescanSpec in place, including the strip loop |
| Bridge.Bridge.RenewSession | main.py:184-186 | the session check and login of one loop body compute RenewSpec in place |
| Bridge.Bridge.PollIfDue | main.py:187-193 | the poll check, the poll and the `last_run` update of one loop body compute PollPhaseSpec in place |
| Bridge.Bridge.Poll | main.py:188-192 | the `for` loop over the torrents followed by the conditional rescan computes PollSpec in place |
| Bridge.Bridge.Iterate | main.py:184-194 | one loop body computes StepSpec in place |
| Bridge.Bridge.Start | main.py:176-182 | `check_env`, the session clock, `last_run = 0` and the first login compute StartSpec in place |
| Bridge.Bridge.Loop | main.py:183-195 | the `while RUN_FLAG` loop over the flag readings computes LoopSpec in place |
| Bridge.Bridge.RunForever | main.py:176-195 | the start followed, when it passes, by the loop computes RunSpec in place |

## Left out

- Logging (main.py:15-35 and every `logging.*` call) only configures and
  writes a log. The log level parsing is not modelled.
- The SIGTERM handler (main.py:45-54) is not modelled as concurrency.
  `RUN_FLAG` is read once at the top of each iteration and is given as a
  finite sequence of readings. Once the sequence runs out the flag reads
  false, meaning the signal has arrived.
  - A run whose flag never turns false is therefore not modelled.
- HTTP (`requests.Session`, `get`, `post`, `r.json()`) is replaced by oracle
  answers. A query's body is a list of hashes drawn from the remote tag
  store.
  - Credentials, URLs and request parameters are not part of the trace.
  - A malformed JSON body is not modelled.
- Docker (`docker.from_env`, `containers.get`, the `isinstance` test,
  `exec_run`) is replaced by the `Lookup` oracle: not found, not a
  container, or found with an exit code.
  - Docker's `NotFound` re-raise and the `None`/non-`Container` case are
    both modelled as separate errors.
- `shlex.join` quoting is not modelled. The command is the four-argument
  list.
- Floating-point time is modelled as `real`. `time.sleep(1)` is recorded as
  a `Sleep` event and does not advance the clock. The clock oracle decides
  every reading.
- The text qBittorrent stores after `addTags` is an abstraction (old tags,
  ", ", new tag). The model assumes that the old text stays a prefix of the
  new one (`TagsGrow` is stated with `StartsWith`). qBittorrent keeps tags
  as a set and need not list the old ones first; the run-wide properties
  only need that a tag string holding the done tag still holds it later.
- `BASE_URL` is computed but never used by the model: every request is an
  oracle call. Its raw value is `QBITTORRENT_URL`, or "" when the variable
  is missing. `BaseUrl` takes that value as its argument.
- There is no per-item isolation: any failed login, query, mark or rescan
  ends `run_forever`. The done-tag test (main.py:116) is a substring test on
  the tag string, and the ".." test (main.py:147) is a substring test on the
  relative path; the model keeps all three as the code has them.
- The remote is closed: `Initial(remote)` fixes the set of known hashes, and
  only the bridge's own addTags (`Tagged`) changes a tag string. Nobody
  else removes the done tag or edits tags during a run, so
  RunProps.RunMarksEachTorrentOnce, RunProps.LoopMarksOnce and
  RunProps.RunSkipsTagged do not cover a torrent whose done tag is removed
  by someone else, which main.py:116 would mark again at the next poll.
  `AddTag` also takes the done tag to be stored verbatim; a done tag
  holding a comma, which qBittorrent splits into several tags, is not
  modelled.
- `MarkFailed` records the hash for the proofs. The exception raised at
  main.py:136 does not name it.
- Transport failures are not modelled: `requests` raising instead of
  answering (main.py:75, 92, 110, 133), `docker.from_env()` failing
  (main.py:156), and Docker API errors other than `NotFound` from
  `containers.get` or `exec_run` (main.py:158, 169). The exception sets
  stated by RunProps.StartEffect, RunProps.StepRaises, RunProps.PollRaises
  and RunProps.PollPhaseRaises are those of the model, not every exception
  the program can raise.
- RunProps.FirstIterationPolls: it requires that the clock's first reading be
  more than 15 s after the epoch. This holds for any real wall clock, but
  the code does not check it.
- RunProps.RunMarksEachTorrentOnce: it requires that qBittorrent never lists a
  hash twice in one answer. If it did, the code would mark that hash twice.

## Findings

| source | as written | input that shows it | evidently intended | confidence | as-written member | corrected member |
|---|---|---|---|---|---|---|
| main.py:39-41 | the guard `not startswith("http://") or not startswith("https://")` is always true, so "http://" is always prepended | QBITTORRENT_URL = "https://qb:8080" gives "http://https://qb:8080" | prepend "http://" only when neither scheme is present (`and`) | high (not executed) | Startup.BaseUrl, Startup.HttpsUrlIsMangled | Startup.IntendedBaseUrl |
