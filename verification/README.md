# Abuse guard: a Dafny model

This project models the abuse-detection and blocking engine shared by two small web
services (a network probe `/ping` and a user lookup `/user`), and the request
decisions of the hardened service built on it.

The engine (`shared/common.py`) owns three maps:

- a per-key log of suspicious-input hit times;
- a per-key log of backend query-error times;
- one block table from key to "blocked until" time, written by both signals.

Each recorder appends the current time to its own log. It then drops entries older
than `now - window` (the cutoff is inclusive). When the remaining count reaches the
threshold (5 hits within 60 seconds for either signal), it blocks the key until
`now + 300` and clears the log. The block overwrites any earlier block; it never
extends one. The gate `is_blocked` answers "blocked" while the entry's time is
strictly after `now`. It deletes an expired entry the first time it sees it (lazy
expiry). The scanner reports the first field, in the caller's order, whose non-empty
value contains one of `'`, `"`, `;`, `|`, `--`, `/*`, `*/`, `&&`.

The hardened handlers (`fixedapp/app.py`) ask the gate first (403 when blocked), then
scan and record, then validate. The host must match `^[A-Za-z0-9.-]+$` and be at most
100 characters; the username must be 1 to 50 characters. A failing query also records
a backend error.

Modelling choices:

- The engine state is an immutable `Engine.State` value passed in and returned. The
  clock is an integer `now` parameter, one value per request.
- Keys are strings. Timestamps are unbounded integers.
- An unblock time of 0 is falsy in the source, so a 0 entry reads as no entry. The
  model keeps this (`Engine.BlockedAt`).
- Python's `re.match` with `$` also accepts one trailing newline before the end.
  `Handlers.HostPattern` accepts `w` and `w + "\n"` for a non-empty run `w` of host
  characters. The length cap counts that newline.
- Spawning the probe, opening the database and running the query are boolean
  parameters that say whether the call raised (`spawnRaises`, `connectRaises`,
  `queryRaises`). Opening the database happens before the query's error handler, so
  its failure answers 500 without recording a backend error.
- The gate compares strictly (`unblock > now`, shared/common.py:29), so a key blocked
  until 340 is already free at 340 (`Scenarios.FiveHitsBlockUntil340`).

Modules: `Window` (the pruning list comprehension),
`Engine` (`shared/common.py`), `Scanner` (the suspicious pattern and field scan),
`Handlers` (`fixedapp/app.py`), `Scenarios` (concrete runs).

## Model

| member | source | states |
|---|---|---|
| Window.Prune | shared/common.py:40-41 | the pruned log is no longer than the original and every kept time is at or after the cutoff |
| Window.PruneContents | shared/common.py:40-41 | pruning keeps each time at or after the cutoff with its full multiplicity and drops every older one |
| Window.PruneAppendRecent | shared/common.py:39-41 | appending a time inside the window and pruning gives the pruned old log followed by that time |
| Window.PruneAllRecent | shared/common.py:41 | when nothing is older than the cutoff, pruning returns the log unchanged, order included |
| Window.PruneAllStale | shared/common.py:41 | when everything is older than the cutoff, pruning empties the log |
| Window.PruneSortedIsSuffix | shared/common.py:36-41 | with a clock that never goes backwards, the window is a suffix of the log: pruning drops exactly a prefix of older hits |
| Engine.IsBlocked | shared/common.py:26-33 | the answer is yes iff the key has a non-zero entry strictly after `now`; an expired entry for that key is removed; no other entry and neither log changes |
| Engine.GateOnlySweepsExpired | shared/common.py:31-32 | lazy expiry is invisible: at `now` and later, every key is blocked after the gate iff it was blocked before |
| Engine.GateIdempotent | shared/common.py:26-33 | asking the gate twice at the same time gives the same answer and the same state |
| Engine.NeverBlockedKeyPasses | shared/common.py:28-30 | a key with no block entry is never reported blocked and the state is unchanged |
| Engine.RecordHit | shared/common.py:38-45 | the shared recorder protocol: only the key's log entry and block entry change; a trip sets the block to `ts + BlockTime` and clears the log, otherwise the log becomes the pruned window and the block table is untouched; the log stays below the threshold |
| Engine.RecordSuspicious | shared/common.py:35-45 | leaves the error log alone and every other key's entries alone; on a trip blocks until exactly `ts + 300` (overwriting) and empties the list; otherwise stores the pruned window; the stored list is shorter than 5 |
| Engine.RecordSqlError | shared/common.py:53-64 | the same protocol on the error log with its own constants, writing the same block table and leaving the suspicious log alone |
| Engine.SuspiciousWindowContents | shared/common.py:38-42 | without a trip the stored list contains `ts`, has 1 to 4 entries, and holds exactly the old hits at or after `ts - 60` plus `ts` |
| Engine.RecordersKeepBounded | shared/common.py:42-45 | both recorders and the gate keep every stored hit list strictly below its threshold |
| Engine.TripOverwritesBlock | shared/common.py:42-43 | a trip replaces a longer earlier block by `ts + 300`, so the key is free at `ts + 300` even though the old block ran longer |
| Engine.StaleHitsAgeOut | shared/common.py:40-42 | when every earlier hit is older than the window, the new hit leaves a list of exactly `[ts]` and no block |
| Engine.SignalsDoNotPool | shared/common.py:35-64 | recording one signal leaves every trip decision of the other signal unchanged; a backend error's effect does not depend on the suspicious log, nor a suspicious hit's on the error log; so a key's first hit of one signal never blocks it, whatever the other signal's count |
| Engine.SignalsCommute | shared/common.py:35-64 | recording a suspicious hit and a backend error gives the same state in either order when they concern different keys or the same time |
| Engine.BurstStep | shared/common.py:39-45 | when all earlier hits lie inside the new hit's window, the hit is appended below the threshold and trips at it |
| Engine.BurstExtend | shared/common.py:38-45 | when the hits before the last one were stored exactly and all lie in its window, the last hit extends the stored burst below the threshold and blocks the key at it |
| Engine.BurstBelowThreshold | shared/common.py:38-42 | fewer than 5 in-order hits from a clean key within one window are stored exactly and block nothing |
| Engine.BurstTripsAtThreshold | shared/common.py:42-45 | the 5th in-order hit from a clean key within one window blocks it until that hit's time plus 300 and empties its list |
| Scanner.Search | shared/common.py:8 | the search result is the leftmost position where a token starts, or none exactly when no position holds one |
| Scanner.SearchIffSuspicious | shared/common.py:8 | the search finds a match iff some position of the value starts a token |
| Scanner.FirstFlagged | shared/common.py:48-50 | the index found is the first field from the start index whose value is flagged; none exactly when no field is flagged |
| Scanner.CheckParams | shared/common.py:47-51 | reports no match iff no value is flagged; otherwise reports the name and value of the first flagged field in the given order |
| Scanner.FlaggedMeansToken | shared/common.py:49 | a value is flagged iff it contains a token; the empty value is never flagged |
| Scanner.EveryTokenDetected | shared/common.py:8 | each one- and two-character token is flagged wherever it is embedded |
| Scanner.LoneHalvesNotFlagged | shared/common.py:8 | a value whose characters include no one-character token and no adjacent token pair is not flagged, so lone `&`, `-`, `/`, `*` pass |
| Handlers.MatchHost | fixedapp/app.py:13-15 | matching the longest leading run of host characters, then the end or one newline and the end, agrees with the whitelist pattern |
| Handlers.Ping | fixedapp/app.py:27-53 | 403 iff the key is blocked, with the state unchanged; otherwise 400 iff the host is rejected, 500 iff the host is accepted and the probe raised; the error log never changes; a flagged host or client string records exactly one suspicious hit on the state the gate left, whatever the answer, and an unflagged probe leaves the state exactly as the gate left it |
| Handlers.User | fixedapp/app.py:56-88 | 403 iff blocked, with the state unchanged; otherwise 400 iff the username is empty or over 50 characters; 500 iff it is valid and opening the database or the query raised; a flagged username or client string is counted as one suspicious hit whatever the answer, 200 included, and an unflagged one leaves the suspicious log alone; the error log changes only when the database opened and the query raised, and then the key's list holds `now`, or is empty after a trip; in every other case the state is exactly the gate's state plus the scan's hit |
| Handlers.PingScansHostFirst | fixedapp/app.py:36 | the probe reports the host when it is flagged, else the client string when that is flagged, else no match |
| Handlers.UserScansUsernameFirst | fixedapp/app.py:65-67 | the lookup reports the username when it is flagged, else the client string, else no match |
| Handlers.PingRecordsBeforeValidating | fixedapp/app.py:36-44 | an unblocked probe with a flagged field records exactly one suspicious hit even if it is then rejected; an unflagged one leaves the state as the gate left it |
| Handlers.UserRecordsBeforeValidating | fixedapp/app.py:65-74 | an unblocked lookup with an invalid username is rejected with 400 after its flagged field was recorded |
| Handlers.FailedQueryCountsError | fixedapp/app.py:76-86 | a raising query records one backend error after the scan step; a successful one answers 200 and records none; a database that cannot be opened answers 500 and records none |
| Handlers.DefaultHostAccepted | fixedapp/app.py:34 | the default host `127.0.0.1` is accepted and not flagged |
| Handlers.PlainProbeServed | fixedapp/app.py:30-50 | a probe with default arguments from an unblocked key is served and records nothing |
| Handlers.ValidHostHasNoShellCharacters | fixedapp/app.py:13-15 | an accepted host contains no quote, semicolon, pipe, ampersand, slash or star |
| Handlers.ValidHostFlaggedOnlyByDoubleDash | fixedapp/app.py:43 | an accepted host is flagged iff it contains a double dash |
| Scenarios.FiveHitsBlockUntil340 | shared/common.py:29-43 | hits at 0, 10, 20, 30 block nothing; a fifth at 40 blocks the key until 340: blocked at 339, free at 340 |
| Scenarios.LateHitStartsFresh | shared/common.py:40-42 | hits at 0, 10, 20, 30 then 100 leave the list `[100]` and no block |
| Scenarios.HostExamples | fixedapp/app.py:13-15 | concrete hosts: a trailing newline is accepted, a double newline, a lone newline, a space and a semicolon are not; `a--b` is accepted and flagged |
| Scenarios.ScannerFlagsTokens | shared/common.py:8 | a quote, a pipe and a block-comment opener are flagged |
| Scenarios.ScannerPassesLoneHalves | shared/common.py:8 | `a&b-c/d*e` is not flagged |
| Scenarios.ScanReportsFirstField | shared/common.py:47-51 | the scan reports the first flagged field in order and nothing for clean input |
| Scenarios.InjectedProbeCounts | fixedapp/app.py:36-44 | an injected probe from an unblocked key is rejected with 400 and counted as one hit |
| Scenarios.InjectedProbesAreHits | fixedapp/app.py:30-44 | a burst of injected probes counts exactly like the same burst of suspicious hits |
| Scenarios.InjectedProbesBlockUntil340 | fixedapp/app.py:30-44 | five injected probes at 0..40 block the key until 340 |
| Scenarios.InjectedProbesGetBlocked | fixedapp/app.py:30-32 | after those probes a request at 41 gets 403 and a plain probe at 340 is served |
| Scenarios.SemicolonHostProbesGetBlocked | fixedapp/app.py:30-44 | the same run with host `a;b` ends in 403 at 41 |
| Scenarios.QuotedUsernameServedAndCounted | fixedapp/app.py:63-88 | a lookup for `o'brien` from an unblocked key answers 200 and still counts the quote as a suspicious hit |

## Left out

- Flask routing, header and argument extraction, and the request-logging hook: I/O
  plumbing. Requests enter the model as already-extracted optional strings.
- Logging calls, including the warning on each block: they have no effect on the
  decisions.
- Running the probe process and all database work (`init_db`, opening the
  connection, the query itself, closing it): foreign calls. Opening and querying are
  modelled only by whether they raised; a failure to close the connection is not
  modelled. The response bodies are not modelled.
- The deliberately vulnerable service `vulnapp/app.py` and `vulnapp/init_db.py`. Its
  gate, scan and record steps are the same as the hardened service's. What it adds is
  unsafe shell and query string building.
- The lock: each public engine function is one atomic step. The recorders read the
  clock before taking the lock, so under real concurrency their timestamps can arrive
  out of order. The recorders accept any timestamp order; only the burst lemmas
  assume times in clock order.
- Floating-point clock values: timestamps are integers. The gate reads the clock
  twice; the model uses a single `now` for the whole request, in the gate and in the
  recorders alike.
