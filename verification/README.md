# Verified model of the classroom sync server

A Dafny model of the server's sync engine and of the small state machines around it, with proofs of what they
promise over whole runs. `dafny verify dfyconfig.toml` checks everything.

**The sync engine** keeps per-user rows of many kinds, an append-only change log with a global sequence, and an
idempotency ledger; one push request is one transaction, and clients page the log by cursor.

| file | contents |
|---|---|
| `options.dfy` | the option type |
| `sync_types.dfy` | rows, change entries, push items, results |
| `sync_merge.dfy` | per kind: required fields, inserted content, merge rules, stub rows, unique slots |
| `sync_laws.dfy`, `sync_fields.dfy` | laws of those rules over all kinds: merging again, absent fields, whole rows, references |
| `sync_state.dfy` | the stored state, the one kind of write, the log/row invariant |
| `sync_decide.dfy` | what an operation and a batch decide: ledger replay, deletes with cascades and detaches, the version matrix |
| `sync_cascade.dfy` | deletes compared with reachability over the references |
| `sync_runs.dfy` | cleanups, purges, whole runs, the invariant over them |
| `sync_pull.dfy`, `sync_convergence.dfy` | paging, and a client that folds pages |
| `sync_answers.dfy`, `sync_phantom.dfy` | what each operation answers and leaves, told from the stored rows; deletes of unseen rows |
| `sync_once.dfy`, `sync_replay.dfy`, `sync_versions.dfy` | exactly-once effect, what cleanups and purges remove, delete-wins, compare-and-swap, replay without the ledger |
| `sync_values.dfy` | accepted words and unique slots over whole runs |
| `sync_refint.dfy`, `sync_isolation.dfy`, `sync_files.dfy`, `sync_orderfree.dfy` | referential integrity, user non-interference, file reaping, order-independent merges |
| `sync_statements.dfy`, `sync_service.dfy` | the engine as a class whose methods run statement by statement, proved to do what `sync_decide.dfy` decides |

**Around it**: refresh-token chains (`tokens.dfy`, and as a class in `token_store.dfy`), one-time codes
(`challenges.dfy`), the fixed-window rate limiter (`rate_limiter.dfy`) and the base64url encoder of refresh tokens
(`encoder.dfy`).

How the parts fit: an operation's decision is a function of the rows it finds (`SyncDecide.Decide`); it yields a
result and a list of writes, each of which puts one row's next version and appends one change entry. The invariants
and theorems are proved of these functions for every state, item list and run. The class `SyncEngine.Service` updates
its tables in place, in the order of the program's statements and loops, and its contracts tie each new state to those
functions. `Scan` stands for the order in which an `UPDATE ... RETURNING` delivers its rows; every theorem holds for
all of them. Time enters as the transaction's `now`; runs assume only that it never goes backwards.

## Where the code and its documentation differ

- The comments promise a tombstone for a delete of a never-seen row of any kind. For attachments, schedules,
  schedule exceptions, exams, exam topics, study plans, plan items and study activities the stub row lacks columns
  that the migrations declare NOT NULL without a default, so the request aborts as a whole. `SyncPhantom` says
  exactly when such a delete is recorded.
- The cleanup removes old change entries of live rows too, so a client that starts at cursor 0 afterwards misses
  rows that have not changed since, and so does a device that was offline past the retention window.
  `SyncConvergence.QuietConvergesIff`, `FreshConvergesIff` and `AnnouncedAfterCleanup` give the exact conditions,
  `CleanupHidesLiveRow` a run that shows it.
- The base version of an insert is compared with nothing (bookmarks and favorites excepted), so an insert that named a
  base is merged again, once its ledger entry is gone, exactly while the row is live, mergeable and at that version
  (`SyncVersions.ResubmitIff`; at once that is base 1, `ResubmitAtOnce`).
- Comments in the exam handlers say that an absent field keeps its stored value; for eight kinds some absent field
  falls back to a default instead (`SyncLaws.KeepsAbsentIff`, and row by row `BareChangesNothingIff`).
- Merging a payload again is not always a repeat, since each merge reads the clock: a stale plan-item push lowers the
  stored status time, so that pushing it again wins, and a plan item or correction without a time of its own may win
  later though it lost or tied before (`SyncLaws.MergeTwiceIff` gives the exact cases).
- A comment says that an empty text clears a schedule's teacher, location or note override; the code keeps the stored
  one (`SyncLaws.OverridesStayIff`).
- Among equally new pushes of a correction the last one wins, so the order shows exactly when the newest pushes bring
  different texts (`SyncOrderFree.CorrectionOrderFree`, over runs `CorrectionRunsIff`).
- An aborted batch keeps the sequence numbers it drew; the log has gaps, which paging does not mind.
- The encoder drops the last bits of byte strings whose length is not divisible by 3 (`Base64Url.InjectiveIff`);
  its only caller encodes 48 bytes.

## Model

| member | source | states |
|---|---|---|
| SyncState.ApplyWriteInv | internal/sync/service.go:946-951 | Putting a row at its next version and appending the matching change entry keeps the log/row invariant (each row's entries are a consecutive run of versions ending at its own, only the last can be a delete and it is one exactly for a tombstone), and keeps whole histories whole |
| SyncState.WriteAllInv | internal/sync/service.go:946-951 | Any list of permitted writes keeps that invariant |
| SyncState.WriteAllRows | internal/sync/service.go:1316-1491 | A list of writes to distinct rows moves each of them to its next version exactly once and leaves every other row as it was |
| SyncState.WriteAllLog | internal/sync/service.go:946-951 | It appends exactly one change entry a write, in order, with consecutive sequence numbers and the new versions |
| SyncMerge.NewContentKind | internal/sync/service.go:1113-1258 | An insert stores a row of its own kind, for all sixteen kinds |
| SyncMerge.MergeContentKind | internal/sync/service.go:1260-1303 | A merge never changes the kind of a row |
| SyncMerge.MergeKeepsSession | internal/sync/service.go:1707-1717 | No merge changes the session a row belongs to |
| SyncLaws.MergeTwiceIff | internal/sync/exams.go:1014-1043 | A payload merged at one time and again at any later one leaves what the first merge left, for every kind, exactly unless it drifts: a stale plan-item push lowered the stored status time, a plan-item push without a status time meets a stored one lying between the two clock readings, or a correction without a modifiedAt is newer, or ties with other texts, at the second reading |
| SyncLaws.InsertThenMergeIff | internal/sync/service.go:1187-1303 | Insert and merge agree on every field of every kind: the inserted payload merged into the new row changes nothing, except the default time of a correction |
| SyncLaws.BareChangesNothingIff | internal/sync/exams.go:551-568 | Row by row, for all kinds: an accepted push that carries only the required fields, as they are stored, changes nothing exactly when the optional fields hold the listed defaults (any values for eight kinds) |
| SyncLaws.KeepsAbsentIff | internal/sync/exams.go:551-568 | A push that carries only the required fields keeps all others for exactly eight kinds; for the other eight some optional field falls back to its default |
| SyncLaws.ActivityKeepsAbsentIff | internal/sync/exams.go:1159-1180 | A study activity keeps them exactly when its seconds are not negative and its status is an accepted one |
| SyncLaws.OverridesStayIff | internal/sync/service.go:4058-4066 | A schedule override once set is never cleared: an empty text keeps it |
| SyncFields.InsertStoresIff | internal/sync/service.go:1187-1258 | A first push that carries a whole row stores exactly that row, for all sixteen kinds, exactly when no word of a fixed list and no JSON text in it is blank |
| SyncFields.MergeStoresIff | internal/sync/service.go:1260-1303 | A push that carries a whole row over a stored one leaves exactly the pushed row, for all kinds, exactly when it agrees on what only an insert sets (a session's start and languages, an entry's text, an attachment's file), blanks nothing that cannot be blanked, and is not behind where the newest, the longest or a terminal state wins |
| SyncFields.InsertDefaults | internal/sync/service.go:1196-1216 | The default of every field of every kind in an insert that does not carry it |
| SyncFields.MergedRef | internal/sync/exams.go:1014-1043 | A merge clears a reference for the nil id, keeps it for an absent one and sets it otherwise, and touches no other reference, for every kind and column |
| SyncFields.InsertedRef | internal/sync/service.go:1217-1237 | An insert sets each reference column of each kind from the listed payload field, or from its id, or from its entry for a correction |
| SyncValues.PushableIff | internal/sync/exams.go:443-480 | A push that carries a whole row passes the checks before the version matrix exactly when its words are from the fixed lists and the references of its kind are there |
| SyncValues.RunConstrained | db/migrations/00001_baseline.sql:219-260 | In every state a run reaches every stored row holds only words of the fixed lists, which no table checks, and no two rows of a user, tombstones included, share a sequence number in a session, a bookmarked entry or a favorite session |
| SyncCascade.SessionDelete | internal/sync/service.go:1316-1491 | Deleting a session tombstones exactly its reachable live rows, for any order in which the database delivers them |
| SyncCascade.CourseDelete | internal/sync/service.go:2243-2300 | Deleting a course detaches its sessions, exams and activities and tombstones its schedules with their exceptions, nothing else |
| SyncCascade.ExamDelete | internal/sync/exams.go:1213-1242 | Deleting an exam tombstones its topics, its plans and the items of those plans, and detaches its activities, nothing else |
| SyncCascade.ScheduleDelete | internal/sync/service.go:3781-3813 | Deleting a schedule tombstones exactly its exceptions with it |
| SyncCascade.PlanDelete | internal/sync/exams.go:1245-1247 | Deleting a plan tombstones exactly its items with it |
| SyncCascade.PlanItemDelete | internal/sync/exams.go:1297-1299 | Deleting a plan item detaches exactly the activities that point to it |
| SyncCascade.DeleteExactRows | internal/sync/exams.go:1251-1348 | Deleting a live row tombstones exactly the live rows reachable from it over cascade references, clears exactly the detach references to it, moves each of those rows one version, and leaves every other row as it was |
| SyncCascade.DeleteExactLog | internal/sync/exams.go:1251-1348 | Every row such a delete touches gets exactly one change entry, with its new version, a delete entry exactly when the row was reachable |
| SyncRuns.DecideLegal | internal/sync/service.go:1017-1109 | Every operation only creates rows or moves the user's own live rows, each at most once |
| SyncRuns.ApplyItemsInv | internal/sync/service.go:994-1015 | A batch keeps the log/row invariant, and a committed one answers every item |
| SyncRuns.ApplyPushInv | internal/sync/service.go:994-1015 | A push request, committed or aborted, keeps the log/row invariant and whole histories |
| SyncRuns.RecentIsSuffix | internal/sync/cleanup.go:66-77 | On a log in time order the retention cleanup drops a prefix |
| SyncRuns.CleanedInv | internal/sync/cleanup.go:19-82 | The cleanup keeps the log/row invariant, drops a prefix of the log, and never leaves an entry without its row |
| SyncRuns.ExpiredHasNoHistory | internal/sync/cleanup.go:41-64 | A tombstone row that goes takes all its entries with it |
| SyncRuns.TombstoneGoesWithItsEntry | internal/sync/cleanup.go:41-77 | A tombstone row is removed exactly when its delete entry is |
| SyncRuns.PurgedInv | internal/store/users.go:150-171 | An account purge keeps the log/row invariant of everybody else |
| SyncRuns.RunInv | internal/sync/service.go:994-1049 | The log/row invariant holds after every run of pushes, cleanups and purges; without cleanups every row keeps its whole history |
| SyncReplay.CleanIff | internal/sync/cleanup.go:41-77 | A cleanup removes exactly the tombstones, change entries and ledger results older than the cutoff; what stays is as it was |
| SyncReplay.PurgeIff | internal/store/users.go:150-171 | A purge removes exactly the rows, change entries and ledger results of its user |
| SyncPull.PastAdvance | internal/sync/service.go:4406-4414 | Moving the cursor over the first entries leaves exactly the later ones |
| SyncPull.PullExact | internal/sync/service.go:4397-4468 | One page takes the first entries past the cursor, what remains is exactly what the next cursor sees, hasMore is true exactly when something remains, and the remainder shrinks |
| SyncPull.PageReports | internal/sync/service.go:4397-4468 | A page reports the entries past the cursor from the first on, as many as asked for between 1 and 500, each with its sequence number, row, operation and version, and with the row as it is now exactly for an upsert of a row the user has |
| SyncPull.PagingExact | internal/sync/service.go:4397-4468 | Pulls with any requested limits take the user's log suffix once, in order, without gaps |
| SyncPull.PagingReports | internal/sync/service.go:4397-4468 | The pages put together report the user's log past the first cursor entry by entry, up to what is still to come |
| SyncPull.PagingEnds | internal/sync/service.go:4397-4468 | As many pulls as there are entries always reach the end |
| SyncConvergence.FoldUpdates | internal/sync/service.go:4441-4461 | Folding any of the user's entries brings exactly their rows up to date, since each change carries the current record |
| SyncConvergence.AbsorbOk | internal/sync/service.go:4397-4468 | A page keeps every row either known as it is or still announced; the last page leaves all of them known |
| SyncConvergence.PushGrows | internal/sync/service.go:994-1015 | No push changes a row without a newer entry of its owner |
| SyncConvergence.CleanOk | internal/sync/cleanup.go:66-77 | A cleanup behind the client's cursor loses it nothing |
| SyncConvergence.Converges | internal/sync/service.go:4397-4468 | Pull convergence: with pages of any sizes and any pushes, cleanups behind the cursor and purges of other accounts between them, the client agrees with the server on every row of the user as soon as a page says there is no more |
| SyncConvergence.FreshBeforeCleanup | internal/sync/service.go:4397-4468 | Before any cleanup a client starting at cursor 0 meets the conditions of convergence |
| SyncConvergence.QuietConvergesIff | internal/sync/cleanup.go:15-18 | Any client, from any cursor, that pages to the end of a quiet server agrees with it exactly when, before, every row it did not know as it is was announced past its cursor: a device offline while the cleanup dropped such an entry never agrees |
| SyncConvergence.FreshConvergesIff | internal/sync/cleanup.go:66-77 | A client that pages from cursor 0 to the end of a quiet server agrees with it exactly when every row of the user still has a change entry |
| SyncConvergence.AnnouncedAfterCleanup | internal/sync/cleanup.go:66-77 | The cleanup leaves a surviving row announced exactly when the row changed at or after the cutoff |
| SyncConvergence.CleanupHidesLiveRow | internal/sync/cleanup.go:66-77 | A live course that no new client ever sees: inserted at time 0, its entry dropped by a later cleanup |
| SyncOnce.ApplyOneLedger | internal/sync/service.go:953-962 | An applied operation is in the ledger with its result, and no stored result changes |
| SyncOnce.ItemsOnce | internal/sync/service.go:1017-1031 | A batch and the batch without its repeated operation ids end in the same state |
| SyncOnce.ExactlyOnceState | internal/sync/service.go:1017-1031 | Exactly-once effect: rows, log and ledger after any committed batches are those of the batches without the repeats |
| SyncOnce.ExactlyOnceResults | internal/sync/service.go:1017-1031 | Every repeat of an operation id gets its first occurrence's result, in the same batch or another |
| SyncOnce.ReplayedBatch | internal/sync/service.go:1017-1031 | A request whose operations are all known changes nothing at all |
| SyncReplay.AnsweredOnceIff | internal/sync/service.go:1017-1031 | Over whole runs an operation applied at time now is replayed, with its first answer and no change at all, exactly while no cleanup with a cutoff after now and no purge of its user has come between |
| SyncReplay.ExactlyOnceOverRuns | internal/sync/service.go:994-1031 | Repeats, cleanups and other users' purges in between, any later committed request that repeats an operation gets its first answer and leaves what it would leave without the repeat, while the receipt is remembered |
| SyncVersions.PushAdvances | internal/sync/service.go:1260-1303 | A push only moves live rows to later versions; tombstones stay as they are |
| SyncVersions.TombstoneFinal | internal/sync/service.go:1260-1266 | Delete wins: until purge or cleanup removes it, a tombstone never changes again |
| SyncVersions.BaseAcceptedOnce | internal/sync/service.go:1267-1303 | Within one lifetime of a row two accepted upserts of it never name the same base version, whatever runs between |
| SyncAnswers.MatrixIff | internal/sync/service.go:1238-1303 | The version matrix: over a stored row an upsert is rejected exactly when its base is ahead of the live row, and conflicts exactly when the row is deleted, the base is behind or the Russian text differs; a conflict tells the row's version, time, content and deleted flag, and only an accepted upsert writes |
| SyncAnswers.InsertIff | internal/sync/service.go:1187-1243 | An upsert of a row the user does not have is rejected exactly when a field only an insert needs is lacking, and is a database error exactly when its id or its unique slot is taken |
| SyncAnswers.RejectedIff | internal/sync/service.go:1033-1049 | The permanent rejections of all operations, exactly |
| SyncAnswers.MalformedRejected | internal/sync/exams.go:443-480 | An upsert with a missing required field, an unreadable date, JSON text or time zone is rejected and writes nothing, whatever is stored |
| SyncAnswers.FailedIff | internal/sync/service.go:994-1015 | The database errors of all operations, exactly |
| SyncAnswers.UpsertExact | internal/sync/service.go:1268-1303 | An accepted upsert leaves its row live at the next version with the merged or inserted content, appends exactly its change entry and touches no other row |
| SyncAnswers.AcceptedTellsRow | internal/sync/service.go:964-969 | Every accepted operation of every kind answers with the version and time its row has afterwards, live after an upsert, deleted after a delete |
| SyncAnswers.DeleteAnswers | internal/sync/service.go:1119-1168 | A delete is never rejected and never conflicts, and deleting a deleted row again writes nothing |
| SyncAnswers.StaleAlwaysConflicts | internal/sync/service.go:1252-1258 | Once an upsert is accepted, every later upsert of the row below the answered version conflicts and is told the row as it then is, whatever runs between |
| SyncVersions.AppliedIsSpent | internal/sync/service.go:1187-1303 | An operation that was accepted or conflicted has nothing left to write, except exactly an insert that named a base of 1 or more |
| SyncVersions.ResubmitIff | internal/sync/cleanup.go:66-77 | Replay without the ledger, exactly: after any continuation that keeps the row, resubmitting an accepted or conflicted operation under a fresh id writes exactly when it was an insert and the row has meanwhile reached the base it named, live, mergeable and with its parent live |
| SyncVersions.ResubmitHarmless | internal/sync/cleanup.go:66-77 | So any operation but an insert that named a base of 1 or more changes no row and no log entry, whatever ran between |
| SyncVersions.ResubmitAtOnce | internal/sync/service.go:1187-1258 | Resubmitted at once, with nothing run between, that is exactly an insert that named base 1 (the base of an insert is compared with nothing) |
| SyncPhantom.PhantomDeleteIff | internal/sync/service.go:2890-2917 | A delete of a never-seen row is recorded exactly when its table accepts the stub row, the id is free and the stub's slot is free; otherwise the request changes nothing |
| SyncPhantom.PhantomRow | internal/sync/service.go:1119-1141 | The recorded tombstone holds blank texts, a finished session, a failed review, and the client's time where a time is due |
| SyncPhantom.FirstDeleteIff | db/migrations/00012_exams_study_plans.sql:60-193 | On an empty server a delete of a never-seen row is recorded for eight kinds and for none of the other eight, whose tables have NOT NULL columns the stub leaves out |
| SyncRefint.DeleteAttached | internal/sync/service.go:1316-1491 | A delete leaves every surviving entry, note, review, attachment and correction with its live session |
| SyncRefint.NewSession | internal/sync/service.go:1812-1846 | A new row of these kinds, a correction by way of its entry included, starts with a live session of its user |
| SyncRefint.RunAttached | internal/sync/service.go:1600-1611 | In every state a run reaches, through pushes, cleanups and purges, every live entry, note, study review, attachment and correction belongs to a live session of the same user |
| SyncIsolation.ForeignOnlyAborts | internal/sync/service.go:1017-1109 | An id that another user holds is never written, accepted or shown: the operation is rejected or the batch aborts |
| SyncIsolation.SameUnlessForeign | internal/sync/exams.go:1251-1286 | What an operation decides depends only on the user's own rows, or an id of someone else made it abort |
| SyncIsolation.PushKeepsOthers | internal/sync/service.go:994-1015 | A push leaves the rows, log entries and ledger of every other user as they were |
| SyncIsolation.ItemsSame | internal/sync/service.go:994-1049 | Two states that look the same to a user give the same results and look the same afterwards, up to sequence numbers; only an id someone else holds makes one batch abort and not the other |
| SyncIsolation.RunIsolated | internal/sync/service.go:994-1049 | Taking every other user's requests out of a run changes nothing the user can see, as long as nobody pushes an id someone else holds |
| SyncFiles.HooksExact | internal/sync/service.go:2934-2944 | A committed batch removes the files of exactly those attachments that an explicit delete in it moved from live to tombstoned |
| SyncFiles.HooksDistinct | internal/sync/service.go:26-57 | A batch removes each file directory at most once |
| SyncFiles.ReapedOnce | internal/sync/service.go:2925-2944 | A file directory removed by one request is not removed again by a later one while the tombstone stays |
| SyncFiles.AbortChangesNothing | internal/store/store.go:43-59 | An aborted batch leaves rows, log, ledger and files as before; only sequence numbers are spent |
| SyncFiles.ReplayReapsNothing | internal/sync/service.go:1017-1031 | A ledger replay removes no file |
| SyncFiles.LiveFilesStay | internal/sync/cleanup.go:84-133 | No push and no cleanup removes the file of an attachment that is live afterwards |
| SyncFiles.FileGoesIff | internal/sync/cleanup.go:84-133 | A file goes exactly by a committed explicit delete that moves its attachment from live to deleted, or by a cleanup whose cutoff has passed its tombstone |
| SyncOrderFree.BodyIsMerges | internal/sync/service.go:1890-1921 | Over a run that leaves the row live its body is its first body with the accepted edits merged in commit order, and nothing else |
| SyncOrderFree.NewestTextsWin | internal/sync/service.go:1883-1931 | The surviving correction texts are exactly those of the newest edit, the last pushed among equally new ones |
| SyncOrderFree.CorrectionOrderFree | internal/sync/service.go:1883-1931 | Order independence, exactly, for every list of edits: all its orders leave the same texts and modified_at if and only if all the newest edits, not older than the stored time, bring the same texts |
| SyncOrderFree.TiedCorrectionsDiffer | internal/sync/service.go:1890-1893 | For two equally new edits the order shows unless the texts are equal |
| SyncOrderFree.CorrectionOverRuns | internal/sync/service.go:1883-1931 | Two runs whose accepted pushes bring the same texts and times, in any order and whenever they arrived, end with the same texts and time if all the newest were the same |
| SyncOrderFree.CorrectionRunsIff | internal/sync/service.go:1883-1931 | Exactly so over runs, for every run that leaves the correction live: all runs from the same state whose accepted pushes bring the same texts and times, in any order, end alike if and only if all the newest of them are the same |
| SyncOrderFree.ActivityMerges | internal/sync/exams.go:1159-1180 | Merged activity edits leave the longest duration, the latest end, and a terminal status exactly when one was terminal |
| SyncOrderFree.ActivityOverRun | internal/sync/exams.go:1159-1180 | Over whole runs duration and ended_at are the maxima over all accepted pushes, and a terminal status never returns to in_progress |
| SyncStatements.NextStatement | internal/sync/exams.go:1251-1348 | A cascade or detach statement run on the rows as earlier statements left them writes what it would have written at the start |
| SyncStatements.HalfwayStep | internal/sync/service.go:3843-3851 | The schedule loop, whose rows are all tombstoned before the first is logged, still comes to the same rows and log |
| SyncEngine.Service.LogChange | internal/sync/service.go:946-951 | Appends one entry with the next sequence number |
| SyncEngine.Service.StoreLedger | internal/sync/service.go:953-962 | Stores the result under the user's operation id and changes nothing else |
| SyncEngine.Service.TombstoneChildren | internal/sync/exams.go:1251-1286 | The statement and its logging loop do exactly the decided writes, in any delivery order |
| SyncEngine.Service.DetachChildren | internal/sync/exams.go:1314-1348 | The detach statement and its logging loop do exactly the decided writes, in any delivery order |
| SyncEngine.Service.DeleteSession | internal/sync/service.go:1151-1182 | Session row, then table after table: exactly the writes of a session delete |
| SyncEngine.Service.DeleteCourse | internal/sync/service.go:2243-2300 | Course row, detaches, schedules with exceptions: exactly the writes of a course delete |
| SyncEngine.Service.CascadeDeleteSchedules | internal/sync/service.go:3819-3854 | The nested loops over schedules and exceptions do exactly those writes |
| SyncEngine.Service.DeleteExam | internal/sync/exams.go:426-441 | Topics, items plan by plan, plans, activities, exam: exactly the writes of an exam delete |
| SyncEngine.Service.ApplyDelete | internal/sync/service.go:1119-1185 | A delete handler gives the decided result and writes, or a database error and no change, and registers a file hook exactly for a live attachment |
| SyncEngine.Service.ApplyUpsert | internal/sync/service.go:1187-1303 | An upsert handler gives the decided result and writes, or a database error and no change |
| SyncEngine.Service.ApplyOne | internal/sync/service.go:1017-1109 | One operation: replay, structural reject, delete or upsert, with its ledger entry and hook |
| SyncEngine.Service.ApplyPush | internal/sync/service.go:994-1015 | One request: all of the batch or none of it, hooks run only after the commit, invariant kept |
| SyncEngine.Service.RunHooks | internal/sync/service.go:37-49 | After the commit exactly the collected files go, and the hook list is empty |
| SyncEngine.Service.Pull | internal/sync/service.go:4397-4468 | The page is the specified one, and reading it changes nothing |
| SyncEngine.Service.RunTombstoneCleanup | internal/sync/cleanup.go:19-82 | The table-by-table cleanup removes exactly the expired rows, entries, ledger results and files, and counts them |
| SyncEngine.Service.PurgeUserSyncData | internal/store/users.go:150-171 | The table-by-table purge removes exactly the user's rows, entries and ledger results |
| Tokens.StepInv | internal/auth/service.go:674-736 | Every token operation keeps the invariant of RunInv |
| Tokens.RunInv | internal/auth/service.go:674-736 | In every run the chains are disjoint, each on one device of one user, a revoked device holds no unrevoked token, each chain has at most one token neither revoked nor replaced, and no token changes its chain |
| Tokens.ChainsAcyclic | internal/store/devices_tokens.go:122-126 | replaced_by links never lead back, and stay on one device and user |
| Tokens.ChainsDisjoint | internal/store/devices_tokens.go:122-126 | Two chains that meet are one chain from there backwards |
| Tokens.RefreshedOnce | internal/auth/service.go:674-736 | Each token yields at most one successful refresh, whatever happens between two presentations |
| Tokens.RefreshIff | internal/auth/service.go:674-736 | A token issued by a sign-in or a rotation at time t refreshes at a later time exactly when nothing in between killed or exchanged it, its account may refresh and its ttl has not run out since t, prunings included |
| Tokens.KilledNeverRefresh | internal/store/devices_tokens.go:115-172 | Tokens killed by a bulk or device revocation, a logout or a detected reuse never refresh again in any continuation, prunings included |
| Tokens.OthersSurvive | internal/store/devices_tokens.go:158-172 | A revocation leaves every other live token as it was |
| Tokens.ReuseLocksDevice | internal/auth/service.go:684-690 | Presenting a stored replaced or revoked token leaves no live token on its device until a new sign-in there, and is answered as reuse |
| Tokens.RevokedDeviceLocked | internal/auth/service.go:1036-1056 | Nothing on a revoked device refreshes before the next sign-in there |
| Tokens.StepAnswers | internal/auth/service.go:674-736 | A refresh issues a token exactly for a stored, unrevoked, unreplaced and unexpired one of a usable account, reports reuse exactly for a stored revoked or replaced one; a sign-in, logout or device revocation succeeds exactly as listed, and a refusal changes nothing |
| Tokens.TokenAfter | internal/store/devices_tokens.go:112-172 | Every step but a pruning leaves each stored token killed at that step's time, linked to its successor, or as it was, exactly as listed |
| Tokens.IssuedToken | internal/auth/service.go:615-656 | A new token is fresh, unrevoked, on the device that signed in or presented the old one, and expires its ttl after the step |
| Tokens.DeviceAfter | internal/store/devices_tokens.go:130-154 | A device is revoked exactly by its user or by a logout that asks for it, and un-revoked exactly by a sign-in on it |
| Tokens.PruneIff | internal/sync/cleanup.go:219-222 | A pruning removes exactly the tokens expired or revoked more than 604800 seconds before |
| TokenStore.Store.IssueTokensForDevice | internal/auth/service.go:615-656 | A sign-in un-revokes or creates the device and starts a chain on it; an account that is not active gets nothing |
| TokenStore.Store.Refresh | internal/auth/service.go:674-736 | Rotation, refusal, or the committed revocation of the whole device before reuse is reported |
| TokenStore.Store.Logout | internal/store/devices_tokens.go:130-154 | Revokes the presented token, with its whole device if asked; an unknown or revoked one changes nothing |
| TokenStore.Store.RevokeAllUserRefreshTokens | internal/store/devices_tokens.go:158-163 | Revokes exactly the user's unrevoked tokens |
| TokenStore.Store.RevokeAllUserRefreshTokensExceptDevice | internal/store/devices_tokens.go:167-172 | Revokes exactly the user's unrevoked tokens on other devices |
| TokenStore.Store.RevokeDevice | internal/auth/service.go:1036-1056 | Revokes an unrevoked device of the user with its tokens, or changes nothing |
| TokenStore.Store.PruneTokens | internal/sync/cleanup.go:219-222 | Deletes exactly the tokens expired or revoked for more than a week |
| Challenges.RunInv | internal/store/identity.go:52-57 | In every run at most one unconsumed code exists per user and purpose, and no count passes 5 |
| Challenges.AcceptedOnce | internal/auth/service.go:456-477 | Each code is accepted at most once, whatever happens between |
| Challenges.SupersededNeverAccepted | internal/auth/service.go:285-300 | A newer code makes the pending one unacceptable for good |
| Challenges.FiveGuesses | internal/auth/service.go:468-474 | In every run at most five wrong guesses are compared with one code, since the count survives the failed transaction |
| Challenges.CodeWorksIff | internal/auth/service.go:1237-1263 | A code nothing else consumed is accepted exactly when typed correctly, in time, before the fifth wrong guess, for a qualifying account whose transaction completes |
| Challenges.SixthGuessIff | internal/auth/service.go:465-467 | An eligible guess in time is answered too many attempts exactly after five wrong guesses at the code, and that answer changes nothing |
| Challenges.VerifyAnswers | internal/auth/service.go:442-490 | Every answer of a verification, told from the stored codes |
| Challenges.ChallengeAfter | internal/store/identity.go:52-110 | Every step leaves each stored code consumed at that step's time, its count one higher, removed more than 86400 seconds after it was consumed or expired, or as it was, exactly as listed |
| Challenges.NewChallenge | internal/auth/service.go:285-300 | The only code a step adds is the created one, unconsumed, without wrong guesses, expiring its ttl after the step |
| Challenges.UndeliveredNeverAccepted | internal/auth/service.go:305-321 | A code whose mail failed is never accepted afterwards |
| Challenges.Store.CreateTargetedChallenge | internal/auth/service.go:285-300 | Consumes the pending codes of the purpose and stores a new one |
| Challenges.Store.LatestLiveChallenge | internal/store/identity.go:69-81 | Finds the newest unconsumed code, or none |
| Challenges.Store.VerifyCode | internal/auth/service.go:456-477 | One verification: refusals change nothing but a surviving count, a failed remainder rolls the consumption back |
| Challenges.Store.ConsumeUndelivered | internal/auth/service.go:305-321 | A code that could not be mailed is consumed |
| Challenges.Store.PruneChallenges | internal/sync/cleanup.go:211-214 | Deletes exactly the codes consumed or expired for more than a day |
| RateLimiting.EvictionInvisible | internal/httpapi/middleware/middleware.go:40-51 | For every request sequence under a monotone clock the evicting limiter answers exactly as one that never evicts |
| RateLimiting.SlidingBound | internal/httpapi/middleware/middleware.go:35-58 | Any interval one window long, ends included, admits at most 2*max(1, max) requests of a key |
| RateLimiting.BoundReached | internal/httpapi/middleware/middleware.go:35-58 | The bound is reached, for every limit, those below one included: a full burst as a window opens and another as it closes |
| RateLimiting.TableBounded | internal/httpapi/middleware/middleware.go:40-51 | A call that opens a window leaves at most 10,000 windows in the table, or only running ones; any other call leaves the same keys |
| RateLimiting.RetryAfterExact | internal/httpapi/middleware/middleware.go:53-55 | After a refusal the key is refused until exactly the answered time has passed and admitted then, whatever requests of other keys come between |
| RateLimiting.KeysApart | internal/httpapi/middleware/middleware.go:39 | Bucket and key determine the map key one-to-one for buckets without a bar |
| RateLimiting.RateLimiter.Allow | internal/httpapi/middleware/middleware.go:35-58 | One call decides and counts as specified, eviction included |
| RateLimiting.RateLimiter.Evict | internal/httpapi/middleware/middleware.go:43-51 | The deletion loop removes exactly the finished windows |
| Base64Url.WrapAppend | internal/token/token.go:137 | Shifting a byte into the accumulator wrapped at 64 bits is wrapping the exact number |
| Base64Url.WrapBits | internal/token/token.go:139-142 | The six bits taken from the wrapped accumulator are those of the exact number |
| Base64Url.Encode | internal/token/token.go:131-145 | For byte strings of any length the output is exactly the letters of the whole six-bit groups of the exact bit string |
| Base64Url.SextetsAreRfc | internal/token/token.go:131-145 | For every length the groups are those of the unpadded encoding of section 5 of RFC 4648, without a last partly filled group |
| Base64Url.EncodingRoundTrip | internal/token/token.go:131-145 | When the length is divisible by 3 the output is that encoding and a decoder gives the bytes back |
| Base64Url.InjectiveIff | internal/token/token.go:131-145 | Different byte strings of one length get different encodings exactly when the length is divisible by 3 |
| Base64Url.TextRoundTripIff | internal/token/token.go:131-145 | The text decodes to the bytes exactly when the length is divisible by 3 (refresh tokens have 48) |

## Left out

- Two push transactions interleaving: rows are read without a lock under read committed, so batches are serial here and a pull reads one state.
- Twelve kinds whose handlers repeat the generic pattern (terms, cards, tasks, materials with pages and annotations, assistant threads and messages, interpreter conversations and turns, errand cases and items), with their cascade and detach edges.
- One handler method per kind: `SyncEngine.Service` has one delete and one upsert method, with the field rules of each kind as functions of `SyncMerge`.
- Column types: 32-bit version overflow, text longer than its column, a ledger row that no longer parses, JSON normalisation by the database.
- SyncEngine.Service.RunTombstoneCleanup: the statements are not one transaction in the program; an interruption between two tables is not modelled.
- SyncRuns.CleanedInv: the program's clock and the database's are one clock here, and the cutoff is any time.
- SyncFiles.HooksExact: materials share the file directory scheme and are left out, as are failures of the file removal itself and uploads.
- SyncRefint.RunAttached: bookmarks, favorites, plan items, activities and exceptions may outlive their parents in the code, so nothing is claimed for them.
- Last-writer-wins of plan items: a stale push writes its older timestamp back, so no law over runs holds; only the merge itself is modelled.
- Scan is a function of the set of rows within one transaction; two statements over the same set in one transaction deliver them in the same order.
- An attachment's analysis column that is NULL reads as the empty text.
- Tokens.RunInv: secrets are fresh and hashes do not collide; the account's status is an input of each step; a client without a device id gets a fresh one.
- Challenges.RunInv: account checks and the rest of the verifying transaction are inputs; two codes created at the same moment by concurrent transactions are left out.
- RateLimiting.EvictionInvisible: calls are serial, as the mutex makes them, and the clock is an input.
- HTTP, mail, templates, admin pages, configuration, metrics, password hashing, JWT, Apple sign-in, TOTP, the SQLite importer and the model downloader.
