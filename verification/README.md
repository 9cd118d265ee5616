# Proofs about the relay, formatting, limiting and clean-up code

This project models the hardest algorithms and state machines of the repository in Dafny and proves what every run of them
keeps. `dafny verify dfyconfig.toml` checks all of it. Nothing here runs the original programs.

## What is modelled

**The browser relay's service worker** (`Relay*.dfy`). `RelaySessions` and `RelayConnection` cut every handler of
`background.js` at its `await`s. A piece of code between two awaits is one event; a suspended call is a value that keeps what
the call captured in its local variables, and it may resume at any later time, after any other events. A run is a list of
events, so "every run" means every interleaving the JavaScript event loop could produce, with worker restarts anywhere between.
`RelayWorker.Worker` and `RelayClient.Client` are the same handlers as methods that update fields in place; each is proved
to do what its step says. Three properties one would expect are false of the code, and their exact conditions are proved
instead: a delayed re-attach or probe can delete the index entry of a session that has meanwhile moved to another tab
(`CompleteExactly`, `ASessionCanBeLost`), a tab that is replaced while connecting can stay "connecting" for ever
(`PendingExactly`, `ATabCanBeStranded`), and a session id that the relay was told of can be issued again after a restart,
even when every write succeeds (`RelayReissue`: `AnnouncedAgainExactly`, `AnIdComesBackAfterReannouncing`). `RelayEffects` tells
what any event does to one tab and one session, `RelayJourneys` what whole operations come to, and `RelayRecovery` who tries to
connect again after a failure, and when nobody does.

**Pasted tables in chat messages** (`CsvFields`, `MarkdownTable`, `TabularFormat`, `TabularLayout`, `TabularGuarantees`,
`TabularSecondPass`):
splitting, finding the runs, printing, and reading the printed table back. The rewriting is not idempotent
(`ASecondPassConvertsMore`, `SampleLines`); `TwiceExactly` says for which messages it is.

**Marker blocks in documents** (`MarkerBlocks`, `MarkerSync`, `MarkerOrder`): replacing the lines between two markers as a lens
over raw text, and several such blocks in one document.

**The rate limiter** (`RateLimit`, `RateLimitHistory`): the pruned, swept and capped map against the full call history.

**Conversation deletion and workspace reset** (`Database`, `Store`): SQL statements over tables with foreign keys. The
source's comments say that a reset "cannot cross tenants" and returns the rows deleted per bucket. Its code selects child
rows by conversation and counts usage and exec-log rows only in the last stage, so neither holds of every database;
`CrossesTenantsExactly` and `UsageAndExecCounts` say exactly when they do, and `AResetCanCrossTenants` and `ACountCanBeShort`
give databases for which they do not.

**Removing reasoning blocks** (`ReasoningTags`, `ReasoningMatches`, `ReasoningPieces`, `StripReasoning`): three replacements on raw
text, where
removing one tag can assemble another. `ATagIsLeft` and `ATextIsLost` give such texts; `StripIsScanExactly`,
`StripTwiceExactly` and `ScanIsFinalExactly` say exactly when it matters.

**Smaller loops**: surrogate-safe slicing (`Utf16`), phone numbers and WhatsApp ids (`PhoneNumbers`), the composite-action
scanner (`CompositeScan`), paged batches with resume (`IssueBatches`), usage aggregation (`CronUsage`),
and recovery codes (`RecoveryCodes`). `JsMaps` (insertion-ordered maps), `Text` and
`Decimals` are shared.

## Assumptions

- A piece of JavaScript between two awaits, with the microtasks it triggers at once, is atomic. Chrome and the relay may answer
  anything, at any time. Writes to session storage take effect in the order they are issued, or fail.
- A worker restart loses all memory and no storage. It can happen between any two events.
- `reannounceAttachedTabs` may probe any connected tab at any time, which covers its loop over the live map. The keepalive and
  startup events stand for the case that some tab is known. The relay connection is followed within one worker life, since
  sockets and timers end with the worker.
- The clock of the limiter is three readings per call; the theorems about histories ask that it does not go back.
- The test `consistent >= 0.6` is the exact comparison 5 k >= 3 n. The jitter is a real number in [0, 1000).
- Random numbers, the hash, the time-based check, page contents, which classifications fail, the linked-id files and
  whether an action file is a composite one are parameters.

## Model

| member | source | states |
|---|---|---|
| `RelaySessionSafety.EveryRunIsSafe` | openclaw_ref/assets/chrome-extension/background.js:389-717 | in every interleaving of handler pieces and worker restarts, starting from the first start: each connected record carries the name and order of a session issued before the next number and a non-empty target, no two connected tabs share a session, the index never leads from a live session to a wrong tab, it holds no session that is not issued yet, and what is in storage can be restored to such tables |
| `RelaySessionSafety.StepKeeps` | openclaw_ref/assets/chrome-extension/background.js:389-717 | one piece of code, whatever it interrupts, keeps all of that |
| `RelaySessionOrder.CompleteExactly` | openclaw_ref/assets/chrome-extension/background.js:255-256 | a step leaves every connected tab findable by its session if and only if it is not a resumed re-attach or probe that deletes the session it captured after that session moved to another tab |
| `RelaySessionOrder.EveryTabIsFound` | openclaw_ref/assets/chrome-extension/background.js:651-668 | in every run in which Chrome never swaps the id of a tab under a suspended call that holds its session, each connected tab's session leads back to exactly that tab, and no suspended call holds a session that has moved |
| `RelaySessionOrder.ASessionCanBeLost` | openclaw_ref/assets/chrome-extension/background.js:655-659 | without that condition it fails: a concrete six-step run ends with a connected tab whose session is in no index |
| `RelaySessionOrder.OneClickPerTab` | openclaw_ref/assets/chrome-extension/background.js:491-528 | in every interleaving a tab is locked exactly while one click on it is suspended, so at most one is |
| `RelaySessionOrder.PendingExactly` | openclaw_ref/assets/chrome-extension/background.js:495-528 | a step keeps every "connecting" tab backed by a click that is still to finish, if and only if it does not move a connecting record to a tab id nobody has clicked |
| `RelaySessionOrder.NoTabLeftConnecting` | openclaw_ref/assets/chrome-extension/background.js:495-528 | in every run without such a move no tab is "connecting" unless a click on it is in progress |
| `RelaySessionOrder.ATabCanBeStranded` | openclaw_ref/assets/chrome-extension/background.js:702-716 | a click followed by a tab replacement leaves a tab connecting with no click to resolve it |
| `RelaySessionOrder.OrphansExactly` | openclaw_ref/assets/chrome-extension/background.js:253-263 | a step leaves a child session without a record for its tab if and only if it drops just the record of a tab that has children: a failed click, a navigation re-attach or a failed probe |
| `RelaySessionSafety.RehydrateExact` | openclaw_ref/assets/chrome-extension/background.js:86-121 | what the two phases of rehydrateState build: the stored tabs in their order without those that failed validation, the index of exactly the remaining ones, and the stored session counter |
| `RelayRestart.RestartRestores` | openclaw_ref/assets/chrome-extension/background.js:67-121 | persist, lose all memory, rehydrate: exactly the connected tabs that still answer are back, in order, with the same records, an index that is exactly theirs, and the same next session number |
| `RelayRestart.NoIdIssuedTwice` | openclaw_ref/assets/chrome-extension/background.js:401-406 | whatever a tab holds later under a session id that was live at the start, in particular right after a restart, is that very record: no id is issued a second time |
| `RelayRestart.RunIssuesNew` | openclaw_ref/assets/chrome-extension/background.js:401-402 | within one worker life every connected record is either one that was there at the start or carries a number issued since |
| `RelayReissue.CounterFallsExactly` | openclaw_ref/assets/chrome-extension/background.js:86-91 | the session counter goes back if and only if a restart reads no snapshot, or one behind the counter |
| `RelayReissue.SavedIsSpent` | openclaw_ref/assets/chrome-extension/background.js:86-91 | a number below the stored counter is never issued again, whatever happens, as long as restarts can read storage |
| `RelayReissue.ReissuableExactly` | openclaw_ref/assets/chrome-extension/background.js:67-91 | a number that was issued can be issued again, with every write succeeding, if and only if it is not below the stored counter |
| `RelayReissue.AnnouncedAtAttachIsSpent` | openclaw_ref/assets/chrome-extension/background.js:401-427 | in every run in which all writes succeed and storage stays readable, the id of a session announced when its tab was attached is never issued again, across any number of restarts |
| `RelayReissue.AnnouncedAgainExactly` | openclaw_ref/assets/chrome-extension/background.js:244-295 | in every run with readable storage, an id that any event announces to the relay, at attach or after a reconnect, can be issued a second time if and only if storage does not cover it after that event |
| `RelayReissue.AnIdComesBackAfterALostWrite` | openclaw_ref/assets/chrome-extension/background.js:75-81 | a run in which a failed write lets two tabs be announced under one id |
| `RelayReissue.AnIdComesBackAfterReannouncing` | openclaw_ref/assets/chrome-extension/background.js:245-294 | a run in which all writes succeed and two tabs are still announced under one id: the worker stops while the reannounce loop waits for its second tab |
| `RelayReissue.RestartAfterPersist` | openclaw_ref/assets/chrome-extension/background.js:67-121 | after every event that runs persistState successfully, a restart gives back exactly the connected tabs that still answer and the same next number |
| `RelayFrame.OthersUntouched` | openclaw_ref/assets/chrome-extension/background.js:389-717 | no event changes the record, the lock or a child session of a tab it is not about, except the child session it names itself |
| `RelayFrame.OthersStayIndexed` | openclaw_ref/assets/chrome-extension/background.js:389-717 | no event takes another tab's session out of the index or points it elsewhere, except a delayed deletion of a session that moved to that tab |
| `RelayFrame.AttachIsNew` | openclaw_ref/assets/chrome-extension/background.js:401-406 | an attached tab is found under a session that no tab had and the index did not hold |
| `RelayFrame.DetachLeavesNothing` | openclaw_ref/assets/chrome-extension/background.js:432-469 | a detached tab has no record and no child session, and the session it had is in no index |
| `RelayFrame.ReplaceMovesAll` | openclaw_ref/assets/chrome-extension/background.js:702-714 | a replaced tab's record, session and children all lead to the new id, and nothing leads to the old one |
| `RelayRouting.EveryLiveSessionIsReached` | openclaw_ref/assets/chrome-extension/background.js:536-551 | in every run in which Chrome never moves a tab under a suspended call, a command for any connected tab's session goes to exactly that tab, whatever target id it also names |
| `RelayRouting.EveryChildSessionIsReached` | openclaw_ref/assets/chrome-extension/background.js:536-604 | in every such run a command for a child session of a connected tab goes to that tab under the child's id, whatever target id it also names |
| `RelayRouting.ChildNamedExactly` | openclaw_ref/assets/chrome-extension/background.js:597-602 | wherever a command goes, it is addressed to a session within the tab if and only if the tab is connected under another session than the one named |
| `RelayRouting.UnknownSessionFallsBack` | openclaw_ref/assets/chrome-extension/background.js:536-604 | a command for an unknown session is not refused while any tab is connected: it goes to the first tab in table order that shows the named target or, if none does, to the first connected tab, under the unknown session id |
| `RelayWorker.Worker.constructor` | openclaw_ref/assets/chrome-extension/background.js:17-31 | a fresh worker is the first state of every run |
| `RelayWorker.Worker.PersistState` | openclaw_ref/assets/chrome-extension/background.js:67-82 | storage holds exactly the connected tabs in table order and the counter; a failed write changes nothing |
| `RelayWorker.Worker.RehydrateState` | openclaw_ref/assets/chrome-extension/background.js:86-121 | the restart step: all memory is rebuilt from storage |
| `RelayWorker.Worker.EnterAll` | openclaw_ref/assets/chrome-extension/background.js:94-103 | phase 1, entry by entry |
| `RelayWorker.Worker.ProbeAll` | openclaw_ref/assets/chrome-extension/background.js:105-117 | phase 2, entry by entry |
| `RelayWorker.Worker.ReleaseChildren` | openclaw_ref/assets/chrome-extension/background.js:436-451 | the loop over the child table drops the tab's children and no others |
| `RelayWorker.Worker.HandOverChildren` | openclaw_ref/assets/chrome-extension/background.js:710-714 | the loop moves the old tab's children and leaves all others where they are |
| `RelayWorker.Worker.DetachTab` | openclaw_ref/assets/chrome-extension/background.js:432-469 | the synchronous part of detachTab: record, session and children of the tab are gone, nothing else changes |
| `RelayWorker.Worker.OnRemoved` | openclaw_ref/assets/chrome-extension/background.js:678-700 | a closed tab takes its record, session and children with it, and the result is saved |
| `RelayWorker.Worker.OnReplaced` | openclaw_ref/assets/chrome-extension/background.js:702-717 | the record, its index entry and its children move to the new id, and the result is saved |
| `RelayWorker.Worker.FindTab` | openclaw_ref/assets/chrome-extension/background.js:382-386 | the first matching tab in table order |
| `RelayWorker.Worker.RouteCommand` | openclaw_ref/assets/chrome-extension/background.js:531-605 | the destination of a forwarded command |
| `RelayWorker.Worker.Dispatch` | openclaw_ref/assets/chrome-extension/background.js:678-800 | every event of the event loop does what its step says and keeps the invariant of every run |
| `RelayEffects.RecordsExactly` | openclaw_ref/assets/chrome-extension/background.js:389-717 | a tab's record after any event, told by the tab: a new one when a suspended attach succeeds and stays, a waiting one when a click finds it unconnected and unlocked, the one of the tab whose id it takes over, none when the tab or just its record goes, and otherwise the one it had |
| `RelayEffects.IndexExactly` | openclaw_ref/assets/chrome-extension/background.js:389-717 | where the index leads for any session after any event: to the tab just attached under it, to the new id of its tab, nowhere when its tab is taken away or a suspended call deletes the session it captured, and otherwise where it led |
| `RelayEffects.ChildrenExactly` | openclaw_ref/assets/chrome-extension/background.js:436-619 | a session is a tab's child after an event if and only if the tab just adopted it, inherited it with the id of another tab, or had it and did not lose it: by its detaching, another tab reporting it, the tab going or changing its id, or a restart |
| `RelayEffects.ChildTable` | openclaw_ref/assets/chrome-extension/background.js:607-619 | in a connected tab, an attached child session is entered for that tab and a detached one is taken out; the rest of the table stays |
| `RelayEffects.LastAttachedIsReached` | openclaw_ref/assets/chrome-extension/background.js:374-619 | a run that ends with a child session attached in a connected tab routes that session to that tab, under the child's own id |
| `RelayEffects.AttachedChildIsReached` | openclaw_ref/assets/chrome-extension/background.js:374-619 | and so does every longer run, up to the event that takes the child from the tab, while the tab is connected |
| `RelayEffects.StorageExactly` | openclaw_ref/assets/chrome-extension/background.js:66-82 | storage is written by exactly the events that run persistState with success, and holds the tables as they are then |
| `RelayJourneys.ClickConnects` | openclaw_ref/assets/chrome-extension/background.js:486-528 | from any safe state: a click on an unconnected, unlocked tab whose attach succeeds ends with the tab connected and indexed under the next session, storage current, the tab unlocked and nothing under way |
| `RelayJourneys.ClickFails` | openclaw_ref/assets/chrome-extension/background.js:512-528 | one whose attach fails ends with no record, no lock and nothing under way |
| `RelayJourneys.ClickDisconnects` | openclaw_ref/assets/chrome-extension/background.js:495-500 | a click on a connected tab ends with no record, child session or index entry of it, that saved, and the tab unlocked |
| `RelayJourneys.TargetConnects` | openclaw_ref/assets/chrome-extension/background.js:563-570 | a target created on request is connected and indexed under the next session, even with the relay closed |
| `RelayJourneys.DetachedForGood` | openclaw_ref/assets/chrome-extension/background.js:673-674 | a debugger detach that is no navigation ends the same way as a click on a connected tab |
| `RelayJourneys.Closes` | openclaw_ref/assets/chrome-extension/background.js:678-700 | and so does closing the tab, at once |
| `RelayJourneys.NavigationReattaches` | openclaw_ref/assets/chrome-extension/background.js:643-670 | a navigation with the relay open ends with the tab connected under a new session, the old session forgotten, and child sessions and lock as they were |
| `RelayJourneys.NavigationGivesUp` | openclaw_ref/assets/chrome-extension/background.js:661-668 | with the tab gone or the relay closed it ends with nothing left of the tab, and that saved |
| `RelayJourneys.ReannounceTells` | openclaw_ref/assets/chrome-extension/background.js:244-293 | the reannounce loop announces the session of a connected tab that answers, and drops record and session of one that does not |
| `RelayConnection.EveryRun` | openclaw_ref/assets/chrome-extension/background.js:123-241 | in every run at most one connect attempt is in flight, exactly while the promise is set and always for the current socket; at most one reconnect timer is live and it is the recorded one; every delay lies in the jitter band of its attempt number; and the attempt number is the number of reconnects scheduled since the last reset |
| `RelayConnection.AttemptIsFailures` | openclaw_ref/assets/chrome-extension/background.js:206-241 | the attempt number counts the reconnects scheduled since the last connecting click, attempt that connected, or timer or startup caller that went on after it |
| `RelayConnection.FailuresBackOff` | openclaw_ref/assets/chrome-extension/background.js:206-233 | over any stretch of any run without a reset, every scheduled reconnect is logged once and their delays lie in [b, b + 1000) with b the back-off of n, n + 1, n + 2, ... where n is the number of failures before the stretch |
| `RelayConnection.ResetStartsOver` | openclaw_ref/assets/chrome-extension/background.js:235-241 | right after a reset the machine's attempt number is zero and, until the next reset, the delays it asks for lie in the jitter bands of zero, one, two and so on |
| `RelayConnection.BackoffShape` | openclaw_ref/assets/chrome-extension/background-utils.js:1-12 | the back-off never decreases, doubles from one second, and is half a minute exactly from the fifth retry on |
| `RelayConnection.FailsOnce` | openclaw_ref/assets/chrome-extension/background.js:161-172 | once a socket has brought the relay down or was replaced, none of its later events changes anything, whatever happens in between |
| `RelayConnection.FailingRetires` | openclaw_ref/assets/chrome-extension/background.js:165-204 | the first failure of the current socket schedules exactly one reconnect and retires the socket; a failure of any other changes nothing |
| `RelayRecovery.RecoveryLostExactly` | openclaw_ref/assets/chrome-extension/background.js:123-241 | while the relay is open, being connected, awaiting a timer, or a failed call is due to try again, a step ends that if and only if no timer is running, no call is due, and the open socket silently dies or the attempt ends without an open socket and no call that waits for it will try again |
| `RelayRecovery.GivesUpExactly` | openclaw_ref/assets/chrome-extension/background.js:123-241 | while the relay is open or somebody will try again should the attempt fail, a step ends that if and only if no call is due and: the token is missing and only timers and clicks wait, the attempt comes through on a socket that is dead by then, the open socket dies or is replaced while only clicks wait, or a click cancels the timer |
| `RelayRecovery.FailedCallIsRetried` | openclaw_ref/assets/chrome-extension/background.js:206-233 | a reconnect begun by the timer, the keepalive alarm or the startup, whose attempt fails at the preflight or the handshake, ends with one more timer and one more delay in the band of the count; for the alarm and the startup also when the token is missing |
| `RelayRecovery.FailedCallIsFinal` | openclaw_ref/assets/chrome-extension/background.js:225-230 | a click whose attempt fails, and a timer's call that finds no token, end with nothing scheduled |
| `RelayRecovery.TheLoopGoesOn` | openclaw_ref/assets/chrome-extension/background.js:206-233 | however often the relay stays down, n failed rounds of the timer ask for n delays, one in the band of each number from the count on, and leave a timer running |
| `RelayRecovery.ConnectedThenLost` | openclaw_ref/assets/chrome-extension/background.js:161-204 | once a handshake is through, the socket's failure is noticed: the relay is closed and the back-off starts at zero |
| `RelayRecovery.CallersLearn` | openclaw_ref/assets/chrome-extension/background.js:123-180 | when an attempt ends every call that waited for it goes on with its outcome, and none waits |
| `RelayRecovery.ConnectingExactly` | openclaw_ref/assets/chrome-extension/background.js:123-181 | an attempt is under way after an event if and only if one begins, with the relay closed and none under way, or one was under way and does not end; the keepalive alarm begins one only when no timer runs |
| `RelayRecovery.TimerExactly` | openclaw_ref/assets/chrome-extension/background.js:206-241 | the timer after an event is a new one when a reconnect is scheduled, none when it fired or a click cancelled it, and otherwise the same |
| `RelayClient.Client.constructor` | openclaw_ref/assets/chrome-extension/background.js:13-35 | a fresh worker has no socket, timer or attempt |
| `RelayClient.Client.Dispatch` | openclaw_ref/assets/chrome-extension/background.js:123-241 | every event does what its step says and keeps one timer, one attempt and the back-off log |
| `CsvFields.SplitFields` | dashboard/src/utils/tabular.ts:23-41 | the quote-aware loop computes the recursive scan of the line |
| `CsvFields.ReadWritten` | dashboard/src/utils/tabular.ts:23-41 | splitting inverts a CSV writer (section 2 of RFC 4180) for every non-empty list of fields and every choice of which fields to quote that quotes those with a quote or delimiter |
| `CsvFields.FieldCount` | dashboard/src/utils/tabular.ts:23-41 | a line has one field more than delimiters with an even number of quote characters before them |
| `CsvFields.FieldHolds` | dashboard/src/utils/tabular.ts:23-41 | for any line, with quotes anywhere and closed or not: the field after j cuts holds exactly the characters up to the next cut that are no quotes, and of two quotes in a row inside quotes the first |
| `TabularFormat.Modal` | dashboard/src/utils/tabular.ts:44-50 | the most frequent count, the larger one on ties, whatever order the frequency map is visited in; zero for no counts |
| `TabularFormat.ModalIsUnique` | dashboard/src/utils/tabular.ts:43-50 | there is only one such count |
| `MarkdownTable.LooksLikeExactly` | dashboard/src/utils/tabular.ts:52-55 | the test accepts exactly the lines the regular expression matches |
| `MarkdownTable.HeaderExactly` | dashboard/src/utils/tabular.ts:61-77 | the first row is taken for a header if and only if no trimmed cell matches the regular expression for numbers or the one for dates |
| `MarkdownTable.NormRow` | dashboard/src/utils/tabular.ts:81-85 | the cut and padded row |
| `MarkdownTable.ToMarkdownTable` | dashboard/src/utils/tabular.ts:80-93 | the header, the separator and the body rows, in order |
| `MarkdownTable.UnescapeEscaped` | dashboard/src/utils/tabular.ts:57-59 | any text is read back from its escaped form, whatever backslashes and pipes it holds, with a space for each line break |
| `MarkdownTable.RowReads` | dashboard/src/utils/tabular.ts:81-85 | a table reader that cuts at pipes without a backslash before them reads back exactly the trimmed texts that were escaped into the row |
| `MarkdownTable.NormReads` | dashboard/src/utils/tabular.ts:81-85 | a printed row reads back as the first `cols` trimmed fields, padded with empty cells: wider rows lose the rest |
| `MarkdownTable.TableReads` | dashboard/src/utils/tabular.ts:80-93 | a printed table has two lines more than body rows, each with exactly cols + 1 live pipes, and reads back as header (or column names), dashes and the trimmed source fields |
| `MarkdownTable.RowLooksLikeTable` | dashboard/src/utils/tabular.ts:53-55 | a printed row is recognised as a table row |
| `TabularFormat.RunIsLongest` | dashboard/src/utils/tabular.ts:110-120 | the gathered block is the longest run of continuing lines there |
| `TabularFormat.PlanPartitions` | dashboard/src/utils/tabular.ts:101-137 | the conversion partitions the message's lines, in order, into single verbatim lines and runs that meet every condition of the source: delimiter, two lines, modal width, three fifths agreement |
| `TabularFormat.GatherBlock` | dashboard/src/utils/tabular.ts:110-120 | the inner loop gathers that run |
| `TabularFormat.AllRows` | dashboard/src/utils/tabular.ts:128-128 | every line of the run is split by the run's delimiter |
| `TabularFormat.Decide` | dashboard/src/utils/tabular.ts:103-135 | the decision at one line is the specification's |
| `TabularFormat.Append` | dashboard/src/utils/tabular.ts:129-135 | appending to the output list prints the piece, with a blank line before a table exactly when the last printed line is not blank |
| `TabularFormat.FormatTabularText` | dashboard/src/utils/tabular.ts:95-140 | the whole loop terminates and prints the plan |
| `TabularFormat.NothingTabular` | dashboard/src/utils/tabular.ts:96-96 | the early return for text without commas and tabs agrees with the full scan |
| `TabularLayout.PiecesExactly` | dashboard/src/utils/tabular.ts:95-137 | for every message and every place where the scan decides: a table stands for exactly the run, delimiter and width for which the line has a tab, or else three comma fields; the run is the longest of lines with two fields, has two lines or more, and its most frequent width is at least two or three and that of 60% of its lines; and the line stays verbatim if and only if there is none |
| `TabularLayout.PiecesAreSetIn` | dashboard/src/utils/tabular.ts:125-139 | the result consists of the pieces one after the other: verbatim lines as they are, and each table with a blank line behind it and one in front of it unless it is first or follows a blank line |
| `TabularGuarantees.OutputLines` | dashboard/src/utils/tabular.ts:101-139 | the lines of the result are exactly the printed pieces in order; nothing is merged or split |
| `TabularGuarantees.PrintGrows` | dashboard/src/utils/tabular.ts:127-133 | every converted run adds at least two lines and none is lost |
| `TabularGuarantees.UnchangedExactly` | dashboard/src/utils/tabular.ts:95-140 | a message comes back unchanged if and only if no run is converted |
| `TabularGuarantees.TablesHoldTheirRuns` | dashboard/src/utils/tabular.ts:128-131 | in every message, each table reads back as the trimmed fields of its own source lines, the header line counted once |
| `TabularGuarantees.TableRowsAreLeftAlone` | dashboard/src/utils/tabular.ts:52-55 | a line that is a table row already is never converted |
| `TabularGuarantees.PrintedRowsAreTableRows` | dashboard/src/utils/tabular.ts:80-93 | printed tables are such rows, unless a field has a line end inside |
| `TabularSecondPass.PlanCut` | dashboard/src/utils/tabular.ts:101-137 | before a line that continues no run, the conversion of a message falls apart into the conversions of its two parts |
| `TabularSecondPass.SecondPassTables` | dashboard/src/utils/tabular.ts:95-140 | the tables a second pass finds are exactly the tables of the gaps: the blocks of lines that the first pass left verbatim, and printed rows that are not recognised as table rows because a field holds a line end |
| `TabularSecondPass.TwiceExactly` | dashboard/src/utils/tabular.ts:95-140 | for every message: a second pass changes nothing if and only if none of those gaps would convert anything on its own |
| `TabularSecondPass.NothingIsStuck` | dashboard/src/utils/tabular.ts:21-34 | when no field of a table holds a line end after trimming, none of its printed rows is among the gaps, so only lines left verbatim are |
| `TabularSecondPass.ASecondPassConvertsMore` | dashboard/src/utils/tabular.ts:121-136 | on any seven lines of 3,3,3,3,4,4,4 comma fields a second pass changes the result of the first |
| `TabularSecondPass.SampleLines` | dashboard/src/utils/tabular.ts:23-41 | seven such lines |
| `MarkerBlocks.FirstIsIndexOf` | openclaw_ref/scripts/sync-moonshot-docs.ts:21-25 | indexOf returns the first occurrence and only that |
| `MarkerBlocks.Find` | openclaw_ref/scripts/sync-moonshot-docs.ts:21-35 | which error is raised exactly when, and that the markers found are the first ones |
| `MarkerBlocks.PutIs` | openclaw_ref/scripts/sync-moonshot-docs.ts:40-50 | the rewritten text is the text before the start marker, the new block, and the rest with its newline |
| `MarkerBlocks.PutPutExactly` | openclaw_ref/scripts/sync-moonshot-docs.ts:15-51 | writing A then B equals writing B, for every B, if and only if neither the start marker nor an indented line of A contains the end marker |
| `MarkerBlocks.LeftExactly` | openclaw_ref/scripts/sync-moonshot-docs.ts:34-38 | what follows the block when it is found again is what followed it before under that condition, and longer otherwise |
| `MarkerBlocks.PutGet` | openclaw_ref/scripts/sync-moonshot-docs.ts:15-51 | reading a written block back gives exactly its lines, each a single line, under that condition and with an indent in which the end marker does not start |
| `MarkerBlocks.OutsideIsKept` | openclaw_ref/scripts/sync-moonshot-docs.ts:37-50 | the text before the start marker's line and after the end marker's line is kept |
| `MarkerBlocks.EndsAsBefore` | openclaw_ref/scripts/sync-moonshot-docs.ts:34-50 | when the block was the last thing in the text the result ends with the end marker, even if a newline stood behind it; otherwise one newline and the rest follow |
| `MarkerBlocks.FindAfterPut` | openclaw_ref/scripts/sync-moonshot-docs.ts:21-35 | where the markers are found in a rewritten text, early end marker or not |
| `MarkerBlocks.EndOnLastLineExactly` | openclaw_ref/scripts/sync-moonshot-docs.ts:25-35 | the end marker is found on the block's last line exactly under that condition |
| `MarkerBlocks.BlankIndent` | openclaw_ref/scripts/sync-moonshot-docs.ts:32-32 | with a blank indent and a marker that does not start blank, the indent does not matter to where the marker occurs |
| `MarkerSync.SyncDocs` | openclaw_ref/scripts/sync-moonshot-docs.ts:90-108 | the chained replacements, stopping at the first missing marker |
| `MarkerSync.SyncConcat` | openclaw_ref/scripts/sync-moonshot-docs.ts:90-108 | the first missing marker ends the run; otherwise the edits act one after the other |
| `MarkerSync.SyncSettles` | openclaw_ref/scripts/sync-moonshot-docs.ts:90-108 | for blocks in document order, afterwards no replacement would change anything and the text before the first block is kept |
| `MarkerOrder.SyncTwiceInAnyOrder` | openclaw_ref/scripts/sync-moonshot-docs.ts:86-120 | in whatever order blocks are written: when each can be written cleanly, no two share a line and none holds the start marker of another, all are settled in the end and running the whole sync again changes nothing |
| `MarkerOrder.LayoutStays` | openclaw_ref/scripts/sync-moonshot-docs.ts:34-50 | one write keeps all of those conditions, moves the blocks after it with the text, and unsettles none |
| `MarkerSync.FindByPrefix` | openclaw_ref/scripts/sync-moonshot-docs.ts:21-35 | a block is found the same in any text that agrees up to the end of the block |
| `MarkerSync.SettledByPrefix` | openclaw_ref/scripts/sync-moonshot-docs.ts:90-108 | a settled block stays settled whatever is written after it |
| `RateLimit.Limiter.constructor` | dashboard/src/utils/rate-limit.ts:9-11 | an empty map, cleaned now |
| `RateLimit.Limiter.Sweep` | dashboard/src/utils/rate-limit.ts:19-26 | every key keeps its recent times in place, keys without any go, the order is kept |
| `RateLimit.Limiter.Filter` | dashboard/src/utils/rate-limit.ts:22-22 | the times after the cutoff, in order |
| `RateLimit.Limiter.Evict` | dashboard/src/utils/rate-limit.ts:35-39 | exactly the oldest keys beyond the cap go |
| `RateLimit.Limiter.Cleanup` | dashboard/src/utils/rate-limit.ts:28-46 | over the cap: sweep and evict; otherwise a sweep when due |
| `RateLimit.Limiter.IsRateLimited` | dashboard/src/utils/rate-limit.ts:48-59 | the verdict and the new map of the specification |
| `RateLimitHistory.Bounded` | dashboard/src/utils/rate-limit.ts:13-46 | in every run, with any clock, the map holds at most MAX_KEYS + 1 keys after any call |
| `RateLimitHistory.RunIsFaithful` | dashboard/src/utils/rate-limit.ts:19-59 | with a clock that does not go back, each stored list is a suffix of that key's real, sorted call times, and what is missing is too old to count or went with an eviction |
| `RateLimitHistory.SweepIsInvisible` | dashboard/src/utils/rate-limit.ts:19-26 | a sweep at any earlier moment never changes what a later call counts |
| `RateLimitHistory.CleanupExactly` | dashboard/src/utils/rate-limit.ts:28-46 | cleanup does nothing until five minutes after the last one unless there are more than ten thousand keys; when it runs it leaves the fresh keys in order, and only beyond the cap just the ten thousand entered last |
| `RateLimitHistory.SweptAreFresh` | dashboard/src/utils/rate-limit.ts:19-26 | a key stays in a sweep if and only if it has a time within the last minute |
| `RateLimitHistory.VerdictMatchesHistory` | dashboard/src/utils/rate-limit.ts:48-58 | a true verdict always means more than ten calls by that key in the last minute, this one included; the two agree unless the key was evicted within that minute |
| `RateLimitHistory.EvictionNeedsLoad` | dashboard/src/utils/rate-limit.ts:30-39 | an eviction happens only when more than MAX_KEYS different keys have called within the window |
| `RateLimitHistory.ExactUnderLoad` | dashboard/src/utils/rate-limit.ts:48-58 | so as long as at most MAX_KEYS keys call within a window, every verdict is exactly the history's |
| `Database.CascadeSucceeds` | dashboard/src/utils/delete-conversation.ts:38-44 | from any database with valid foreign keys each of the six statements, in this order, keeps them valid, and together they leave exactly the released tables |
| `Database.CascadeReleases` | dashboard/src/utils/delete-conversation.ts:21-44 | the cascade leaves exactly: the other conversations and their messages, and in each kept table the same rows, without a reference to a deleted conversation and otherwise unchanged |
| `Database.NonEmptyConcat` | dashboard/src/utils/delete-conversation.ts:35-35 | dropping the empty ids keeps the order of the others |
| `Database.CascadeKeepsCost` | dashboard/src/utils/delete-conversation.ts:24-38 | the billed total, overall and per tenant, is the same before and after |
| `Store.Db.Execute` | dashboard/src/utils/delete-conversation.ts:38-44 | a statement that would break a foreign key changes nothing |
| `Store.Db.RunStatements` | dashboard/src/utils/delete-conversation.ts:38-44 | statements run in order until one is refused, with valid foreign keys throughout |
| `Store.Db.FilterNonEmpty` | dashboard/src/utils/delete-conversation.ts:35-35 | empty ids are dropped, and every other id is kept as often as it is given |
| `Store.Db.DeleteConversationsCascade` | dashboard/src/utils/delete-conversation.ts:34-46 | always completes; every conversation with a non-empty id in the list is gone and every other stays, no message or kept row names one, the kept tables are otherwise unchanged, and the result is the number of places of the list that hold a non-empty id |
| `Database.ResetSucceeds` | dashboard/src/utils/tenant-reset.ts:59-82 | no statement of a reset, of any scope, meets a foreign key error from a consistent database, and together they leave exactly the reset tables |
| `Database.ResetExactly` | dashboard/src/utils/tenant-reset.ts:59-82 | a reset leaves exactly: conversations of other tenants and their messages; delegations, usage records and exec-log rows that hang off no conversation of the tenant, for the largest scope only usage and exec-log rows of other tenants; memory of other tenants, or all of it for the smallest scope; and every run |
| `Database.ScopesNest` | dashboard/src/utils/tenant-reset.ts:5-16 | each scope deletes everything the smaller one deletes; no scope changes a row that stays, or touches agent_runs |
| `Database.CrossesTenantsExactly` | dashboard/src/utils/tenant-reset.ts:26-30 | no row of another tenant goes if and only if every row that hangs off one of this tenant's conversations carries this tenant's id |
| `Database.CountsAreRows` | dashboard/src/utils/tenant-reset.ts:52-70 | the conversation, message and memory counts are the rows deleted |
| `Database.UsageAndExecCounts` | dashboard/src/utils/tenant-reset.ts:60-82 | the usage and exec-log counts fall short of the rows deleted by exactly the rows that went with the conversations, so they are right if and only if there were none |
| `Store.Db.ResetTenantWorkspace` | dashboard/src/utils/tenant-reset.ts:31-87 | one run of the reset commits, leaves exactly the reset tables and reports what its queries saw |
| `Database.AResetCanCrossTenants` | dashboard/src/utils/tenant-reset.ts:55-63 | a consistent database in which resetting one tenant deletes a message of another |
| `Database.ACountCanBeShort` | dashboard/src/utils/tenant-reset.ts:61-80 | a consistent database in which a full reset deletes a usage record and reports none |
| `Utf16.PairExactly` | openclaw_ref/src/utils.ts:240-246 | two units are a pair if and only if they encode a code point beyond the basic plane (section 2.1 of RFC 2781), and are read as it |
| `Utf16.SplitAtBoundary` | openclaw_ref/src/utils.ts:240-246 | cutting a string outside every surrogate pair splits its code points (section 2 of RFC 2781) |
| `Utf16.SliceIsPiece` | openclaw_ref/src/utils.ts:248-275 | a slice between two such places is a contiguous piece of the code points |
| `Utf16.SliceUtf16Safe` | openclaw_ref/src/utils.ts:248-275 | the in-place adjustments compute the bounds moved inward |
| `Utf16.SliceKeepsPairs` | openclaw_ref/src/utils.ts:248-275 | for every string and every pair of indices, negative or swapped, the result is a run of whole code points of the input, without exactly the unit at either end that would be half of a pair, and well-formed if the input is |
| `Utf16.ClampExactly` | openclaw_ref/src/utils.ts:251-252 | a negative index counts from the end, and one beyond either end means that end |
| `Utf16.BoundsExactly` | openclaw_ref/src/utils.ts:251-258 | the bounds are the two places asked for, the smaller first |
| `Utf16.TruncateUtf16Safe` | openclaw_ref/src/utils.ts:277-283 | the longest prefix within the limit that cuts no pair, at most one unit short, well-formed if the input is |
| `Utf16.WellFormedPrefixes` | openclaw_ref/src/utils.ts:277-283 | for a well-formed string that is the longest well-formed prefix |
| `PhoneNumbers.NormalizeTwice` | openclaw_ref/src/utils.ts:87-94 | normalising is idempotent, for every string |
| `PhoneNumbers.NormalDigits` | openclaw_ref/src/utils.ts:87-94 | normalising keeps every digit in order, prefix and punctuation or not |
| `PhoneNumbers.PrefixDoesNotMatter` | openclaw_ref/src/utils.ts:87-128 | a number with the channel's prefix is treated as the number without it |
| `PhoneNumbers.ParsesExactly` | openclaw_ref/src/utils.ts:180-189 | reading an id finds exactly what the two patterns match, device suffix skipped |
| `PhoneNumbers.RoundTripsExactly` | openclaw_ref/src/utils.ts:87-203 | for every string, writing it as an id and reading it back is normalising it, if and only if: it is no id, has a digit and no plus sign after the first kept character; or it is the id of a phone number and names no device; or it is the id of a linked identity that is mapped to that number |
| `CompositeScan.RunLineExactly` | openclaw_ref/scripts/check-composite-action-input-interpolation.py:10-36 | a line is a run line if and only if it is white space, the key and anything, and its indent and value are the groups of the pattern |
| `CompositeScan.InterpolatesExactly` | openclaw_ref/scripts/check-composite-action-input-interpolation.py:9-9 | an interpolation is found if and only if the text holds the braces, white space and the word, one after the other |
| `CompositeScan.StripFinds` | openclaw_ref/scripts/check-composite-action-input-interpolation.py:36-46 | stripping finds the core between white space |
| `CompositeScan.ReportIsExact` | openclaw_ref/scripts/check-composite-action-input-interpolation.py:28-57 | exactly the violating lines are reported, each under its own number: inline run values, and the non-blank lines of the run block that is open there |
| `CompositeScan.ReportIncreases` | openclaw_ref/scripts/check-composite-action-input-interpolation.py:28-57 | line numbers strictly increase, so no line is reported twice |
| `CompositeScan.ScanBlock` | openclaw_ref/scripts/check-composite-action-input-interpolation.py:45-55 | the inner loop reports the lines of its block; a run: line inside it opens no other |
| `CompositeScan.ScanFile` | openclaw_ref/scripts/check-composite-action-input-interpolation.py:18-57 | both loops terminate and the result is the specified report |
| `IssueBatches.TakePage` | openclaw_ref/scripts/label-open-issues.ts:433-454 | one page is pushed up to the limit, full batches leaving as they fill |
| `IssueBatches.FetchBatches` | openclaw_ref/scripts/label-open-issues.ts:411-472 | for any paging of any list: the batches hold the first items up to the limit, in order, all but the last are full, numbered from one and carrying the running total |
| `IssueBatches.BatchHolds` | openclaw_ref/scripts/label-open-issues.ts:445-471 | so the batches are determined: batch i holds items 500 i to 500 i + 500 |
| `IssueBatches.Sorted` | openclaw_ref/scripts/label-open-issues.ts:298-304 | the snapshot lists exactly the set, strictly increasing |
| `IssueBatches.FilterUnhandled` | openclaw_ref/scripts/label-open-issues.ts:761-761 | the issues not listed yet, in order |
| `IssueBatches.UnhandledCounts` | openclaw_ref/scripts/label-open-issues.ts:761-761 | each unlisted issue is pending as often as the batch has it, a listed one never |
| `IssueBatches.UnhandledConcat` | openclaw_ref/scripts/label-open-issues.ts:761-761 | pending issues keep the batch's order |
| `IssueBatches.WorkIsUnlisted` | openclaw_ref/scripts/label-open-issues.ts:756-808 | the issues classified are issues of the batches, and their numbers are exactly those that the file does not list |
| `IssueBatches.ClassifyAll` | openclaw_ref/scripts/label-open-issues.ts:769-808 | the loop over one batch classifies the pending issues in order, up to the first failure |
| `IssueBatches.ProcessBatches` | openclaw_ref/scripts/label-open-issues.ts:756-814 | the issues classified in completed batches are exactly those neither the file nor an earlier batch listed, and processed counts them; the run completes if and only if no unlisted issue fails; the saved file lists the initial numbers and those classified, and nothing more; a dry run leaves it alone |
| `IssueBatches.Resume` | openclaw_ref/scripts/label-open-issues.ts:721-814 | a failed run resumed from its own file ends with every issue listed and classifies exactly the issues that neither the file nor a completed batch had listed; after a run that did not fail it classifies none |
| `CronUsage.Report.AddAll` | openclaw_ref/scripts/cron_usage_report.ts:148-215 | after the loop every line shows the sum over its entries, and is there exactly when an entry went into it |
| `CronUsage.TallyShows` | openclaw_ref/scripts/cron_usage_report.ts:148-215 | the same of the tally as a function of the log |
| `CronUsage.ContributionExactly` | openclaw_ref/scripts/cron_usage_report.ts:170-213 | an entry without any number is a run with missing usage; otherwise it adds its input, its output, and its total or their sum where that is absent |
| `CronUsage.TokensExactly` | openclaw_ref/scripts/cron_usage_report.ts:203-205 | a number counts truncated towards zero, and as zero below one |
| `CronUsage.ModelOfExactly` | openclaw_ref/scripts/cron_usage_report.ts:165-165 | a run counts for the model it names, without white space around the name, and for <unknown> if it names none |
| `CronUsage.ModelFilterSelects` | openclaw_ref/scripts/cron_usage_report.ts:165-168 | a report for one model shows each job with that model's line of the report for all |
| `CronUsage.JobFilterSelects` | openclaw_ref/scripts/cron_usage_report.ts:162-164 | a report for one job shows that job's line of the report for all, and no other |
| `CronUsage.WindowsAdd` | openclaw_ref/scripts/cron_usage_report.ts:159-161 | a window cut in two at any moment splits every sum in two |
| `CronUsage.OneMoment` | openclaw_ref/scripts/cron_usage_report.ts:159-161 | a window of one moment takes exactly the entries of that moment, and one that ends before it begins none |
| `CronUsage.JobIsSumOfModels` | openclaw_ref/scripts/cron_usage_report.ts:185-213 | a job's runs, missing runs and token sums are the sums over its models |
| `CronUsage.EveryRunIsCounted` | openclaw_ref/scripts/cron_usage_report.ts:159-185 | the runs of all jobs together are the entries that pass the filters |
| `CronUsage.OrderDoesNotMatter` | openclaw_ref/scripts/cron_usage_report.ts:148-215 | every sum depends only on which entries there are and how often |
| `CronUsage.ByTotalSorts` | openclaw_ref/scripts/cron_usage_report.ts:220-222 | the sort is stable, in descending order of totals, and a permutation |
| `CronUsage.ReportRows` | openclaw_ref/scripts/cron_usage_report.ts:217-222 | the report has one row for each job with a matching entry, with its sums, the largest total first |
| `RecoveryCodes.User.Authorize` | dashboard/src/auth.ts:54-72 | the login succeeds if and only if the user has a secret, the code without white space is six digits and the time-based check accepts it, or the code is not blank and its hash is stored; in the second case alone that hash, and nothing else, is gone from the list |
| `RecoveryCodes.LoginsExactly` | dashboard/src/utils/totp.ts:49-71 | over every series of logins: a login succeeds if and only if the time-based check takes its code, or the code is not blank, its hash was stored at the start and no login before it spent that hash; only then is it a recovery login |
| `RecoveryCodes.StoredExactly` | dashboard/src/utils/totp.ts:57-71 | after any number of logins the list holds each hash of the start as often as then, unless a login spent it |
| `RecoveryCodes.NormalIs` | dashboard/src/utils/totp.ts:49-51 | the hashed form is the code without its white space and with its capitals in lower case, character by character |
| `RecoveryCodes.OnlyShrinks` | dashboard/src/utils/totp.ts:49-71 | over any series of logins the stored list only loses hashes |
| `RecoveryCodes.Consumed` | dashboard/src/utils/totp.ts:66-69 | a used code's hash is gone in every later state |
| `RecoveryCodes.NeverTwice` | dashboard/src/utils/totp.ts:49-71 | no recovery code, however spaced or capitalised, succeeds twice, for any hash function |
| `RecoveryCodes.SuccessesAreCounted` | dashboard/src/utils/totp.ts:49-71 | successes with recovery codes plus the distinct hashes left are the distinct hashes at the start |
| `ReasoningTags.Pass1Is` | dashboard/src/utils/strip-reasoning.ts:8-9 | on raw text the first replacement removes exactly the token stretches from an opening tag to the first closing tag |
| `ReasoningTags.Pass2Is` | dashboard/src/utils/strip-reasoning.ts:10-11 | the second removes exactly what follows the first opening tag that is left |
| `ReasoningTags.Pass3Is` | dashboard/src/utils/strip-reasoning.ts:12-13 | the third removes exactly the tags |
| `ReasoningMatches.OpensExactly` | dashboard/src/utils/strip-reasoning.ts:9-13 | an opening tag is <think> or <thinking> in any capitals |
| `ReasoningMatches.ClosesExactly` | dashboard/src/utils/strip-reasoning.ts:9-13 | a closing tag is </think> or </thinking> in any capitals |
| `ReasoningMatches.Pass1Exactly` | dashboard/src/utils/strip-reasoning.ts:8-9 | by positions: the first replacement cuts from the first opening tag that has a closing tag after it through the first such closing tag and goes on behind it, and changes nothing when there is none |
| `ReasoningMatches.Pass2Exactly` | dashboard/src/utils/strip-reasoning.ts:10-11 | the second keeps what stands before the first opening tag |
| `ReasoningMatches.Pass3Exactly` | dashboard/src/utils/strip-reasoning.ts:12-13 | the third drops the first tag and goes on behind it, and changes nothing when there is none |
| `StripReasoning.StripIsScanExactly` | dashboard/src/utils/strip-reasoning.ts:6-15 | on every text the result is what one left-to-right scan shows, trimmed, if and only if no piece of text assembles a tag where closed blocks were cut out of it |
| `StripReasoning.StripTwiceExactly` | dashboard/src/utils/strip-reasoning.ts:6-15 | a second application changes nothing if and only if the texts between the closing tags of what the first replacement leaves, up to its first opening tag, assemble no tag when joined; none of them holds one by itself; where no piece assembles one, if and only if the text the scan shows holds none |
| `StripReasoning.ScanIsFinalExactly` | dashboard/src/utils/strip-reasoning.ts:6-15 | the scan describes the result and the result is final, if and only if the text the scan shows holds no tag |
| `StripReasoning.ATagIsLeft` | dashboard/src/utils/strip-reasoning.ts:8-13 | a text whose result holds an opening tag, so that a second application removes everything |
| `StripReasoning.ATextIsLost` | dashboard/src/utils/strip-reasoning.ts:8-11 | a text of which the second replacement removes what one scan would show |

## Left out

- Messages to the relay, badges, titles, the help page and logging: they do not influence the tables.
- The pending-request table of `background.js`: nothing in the file adds to it.
- What `handleForwardCdpCommand` does with individual CDP methods beyond choosing the tab, and the creation of a target: calls into Chrome.
- `reconnectDelayMs` with options other than its defaults, which are the only ones used.
- RelayRouting.EveryLiveSessionIsReached: excludes tab id zero, because the code treats it as absent.
- RelayRouting.EveryChildSessionIsReached: excludes tab id zero and the empty session id, which the code treats as absent, and a child id that is also a tab session, which the code looks up first.
- RelayEffects.AttachedChildIsReached: excludes child ids of the form of the worker's own session ids, which the code looks up in the other table first.
- RelayEffects.RecordsExactly: excludes worker restarts, which `RelaySessionSafety.RehydrateExact` describes; `RelayEffects.IndexExactly` likewise.
- MarkerBlocks.PutPutExactly: asks for a start marker that does not begin with a newline and a non-empty end marker on one line, because with other markers the line arithmetic overlaps; the markers in use are of this kind.
- The renderers of the Moonshot model lists and the file reads and writes around them.
- MarkerOrder.SyncTwiceInAnyOrder: asks that no block holds the start marker of another, because such a block is then the first place where that marker is found.
- TabularGuarantees.PrintedRowsAreTableRows: excludes fields with a carriage return or Unicode line separator inside, because the recogniser's dot does not match them.
- RelayReissue.AnnouncedAtAttachIsSpent: speaks of ids announced at attach, because one announced again after a reconnect need not be saved; `RelayReissue.AnnouncedAgainExactly` covers both.
- Tables other than the seven that hang off conversations or a tenant, and transactions that are rolled back for other reasons.
- Conversation ids that are equal but written differently, and concurrent writers to the database.
- The pull-request half of the labelling script, which repeats the issue half with other labels; the classification, the labels and the summary counters.
- RecoveryCodes.NeverTwice: takes logins one after the other, because two concurrent ones read the same list; lower-casing covers ASCII letters.
- CronUsage.ReportRows: states the rows of jobs; the rows of models within a job come from the same sort of the same kind of rows.
- Job and model names that are properties of every JavaScript object, such as `constructor`; ties between totals keep the order of the object's keys, which is taken as given.
- Generating recovery codes, and the time-based check of RFC 6238.
- JSON parsing, file reading, number formatting and the command lines of the scripts.
- React components, charts, landing pages, the desktop renderer, and the wrappers around crypto, mail and SSH libraries.
