# Caravan: what the code keeps, proved

Caravan serves local and cloud models behind one proxy: a controller deploys and restarts the proxy, scouts
keep cells running on the hosts, cells transcribe, speak and look, and an admin board moves cells, keeps their
schedules, shows what clients got wrong and what was spent. This project models the parts of it that hold state,
loops or arithmetic, and proves for every input, every run and every history what the code, its documentation
and its tests promise of them. Where a promise does not hold, a lemma shows the input on which it fails and
another says exactly when the code keeps it.

`dafny verify dfyconfig.toml` checks the whole project with Dafny 4.11.

## What is modelled

| module | what it is |
|---|---|
| `Basics` | an optional value, bytes and `str.strip`, shared by the others |
| `ProxySources`, `ProxyImports`, `ProxyDeploy`, `ProxyHistory`, `ProxyStale` | the import walk from the proxy's launcher, what each import statement makes it reach, the guard over the files it reaches, the decision to leave the proxy running, and every history of deploys, restarts, late imports and notes of the running commit |
| `StrataScratch` | the pack and draft layer a Strata start makes and reuses, with every effect on the disk a step after which the start may die |
| `JournalRows`, `ClientMisses` | the errors clients were told, read on from where the last reading of each day's log ended |
| `HandlerLanguage`, `HandlerSites`, `HandlerUses`, `HandlerReading`, `HandlerSound`, `HandlerUnsound` | a small language of HTTP handlers with its evaluator, the reading of the keys a handler takes, from each use up and said again from each expression down, and what that reading's "these are all" means for the handler's behaviour |
| `CellSchedule`, `CellScheduler` | the windows of a week and the scheduler that acts at their edges |
| `CellAutostart`, `CellRuns` | moving, swapping and deleting cells while scouts report the requests they keep, each call to a scout with an outcome of its own; and whole runs of these |
| `CellOutputs` | the rows and schedules that name a cell following it |
| `AudioSplit`, `TokenWords`, `SentencePacking` | audio cut at quiet frames, words out of tokens, sentences packed into pieces |
| `Search`, `Multipart`, `Timestamps`, `PageSplice`, `ImageHeader` | pattern search; multipart files and fields; subtitle time marks; the generated table of the API page; PNG and JPEG sizes |
| `VoiceCache` | the loaded voices, least recently used first |
| `ScoreResolver` | benchmark scores with a budget of pages and a memory of pages that gave none |
| `UsageLedger` | the usage statistics and their balance |

## Promises that needed a condition

- The verdict "keep" keeps the proxy on the new commit's code, but the walk itself may differ: the release file
  is in it wherever it exists, and the guard asks for it at neither commit (`ProxyDeploy.SameWalkIff`,
  `ProxyStale.DroppedReleaseFile`).
- A late import loads from whatever the checkout holds by then, and the process notes the checkout's commit only
  after its first imports. When the checkout moved in between, by `--no-restart`, by a deploy that stops after its
  pull or by one that has not decided yet, a later verdict may keep a process that runs mixed or old code. A deploy
  runs the new code exactly unless it keeps a process that loaded anything else than the commit it noted
  (`ProxyHistory.DeployRunsNewCode`, `ProxyHistory.NoteWhenNotBehindIff`, `ProxyStale.KeptOnMixedCode`,
  `ProxyStale.KeptOnOldCode`, `ProxyStale.MixedCodeHappens`).
- A reused Strata pack is what a fresh make gives exactly when no folder kept a file its removal could not take
  (`StrataScratch.ReuseIsAFreshMake`). The draft tool's experts are not checked before made.json is written: the next
  start reuses exactly when the tool wrote them or an old file of that name stayed, which it then hands over
  (`StrataScratch.NextStartReuses`, `StrataScratch.OldExpertsHandedOver`).
- A handler that deletes reported keys can tell bodies apart that agree on every reported key and on being empty:
  no handler with a complete report does, exactly when they also agree on holding any other key
  (`HandlerUnsound.DeletionUnseen`, `HandlerUnsound.NoneTellsApartIff`). A handler that deletes none does not
  (`HandlerSound.BodyFieldsAreAll`).
- The report on the query is complete for handlers that parse the raw query alone, into plain names
  (`HandlerSound.QueryKeysAreAll`). A parsed query kept elsewhere is not followed (`HandlerUnsound.ParsedQueryKept`),
  and a raw query handed to another call inside the parse is not seen (`HandlerUnsound.RawQueryHandedOn`).
- The audio split keeps its pieces within the window exactly when no candidate frame lies past it: from 118396
  samples on, 7.4 s, where its own note says about 8 s (`AudioSplit.PiecesFitIff`, `AudioSplit.WindowsThatFit`).
- A move of a cell's outputs takes no cable and no schedule away exactly when nothing names the new port: a stale
  name, or the cell itself when the ports are the same, which the caller refuses
  (`CellOutputs.MoveKeepsCablesIff`); and only then does moving there and back restore everything
  (`CellOutputs.MoveBackRestores`).
- The controller knows what a scout keeps from the scout's last report, and every call to a scout may fail by
  itself. A request stays at the old port, and its record comes back, exactly when it was not known or its off did
  not take effect (`CellAutostart.MoveVacates`, `CellAutostart.LeftRequestComesBack`). A request whose off took
  effect and whose on did not is lost, and a list that still names a request makes one that nobody kept, at the new
  port, with every call answered (`CellAutostart.MoveRenamesIff`, `CellAutostart.RequestOutOfNowhere`). A right list
  is spoilt exactly by a call that was carried out, changed what the scout keeps, and whose answer was lost
  (`CellRuns.CallSpoilsListIff`).
- A move that raises puts the requests back exactly when each one switched off was switched on again and no other
  was, and their settings exactly when those sent were the request's own (`CellAutostart.RefusedMoveRestores`,
  `CellAutostart.RefusedMoveLoses`). The call back sends the record's settings as it stands: none for a cell without
  a record, the very refusal the route answers with 404 (`CellAutostart.RefusedMoveEmpties`), and none when the save
  raised after the record had moved, so that the next report makes a second, empty record at the old port
  (`CellAutostart.UnsavedMoveSplits`).
- A file is read whatever stands around the parts, exactly unless the preamble reads as a file of its own, or, with
  no file among the parts, the epilogue does (`Multipart.RoundTripAround`).
- A form value is cut at its first line break, and an empty one is left out (`Multipart.FieldsRoundTrip`); a content
  that holds the field's name makes a value of its own (`Multipart.StrayValue`).
- A score id reported as a miss has a score in the map exactly when a page read by the same call carries it
  (`ScoreResolver.MissHasAScoreIff`, `ScoreResolver.MissWithAScore`). An id never read before is reported as a miss
  only after its page was read, exactly when the clock is past its first day (`ScoreResolver.MissIsReadIff`).
- The log of the day a credit was typed is not always read: exactly when the credit was typed no later in its day
  than it is now, or the window or another credit asks for more days (`UsageLedger.CreditDayIsReadIff`,
  `UsageLedger.LoneCreditLosesItsDay`).
- The API page takes a table again without harm exactly when the table in it holds no end marker
  (`PageSplice.SpliceAgainIff`).

## Model

| member | source | states |
|---|---|---|
| `ProxySources.ImportsOf` | scripts/check_proxy_sources.py:54-70 | every name returned is the package or below it, and the names are those of all import statements at any depth, relative ones resolved |
| `ProxySources.ModuleFiles` | scripts/check_proxy_sources.py:40-51 | only files the tree has: each package's own file on the way down, then the module |
| `ProxySources.Walk` | scripts/check_proxy_sources.py:73-83 | the worklist ends and answers exactly the least set that holds the launcher and is closed under imports; it fails only without a launcher |
| `ProxySources.ReachIsClosed` | scripts/check_proxy_sources.py:73-83 | that set is closed, and lies within every closed set |
| `ProxyImports.NextIsImports` | scripts/check_proxy_sources.py:40-70 | one step of the walk is exactly what the file's import statements run: of `import x.y` each package on the way and the module, of `from base import a` the same of the base and of `base.a`, at any depth, a relative base taken from the file's own folder |
| `ProxyImports.ReachedByImports` | scripts/check_proxy_sources.py:73-83 | a file is reached exactly when a chain of such statements leads to it from the launcher |
| `ProxyImports.FromImportIsFollowed` | scripts/check_proxy_sources.py:61-69 | a reached file's from-import, absolute or relative: every package on the way, the base and each name that is a module are reached |
| `ProxyImports.ImportIsFollowed` | scripts/check_proxy_sources.py:59-60 | the same of its plain import |
| `ProxyImports.LauncherReachesMain` | scripts/check_proxy_sources.py:73-83 | so the launcher's own line reaches the proxy's entry point |
| `ProxySources.Guard` | scripts/check_proxy_sources.py:97-129 | reports nothing exactly when the two files are reached and no reached file is uncovered, reads the release number or imports dynamically |
| `ProxySources.NoProblemIff` | scripts/check_proxy_sources.py:86-129 | the release file has no problem exactly when it is the number with a text before it or none, any other file exactly when it is covered and its text holds none of the three words |
| `ProxySources.NumberImportsNothing` | scripts/check_proxy_sources.py:86-94 | a release file the guard accepts imports nothing |
| `ProxySources.ReleaseFileIsRun` | scripts/check_proxy_sources.py:40-51 | under the guard the release file is reached exactly when it exists |
| `ProxyDeploy.Decide` | scripts/proxy_restart.py:89-106 | keep exactly when the unit is active under the recorded pid, the commit is known, git could compare, and no changed path is covered |
| `ProxyDeploy.SameCommitIff` | scripts/proxy_restart.py:108-111 | two names stand for one commit exactly when neither is empty and one goes on where the other ends |
| `ProxyDeploy.Verify` | scripts/proxy_restart.py:113-123 | no mismatch exactly when the unit is active under the recorded pid and the commit asked for, if any, is the recorded one |
| `ProxyDeploy.UnchangedIsSameCode` | scripts/proxy_restart.py:84-106 | guard at both commits and no covered change: the proxy runs the same files with the same content, the release file aside |
| `ProxyDeploy.SameResolution` | scripts/check_proxy_sources.py:40-51 | a module standing in for a package of the other commit is a covered change, or lies outside the proxy's packages |
| `ProxyDeploy.SameWalkIff` | scripts/proxy_restart.py:84-106 | then the two walks are equal exactly when both commits have the release file or neither has |
| `ProxyHistory.StepKeepsInv` | scripts/deploy.sh:96-119 | start, note, record, death, late import, a lone pull and a deploy each keep that a record under the running pid is that process's own note, of a commit that exists |
| `ProxyHistory.KeptIsSameCode` | scripts/proxy_restart.py:89-106 | a kept process noted a commit with the same proxy code as the new one |
| `ProxyHistory.NothingNotedRestarts` | scripts/proxy_restart.py:89-106 | a process that noted no commit is never kept, whatever the record says |
| `ProxyHistory.UnansweredNoteRestarts` | caravan/proxy/started.py:28-31 | so it is with one whose note git did not answer, recorded or not |
| `ProxyHistory.DeployRunsNewCode` | scripts/deploy.sh:96-119 | after a deploy the proxy runs the new commit's code, exactly unless a kept process had loaded something else than the code of the commit it noted |
| `ProxyHistory.LoadWhenNotBehind` | scripts/deploy.sh:96-102 | a file loaded while the checkout holds the proxy's code is its own commit's |
| `ProxyHistory.NoteWhenNotBehindIff` | caravan/proxy/started.py:28-31 | the commit noted has the code the process started from exactly when the checkout still holds it |
| `ProxyHistory.HistoryRunsNewCode` | scripts/deploy.sh:96-119 | over every history in which each late import and each note meets a checkout that holds the proxy's code, every deploy leaves the proxy on the code deployed |
| `ProxyHistory.WithoutLonePulls` | scripts/deploy.sh:70-119 | a history in which the checkout moves only at the moment a deploy decides meets that condition by itself |
| `ProxyHistory.VerifiedRunsTheCommit` | scripts/proxy_restart.py:109-123 | a verified deploy's process noted the commit it names, when commit names are whole, and runs its code if it loaded and noted in time |
| `ProxyHistory.RestartIsVerified` | scripts/proxy_restart.py:108-123 | a deploy that restarts is verified once the process noted its commit and wrote its record, by any abbreviation of the commit too |
| `ProxyStale.DroppedReleaseFile` | scripts/proxy_restart.py:84-106 | dropping the release file passes the guard, changes no covered file, and changes the walk |
| `ProxyStale.KeptOnMixedCode` | scripts/deploy.sh:96-119 | a late import after a lone pull, then a deploy of code like the first: the process is kept and serves the middle commit's file |
| `ProxyStale.KeptOnOldCode` | caravan/proxy/main.py:20-23 | a note taken after the pull of a deploy: that deploy keeps the process, which runs the old file |
| `ProxyStale.MixedCodeHappens` | scripts/deploy.sh:96-119 | commits that pass the guard and do both exist |
| `StrataScratch.StartKeepsConsistent` | cells/strata_launch.py:281-316 | wherever a start stops, the marker it leaves tells the truth about the pack and runtime on the disk |
| `StrataScratch.EveryHistoryIsConsistent` | cells/strata_launch.py:281-316 | so after any sequence of starts with any arguments, each cut anywhere, a torn marker included |
| `StrataScratch.ReuseIsAFreshMake` | cells/strata_launch.py:200-211 | a reusing start hands over every file of a fresh make, and exactly those when no leftover stood |
| `StrataScratch.TakenPartIsMissed` | cells/strata_launch.py:200-211 | a pack without its expert list or vocabulary, a draft layer's runtime without experts, or another make's marker is never reused |
| `StrataScratch.Scratch.WriteAll` | cells/strata_launch.py:145-156 | a tool killed anywhere leaves only effects a making start may have done |
| `StrataScratch.Scratch.Pack` | cells/strata_launch.py:145-156 | the whole pack, or a log that still counts as a start under way |
| `StrataScratch.Scratch.Draft` | cells/strata_launch.py:158-172 | the runtime with its token subset, untouched when the cell names none |
| `StrataScratch.Scratch.Config` | cells/strata_launch.py:281-316 | the real order of removals, builds and the marker is a start as the history theorem asks, whatever dies |
| `StrataScratch.MadeAnewIff` | cells/strata_launch.py:145-156 | a folder made anew holds exactly the tool's files unless one that could not be removed is none of them |
| `StrataScratch.NextStartReuses` | cells/strata_launch.py:200-211 | the next start of the same cell reuses what was made exactly when the draft tool wrote its experts or an old file of that name could not be removed |
| `StrataScratch.OldExpertsHandedOver` | cells/strata_launch.py:158-172 | such an old file is handed to the engine, which a fresh make would not do |
| `JournalRows.MissOf` | caravan/admin/client_misses.py:36-59 | a miss is a blocked or finished row, of no probe, with a status of 400 or more and a port above 0 |
| `JournalRows.ErrorIsFound` | caravan/admin/client_misses.py:36-59 | of rows with a status, a port and a time, exactly those of 400 or more, a port above 0 and no probe are found; a finished row's own status goes before its item's |
| `JournalRows.ErrorIsToldAsItIs` | caravan/admin/client_misses.py:36-59 | with its port, method, path, status and time, and the item's reason or else the row's kind of error |
| `JournalRows.ReadingFailsIff` | caravan/admin/client_misses.py:61-93 | a reading fails exactly when one of its lines is a row whose time cannot be made a number at all |
| `JournalRows.WholeOfRest` | caravan/admin/client_misses.py:61-93 | reading on from a whole line finds the same last newline as reading it all |
| `JournalRows.LineEnds` | caravan/admin/client_misses.py:78-79 | a line ends at its first break, a carriage return with a line feed being one |
| `JournalRows.LinesOfHalves` | caravan/admin/client_misses.py:61-93 | cut after a newline, the halves have the lines of the whole |
| `JournalRows.ReadOn` | caravan/admin/client_misses.py:61-93 | the old fold continued over the rest equals the fold of the whole file |
| `ClientMisses.WholeFileGivesItsBook` | caravan/admin/client_misses.py:61-93 | the fold counts each error once a line, keeps its newest time and the reason of the latest line told at that time |
| `ClientMisses.ReadOnIsUpToDate` | caravan/admin/client_misses.py:61-93 | after a reading the offset stands just past the last newline and the book is that of all whole lines |
| `ClientMisses.ClientMisses.ReadDay` | caravan/admin/client_misses.py:61-93 | the same of the cache itself, a shorter file read again, a missing one forgotten |
| `ClientMisses.TotalSays` | caravan/admin/client_misses.py:95-124 | over the days counts are summed, the newest time and its reason taken, ties to the earlier day read |
| `ClientMisses.WindowIs` | caravan/admin/client_misses.py:101-102 | the days read are the last ones up to today, the latest first |
| `ClientMisses.TextAtMostIff` | caravan/admin/client_misses.py:123 | paths stand by their first difference, as Python orders texts |
| `ClientMisses.InsertSorts` | caravan/admin/client_misses.py:95-124 | the board's order, newest first and then by path, with nothing lost |
| `ClientMisses.CardCounts` | caravan/admin/client_misses.py:95-124 | eight errors are shown, or all if fewer; shown plus left out is the number of distinct ones, and nothing left out is newer than what is shown |
| `ClientMisses.ClientMisses.Of` | caravan/admin/client_misses.py:95-124 | every answer is that of the files read whole, for the clients asked, and days outside the window are forgotten |
| `ClientMisses.RunAll` | caravan/admin/client_misses.py:61-124 | over any interleaving of appends, cut at any byte, and questions each answer is that of the files read whole at its moment |
| `HandlerReading.BodyFields` | caravan/admin/api_spec.py:81-97 | the keys, each once, and the completeness are those of the text said from the top down: `get` with any further arguments, subscript and `in` read a written-out key, `isinstance`, `not` and a test show none, and any other use of the body makes it incomplete |
| `HandlerReading.QueryKeys` | caravan/admin/api_spec.py:58-79 | the same of the parsed query, `_flag` included, the raw query outside a parse and the request handed on whole |
| `HandlerUses.CodeFound` | caravan/admin/api_spec.py:160-213 | for every piece of code, asking each use for its parents finds exactly what its shapes say |
| `HandlerUses.CallsRead` | caravan/admin/api_spec.py:160-184 | `get` and `_flag` read their key and `isinstance` none, whatever else they are given |
| `HandlerUses.PlacesRead` | caravan/admin/api_spec.py:160-184 | subscript and `in` read their key, `not` and a test none; the dict by itself is left over |
| `HandlerSites.BoundIff` | caravan/admin/api_spec.py:61-63 | the names followed are exactly those some statement, at any depth, assigns a parse to |
| `HandlerSound.ExprAlike` | caravan/admin/api_spec.py:160-213 | an expression all of whose uses are understood evaluates alike on two dicts that agree |
| `HandlerSound.ExecAlike` | caravan/admin/api_spec.py:160-213 | and so does a statement, with the same calls and states that agree |
| `HandlerSound.BodyFieldsAreAll` | caravan/admin/api_spec.py:81-97 | a complete report, no `del`: two bodies alike at the reported keys and in being empty get the same calls and outcome from every handler |
| `HandlerSound.BodyFieldsAreAllWithDelete` | caravan/admin/api_spec.py:81-97 | with `del`, when they are also alike in holding any other key |
| `HandlerUnsound.NoneTellsApartIff` | caravan/admin/api_spec.py:81-97 | and exactly then does no handler with a complete report tell them apart |
| `HandlerSound.QueryKeysAreAll` | caravan/admin/api_spec.py:58-79 | the same of queries, for handlers that parse the raw query alone and bind it to plain names |
| `HandlerUnsound.DeletionUnseen` | caravan/admin/api_spec.py:160-184 | a reported, complete handler with `del` that answers two agreeing bodies differently |
| `HandlerUnsound.ParsedQueryKept` | caravan/admin/api_spec.py:58-79 | a complete report of a handler that keeps the parsed query in an attribute and answers agreeing queries differently |
| `HandlerUnsound.RawQueryHandedOn` | caravan/admin/api_spec.py:198-204 | a complete and empty report of a handler that hands the raw query on inside its parse and tells any two raw queries apart |
| `PageSplice.EndOfBlock` | caravan/admin/api_spec.py:422-431 | the first end marker of the generated block ends it exactly when the table holds none |
| `PageSplice.SpliceAgainIff` | caravan/admin/api_spec.py:425-431 | a spliced page takes the next table as the first page would have, idempotence included, exactly when its table holds no end marker |
| `CellSchedule.Normalize` | caravan/admin/cell_schedule.py:44-62 | an enabled schedule that is kept has a start other than its stop |
| `CellSchedule.NormalizeIff` | caravan/admin/cell_schedule.py:28-62 | kept exactly when an object, with times in the day or none, numbers for days, and start other than stop if enabled; kept as typed, 22:00 to 08:00 where not, with the days of the week among those named |
| `CellSchedule.KeptAgain` | caravan/admin/cell_schedule.py:44-62 | a kept schedule sent back is kept as it is |
| `CellSchedule.InWindowIff` | caravan/admin/cell_schedule.py:83-97 | open exactly inside [opening, opening + ((stop - start) mod 1440)) of an enabled day; every day is one where none is named |
| `CellSchedule.OneWindow` | caravan/admin/cell_schedule.py:83-97 | no minute lies in two windows |
| `CellSchedule.WeekRepeats` | caravan/admin/cell_schedule.py:83-97 | all of it repeats every 10080 minutes |
| `CellSchedule.MinutesToWindow` | caravan/admin/cell_schedule.py:100-115 | the least k from 0 such that a window opens in k minutes, below a week; none exactly when start is stop |
| `CellSchedule.NextAsTimeGoes` | caravan/admin/cell_schedule.py:100-115 | the next opening stays until it opens and only moves forward |
| `CellScheduler.Slot.SetSchedule` | caravan/admin/cell_schedule.py:65-80 | a refused schedule changes nothing, a kept one re-arms the edges |
| `CellScheduler.Slot.PrefetchTick` | caravan/admin/cell_schedule.py:118-145 | fetches exactly for an opening within 30 minutes, out of the window, not fetched for last |
| `CellScheduler.Slot.Tick` | caravan/admin/cell_schedule.py:148-182 | what a tick does and leaves on one slot |
| `CellScheduler.SchedulerTick` | caravan/admin/cell_schedule.py:148-182 | every slot once, saved exactly when one changed |
| `CellScheduler.ActionsAlternate` | caravan/admin/cell_schedule.py:148-182 | over any run since arming: start, stop, start, beginning with a start, the last agreeing with the slot |
| `CellScheduler.StateIsTheWindow` | caravan/admin/cell_schedule.py:148-182 | after each tick of an enabled schedule the slot holds the window's state |
| `CellScheduler.ByHandStands` | caravan/admin/cell_schedule.py:148-182 | between edges nothing is started or stopped, whatever is done by hand |
| `CellScheduler.FirstSightingStopsNothing` | caravan/admin/cell_schedule.py:148-182 | a schedule set outside its window stops nothing |
| `CellScheduler.FetchOncePerWindow` | caravan/admin/cell_schedule.py:118-145 | with a clock that does not go back: at most one fetch a window, only in the 30 minutes before it, and one whenever a tick fell there |
| `CellAutostart.Controller.RunMoves` | caravan/admin/cell_ops.py:108-121 | off, change, on, with rollback when the change raises, before or after it moved the records, each call with its own outcome; one answer for each call, ok exactly when the scout said so |
| `CellAutostart.Controller.Delete` | caravan/admin/cell_ops.py:53-69 | the request first, then the record; whether there was one, and what the scout answered |
| `CellAutostart.ReportsOnlyAdopt` | caravan/admin/server_cells.py:348-371 | reports leave every request and record and add only kept requests' cells |
| `CellAutostart.ReportAdoptsIff` | caravan/admin/server_cells.py:330-371 | which requests a report makes records of, exactly |
| `CellAutostart.AfterMove` | caravan/admin/cell_ops.py:93-121 | which requests are kept, with which settings, after any moves, whatever reports came between and whatever became of the calls |
| `CellAutostart.MoveIsDoneIff` | caravan/admin/server_cells.py:130-162 | which moves go through, exactly |
| `CellAutostart.MoveVacates` | caravan/admin/server_cells.py:130-162 | a request is left at the old port exactly when it was not known or its off did not take effect; with none left no later report brings the record back |
| `CellAutostart.LeftRequestComesBack` | caravan/admin/server_cells.py:348-371 | a request that was left does bring the record back, unless its number is taken |
| `CellAutostart.MoveRenamesIff` | caravan/admin/cell_ops.py:88-121 | for any list and any outcomes, exactly when the kept requests end renamed as the record was, when a request is at neither port, and when one is made that nobody kept |
| `CellAutostart.RequestOutOfNowhere` | caravan/admin/cell_ops.py:88-121 | and the last happens with every call answered |
| `CellAutostart.RefusedMoveRestores` | caravan/admin/cell_ops.py:108-121 | of any change that raises: the kept requests are restored exactly when each one switched off was switched back on and none was switched on that was not kept, and their settings exactly when those sent were the request's own; each sent setting stood in a record or a request before, or is none |
| `CellAutostart.RefusalKeepsRecords` | caravan/admin/cell_ops.py:108-121 | a change refused outright leaves every record |
| `CellAutostart.RefusedMoveSends` | caravan/admin/cell_ops.py:93-121 | of one cell the call back sends the settings of the record that stands when it is sent |
| `CellAutostart.RefusedMoveLosesIff` | caravan/admin/cell_ops.py:93-121 | one cell's request is lost to a refused move exactly when it was known, the off took effect and the on back did not |
| `CellAutostart.RefusedMoveLoses` | caravan/admin/cell_ops.py:93-121 | and that happens |
| `CellAutostart.RefusedMoveEmpties` | caravan/admin/server_cells.py:143-146 | a cell without a record is refused and its request ends without settings, every call answered |
| `CellAutostart.UnsavedMoveSplits` | caravan/admin/server_cells.py:152-160 | a save that raises leaves the record moved, an empty request behind and, after the next report, an empty record too |
| `CellAutostart.SwapRenamesIff` | caravan/admin/server_cells.py:165-209 | for any list a swap renames requests and records alike exactly when each request left on stands where a swapped one goes, each swapped one was switched on or stood there, and none other was switched on |
| `CellAutostart.SwapVacates` | caravan/admin/server_cells.py:165-209 | of two machines a request is left at a vacated port exactly when its off did not take effect; with none left no later report brings the record back |
| `CellAutostart.DeletedStaysDeleted` | caravan/admin/cell_ops.py:53-69 | a deleted cell stays deleted, exactly unless its request was unknown or its off did not take effect |
| `CellRuns.ReportRenewsList` | caravan/admin/cell_ops.py:88-90 | after a report of a host the list names a cell of it exactly when it is kept there; the other hosts' cells are as before |
| `CellRuns.AnswerRenewsList` | caravan/admin/fleet_clients.py:386-405 | so after an answered call, refused or carried out; without an answer the list stays |
| `CellRuns.CallSpoilsListIff` | caravan/admin/cell_ops.py:93-102 | a right list is wrong after a call exactly when the call was carried out, its answer lost, and it changed what is kept |
| `CellRuns.ListStaysRight` | caravan/admin/cell_ops.py:53-121 | over any run of moves, swaps, deletions and reports a right list stays right when no answer is lost |
| `CellRuns.RequestsFollow` | caravan/admin/cell_ops.py:53-121 | and with every call answered the requests end where the run took their cells: moved and swapped by what went through, left by what was refused, gone with what was deleted |
| `CellRuns.OneRequestAtTheEnd` | caravan/admin/cell_ops.py:108-121 | a cell moved again and again has its request at the last port and at no other it passed |
| `CellOutputs.CellOutputs.RenameRows` | caravan/admin/cell_outputs.py:43-63 | every pool's rows renamed in their places, and exactly the changed pools named |
| `CellOutputs.CellOutputs.Cloud` | caravan/admin/cell_outputs.py:65-75 | one writing of rows and schedules together, none when nothing changed |
| `CellOutputs.CellOutputs.Follow` | caravan/admin/cell_outputs.py:77-92 | a file that cannot be written is counted, and the other still follows; what is answered of routers, pools, schedule and failures |
| `CellOutputs.ScheduleSaysIff` | caravan/common/model_schedules.py:82-111 | the schedules say they changed exactly when they did, but for a swap of two like ones |
| `CellOutputs.RowsKeepTheirPlace` | caravan/admin/cell_outputs.py:43-63 | rows keep number, place and all but the cable, and a row without one keeps everything |
| `CellOutputs.MoveFollows` | caravan/admin/cell_outputs.py:94-107 | after a move the rows naming the new port are exactly those that named the old one, with all else they held, and none names the old; one that named the new port before is open |
| `CellOutputs.MoveKeepsCablesIff` | caravan/admin/cell_outputs.py:94-107 | a move takes no cable and no schedule away exactly when nothing names its destination, the cell itself included |
| `CellOutputs.MoveBackRestores` | caravan/admin/cell_outputs.py:94-107 | there and back restores everything exactly when nothing stale named the new port |
| `CellOutputs.SwapFollows` | caravan/admin/cell_outputs.py:109-115 | after a swap the rows naming one are exactly those that named the other, with all else they held, every other row is as it was, and the two schedules have changed places |
| `CellOutputs.SwapTwice` | caravan/admin/cell_outputs.py:109-115 | a swap undoes itself, rows and schedules |
| `CellOutputs.DropForgets` | caravan/admin/cell_outputs.py:117-122 | a deleted cell is named nowhere, and no other row and no other schedule is touched |
| `CellOutputs.ChangedAreNamed` | caravan/admin/cell_outputs.py:43-63 | as many names as changed pools, each changed pool's among them |
| `CellOutputs.NamedAreChanged` | caravan/admin/cell_outputs.py:43-63 | a name is answered exactly when it is a changed pool's |
| `AudioSplit.FindCut` | cells/transcribe_server.py:270-276 | the in-bounds scan of candidate frames gives the cut, always past the start and within the audio |
| `AudioSplit.SilentIff` | cells/transcribe_server.py:274 | a frame has no energy exactly when every fourth sample of it is silent |
| `AudioSplit.TurnedCut` | cells/transcribe_server.py:270-276 | audio with its sign turned is cut at the same places |
| `AudioSplit.SeamIsQuietest` | cells/transcribe_server.py:272-278 | each seam is the quietest candidate frame, the earliest of equals |
| `AudioSplit.SplitAtQuiet` | cells/transcribe_server.py:243-290 | the loop ends and yields the split |
| `AudioSplit.Fold` | cells/transcribe_server.py:279-290 | a tail under 2 s joins the piece before it exactly when both fit, taken off before it is joined |
| `AudioSplit.NothingLost` | cells/transcribe_server.py:243-290 | the pieces joined are the audio, and none is empty |
| `AudioSplit.PiecesFitIff` | cells/transcribe_server.py:254-271 | no piece of any audio exceeds the window, the folded tail included, exactly when no candidate lies past it |
| `AudioSplit.WindowsThatFit` | cells/transcribe_server.py:254-271 | that is from 118396 samples on |
| `TokenWords.WordsFromTokens` | cells/transcribe_server.py:312-347 | the loop gives the words of the groups, each with its group's earliest and latest times |
| `TokenWords.GroupsAreTheTokens` | cells/transcribe_server.py:336-346 | the groups are the tokens in order, cut exactly at word marks with something visible before them |
| `TokenWords.NothingLost` | cells/transcribe_server.py:312-347 | the words show every character of the tokens that is neither blank nor a word mark, in order, and no other |
| `TokenWords.TimesAreTheTokens` | cells/transcribe_server.py:343-345 | a word's times cover its tokens and are attained |
| `TokenWords.OffsetMoves` | cells/transcribe_server.py:326-330 | a piece's offset moves all its words alike |
| `SentencePacking.SplitText` | cells/lfm_audio_server.py:70-79 | the pieces spoken are the greedy groups, joined by a space |
| `SentencePacking.PackIsAGrouping` | cells/lfm_audio_server.py:70-79 | every sentence once and in order; each piece within the limit or one long sentence |
| `SentencePacking.FewestPieces` | cells/lfm_audio_server.py:70-79 | no other split by that rule uses fewer pieces |
| `Multipart.ExtractFile` | cells/whisper_server.py:189-198 | the first file of the parts between separators |
| `Multipart.RoundTrip` | cells/whisper_server.py:189-198 | of every well-built body, padding after its separators included, the bytes of the first part whose head names a file, whatever breaks or dashes they hold |
| `Multipart.RoundTripAround` | cells/whisper_server.py:189-198 | and with anything before and after the parts, exactly unless the preamble reads as a file, or the epilogue where no part is one |
| `Multipart.Fields` | cells/whisper_server.py:201-221 | the loop ends on every body and gives the values found, in order |
| `Multipart.FieldsRoundTrip` | cells/whisper_server.py:201-221 | of every well-built body, the first line of each content sent under the name, in order, empty ones left out |
| `Multipart.StrayValue` | cells/whisper_server.py:201-221 | a content that holds the key, a blank line and a text gives that text as a value nobody sent |
| `Timestamps.MarkReads` | cells/whisper_server.py:229-235 | a mark read back is the time it was made from, long hours and negative times included |
| `Timestamps.MarkShape` | cells/whisper_server.py:229-235 | a comma or a point as asked before the three last digits, and twelve characters up to a hundred hours |
| `Timestamps.MarksDiffer` | cells/transcribe_server.py:350-355 | no two times share a mark, and the clamped form tells all times apart that are not below zero |
| `ImageHeader.Size` | cells/gr00t_server.py:334-352 | the scan ends and stays in bounds on every byte string |
| `ImageHeader.ScanLaidOut` | cells/gr00t_server.py:341-352 | behind any segments with any fill bytes the frame header's size is read |
| `ImageHeader.SkippedIsSegment` | cells/gr00t_server.py:341-352 | a size is never read past a frame header cut short or a length that does not cover itself |
| `ImageHeader.SizeIff` | cells/gr00t_server.py:334-352 | a size is given exactly for a PNG whose header chunk, or a JPEG whose first frame header, carries it |
| `VoiceCache.RecentIsByLastUse` | cells/moonshine_server.py:187-209 | the order kept is that of the keys' last uses, each used key once |
| `VoiceCache.StaysLatest` | cells/moonshine_server.py:187-209 | one more use of the latest n keys leaves the latest n keys |
| `VoiceCache.Voices.Evict` | cells/moonshine_server.py:195-201 | the oldest leaves the cache and is closed once |
| `VoiceCache.Voices.Trim` | cells/moonshine_server.py:195-206 | what is over the limit goes, each voice closed once, the rest untouched |
| `VoiceCache.Voices.Synthesize` | cells/moonshine_server.py:178-210 | answered by the key's own open voice; the last max(1, N) keys are held, every other loaded voice was closed exactly once, and a failed request changes nothing |
| `ScoreResolver.Resolver.Look` | caravan/admin/benchmarks.py:243-250 | ids known from the map and the pairs that are not |
| `ScoreResolver.IdsAre` | caravan/admin/benchmarks.py:243-250 | asked are exactly the texts in which something is to be seen |
| `ScoreResolver.Resolver.Fetch` | caravan/admin/benchmarks.py:252-270 | the budgeted reading of pages |
| `ScoreResolver.Resolver.Resolve` | caravan/admin/benchmarks.py:228-276 | the whole call: the map, the negative memory, the scores and the misses |
| `ScoreResolver.EveryIdIsAnswered` | caravan/admin/benchmarks.py:228-276 | scores and misses never overlap, nothing unasked is answered, and with budget left every id is one or the other |
| `ScoreResolver.ScoresAreRead` | caravan/admin/benchmarks.py:252-267 | every score was remembered for the id's slug or stands on a page this call read |
| `ScoreResolver.ReadsTwelve` | caravan/admin/benchmarks.py:254-260 | of distinct slugs, min(12, those with a page to read) pages are read, none twice |
| `ScoreResolver.DecidedStays` | caravan/admin/benchmarks.py:252-276 | what is decided for a time stays decided for it through every call |
| `ScoreResolver.FewCallsFallShort` | caravan/admin/benchmarks.py:228-276 | within a day, of n open distinct slugs at most n/12 calls leave an id unanswered, of any list at most n |
| `ScoreResolver.MissHasAScoreIff` | caravan/admin/benchmarks.py:263-275 | a miss has a score in the map exactly when a page of the same call carries it |
| `ScoreResolver.MissWithAScore` | caravan/admin/benchmarks.py:263-275 | and so it is of every two ids of which the second's page carries the first's score and the first's page gives it nothing |
| `ScoreResolver.MissIsReadIff` | caravan/admin/benchmarks.py:258-274 | an id never read is reported as a miss only once its page was read by this call, exactly when the clock is past its first day |
| `UsageLedger.ReadLog` | caravan/admin/cloud_api.py:397-434 | one log's lines counted in the same places the ledger's specification says |
| `UsageLedger.Collect` | caravan/admin/cloud_api.py:388-434 | the whole pass |
| `UsageLedger.FiguresAreWhatHappened` | caravan/admin/cloud_api.py:388-434 | each figure, by account, account's model, model, local model or day, is the sum of tokens and prices over the requests that by their own fields belong to it: to the cloud with that account or model, or to any other upstream with that model asked for |
| `UsageLedger.LeavesNoTraceIff` | caravan/admin/cloud_api.py:406-412 | a request leaves no trace, wherever in its log it stands, exactly when it went to the cloud under no account |
| `UsageLedger.LedgerBalances` | caravan/admin/cloud_api.py:388-434 | accounts, their models, models and days sum to the same requests, tokens and cost |
| `UsageLedger.CountedOnce` | caravan/admin/cloud_api.py:406-434 | each counted request is cloud or local, never both |
| `UsageLedger.DaysAreThoseRead` | caravan/admin/cloud_api.py:388-398 | the days are those whose log was read |
| `UsageLedger.RoundedSum` | caravan/admin/cloud_api.py:454-466 | rounding each entry moves a sum by at most 0.00005 an entry and no count |
| `UsageLedger.TotalsShown` | caravan/admin/cloud_api.py:454-466 | so the local total shown is off by at most 0.00005 a model and once more, the cloud total by 0.00005 |
| `UsageLedger.CreditDayIsReadIff` | caravan/admin/cloud_api.py:321-327 | of any credits, the day one was typed is read exactly when it was typed no later in its day than it is now, or the window or another credit asks for more days |
| `UsageLedger.LoneCreditLosesItsDay` | caravan/admin/cloud_api.py:321-327 | and alone it loses that day exactly when it was typed later in its day and the window does not reach past it |

## Left out

- HTTP serving, sockets, threads, locks, subprocesses, ssh, downloads and the engines behind the cells: a tool's output, a page, a scout's answer or a voice is given.
- The proxy's queue and router graph, accounts, sessions and credentials: not among what is modelled.
- JSON, regular expressions and file encodings: rows, sentences, slugs and parsed trees are given; a day's log is bytes, a row of it a parsed value.
- Floating point: samples and costs are reals, times are whole minutes, seconds or milliseconds; seconds are not rounded to milliseconds.
- Clock changes: a day is 1440 minutes; a date listed twice is read twice, as the code does.
- ProxySources.Walk: the walk is a set; the order in which it is printed is not modelled.
- Processes: a pid is never used again by a later process; a file is loaded, a commit noted and a deploy decided each in one step.
- ProxyHistory.DeployRunsNewCode: of commits that all pass the guard, and of what git says about two of them when it can compare them.
- StrataScratch.Scratch.Config: a folder is wiped whole, file sizes and times stand for contents, and the model's files do not change during a start.
- ClientMisses.RunAll: a log only grows, or is replaced by a shorter file that a question sees; one cut and regrown past its old length between two questions is not covered.
- HandlerSound.ExecAlike: values inside a body are values, not shared objects; a callable named isinstance, _flag or parse_qs is that function; loops have a fuel bound, and handlers that run out of it are compared as such.
- HandlerReading.BodyFields: `answers`, the reading of status codes and media types, is not modelled.
- CellAutostart.Controller.RunMoves: a scout carries a call out, if it does, before the next one is made; its report is heard whole, and none that was sent before an answer is heard after it. A setting stands for a cell's whole config, its port aside.
- CellAutostart.Controller.Delete: the stop sent to the scout afterwards, and a save that raises there, are not modelled.
- CellOutputs.CellOutputs.Follow: the routers' own document is an answer, not a state.
- AudioSplit.SplitAtQuiet: 80% of the window is the floor of 4/5 of it; resampling and the segment list are not modelled.
- Multipart.ExtractFile: the boundary is given, not read off the content type. The transcribe cell's own reader strips trailing line breaks and dashes off the file and is not modelled.
- Multipart.RoundTripAround: the closing separator's line has no padding, and its line break is there.
- Multipart.FieldsRoundTrip: the key must not stand in a content or on a boundary's line; `Multipart.StrayValue` is a body where it does.
- PageSplice.SpliceAgainIff: of markers on one line, the end one no longer than the start one and not in it, as the page's two are.
- ImageHeader.SizeIff: what follows the dimensions, and whether the picture can be decoded, is not looked at.
- VoiceCache.Voices.Synthesize: the locale table and the trimming of the voice's name are given; a close that raises counts as a close; the speech itself is not modelled.
- ScoreResolver.Resolver.Resolve: the map is loaded; its file on the disk and the seeding with curated models are not modelled.
- UsageLedger.Collect: the account and model of a request (CloudLeg) and its price (ModelPrices) are given; price flags and the order of the lists shown are not modelled.
- `SpendRecord`, `cloud_upstream_errors`, the path parts of `Gr00tOptions` and the small ordered lists of the board would only add easy members.
