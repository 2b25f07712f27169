# AstraCode: a verified model of the judge's core

This project models, in Dafny, the parts of the AstraCode online judge whose behaviour is hardest to see from
reading one function, and proves what they promise over every input and every run. It has no dependencies;
`dafny verify dfyconfig.toml` checks all of it.

| files | part of the system |
|---|---|
| `SubmissionStream.dfy`, `StreamSafety.dfy`, `StreamDisplay.dfy` | the live-update client of the website: an asynchronous state machine of ticket requests, event sources, retry timers and generations |
| `EditorKeys.dfy`, `EditorTyping.dfy`, `EditorIndent.dfy`, `EditorKeeps.dfy` | the key engine of the code editor |
| `JudgingProtocol.dfy`, `JudgingTables.dfy`, `JudgingSafety.dfy`, `JudgingOrigins.dfy`, `JudgingOutage.dfy`, `RelayPage.dfy`, `JudgingMarks.dfy` | submissions, attempts, outbox, job and result topics, and the guarded application of results |
| `OutputComparator.dfy` | the output comparison that decides every verdict |
| `FormatBackfill.dfy`, `HeadingPattern.dfy`, `BackfillLaws.dfy`, `MigrationRun.dfy` | the legacy statement splitter and its migration run |
| `LogoutCutoff.dfy` | the expiring logout-all cutoff and the admission check |
| `ActivityCalendar.dfy` | the activity calendar of a profile |
| `ProgressLoader.dfy` | the paged history loader and its cache |
| `Verdicts.dfy`, `Lines.dfy`, `GoText.dfy`, `Arithmetic.dfy` | shared vocabulary: statuses, texts as lines, Go's white space, quotients |

How it is modelled:

- The live-update client and the judging protocol are step functions over a state; a class beside each holds the same
  fields and its methods, written as the source writes them, are proved to take exactly those steps. Runs
  are arbitrary sequences of stimuli or actions: the environment interleaves, repeats and reorders freely.
- The browser is assumed only to deliver nothing on a closed source, a cleared timer or a settled request (section 9.2 of the
  HTML Standard for event sources). React runs a cleanup before the next effect. An aborted request may still
  settle either way.
- Clocks, jitter, attempt ids, the worker's reports, other writers and store failures are parameters, so every statement holds for
  all of them.

What turned out differently from what one would expect, each with a concrete input and its exact condition:

- Tab followed by Shift+Tab over a selection restores text and selection exactly when the selection does not start at
  offset 0 of a text that begins with a line feed (`TabRoundTrip`). There the line range starts one line late; on the
  text of a single line feed the pair of keys doubles it (`TabRoundTripFails`). At a caret the two keys restore text and
  caret exactly when only spaces stand before the caret in its line (`TabAtCaretRoundTrip`).
- A token refused after a logout-all is admitted again exactly when the last cutoff stored for its user is smaller than
  the token's issue time, or not positive (`ReadmittedExactly`, `SmallerCutoffReadmits`). The use cases read the clock
  before they write the store, so concurrent logouts can be stored in the other order: then a token between
  the two readings is admitted again (`RacingLogoutsReadmit`). With cutoffs at most a delay older than their writes,
  a token is refused for good once it was issued at least that delay before a logout was stored
  (`LogoutNowIsFinal`), and for no delay does this hold one second later (`DelayIsTight`).
- A failing history load clears the cache even when it holds a newer, healthy load (`OldFailureDropsNewLoad`). A cached
  load survives exactly those calls that neither invalidate, nor deliver the failure of any load, nor fetch with force or
  after the lifetime (`CachedLoadSurvivesExactly`).
- At the end of a text the pair-deletion test compares two undefined values as equal, so the handler itself deletes the
  last character (`BackspaceAtEnd`). `BackspaceExactly` says when the handler takes Backspace at all; `PlainBackspace`,
  that outside indentation and pairs the user sees the browser's own deletion exactly unless the text ends in a surrogate
  pair, of which the handler deletes one half (`HalfCharacterLeft`).
- A row whose formats consist of white space passes the migration's own test but not the condition of its update
  statement (`BlankFormatIsStuck`). A quiet apply run migrates exactly the ready rows with two empty formats and counts
  exactly the other ready rows as changed concurrently (`QuietRun`), as many on the next run (`SecondRunMigratesNothing`).
- The update of the migration tests the formats but not the description: whatever text an editor saves between the listing
  and the update is lost, and the row is logged as migrated (`EditIsLost`). What is stored is the migration of the
  row as it stands exactly when its text splits like the listed one (`EditSurvivesExactly`).
- The relay gives an outbox record up after five failed sends (`FiveFailuresStrand`), but the record stays pending and keeps
  its place in the page of a hundred rows that the relay reads. With rows returned in any fixed order, an
  open submission can no longer get a verdict exactly when its job was never sent and its record was given up or comes
  after a hundred given-up records; a rejudge demands a verdict, so it then stays open in every continuation
  (`OutOfReachExactly`). An outage with more than a hundred records waiting is enough, and the last one is lost
  without a single failed send of its own (`OutageStarves`, `CrowdStarves`). The query names no order. If the database
  returns whichever pending rows it likes, only a given-up record is lost for certain, and every other submission still
  has a completing continuation, in which the database does return its row (`StrandedExactly`).

## Model

| member | source | states |
|---|---|---|
| SubmissionStream.StreamClient.constructor | website/src/lib/submission-stream.ts:92-104 | a new hook has generation 0, the initial attempt id, otherwise empty refs, and shows idle |
| SubmissionStream.StreamClient.Dispatch | website/src/lib/submission-stream.ts:122-285 | every callback of the hook, and React's start and cleanup, is exactly one step of the machine; an impossible callback changes nothing |
| SubmissionStream.StreamClient.StartEffect | website/src/lib/submission-stream.ts:122-127 | starting an effect opens a generation, resets latch, attempt binding and error, and connects only if enabled with a truthy id |
| SubmissionStream.StreamClient.ConnectNow | website/src/lib/submission-stream.ts:206-216 | connecting releases request, source and timer before it issues the next request, and does nothing in a foreign generation |
| SubmissionStream.StreamClient.HandleTicketIssued | website/src/lib/submission-stream.ts:233-241 | a ticket opens one source for its attempt, unless its generation is over or a terminal event was handled |
| SubmissionStream.StreamClient.HandleTicketRejected | website/src/lib/submission-stream.ts:222-235 | a rejected request schedules the next attempt or reports the ticket error after the last, and is ignored when aborted or stale |
| SubmissionStream.StreamClient.HandleSourceError | website/src/lib/submission-stream.ts:248-266 | an error closes its source and schedules the next attempt or reports the stream error after the last |
| SubmissionStream.StreamClient.HandleRawEvent | website/src/lib/submission-stream.ts:182-204 | a message is reported as malformed, ignored, or forwarded and, if terminal, completes the stream |
| SubmissionStream.StreamClient.CompleteWith | website/src/lib/submission-stream.ts:173-180 | completion latches once, closes source and timer and tells the user |
| SubmissionStream.StreamClient.CleanUp | website/src/lib/submission-stream.ts:279-284 | cleanup ends the generation and releases request, source and timer |
| StreamSafety.OneConnection | website/src/lib/submission-stream.ts:122-284 | in every reachable state at most one of request, source and timer is live, each is the one in its ref and of the mounted effect; every other unsettled request is aborted and of an older generation |
| StreamSafety.NeverStuck | website/src/lib/submission-stream.ts:206-271 | a mounted connecting effect has an effort under way exactly as long as it shows neither completed nor error |
| StreamDisplay.DisplayExactly | website/src/lib/submission-stream.ts:122-271 | in every run a mounted hook shows requesting_ticket for the first pending request and reconnecting for later ones, open for a live source exactly once it was reported open and connecting before, reconnecting for a pending timer except requesting_ticket when the first ticket was rejected, idle exactly when it is disabled or has no id or id 0 and else the outcome told, and an error exactly in the phase error, the one told |
| StreamDisplay.CleanupKeepsDisplay | website/src/lib/submission-stream.ts:279-284 | cleanup leaves the shown phase and error as they were |
| StreamSafety.OutcomeOnce | website/src/lib/submission-stream.ts:150-204 | in every generation of every run onTerminal and onError together fire at most once, as the last act; onTerminal repeats the terminal event just sent to onStatus |
| StreamSafety.ActsInOrder | website/src/lib/submission-stream.ts:206-271 | in every generation of every run acts follow in order: request, source, events, one of five waits of 1, 2, 4, 8 and 10 seconds plus at most 249 ms, the next request, and a ticket or stream error only after the sixth request |
| StreamSafety.OutcomeAbsorbing | website/src/lib/submission-stream.ts:173-271 | once completed or error is shown no callback before cleanup changes a ref or the state or reaches the user |
| StreamSafety.StaleCallbackInvisible | website/src/lib/submission-stream.ts:183-266 | a callback of an earlier effect run changes no ref and no state and reaches no user callback |
| StreamSafety.OneAttemptPerGeneration | website/src/lib/submission-stream.ts:155-171 | all events a generation forwards are of its submission, of the initial attempt when given, and of the first non-empty attempt id forwarded |
| StreamSafety.EventFilterExact | website/src/lib/submission-stream.ts:155-204 | an event on the open source is forwarded exactly when it is of the submission and no non-empty attempt id is bound or it is of the bound one; every status but PENDING and JUDGING also completes the stream; otherwise nothing changes |
| StreamSafety.ConnectionBudget | website/src/lib/submission-stream.ts:37-39 | every generation makes at most six requests, opens at most six sources and schedules at most 26,245 ms of backoff |
| StreamSafety.RetryDelays | website/src/lib/submission-stream.ts:78-82 | retry k waits 1, 2, 4, 8 and then 10 seconds plus jitter |
| StreamSafety.RankDecreases | website/src/lib/submission-stream.ts:206-271 | every callback that moves the connection lowers a rank of remaining attempts and phase, and no other callback raises it |
| StreamSafety.GenerationTerminates | website/src/lib/submission-stream.ts:206-271 | however long a generation lasts, at most eighteen callbacks move its connection |
| StreamSafety.RunInv | website/src/lib/submission-stream.ts:122-284 | every run keeps ownership of live objects, the shown phase and the per-generation history consistent |
| EditorKeys.HandleCodeEditorKeyDown | website/src/lib/codeEditorKeys.ts:33-88 | the handler makes the edit of its key, or none for modified and foreign keys |
| EditorKeys.IsEscapedAt | website/src/lib/codeEditorKeys.ts:322-328 | true exactly when an odd number of backslashes stands before the index |
| EditorKeys.VisualColumns | website/src/lib/codeEditorKeys.ts:211-218 | the visual column of every prefix |
| EditorKeys.NextColumn | website/src/lib/codeEditorKeys.ts:211-218 | a tab moves to the next multiple of the tab size, every other character by one |
| EditorKeys.DeleteIndentationToPreviousTabStop | website/src/lib/codeEditorKeys.ts:180-209 | the loop finds the greatest offset whose column is not beyond the tab stop |
| EditorKeys.CountOutdentChars | website/src/lib/codeEditorKeys.ts:307-316 | one tab, or the leading spaces up to the tab size |
| EditorKeys.OutdentCount | website/src/lib/codeEditorKeys.ts:307-316 | one for a leading tab, else the leading spaces up to the tab size |
| EditorKeys.OutdentLines | website/src/lib/codeEditorKeys.ts:277-289 | each line's removal, the shortened lines and the total |
| EditorKeys.Outdent | website/src/lib/codeEditorKeys.ts:273-296 | Shift+Tab with its adjusted selection |
| EditorKeys.LineIndent | website/src/lib/codeEditorKeys.ts:318-320 | the longest run of blanks and tabs at the start of a line |
| EditorKeys.LeadingSpaces | website/src/lib/codeEditorKeys.ts:311-315 | all counted characters are spaces, and the count stops at the limit, the end or another character |
| EditorTyping.TypingInserts | website/src/lib/codeEditorKeys.ts:60-149 | typing any word in any language at any caret leaves exactly that word before the caret, and behind it the closers still owed and the rest of the old text |
| EditorTyping.TypedExactly | website/src/lib/codeEditorKeys.ts:60-149 | what every character does at every caret, written out: brackets come in pairs, closers step over themselves, quotes step over themselves behind an even number of backslashes and else come in pairs, angle brackets count in C++ and Java only, the opening one behind a letter, digit, underscore or closing angle bracket |
| EditorTyping.OldTextKept | website/src/lib/codeEditorKeys.ts:134-149 | typing takes nothing from the text behind the caret but a prefix it steps over, and that prefix is a subsequence of the word |
| EditorTyping.WellNestedTyping | website/src/lib/codeEditorKeys.ts:60-149 | a well-nested word of brackets and ordinary characters ends up inserted exactly, with the caret right after it, for every surrounding text |
| EditorTyping.BackspaceUndoesPair | website/src/lib/codeEditorKeys.ts:151-178 | Backspace right after an auto-inserted pair, angle brackets included, restores text and caret |
| EditorTyping.BackspaceExactly | website/src/lib/codeEditorKeys.ts:151-209 | the handler takes Backspace at a caret exactly in blank indentation, between an opener and its closer, or at the end of a text that ends in no such opener; it then deletes back to the tab stop, the pair, or exactly the last character |
| EditorTyping.BlankIndentationIs | website/src/lib/codeEditorKeys.ts:186-193 | a caret is in blank indentation exactly when it stands behind the start of a line of blanks and tabs |
| EditorTyping.PlainBackspace | website/src/lib/codeEditorKeys.ts:54-57 | outside blank indentation and pairs Backspace leaves text and caret as the browser would, if and only if the caret is not at the end of a text that ends in a surrogate pair; there it deletes one code unit |
| EditorTyping.HalfCharacterLeft | website/src/lib/codeEditorKeys.ts:161-177 | the smallest text of which Backspace leaves half a character |
| EditorTyping.BackspaceAtEnd | website/src/lib/codeEditorKeys.ts:151-178 | the smallest text whose last character the handler deletes itself |
| EditorTyping.BackspaceLandsOnStop | website/src/lib/codeEditorKeys.ts:186-208 | on a blank line one Backspace lands exactly on the tab stop before the caret's column, deleting nothing else |
| EditorTyping.StopBefore | website/src/lib/codeEditorKeys.ts:196 | that stop is the greatest multiple of the tab size below the column |
| EditorTyping.SearchLands | website/src/lib/codeEditorKeys.ts:197-201 | no mix of tabs and spaces jumps over a tab stop |
| EditorTyping.PressesReachLineStart | website/src/lib/codeEditorKeys.ts:180-218 | after j presses the caret is on stop ceil(c/tabSize) - j, only text before the old caret is gone, and the line start is reached exactly with the last of ceil(c/tabSize) presses |
| EditorIndent.TabRoundTrip | website/src/lib/codeEditorKeys.ts:251-316 | Tab then Shift+Tab restores text and both selection ends if and only if the selection does not start at a leading line feed |
| EditorIndent.TabRoundTripFails | website/src/lib/codeEditorKeys.ts:298-305 | the smallest failing input, with the text and selection it ends in |
| EditorIndent.TabAtCaretRoundTrip | website/src/lib/codeEditorKeys.ts:251-316 | at a caret, Tab then Shift+Tab restores text and caret if and only if only spaces stand before the caret in its line |
| EditorIndent.ShiftTabExactly | website/src/lib/codeEditorKeys.ts:273-316 | Shift+Tab takes from every selected line one tab, or else its leading spaces up to the tab size, and moves both selection ends along within the line and behind each other |
| EditorIndent.RangeSelects | website/src/lib/codeEditorKeys.ts:298-305 | away from a leading line feed the selected range is whole lines: the selection starts in the first and ends in the last of them, or right behind it |
| EditorKeeps.SelectionStaysInBounds | website/src/lib/codeEditorKeys.ts:33-316 | for every key, state and language the new selection is ordered and within the new text |
| EditorKeeps.VisibleCharactersKept | website/src/lib/codeEditorKeys.ts:180-316 | Tab, Shift+Tab, Enter and indentation Backspace keep the sequence of non-whitespace characters outside a replaced selection |
| EditorKeeps.OpenersNest | website/src/lib/codeEditorKeys.ts:90-125 | any word of openers typed over a selection, angle brackets included, nests around it: the same text stays selected between the word and its closers |
| EditorKeeps.OverSelection | website/src/lib/codeEditorKeys.ts:60-159 | over a selection the handler takes exactly the openers, and leaves every other character and Backspace to the browser |
| EditorKeeps.EnterExactly | website/src/lib/codeEditorKeys.ts:220-249 | Enter for every selection and every indentation c of its line: c again, one unit deeper behind an opening bracket; exactly between ( ), [ ] or { } the closer gets its own line indented by c, and everywhere else just the text behind the selection follows |
| EditorKeeps.EnterColumn | website/src/lib/codeEditorKeys.ts:220-249 | after Enter the caret stands in a new line of blanks at the visual column of the current indentation, one unit further right behind an opening bracket, for any mix of tabs and spaces |
| EditorKeeps.EnterThenBackspace | website/src/lib/codeEditorKeys.ts:180-249 | Enter behind an opening bracket that ends its line, then Backspace, brings the caret to the column of the bracket's line when that is on a tab stop |
| JudgingProtocol.SubmissionEntity.constructor | services/submission/internal/adapter/outbound/persistence/postgres/submission.go:345-363 | loading a row keeps every field |
| JudgingProtocol.SubmissionEntity.MarkCompleted | services/submission/internal/domain/entity/submission.go:123-130 | sets status, measurements and both texts, and keeps work and attempt |
| JudgingProtocol.SubmissionEntity.ResetForRejudge | services/submission/internal/domain/entity/submission.go:132-139 | leaves the submission as a new one of its current attempt |
| JudgingProtocol.SubmissionService.CreateSubmission | services/submission/internal/application/usecase/user/create_submission.go:99-145 | one transaction writes submission, attempt and outbox record, or nothing for an empty or repeated attempt id |
| JudgingProtocol.SubmissionService.RejudgeSubmission | services/submission/internal/application/usecase/admin/rejudge_submission.go:76-114 | a terminal submission gets a fresh attempt, is reset and queued in one transaction; any other is refused |
| JudgingProtocol.SubmissionService.ApplyJudgeResult | services/submission/internal/application/usecase/result/apply_judge_result.go:64-141 | the answer of the use case and its whole committed effect |
| JudgingTables.ParseStatusExactly | services/submission/internal/domain/entity/submission.go:28-57 | a text is a status exactly when it is one of the ten texts, each its own status |
| JudgingTables.ValidateExactly | services/submission/internal/application/usecase/result/apply_judge_result.go:64-79 | a result passes the checks exactly when its ids are positive and not blank, its status is one of the eight verdict texts, its checksum absent or 64 lower-case hex digits, and every test has a positive index and a verdict other than COMPILATION_ERROR |
| JudgingSafety.AppliedExactly | services/submission/internal/application/usecase/result/apply_judge_result.go:64-141 | in every run a result is applied exactly when it passes the checks, names a submission, carries its current attempt id and the submission has no verdict; not found and ignored are told apart, and what is not applied changes nothing |
| JudgingSafety.VerdictHasOneSource | README.md:89-104 | in every run a verdict, one of eight, with its measurements and texts, the attempt's provenance and the stored rows come from one result that carries the current attempt id and the text of that verdict and answers a published job; any other submission is pending and holds no measurement and no text |
| JudgingSafety.EachAttemptCompletesAtMostOnce | README.md:98-104 | however deliveries repeat or reorder, each attempt is completed at most once |
| JudgingOrigins.TriggersTell | services/submission/internal/domain/entity/submission_attempt.go:29-53 | in every run the first attempt of a submission is triggered by submitting it, by its author, and every later one by a rejudge |
| JudgingSafety.CompletedAttemptIsFinal | services/submission/internal/domain/entity/submission_attempt.go:55-61 | a completed attempt and its rows are the same at every later point of every run |
| JudgingSafety.SupersededResultsIgnored | services/submission/internal/application/usecase/result/apply_judge_result.go:92-94 | results of a superseded attempt change nothing at any later point of any run |
| JudgingSafety.VerdictStandsUntilRejudge | services/submission/internal/application/usecase/result/apply_judge_result.go:95-97 | a verdict stays the same until that submission is rejudged |
| JudgingSafety.OneJobPerAttempt | README.md:28-33 | every attempt has exactly one outbox record; every record and every published job carries the work of the attempt's own submission, every published job was committed, and a record is marked published only after its job was sent |
| JudgingSafety.EventsTruthful | services/submission/internal/application/usecase/result/apply_judge_result.go:121-139 | the event hub hears of an attempt at most once, and only its verdict |
| JudgingSafety.ClientsHearOneVerdict | services/submission/internal/adapter/inbound/http/handler/user/submission_events.go:74-128 | snapshots taken at any two points of a run and the hub's events never tell different verdicts of one attempt |
| JudgingSafety.MessagesFitVerdicts | services/submission/internal/application/usecase/result/apply_judge_result.go:153-183 | in every run the stored texts fit the verdict; a system error shows one fixed sentence |
| JudgingSafety.RunInv | services/submission/internal/domain/entity/submission.go:59-139 | every action keeps submissions, attempts, outbox, topics and events consistent |
| JudgingSafety.RelayInv | services/submission/internal/adapter/outbound/outbox/relay.go:47-130 | the relay keeps the invariant whether sending and marking succeed or fail, and so whether a job is published once or again |
| JudgingProtocol.SubmissionService.ProcessPendingMessages | services/submission/internal/adapter/outbound/outbox/relay.go:47-130 | one poll, working on the rows as it read them, takes exactly the relay steps of those rows, also when it is cut short |
| RelayPage.PageOfQuery | services/submission/internal/adapter/outbound/persistence/postgres/outbox.go:55-60 | the page is the first hundred pending rows, or all of them |
| RelayPage.PollStaysInPage | services/submission/internal/adapter/outbound/outbox/relay.go:47-130 | the rows of a poll are still within the page when their turn comes |
| RelayPage.PagedRunsAreRuns | services/submission/internal/adapter/outbound/outbox/relay.go:47-49 | every run with the page is a run of the protocol, so what holds of all runs holds of it |
| RelayPage.OutOfReachExactly | services/submission/internal/adapter/outbound/outbox/relay.go:47-66 | with a page of a hundred rows in any fixed order, an open submission keeps its row in every continuation if its job was never sent and its record was given up or follows a hundred given-up records; otherwise some continuation gives it a verdict |
| RelayPage.OutageStarves | services/submission/internal/adapter/outbound/outbox/relay.go:64-105 | in every run an open submission whose unsent record follows a hundred pending ones falls out of reach by failures of other records alone |
| RelayPage.CrowdStarves | services/submission/internal/adapter/outbound/persistence/postgres/outbox.go:55-58 | more than a hundred waiting submissions and an outage: the last one is out of reach and was never tried |
| JudgingOutage.StrandedExactly | services/submission/internal/adapter/outbound/outbox/relay.go:64-67 | if the database may return any pending rows, an open submission whose current record was given up unsent keeps its row in every continuation, and every other has a continuation, returning its row, that gives it a verdict |
| JudgingOutage.FailuresStrand | services/submission/internal/adapter/outbound/outbox/relay.go:75-105 | in every run, as long as an open submission's job was not sent, the failures its record has left strand it |
| JudgingOutage.FiveFailuresStrand | services/submission/internal/adapter/outbound/outbox/relay.go:14 | the shortest run that strands a submission |
| JudgingMarks.MarkingIsInvisible | services/submission/internal/domain/entity/submission.go:118-121 | however markings of open submissions as judging are mixed into a run, its state with JUDGING read as PENDING is that of the run without them |
| JudgingMarks.MarkingHarmlessExactly | services/submission/internal/domain/entity/submission.go:118-121 | in every run marking a submission changes no result's answer if and only if it is open; a marked verdict would take a result of its attempt again |
| OutputComparator.NormalizeOutput | workers/judge/internal/domain/output.go:5-15 | the in-place loop computes the normal form |
| OutputComparator.OutputEqual | workers/judge/internal/domain/output.go:17-19 | two outputs are equal exactly when at every line number they show the same text, with lines ended by CRLF, CR or LF, blanks at line ends invisible, and lines past the end empty |
| OutputComparator.PassesAreOneReader | workers/judge/internal/domain/output.go:6-9 | the two replacement passes and the split equal one line reader |
| OutputComparator.NormalFormDecides | workers/judge/internal/domain/output.go:5-19 | equal normal forms and line-by-line agreement are the same |
| OutputComparator.JoinInjective | workers/judge/internal/domain/output.go:14 | lists without an empty tail can be read back from their joined text |
| OutputComparator.FixedPoints | workers/judge/internal/domain/output.go:5-15 | normalisation is idempotent, and its fixed points are exactly the texts with no CR, no blank before a line feed or the end, and no final line feed |
| OutputComparator.CommonPrefix | workers/judge/internal/domain/output.go:5-19 | the same lines in front of both outputs neither hide nor create a difference |
| FormatBackfill.SplitLegacyDescription | services/problem/internal/application/backfill/problem_formats.go:39-80 | the scan with its two indices gives the answer that all headings of the text determine |
| FormatBackfill.SplitTrailingAttribution | services/problem/internal/application/backfill/problem_formats.go:82-89 | the output section ends at the first attribution line |
| FormatBackfill.RepeatRefused | services/problem/internal/application/backfill/problem_formats.go:48-59 | the first repeated heading settles the refusal and its reason |
| HeadingPattern.HeadingIsPattern | services/problem/internal/application/backfill/problem_formats.go:15 | a line is a heading exactly when its trimmed text is optional hashes with blanks, one of the four words in any case, and an optional colon among blanks |
| HeadingPattern.AttributionIsPattern | services/problem/internal/application/backfill/problem_formats.go:16 | a line is an attribution exactly when its trimmed text is the word source in any case, blanks and a colon |
| BackfillLaws.SplitsExactly | services/problem/internal/application/backfill/problem_formats.go:39-80 | a split succeeds exactly when there is one Input and one Output heading, in that order, and all three parts are non-blank, an attribution alone making a description |
| BackfillLaws.RefusedExactly | services/problem/internal/application/backfill/problem_formats.go:39-80 | each refusal has exactly its reason: the first repeated heading and its kind, fewer than one of each, Output before Input, an empty part |
| BackfillLaws.NothingLost | services/problem/internal/application/backfill/problem_formats.go:69-103 | every line is in exactly one section, in order; the parts are the sections without white space at their ends, the attribution moved behind the leading text |
| BackfillLaws.PartsNeverSplitAgain | services/problem/internal/application/backfill/problem_formats.go:37-80 | no part of a successful split contains a heading: each is refused for lack of headings |
| BackfillLaws.ReplaceAddsNoHeading | services/problem/internal/application/backfill/problem_formats.go:40 | replacing CRLF reveals no heading that was not there |
| GoText.SpaceIsWhiteSpace | services/problem/internal/application/backfill/problem_formats.go:44 | trimming removes exactly the characters with the Unicode property White_Space |
| MigrationRun.Run | services/problem/internal/application/backfill/problem_formats.go:106-152 | rows, counters, log and error of the loop, with any other writers and failures around it |
| MigrationRun.FormatRepository.UpdateFormatsForBackfill | services/problem/internal/adapter/outbound/persistence/postgres/problem.go:382-408 | the row is rewritten only while both formats are empty, each column with its own part |
| MigrationRun.ApplyAccounts | services/problem/internal/application/backfill/problem_formats.go:33-35 | an error-free apply run has Scanned = Migrated + Skipped |
| MigrationRun.RunCounts | services/problem/internal/application/backfill/problem_formats.go:112-151 | every scanned row is migrated, skipped or reported ready exactly once; apply tries and a dry run reports exactly the ready rows, in order |
| MigrationRun.RunTallies | services/problem/internal/application/backfill/problem_formats.go:112-151 | each counter is the number of listed rows with that decision; the migrated and the concurrently changed rows of an apply run are together the ready rows, whatever other writers do, and a dry run counts neither |
| MigrationRun.QuietRun | services/problem/internal/application/backfill/problem_formats.go:112-151 | without other writers an apply run migrates exactly the ready rows whose formats are both empty, touches no other row, and counts exactly the ready rows with blank formats as changed concurrently |
| MigrationRun.MigratedHolds | services/problem/internal/application/backfill/problem_formats.go:139-149 | whatever other writers do, a row reported as migrated holds in its three columns the leading text with the attribution, the text between the headings and the text behind them |
| MigrationRun.QuietRunHolds | services/problem/internal/application/backfill/problem_formats.go:112-151 | after a quiet apply run every row is as before or holds the parts of its text in the right columns |
| MigrationRun.PopulatedExactly | services/problem/internal/application/backfill/problem_formats.go:114 | a row counts as populated exactly when a format has a visible character |
| MigrationRun.BlankFormatIsStuck | services/problem/internal/application/backfill/problem_formats.go:114-148 | a row with a blank as its format that a dry run calls ready and an apply run skips as changed concurrently |
| MigrationRun.EditSurvivesExactly | services/problem/internal/adapter/outbound/persistence/postgres/problem.go:382-408 | a migrated row is the migration of the row as it stands if and only if the text as it stands splits like the listed one |
| MigrationRun.EditIsLost | services/problem/internal/application/backfill/problem_formats.go:139-149 | whatever text is saved between the listing and the update is overwritten by the parts of the listed one and reported as migrated |
| MigrationRun.DryRunPredicts | services/problem/internal/application/backfill/problem_formats.go:134-141 | a dry run reports exactly the rows that apply tries to update, whatever other writers do |
| MigrationRun.DryRunWritesNothing | services/problem/internal/application/backfill/problem_formats.go:105-137 | a dry run never fails and never writes |
| MigrationRun.SecondRunMigratesNothing | services/problem/internal/application/backfill/problem_formats.go:106-152 | a second apply run over the new listing, in any order, migrates nothing, changes no row, and again counts as changed concurrently the ready rows with blank formats, as many as the first run |
| MigrationRun.MigrateSettles | services/problem/internal/application/backfill/problem_formats.go:114-149 | after one migration nothing is left to do for a row |
| LogoutCutoff.LogoutAllStore.SetLogoutAllIAT | pkg/auth/logout_all_iat_store.go:35-37 | stores the cutoff under the user's key with the refresh lifetime, for good when that is zero |
| LogoutCutoff.LogoutAllStore.GetLogoutAllIAT | pkg/auth/logout_all_iat_store.go:39-54 | the stored cutoff, or 0 when absent or expired |
| LogoutCutoff.Authenticate | pkg/middleware/auth.go:15-49 | admitted as the given user and issue time exactly when there is a user, a valid issue time and an answer of the store without a live positive cutoff at or after it; each refusal exactly for its own cause |
| LogoutCutoff.AdmittedExactly | pkg/middleware/auth.go:15-49 | after any history of writes, the answer to every request, in the order missing user, invalid issue time, unavailable store, live cutoff, admission |
| LogoutCutoff.KeyInjective | pkg/auth/logout_all_iat_store.go:12-16 | users never share a key |
| LogoutCutoff.LetThroughExactly | pkg/middleware/auth.go:29-38 | a token passes exactly when the user's last cutoff has expired, is not positive or is older than the token |
| LogoutCutoff.OthersUnaffected | pkg/auth/logout_all_iat_store.go:14-37 | writes for other users do not matter |
| LogoutCutoff.ReadmittedExactly | pkg/auth/logout_all_iat_store.go:35-54 | after a positive cutoff an unexpired token at or before it passes again exactly when the user's last cutoff is smaller than its issue time or not positive; key expiry never readmits it |
| LogoutCutoff.NeverReadmitted | pkg/auth/logout_all_iat_store.go:35-54 | with cutoffs that never decrease such a token is never admitted again |
| LogoutCutoff.LogoutNowIsFinal | services/auth/internal/application/usecase/auth/logout_all.go:21-32 | with cutoffs read from the clock at most a delay before they are stored, in any order of concurrent logouts, a token issued at least that delay before a logout was stored is never admitted again |
| LogoutCutoff.DelayIsTight | services/auth/internal/application/usecase/auth/logout_all.go:21-32 | for every delay there is a history within it that readmits a token issued one second later |
| LogoutCutoff.RacingLogoutsReadmit | services/auth/internal/application/usecase/auth/logout_all.go:25-27 | two concurrent logouts stored in the other order readmit a token issued between their readings |
| LogoutCutoff.SmallerCutoffReadmits | pkg/auth/logout_all_iat_store.go:35-37 | a concrete history in which a smaller cutoff readmits a token |
| ActivityCalendar.BuildCalendar | website/src/components/profile/ProfileViews.tsx:285-298 | 365 consecutive days ending today, each with its count, zero where there is none, and shaded deeper from one, two, four and seven submissions on |
| ActivityCalendar.BuildMonthGroups | website/src/components/profile/ProfileViews.tsx:300-327 | the loop fills an insertion-ordered map and pads each entry |
| ActivityCalendar.MonthGroupsAreTheCalendar | website/src/components/profile/ProfileViews.tsx:300-327 | for every run of consecutive days the groups without padding are the calendar in order, one per month, in whole weeks with at most six pads on a side and each day under its Monday-first weekday |
| ActivityCalendar.GregorianMonthsAdvance | website/src/components/profile/ProfileViews.tsx:304 | the months of the Gregorian calendar advance with the days |
| ActivityCalendar.DayIsDate | website/src/components/profile/ProfileViews.tsx:300-312 | every day from 1970 on is a valid date of the Gregorian calendar in the month it is grouped under, and its column is the weekday of that date by the formula of Sakamoto |
| ActivityCalendar.MonthBegins | website/src/components/profile/ProfileViews.tsx:304 | the months begin where the Gregorian calendar puts them, leap years included |
| ActivityCalendar.ProfileCalendar | website/src/components/profile/ProfileViews.tsx:285-327 | the year shown on a profile has that structure by calendar month |
| ProgressLoader.LoadProgress | website/src/lib/progress.ts:29-49 | for n items max(1, min(10, ceil(n/100))) pages are fetched, the first min(n, 1000) items returned in order, truncation reported exactly beyond 1000, and both id sets derived exactly |
| ProgressLoader.ProgressCache.FetchProgress | website/src/lib/progress.ts:51-61 | a fresh cache is served unless forced, otherwise a new load is started and cached |
| ProgressLoader.ProgressCache.LoadFailed | website/src/lib/progress.ts:55-58 | a failing load clears the cache |
| ProgressLoader.ProgressCache.InvalidateProgress | website/src/lib/progress.ts:63-65 | invalidation clears the cache |
| ProgressLoader.ServesRecentHealthyLoad | website/src/lib/progress.ts:51-65 | in every run a fetch starts a new load exactly when it is forced or nothing cached was started less than a minute ago; otherwise it is served the cached load, whose failure was not delivered |
| ProgressLoader.InvalidationIsFinal | website/src/lib/progress.ts:51-65 | after an invalidation every fetch is served a load started after it |
| ProgressLoader.CachedLoadSurvivesExactly | website/src/lib/progress.ts:51-65 | in every run the cached load stays cached through further calls if and only if none of them is an invalidation, a failure of any started load, or a fetch that is forced or too late; otherwise it is never served again |
| ProgressLoader.OldFailureDropsNewLoad | website/src/lib/progress.ts:55-59 | a concrete run in which an older failure drops a newer load |

## Left out

- Kafka, Redis, Postgres, gRPC and SMTP wiring, retries of the result consumer and dead-letter topics: the topics appear as logs
  that deliver in any order and any number of times.
- Request validation before a submission is created (claims, language, source size, problem access, cooldown) and the role
  check before a rejudge: branches that one reading settles.
- The cleaning of worker messages in `publicErrorMessage` (regular expressions, UTF-8 repair, truncation) is a parameter of the protocol.
- No use case calls `MarkJudging`; the runs of `JudgingSafety` contain no such step, and `JudgingMarks` adds it.
- Timestamps of submissions, attempts and events.
- `issueStreamTicket`, URL building and JSON parsing in the live-update client: their outcomes are stimuli.
- Characters stand for UTF-16 code units in the editor, with surrogates written as unused scalars; the browser's deletion of
  longer grapheme clusters is not modelled.
- One relay polls the outbox; the rows it has read are not changed by another relay before their turn.
- The order of pending rows is fixed in `RelayPage` and arbitrary in `JudgingOutage`; an order that changes as rows are
  updated lies between the two.
- Modifier keys are one flag, and multi-character key names other than Tab, Backspace and Enter are one key the handler ignores.
- Parsing of the token's issue-time header, decimal or floating point, and the decimal text in the store: the values are integers.
- Months before 1970 share one key in `GregorianMonth`; labels and date formatting are not modelled.
- The history is taken as fixed while its pages are loaded.
- The listing error of the migration run, slugs and the wording of its log lines.
- Syntax highlighting, rendering, forms, the Python benchmark analysis, role tables and response mapping.
