# Policy scan-and-remediate core, modelled in Dafny

This project models the part of the policy application that turns uploaded care policies into
policy documents, scans them for problems and applies the suggested fixes:

- **Ingestion.** `DocumentParserJob` takes an uploaded onboarding policy through `processing` to
  `completed` or `failed`. It converts the file with `DocumentParser`: pandoc for Word files, and
  pdftoppm followed by a vision request for PDFs. A second chat request then sanitises the text
  and extracts a date. The job stores the resulting policy document and marks the account's
  onboarding complete once every onboarding policy is completed. The upload form proposes a
  policy name from the file name (`extractPolicyName`).
- **Scanning.** `PolicyScanJob` runs three scanners in order and then completes or fails the
  document's scan, broadcasting progress on the way.
  - The spelling and CQC scanners each make one JSON request and create one issue per returned
    entry, through `BaseScanner#create_issue`.
  - The conflict scanner holds a tool-calling conversation of at most 50 rounds. Each request is
    retried on rate limiting, with up to 5 retries, header-driven delays and exponential back-off.
    The assistant uses two tools: `get_policy_content` and `report_conflict`, which skips a
    conflict that is already open.
- **Remediation.** `SuggestedChange#apply!` edits the policy's content (replace, insert or
  delete, with a staleness guard). `apply!` and `dismiss!` both run the issue's auto-resolve
  check.

Shape of the model:

- Records that the code updates in place (policy documents, issues, suggested changes,
  accounts, onboarding policies, the policy_documents table) are classes in module `Models`.
  Their methods carry `modifies` frames.
- Pure computations are functions: the text edits, the retry-delay parser, the fence stripper,
  the extension and space clean-up, and the JSON shapes.
- Loops in the source are loops with invariants, proved against specification functions:
  - create_issue's two loops;
  - the scanners' entry loop;
  - the tool-call loop and the conversation loop;
  - the rate-limit retry loop;
  - the reset-time parser's loop;
  - the page-image loop.
- Each job is specified by a function giving the whole effect of a run (`PolicyScanJob.Job`,
  `DocumentParserJob.JobRun`). Lemmas state what the code promises about that function. The
  job's method is proved to produce exactly that effect on the heap.
- Module `Sequences` holds facts about concatenating and slicing sequences. They say nothing about
  the application; the proofs call them where the solver needs the regrouping spelled out.

Everything outside the process is an input of the model. That covers:

- chat replies, including a function from transcript and request number to outcome for the
  conflict conversation;
- `JSON.parse` and `Date.parse`, as functions;
- for the scan job, the replies every scanner gets, bundled in `PolicyScanJob.Replies`;
- what `Open3.capture3` returns;
- the page files found, and reading and Base64-encoding each of them;
- whether a broadcast raises;
- whether the row insert raises;
- the current time.

Ruby behaviour is written out where it matters:

- `String#sub` expands backslash sequences in the replacement;
- `strip`, `blank?` and regexp `\s` use different white-space classes;
- `String#<=>` is the sort order;
- `to_f`, and the retry arithmetic, are real numbers.

The code has these behaviours, which a reader might not expect; the model keeps them:

- **Settled changes can be settled again.** `apply!` and `dismiss!` have no guard on the change's
  current status. A change that is already applied or dismissed can be applied or dismissed
  again (`Models.SuggestedChange.Apply`).
- **Conflict dedup is one-sided.** The check looks at the scanned policy's own open conflicts
  only, not at the unordered pair of documents (`ConflictScanner.ExistingConflict`).
- **Reports reach across accounts.** `report_conflict` looks its target up in every account
  (`ConflictScanner.Target`).
- **A late broadcast failure fails the scan.** When a broadcast raises after `complete_scan!`,
  the rescue still fails the scan (`PolicyScanJob.BroadcastFailureIsRescued`).
- **Content may be stored as non-text.** Sanitising can store nil content, or the `to_s` of a
  non-string JSON value (`DocumentParserJob.TextColumn`).
- **Ingestion failures propagate.** The parser swallows its failures, but the job re-raises
  whatever the insert or the final check raises.

## Model

| member | source | states |
|---|---|---|
| Edits.IncludeGuard | app/models/suggested_change.rb:34-37 | the guard passes exactly when content and original text are present and the text occurs; a missing text raises the stale-suggestion error |
| Edits.ApplyReplace | app/models/suggested_change.rb:34-39 | raises what the guard raises; past the guard it is `sub`: the text around the leftmost occurrence kept, the suggestion's expansion in its place, and it fails exactly when the expansion does |
| Edits.ApplyInsert | app/models/suggested_change.rb:41-43 | the result is the old content (nil as ""), a blank line, then the suggestion, in that order and nothing else |
| Edits.ApplyDelete | app/models/suggested_change.rb:45-50 | behind the guard, the first occurrence of the original text is removed and the length drops by its length |
| Edits.ReplaceChangesFirstOccurrenceOnly | app/models/suggested_change.rb:38 | with a backslash-free suggestion only the leftmost occurrence changes: prefix and suffix kept, suggestion in its place |
| Edits.ReplaceExpandsBackslashSequences | app/models/suggested_change.rb:38 | a suggestion containing `\'` is expanded by `sub` ("ab" with "a" replaced by "x\\'" gives "xbb") |
| Strings.RubySubLiteral | app/models/suggested_change.rb:38 | `sub` with a backslash-free replacement is the literal leftmost replacement |
| Strings.RubySub | app/models/suggested_change.rb:38 | the text itself when the pattern does not occur; otherwise the leftmost match replaced by the replacement's expansion with the text before and after it kept, failing exactly when the expansion fails, with its error |
| Strings.OccursFromContains | app/services/conflict_scanner.rb:82 | trying each position in turn decides `include?` |
| Strings.TrimSlice | app/javascript/controllers/policy_upload_controller.js:70 | trimming removes only white space, from both ends: the input is that white space around the trimmed text |
| Models.StartScanGate | app/models/policy_document.rb:13-17 | start_scan! starts exactly when not scanning, then sets scanning and clears the error; otherwise changes nothing |
| Models.StartScanExclusive | app/models/policy_document.rb:9-17 | a second start_scan! after a successful one refuses |
| Models.FinishingScans | app/models/policy_document.rb:19-25 | complete_scan! keeps the old error and stamps the time; fail_scan! records its message; both allow a new start |
| Models.CompleteAfterFailKeepsStaleError | app/models/policy_document.rb:19-25 | completion right after a failure shows completed with the earlier error message |
| Models.PolicyDocument.StartScan | app/models/policy_document.rb:13-17 | the document's scan columns after start_scan!, and its answer equals can_scan? |
| Models.PolicyDocument.CompleteScan | app/models/policy_document.rb:19-21 | the scan columns after complete_scan! |
| Models.PolicyDocument.FailScan | app/models/policy_document.rb:23-25 | the scan columns after fail_scan!(message) |
| Models.ResolveIffNoPending | app/models/issue.rb:18-21 | the check resolves the issue if and only if no child change is pending, else keeps its status |
| Models.ResolveWithoutChildren | app/models/issue.rb:18-21 | an issue without changes is resolved by the check |
| Models.ResolveIdempotent | app/models/issue.rb:18-21 | running the check twice equals running it once |
| Models.ResolveIgnoresPriorStatus | app/models/issue.rb:18-21 | with nothing pending, every prior status, dismissed included, becomes resolved |
| Models.SettlingLastPendingResolves | app/models/suggested_change.rb:23-29 | settling the last pending change resolves its issue |
| Models.Issue.ResolveIfComplete | app/models/issue.rb:18-21 | the issue's status after resolve_if_complete! on its re-read children |
| Models.Issue.constructor | app/models/issue.rb:25-27 | a new issue is open with no links or changes and takes the document's account unless one is given |
| Models.StatusesOf | app/models/issue.rb:19 | the children's statuses, in order |
| Models.ApplyEditOutcomes | app/models/suggested_change.rb:13-20 | replace and delete fail on a missing text, insert never fails, delete removes the first occurrence |
| Models.SuggestedChange.Apply | app/models/suggested_change.rb:10-25 | a failed edit writes nothing; a successful one writes the content, marks the change applied and runs the resolve check |
| Models.SuggestedChange.Dismiss | app/models/suggested_change.rb:27-30 | the change becomes dismissed whatever it was, and the resolve check runs |
| Models.SuggestedChange.constructor | app/models/suggested_change.rb:4-5 | a created change holds its texts and action and is pending |
| Models.OnboardingPolicy.constructor | app/models/onboarding/policy.rb:7 | an onboarding policy starts pending |
| Models.Account.OnboardingStatuses | app/jobs/document_parser_job.rb:29 | the statuses of the account's onboarding policies, in order |
| Models.Store.FindBy | app/services/conflict_scanner.rb:177 | find_by gives a row with the id, or None exactly when no row has it |
| Models.Store.Insert | app/jobs/document_parser_job.rb:11-15 | create! appends one fresh idle document holding the given values, with the next id |
| BaseScanner.CastActionTypeCases | app/services/base_scanner.rb:27 | nil becomes replace_text, a blank value no action, an unknown name ArgumentError, and a cast action came from its own name |
| BaseScanner.CastActionNameRoundTrip | app/models/suggested_change.rb:4 | every action type casts back from its name |
| BaseScanner.SuggestionError | app/services/base_scanner.rb:24-28 | a suggestion is stored only with a known action and a suggested text |
| BaseScanner.SuggestionValidation | app/models/suggested_change.rb:7-8 | a suggestion is accepted exactly when its suggested text is present unless deleting, its original text present unless inserting, and the column is not null |
| BaseScanner.LinksFrom | app/services/base_scanner.rb:19-21 | the remaining link loop keeps the issue row and never counts past the inputs |
| BaseScanner.ChangesFrom | app/services/base_scanner.rb:23-29 | the remaining change loop keeps every link and never counts past the suggestions |
| BaseScanner.LinksFromCases | app/services/base_scanner.rb:19-21 | linking stops at exactly the first policy listed twice, with the unique-index error, before any change |
| BaseScanner.ChangesFromCases | app/services/base_scanner.rb:23-29 | changes stop at exactly the first invalid suggestion with its error; none fails only when all are valid |
| BaseScanner.CreateIssuePlanCases | app/services/base_scanner.rb:12-32 | the issue row exists unless the description is blank; no error exactly when the description is present, no duplicate link and every suggestion valid, and then everything is stored |
| BaseScanner.LinkRelated | app/services/base_scanner.rb:19-21 | the links created are the inputs' prefix up to the first duplicate |
| BaseScanner.CreateChanges | app/services/base_scanner.rb:23-29 | one fresh pending change per suggestion, holding its texts, up to the first that raises, whose error is returned |
| BaseScanner.CreateIssue | app/services/base_scanner.rb:12-32 | a fresh issue holding the inputs with the links and changes made before any failure, appended to the document; nothing rolled back |
| BaseScanner.ParseResponse | app/services/base_scanner.rb:34-40 | malformed JSON gives nil, a nil content raises TypeError, well-formed JSON gives its value |
| BaseScanner.MapEntries | app/services/spelling_scanner.rb:19-27 | one mapped argument set per entry, in order |
| BaseScanner.FirstFailingFrom | app/services/spelling_scanner.rb:19-28 | the first entry whose mapping or create_issue raises, if any |
| BaseScanner.EntriesOutcome | app/services/spelling_scanner.rb:19-28 | the loop succeeds exactly when no entry raises |
| BaseScanner.CreatedUntilStop | app/services/spelling_scanner.rb:19-28 | a loop stopping at entry k raises its error and keeps the issues made before it |
| BaseScanner.CreatedToEnd | app/services/spelling_scanner.rb:19-28 | a loop that ran to the end succeeds with one complete issue per entry |
| BaseScanner.CreatedFromAll | app/services/spelling_scanner.rb:19-28 | after a successful loop there is one complete issue per entry, in order |
| BaseScanner.CreatedFromNothing | app/services/spelling_scanner.rb:19 | no entries, no issues |
| BaseScanner.HandleEntry | app/services/spelling_scanner.rb:20-27 | one entry: its mapping or create_issue error, and the issue row it left |
| BaseScanner.CreateIssues | app/services/spelling_scanner.rb:19-28 | the loop's outcome and the fresh issues it appended are those the entry specification gives |
| BaseScanner.UnusableReplyCreatesNothing | app/services/spelling_scanner.rb:16-19 | a malformed reply, or one without `issues`, creates nothing and succeeds |
| BaseScanner.RunScan | app/services/spelling_scanner.rb:2-32 | a request only for present content; outcome and issues are those of the parsed entries |
| SpellingScanner.EntryMapping | app/services/spelling_scanner.rb:20-27 | each entry maps to a spelling issue whose suggestions are replace_text with the entry's texts; no suggestions raises |
| SpellingScanner.Scan | app/services/spelling_scanner.rb:2-32 | the spelling scan specified by the shared scan outcome and its created issues |
| SpellingScanner.SuccessfulScanIssues | app/services/spelling_scanner.rb:19-28 | a successful scan leaves one spelling issue per entry, one pending replace_text change per suggestion |
| CqcComplianceScanner.EntryMapping | app/services/cqc_compliance_scanner.rb:43-54 | each entry maps to a CQC issue whose suggestions carry the cast action, replace_text by default |
| CqcComplianceScanner.Scan | app/services/cqc_compliance_scanner.rb:25-59 | the CQC scan specified by the shared scan outcome and its created issues |
| CqcComplianceScanner.SuccessfulScanIssues | app/services/cqc_compliance_scanner.rb:42-55 | a successful scan leaves one CQC issue per entry, each change with the named action or replace_text |
| ConflictRetry.RateLimitedMeaning | app/services/conflict_scanner.rb:81-83 | rate limiting is the TooManyRequests class or "429" in the message |
| ConflictRetry.MatchAt | app/services/conflict_scanner.rb:109 | a match of the duration pattern advances past its start |
| ConflictRetry.ResetSecondsPositive | app/services/conflict_scanner.rb:105-118 | a duration comes back exactly when the matches add up to a positive total, and it is that total |
| ConflictRetry.ParseResetTime | app/services/conflict_scanner.rb:105-118 | the loop over the matches computes the reset-time specification |
| ConflictRetry.WholeSeconds | app/services/conflict_scanner.rb:95 | "1s" reads as one second |
| ConflictRetry.MinutesThenSeconds | app/services/conflict_scanner.rb:95 | "2m30s" reads as 150 seconds |
| ConflictRetry.FractionalSeconds | app/services/conflict_scanner.rb:109 | "1.5s" keeps its fraction |
| ConflictRetry.NoPositiveDuration | app/services/conflict_scanner.rb:117 | a zero duration or no duration gives no delay |
| ConflictRetry.MillisecondsReadAsMinutes | app/services/conflict_scanner.rb:109-115 | "120ms" reads as 120 minutes |
| ConflictRetry.RetryDelaySources | app/services/conflict_scanner.rb:85-103 | no delay without a Hash response; retry-after first; otherwise the reset header's duration |
| ConflictRetry.BackoffDoubles | app/services/conflict_scanner.rb:70 | without headers the waits are 2^(n-1) seconds, doubling, at most 16 within the retry limit |
| ConflictRetry.AttemptAt | app/services/conflict_scanner.rb:56-77 | a wait is possible only while retries remain |
| ConflictRetry.AttemptCases | app/services/conflict_scanner.rb:65-77 | a wait follows exactly a retried error with retries left and a non-negative delay; otherwise the reply or the raised error |
| ConflictRetry.RetryFromCounts | app/services/conflict_scanner.rb:68-69 | one to six requests, one wait before each request after the first |
| ConflictRetry.RetryFromWaits | app/services/conflict_scanner.rb:68-73 | every request but the last failed with a retried error and its wait is the computed delay |
| ConflictRetry.RetryFromEnd | app/services/conflict_scanner.rb:65-77 | the last request decides the run: a reply or a raised error |
| ConflictRetry.OtherErrorsNotRetried | app/services/conflict_scanner.rb:66 | a first error that is not rate limiting is raised after one request |
| ConflictRetry.ChatWithRetry | app/services/conflict_scanner.rb:54-79 | the retry loop computes the retry specification |
| ConflictScanner.OtherPoliciesListing | app/services/conflict_scanner.rb:9-13 | the list maps exactly the same-account, other, non-empty documents' ids to their names |
| ConflictScanner.OtherPoliciesMembers | app/services/conflict_scanner.rb:9-13 | the scanned policy is never listed; a white-space-only document is |
| ConflictScanner.RowsListing | app/services/conflict_scanner.rb:172 | one row per document with its id, name and content |
| ConflictScanner.FindRow | app/services/conflict_scanner.rb:172 | a row with the id, or None exactly when there is none |
| ConflictScanner.FindRowFromMeaning | app/services/conflict_scanner.rb:172 | searching from position k finds a row with the id at or after k, or none exactly when no row from k on has it |
| ConflictScanner.ParsedArgs | app/services/conflict_scanner.rb:159 | nil arguments raise; parsed arguments are the parse of the call's text |
| ConflictScanner.GetPolicyContent | app/services/conflict_scanner.rb:169-174 | not found for an unlisted id; RecordNotFound exactly for a listed id without a row; otherwise that row |
| ConflictScanner.Target | app/services/conflict_scanner.rb:177-178 | the looked-up document has the given id, in any account |
| ConflictScanner.TargetRow | app/services/conflict_scanner.rb:177-178 | the target is missing exactly when no id is given or the table has no row with it |
| ConflictScanner.OpenTargetsMeaning | app/services/conflict_scanner.rb:180-183 | a document is linked by one of the policy's open conflicts exactly when existing_conflict holds for it |
| ConflictScanner.OpenTargetsSnoc | app/services/conflict_scanner.rb:197-203 | a new conflict issue adds the one document it links to the linked ones, and no other |
| ConflictScanner.ReportAnswer | app/services/conflict_scanner.rb:176-206 | the answer, given the issues before the call, is that of the table snapshot and the documents open conflicts link: not found, skipped, the blank-description error, or reported |
| ConflictScanner.ConflictSuggestions | app/services/conflict_scanner.rb:189-195 | one suggestion exactly when both texts are present |
| ConflictScanner.ConflictInputPlan | app/services/conflict_scanner.rb:197-203 | only a blank description fails; otherwise issue, link and suggestion are all stored |
| ConflictScanner.ReportConflict | app/services/conflict_scanner.rb:176-206 | the answer is ReportAnswer of the issues before the call; only Reported adds an issue: a fresh open conflict carrying the report's fields, the only open conflict linked to the target; open conflicts stay unique |
| ConflictScanner.ToolAnswer | app/services/conflict_scanner.rb:157-167 | the answer, given the issues before the call, is the snapshot answer: the parse error, get_policy_content's, report_conflict's, or nil for another tool |
| ConflictScanner.HandleToolCall | app/services/conflict_scanner.rb:157-167 | the answer is ToolAnswer of the issues before the call; only a Reported answer adds an issue, one fresh issue built from the call's own arguments |
| ConflictScanner.AnswerToolCalls | app/services/conflict_scanner.rb:38-45 | calls are answered in order with their due answers until one raises, and the error is that call's due failure; the new issues are fresh, one per call answered Reported, in order, each carrying its report; open conflicts stay unique |
| ConflictScanner.AnswerNext | app/services/conflict_scanner.rb:38-45 | the next call gets its due answer, or its due failure with nothing added; at most one fresh issue, that of the call's report |
| ConflictScanner.NextState | app/services/conflict_scanner.rb:38-45 | a due answer keeps the answers due, adds the document of its report to the linked ones and its issue to the created ones |
| ConflictScanner.AnsweredInOrderEach | app/services/conflict_scanner.rb:38-45 | each answer is the one its call is due on the snapshot, the documents reported by the calls before it counted as linked |
| ConflictScanner.ReportedAsEach | app/services/conflict_scanner.rb:189-205 | the m-th created issue is the m-th report's: an open conflict of the policy linked to the document named, with the report's description, excerpt and suggestion |
| ConflictScanner.RepeatedReportSkipped | app/services/conflict_scanner.rb:180-187 | within one reply, a report_conflict on a document reported earlier in the loop is answered skipped |
| ConflictScanner.ReportedStaysOpen | app/services/conflict_scanner.rb:176-205 | the document of a call answered Reported has a row and is linked by an open conflict for the rest of the loop |
| ConflictScanner.Replies | app/services/conflict_scanner.rb:40-44 | each answer is filed under its call's id |
| ConflictScanner.TurnMessages | app/services/conflict_scanner.rb:32-44 | a round appends the reply, then one tool message per call |
| ConflictScanner.Transcript | app/services/conflict_scanner.rb:17-45 | the transcript starts with the two prompts |
| ConflictScanner.LogAnswers | app/services/conflict_scanner.rb:38-45 | every logged round is answered and logged, and its answers are the due ones, the documents reported in earlier rounds counted as linked |
| ConflictScanner.LogPrefix | app/services/conflict_scanner.rb:23-46 | every prefix of answered, logged rounds is answered and logged |
| ConflictScanner.TranscriptAfterTurn | app/services/conflict_scanner.rb:32-45 | the transcript after a round is the one before it plus the round's messages |
| ConflictScanner.TranscriptLength | app/services/conflict_scanner.rb:17-45 | two prompts, one reply per round and one message per tool call |
| ConflictScanner.LogTurn | app/services/conflict_scanner.rb:30-45 | a round answering the transcript so far extends the log |
| ConflictScanner.TakeTurn | app/services/conflict_scanner.rb:30-45 | one round: one to six requests; the reply chat_with_retry got for the transcript so far with its due answers, or the failure: the retry error or the nil-message error before any call, or the first failing call's due error after the calls before it; the new issues are fresh, one per Reported answer |
| ConflictScanner.Scan | app/services/conflict_scanner.rb:6-50 | no request exactly for blank content or no other policies, and then Done with no issue; otherwise at most 50 logged rounds ending with a reply without tools, or the failing round's error; the new issues are fresh, one per Reported answer in order; open conflicts stay unique |
| ConflictScanner.Round | app/services/conflict_scanner.rb:23-46 | one round extends the conversation and its issues, or fails as the failing round is specified, its reports' issues kept |
| ConflictScanner.Converse | app/services/conflict_scanner.rb:22-46 | the loop's conversation: at most 50 logged rounds and 300 requests, finished or ending in the failing round's error; the new issues are fresh and are the reports' issues, in order |
| ConflictScanner.Started | app/services/conflict_scanner.rb:17-22 | before the first round the transcript is the two prompts and nothing is requested or created |
| ConflictScanner.Iteration | app/services/conflict_scanner.rb:23-46 | the iteration check, a round, and the end of the loop when the round raised or asked for no tools, the conversation then ended as specified |
| ConflictScanner.Concluded | app/services/conflict_scanner.rb:25-36 | a finished conversation ends Done, with the issues of its reports |
| ConflictScanner.FailedConversation | app/services/conflict_scanner.rb:47-49 | a round that raised after rounds that asked for tools ends the conversation with that error |
| ConflictScanner.Abandoned | app/services/conflict_scanner.rb:47-49 | a failing round ends the conversation with its error, its own reports' issues counted |
| PolicyScanJob.ErrorLinesMeaning | app/jobs/policy_scan_job.rb:34-35 | a scanner's line is present exactly when that scanner raised that message |
| PolicyScanJob.SameScannerLines | app/jobs/policy_scan_job.rb:35 | two lines of one scanner are equal exactly when the messages are |
| PolicyScanJob.DistinctLines | app/jobs/policy_scan_job.rb:35 | lines of different scanners differ |
| PolicyScanJob.LinesOfEarlierScanners | app/jobs/policy_scan_job.rb:35 | every error line belongs to a scanner that ran |
| PolicyScanJob.ErrorLinesCount | app/jobs/policy_scan_job.rb:6-17 | the list has exactly one line per scanner that raised, so at most one per scanner that ran, and is empty exactly when all succeeded |
| PolicyScanJob.ScannersInOrder | app/jobs/policy_scan_job.rb:8-15 | each scanner runs after its own status broadcast and only if it went out; a failing scanner does not stop the next |
| PolicyScanJob.JobSettles | app/jobs/policy_scan_job.rb:17-27 | the job never leaves the document scanning, completes it exactly when all scanners and the closing broadcasts succeed |
| PolicyScanJob.CleanRun | app/jobs/policy_scan_job.rb:4-23 | a clean run: three progress updates, scan complete, issues list, completed scan |
| PolicyScanJob.ScannerErrorsFailTheScan | app/jobs/policy_scan_job.rb:17-19 | scanner errors fail the scan with their lines joined by "; " and the job raises nothing |
| PolicyScanJob.BroadcastFailureIsRescued | app/jobs/policy_scan_job.rb:24-27 | a failing broadcast fails the scan with its message and is announced as "Scan failed: " |
| PolicyScanJob.NotifyStatus | app/jobs/policy_scan_job.rb:62-75 | the status update, then the issues list, until one raises |
| PolicyScanJob.RescueScan | app/jobs/policy_scan_job.rb:24-27 | the rescue fails the scan with the message and broadcasts the error |
| PolicyScanJob.Perform | app/jobs/policy_scan_job.rb:4-28 | an unknown id raises and changes nothing; otherwise the document ends as the job specification says, each scanner that ran gave the outcome and created the issues its own scan specifies, conflict scanner included, appended in order, and no other document changes |
| PolicyScanJob.ScanDocument | app/jobs/policy_scan_job.rb:4-28 | the run equals the job specification on the scanners' outcomes, each scanner that ran gave the outcome and issues its own scan specifies, and those that did not run count as Done |
| PolicyScanJob.RunScanners | app/jobs/policy_scan_job.rb:8-15 | status broadcasts each followed by its scanner until one raises: the scanners before it ran, with their error lines and issues, as their scans specify |
| PolicyScanJob.Step | app/jobs/policy_scan_job.rb:8-15 | one status broadcast and, unless it raised, its scanner, which extends what the scanners did |
| PolicyScanJob.RunNext | app/jobs/policy_scan_job.rb:32-37 | the next scanner runs on the issues the earlier ones left and extends the history with its outcome and issues |
| PolicyScanJob.JobStops | app/jobs/policy_scan_job.rb:8-15 | a status broadcast that raises sends the job to its rescue before its scanner |
| PolicyScanJob.JobFinishes | app/jobs/policy_scan_job.rb:17-23 | with the status broadcasts sent, the job finishes with the scanners' error lines |
| PolicyScanJob.ErrorLinesSnoc | app/jobs/policy_scan_job.rb:32-37 | a line is appended exactly for a scanner that raised |
| PolicyScanJob.RunScanner | app/jobs/policy_scan_job.rb:32-37 | scanner i's outcome and new issues as its scan specifies: the spelling and CQC scan outcomes with one issue per entry, the conflict scan's conversation and report issues; its error line when it raised; the table unchanged |
| PolicyScanJob.ScannersRanThen | app/jobs/policy_scan_job.rb:8-15 | a scanner that ran after those of the history extends it |
| PolicyScanJob.BeforesSnoc | app/jobs/policy_scan_job.rb:8-15 | each scanner starts on the issues the document had plus those every earlier scanner created |
| PolicyScanJob.FinishScan | app/jobs/policy_scan_job.rb:17-23 | fail or complete with the joined errors, then the closing broadcasts, as specified |
| PolicyUpload.SpaceSeparators | app/javascript/controllers/policy_upload_controller.js:68 | every `-` and `_` becomes a space, nothing else changes |
| PolicyUpload.ExtractPolicyName | app/javascript/controllers/policy_upload_controller.js:64-71 | the name neither starts nor ends with white space |
| PolicyUpload.CollapseFromMeaning | app/javascript/controllers/policy_upload_controller.js:69 | collapsed text has single plain spaces, adds nothing but spaces, and starts with white space only where the input does |
| PolicyUpload.CollapseFromKeeps | app/javascript/controllers/policy_upload_controller.js:69 | collapsing keeps every visible character, in order: the result and the input have the same visible text |
| PolicyUpload.NameIsClean | app/javascript/controllers/policy_upload_controller.js:64-71 | the name has no separator, single plain spaces only, and no white space at either end |
| PolicyUpload.NameKeepsVisible | app/javascript/controllers/policy_upload_controller.js:64-71 | the name has exactly the visible characters, in order, of the file name with its extension stripped and its separators turned into spaces |
| PolicyUpload.TrimKeepsVisible | app/javascript/controllers/policy_upload_controller.js:70 | trimming drops only white space: the visible characters are kept, in order |
| PolicyUpload.NoSeparatorsLeft | app/javascript/controllers/policy_upload_controller.js:68 | no `-` or `_` survives |
| PolicyUpload.ExtensionRemoved | app/javascript/controllers/policy_upload_controller.js:67 | one recognised extension, in any case, is removed, even after a stem ending in one |
| PolicyUpload.DocxIsNotDoc | app/javascript/controllers/policy_upload_controller.js:67 | a `.docx` name matches neither `.pdf` nor `.doc` |
| PolicyUpload.OtherExtensionKept | app/javascript/controllers/policy_upload_controller.js:67 | any other ending is kept |
| PolicyUpload.SeparatorBeforeExtension | app/javascript/controllers/policy_upload_controller.js:66-68 | "a-.pdf" becomes "a": the extension goes before separators are replaced |
| DocumentParser.StripMarkdownFence | app/services/document_parser.rb:97-102 | nil exactly for blank content; otherwise a stripped text |
| DocumentParser.FencedRoundTrip | app/services/document_parser.rb:97-102 | a fenced body comes back as the body, stripped |
| DocumentParser.OpeningRemoved | app/services/document_parser.rb:101 | the opening fence goes with the white space after it |
| DocumentParser.ClosingRemoved | app/services/document_parser.rb:101 | the closing fence goes with the newline before it |
| DocumentParser.UnfencedContent | app/services/document_parser.rb:97-102 | content without fences is only stripped |
| DocumentParser.SanitizeFailuresFallBack | app/services/document_parser.rb:141-144 | a failed request, blank reply or malformed JSON falls back to the input with no date |
| DocumentParser.SanitizedObject | app/services/document_parser.rb:133-140 | a JSON object gives its content member and a date exactly when published_at is a present string Date.parse accepts |
| DocumentParser.DateOnlyFromReply | app/services/document_parser.rb:137 | a date only ever comes from a present published_at string |
| DocumentParser.AtMostTotal | app/services/document_parser.rb:57 | string order is total |
| DocumentParser.AtMostAntisymmetric | app/services/document_parser.rb:57 | strings ordered both ways are equal |
| DocumentParser.AtMostTransitive | app/services/document_parser.rb:57 | string order is transitive |
| DocumentParser.InsertSorted | app/services/document_parser.rb:57 | inserting keeps the sequence sorted and adds exactly that element |
| DocumentParser.SortSortsPages | app/services/document_parser.rb:57 | the sorted pages are sorted and are a permutation of those found |
| DocumentParser.ImagesMeaning | app/services/document_parser.rb:74-80 | one data URL per page, in page order, when every page reads; otherwise the first unreadable page's error |
| DocumentParser.ImagesFailureSticks | app/services/document_parser.rb:74-80 | an unreadable page fails every longer prefix |
| DocumentParser.ExtractText | app/services/document_parser.rb:64-95 | the loop and request compute the extraction specification |
| DocumentParser.ParseDocument | app/services/document_parser.rb:15-33 | the method computes the parse specification |
| DocumentParser.ParseYieldsResult | app/services/document_parser.rb:15-33 | a result exactly for an attached, openable Word or PDF file converted to non-blank text, and then the sanitised text |
| DocumentParser.OtherTypesYieldNil | app/services/document_parser.rb:18-25 | any other content type yields nil |
| DocumentParser.PdfPagesInOrder | app/services/document_parser.rb:47-62 | a PDF's vision request carries the sorted pages |
| DocumentParserJob.FindPolicy | app/jobs/document_parser_job.rb:5 | a policy with the id, or None exactly when there is none |
| DocumentParserJob.ValidationErrors | app/models/onboarding/policy.rb:9-10 | no validation error exactly when the name is present and a document is attached |
| DocumentParserJob.TextColumn | app/jobs/document_parser_job.rb:11-15 | nil stays nil and a string is stored as it is |
| DocumentParserJob.RunStatuses | app/jobs/document_parser_job.rb:4-24 | a valid policy is set processing first and ends completed exactly when nothing raised, failed otherwise |
| DocumentParserJob.DocumentWithCompletion | app/jobs/document_parser_job.rb:10-17 | a document is created exactly when the policy is valid and the insert succeeds, together with the completed status |
| DocumentParserJob.AccountCompletion | app/jobs/document_parser_job.rb:28-31 | the account is marked complete exactly when the document was created and every other policy is completed |
| DocumentParserJob.FailuresReRaised | app/jobs/document_parser_job.rb:20-24 | every failure is re-raised; an invalid policy keeps its status |
| DocumentParserJob.CheckOnboardingCompletion | app/jobs/document_parser_job.rb:28-39 | the completion time is set and the broadcast's error raised exactly when all policies are completed |
| DocumentParserJob.AllCompletedWhenOthers | app/jobs/document_parser_job.rb:29 | with this policy completed, all are completed exactly when the others are |
| DocumentParserJob.Perform | app/jobs/document_parser_job.rb:4-24 | unknown id raises RecordNotFound and changes nothing; otherwise status, document row, account and outcome are the run specification's |
| DocumentParserJob.Process | app/jobs/document_parser_job.rb:6-24 | the found policy's run, as specified |
| DocumentParserJob.Store | app/jobs/document_parser_job.rb:10-19 | the transaction and completion check for a valid policy, as specified |

## Left out

- Network, subprocess and file I/O are inputs: chat replies, pandoc and pdftoppm results, the
  page files found with their Base64 contents, and whether broadcasts or the insert raise.
  Prompt texts, model names and request parameters are not modelled.
- Logging (`Rails.logger`) and `sleep` are not modelled. The retry waits are returned as a
  list of delays.
- The HTML of the broadcasts is not modelled; each broadcast is an event of the model.
- `after_update_commit :broadcast_progress` of the onboarding policy is assumed not to raise.
- `Date.parse` is an input. `JSON.parse` results are JSON values whose `to_s` rendering is
  given, not computed.
- `to_f` is modelled over real numbers: floating-point rounding is not captured.
- Sorting the page files compares characters by code point, which equals Ruby's byte order for
  UTF-8 names. Other encodings are not modelled.
- `start_scan!` is modelled but not called by the scan job, because the job does not call it.
  Purging old issues before a rescan happens outside the core and is not part of this model.
- `Account#update!` in check_onboarding_completion is assumed to succeed; the account's own
  validations are not part of this model.
- Transactions are modelled only as far as the core relies on them: a failed insert
  leaves no row. Concurrency between jobs, and races between two start-scan requests, are not
  modelled.
- BaseScanner.ScanJson: JSON members of the wrong type are not modelled. The reply is taken to be
  an object (the request asks for `json_object`). An `issues` member that is not an array, entries
  that are not objects, non-string texts and non-string action types are not representable.
- ConflictScanner.ToolArgs: JSON members of the wrong type are not modelled. Arguments that are not
  an object, and ids sent as strings, are not representable.
- ConflictScanner: the conversation reads documents through a snapshot of the
  policy_documents rows, taken when the scan starts. Edits by other processes during a scan
  are not modelled.
- Policy documents, issues and changes are never destroyed in the model (`dependent: :destroy`
  is not modelled).
