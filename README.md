# FB-Automation, modelled in Dafny

FB-Automation moderates the join requests of Facebook study groups. Each
request carries answers. The second answer is the phone number and the third
is a bKash transaction id. The automation looks the transaction id up in a
PostgreSQL payment ledger. It admits the member when the payment exists, is
for a product eligible for that class's group, and has not been used before.
In that case it marks the payment approved. Every other request is declined
with a Bangla reason. Every decision is written to a database log table and to
per-class JSON audit files. A small HTTP server combines the yearly
`report.json` files for a dashboard.

The project models:

- `registry.dfy` (config.js): the class table, the decline messages,
  `setSelectedClass`, `getAvailableClasses`, `updateClassConfig`, and the
  "configured" predicate.
- `payments.dfy` (db_automation.js):
  - the approval decision and the ledger transition of `processPaymentApproval`;
  - the decline-reason log;
  - the member-log row of `saveMemberLog`.
  `Database` is a class whose fields are the tables it updates.
- `moderation.dfy` (the pure parts of fb_auto.js):
  - class-name sanitising;
  - answer collection, the own-key order of `Object.values`, and positional
    field extraction;
  - the routing of a request before the database;
  - the member record's final status;
  - the audit entries;
  - the bounded message buffer;
  - the console class-selection rule.
- `automation.dfy` (the module state of fb_auto.js): a class with
  - the progress counters;
  - the global and per-tab message logs;
  - the per-tab map and the audit files;
  - the decision block of `scrapeMemberRequests`, which swaps the
    eligible-product list into the shared configuration around the ledger
    call;
  - one answer to the console class prompt, applied to the configuration.
- `reports.dfy` (server.js):
  - `combineReports`, as a loop over the reports and over object keys,
    proved equal to a fold;
  - `getAvailableYears`, as a loop with a duplicate check, then a sort;
  - the `/api/` routing;
  - the static-path rewriting.
- `wrappers.dfy`: `Option` and JavaScript truthiness of strings (`x || d`).

## Model

| member | source | states |
|---|---|---|
| Wrappers.OrNull | db_automation.js:258-267 | `x \|\| null`: the value when it is a non-empty string, otherwise null |
| Wrappers.OrDefault | db_automation.js:258-267 | `x \|\| d`: the value when it is a non-empty string, otherwise the default |
| Registry.ConfiguredClasses | fb_auto.js:143-146 | a class is kept iff it is in the table order and has a group URL and at least one eligible product id; never longer than the order |
| Registry.ShippedWellOrdered | config.js:8-36 | the shipped table lists six distinct classes, and its key set is exactly that list |
| Registry.ShippedConfiguration | config.js:8-36 | in the shipped table only Class 10 Science is configured |
| Registry.OnlyOneConfigured | fb_auto.js:143-146 | when exactly one class of a duplicate-free order is configured, the filter yields that class alone |
| Registry.NoneConfigured | fb_auto.js:143-154 | when no class is configured, the filter yields nothing |
| Registry.ShippedLookups | config.js:8-36 | every shipped class other than Class 10 Science has no eligible product id; Class 10 Science has its group URL and three ids |
| Registry.Config.constructor | config.js:4-63 | the loaded object: the shipped table, no selected class, an empty group URL, an empty eligible list and the shipped decline messages, each with text |
| Registry.Config.SetSelectedClass | config.js:89-102 | succeeds iff the class exists; on success it copies that class's URL and eligible ids into the top-level fields; on failure nothing changes |
| Registry.Config.GetAvailableClasses | config.js:104-106 | every class name, each exactly once, in declaration order |
| Registry.Config.UpdateClassConfig | config.js:108-118 | succeeds iff the class exists; then only that class's entry is replaced; no class is added; the top-level fields are untouched |
| Payments.FirstMatch | db_automation.js:51-62 | the first row whose owner is in `"User"` and whose transaction id or text id equals the claim; None iff no row qualifies |
| Payments.Decide | db_automation.js:60-98 | the checks in source order: not found iff no row is visible; otherwise a visible row decides; ineligible products are refused first, then approved rows; approval needs an eligible, unapproved row |
| Payments.ApplyUpdate | db_automation.js:99-110 | the UPDATE marks exactly the rows with the matched user and the claimed transaction id as approved by the given id; all other rows are unchanged |
| Payments.CountTargeted | db_automation.js:99-119 | the UPDATE's rowCount is the number of rows with that user and transaction id, at most the table size; 0 iff no row has both |
| Payments.Process | db_automation.js:44-145 | one call as a function of the table: rows are never added or removed; only an approval changes the table; an approval carries the caller's approver id |
| Payments.ApprovesOnlyWhenDecided | db_automation.js:60-119 | a call approves iff the store does not fail and the checks approve |
| Payments.NotFoundDeclines | db_automation.js:123-136 | when no row matches, the call declines with the not-found reason and count 0, and the table is unchanged |
| Payments.FirstRowDecides | db_automation.js:60-62 | only the first matching row decides; replacing the rows after it changes nothing |
| Payments.IneligibleDeclines | db_automation.js:64-78 | eligibility is checked first: an ineligible product declines with the not-eligible reason, even for an approved row |
| Payments.ApprovedDeclines | db_automation.js:80-96 | an eligible row that is already approved declines with the already-approved reason; the table is unchanged |
| Payments.ApprovalMarksExactly | db_automation.js:98-119 | an eligible, unapproved row is approved; exactly the matched user's rows with this transaction id are marked; the count is their number |
| Payments.ApproveStep | db_automation.js:60-119 | an eligible, unapproved first match yields the UPDATE's count and the updated table |
| Payments.DecidesApprove | db_automation.js:60-98 | an eligible, unapproved first match passes every check |
| Payments.ApprovalTransition | db_automation.js:98-119 | once the checks pass, the call returns the UPDATE's rowCount and the table after the UPDATE |
| Payments.StoreFailureChangesNothing | db_automation.js:45-143 | a failing store leaves the table as it was and never approves; a lookup failure always rethrows; an update failure rethrows exactly when the checks would have approved |
| Payments.DeclinesCarryReason | db_automation.js:70-135 | with decline messages that have text, every decline has a non-empty reason, count 0, and an unchanged table |
| Payments.ProcessKeepsRows | db_automation.js:99-110 | rows are never added or removed; only the approval flag and the approver change; an approved row stays approved |
| Payments.FirstMatchRespectsKeys | db_automation.js:51-58 | two tables that agree on which rows the lookup sees give the same first match |
| Payments.AtMostOnce | db_automation.js:80-119 | once a claim matched by transaction id is approved, the same call declines as already approved and changes nothing |
| Payments.StillFirstAfterUpdate | db_automation.js:51-110 | the row the lookup found first is still found first after the UPDATE |
| Payments.UpdateKeepsFirstMatch | db_automation.js:51-110 | the UPDATE changes no row's owner, transaction id or id, so the lookup's first match is the same |
| Payments.IdFallbackApprovesAgain | db_automation.js:55-110 | a claim matched only through a row's own id leaves that row unapproved, so the same claim is approved again |
| Payments.IdFallbackExample | db_automation.js:55-119 | concrete table: the claim "42" equal to a row id is approved twice, each time with rowCount 0 |
| Payments.DeclineLogFor | db_automation.js:23-41 | each decline appends exactly one log line, with the phone, the transaction id, the approving Facebook id (`approvedId`) and the reason; an approval or an error appends none |
| Payments.BuildMemberLogRow | db_automation.js:258-267 | the inserted values: 'Unknown' for a missing name, 'unknown' for a missing status, NULL for other missing fields, the Q&A unchanged; no column is an empty string |
| Payments.Database.constructor | db_automation.js:8-20 | a ledger with the given payments and users and empty logs |
| Payments.Database.LogDeclineReason | db_automation.js:23-41 | appends one entry to the decline log; nothing else changes |
| Payments.Database.ProcessPaymentApproval | db_automation.js:44-145 | the outcome and the new table are those of the decision function on the old table; the decline log grows by the decline line only; users and member logs are unchanged |
| Payments.Database.SaveMemberLog | db_automation.js:227-280 | on success, appends exactly the built row and reports one row; on a store failure the table is unchanged |
| Moderation.SkipSpaces | fb_auto.js:27 | drops exactly the leading whitespace run (JavaScript `\s`) |
| Moderation.SkipSpacesKeepsCounts | fb_auto.js:27 | skipping a whitespace run keeps every other character as often as it occurs |
| Moderation.CollapseSpaces | fb_auto.js:27 | `replace(/\s+/g, '_')` leaves no whitespace, never lengthens the name, and keeps every character other than whitespace and underscore as often as it occurs |
| Moderation.KeepWordChars | fb_auto.js:27 | `replace(/[^a-zA-Z0-9_]/g, '')` leaves only ASCII letters, digits and underscores, and keeps each of them as often as it occurs; every other character is dropped |
| Moderation.KeepWordCharsAppend | fb_auto.js:27 | the filter works character by character: filtering a concatenation concatenates the filtered parts |
| Moderation.SanitizeClassName | fb_auto.js:26-28 | a sanitised name has only ASCII letters, digits and underscores, and keeps every letter and digit of the name as often as it occurs |
| Moderation.CollapseWithoutSpaces | fb_auto.js:27 | a name without whitespace passes the first replace unchanged |
| Moderation.KeepAllWordChars | fb_auto.js:27 | a name of word characters passes the second replace unchanged |
| Moderation.CollapseRun | fb_auto.js:27 | a whitespace run becomes exactly one underscore |
| Moderation.SkipRun | fb_auto.js:27 | skipping a whitespace run lands on what follows it |
| Moderation.SanitizeIdempotent | fb_auto.js:26-28 | sanitising twice is the same as sanitising once |
| Moderation.CollapsePrefix | fb_auto.js:27 | a prefix without whitespace passes through unchanged |
| Moderation.CollapseWord | fb_auto.js:27 | a word passes through unchanged, whatever follows it |
| Moderation.CollapseSpaceBeforeWord | fb_auto.js:27 | a single space before a word becomes an underscore |
| Moderation.CollapseSpacedTail | fb_auto.js:27 | words separated by single spaces become words separated by underscores |
| Moderation.SanitizeSpacedWords | fb_auto.js:26-28 | three word-character words joined by spaces sanitise to the same words joined by underscores |
| Moderation.KeepWords | fb_auto.js:27 | the second replace keeps underscore-joined words |
| Moderation.SanitizeExample | fb_auto.js:26-34 | "Class 10 Science" sanitises to "Class_10_Science" |
| Moderation.LeadingSpaceCount | fb_auto.js:709-710 | the length of the leading whitespace run: whitespace before it, none at it |
| Moderation.ContentEnd | fb_auto.js:709-710 | where the text ends once the trailing whitespace run is dropped: only whitespace after it, none just before it |
| Moderation.Trim | fb_auto.js:709-710 | `trim`: the slice that starts after the leading whitespace run and is followed only by whitespace; it neither starts nor ends with whitespace |
| Moderation.SetAnswer | fb_auto.js:710 | object assignment: a known question keeps its place and takes the new value; a new question goes last; questions stay distinct; `__proto__` stores nothing |
| Moderation.PutAnswer | fb_auto.js:710 | storing under an ordinary key: a known question keeps its place and takes the value, a new one goes last, questions stay distinct |
| Moderation.SetAnswerKeepsValues | fb_auto.js:709-712 | storing a non-empty answer keeps every stored answer non-empty |
| Moderation.CollectAnswers | fb_auto.js:700-719 | the collected answers have distinct questions and non-empty values, and there are no more of them than items |
| Moderation.AnswerValues | fb_auto.js:738 | the values of a list of pairs, in the list's order |
| Moderation.IndexEntries | fb_auto.js:738 | the answers whose question is an array index (canonical decimal below 2^32 - 1) |
| Moderation.OtherEntries | fb_auto.js:738 | the answers whose question is not an array index |
| Moderation.InsertByIndex | fb_auto.js:738 | inserting an index-keyed answer keeps the indices ascending and adds exactly that answer |
| Moderation.SortByIndex | fb_auto.js:738 | index-keyed answers in ascending index order, a permutation of the input |
| Moderation.PropertyOrder | fb_auto.js:738 | own-key order: a permutation of the answers with the array-index questions first in ascending order, the others after them in creation order; without index questions it is creation order |
| Moderation.ObjectValues | fb_auto.js:738 | `Object.values(answers)`: one value per answer, non-empty when the answers are; creation order when no question is an array index |
| Moderation.IndexKeyComesFirst | fb_auto.js:738-741 | a question named "2" asked second comes first in `Object.values`, so the fields are read from shifted positions |
| Moderation.ExtractFields | fb_auto.js:735-742 | the phone is the second value and the transaction id the third; fewer than two values give neither; exactly two give no transaction id |
| Moderation.MissingReason | fb_auto.js:856-867 | both missing gives the both reason; only the phone missing gives the phone reason; only the id missing gives the transaction reason |
| Moderation.RouteRequest | fb_auto.js:733-889 | no answers iff the answer set is empty; the database is consulted only with both fields present; otherwise it is missing information |
| Moderation.MissingPhoneNeverAlone | fb_auto.js:700-867 | with answers collected from the page, a missing-information decline always cites both fields or the transaction id, never the phone alone |
| Moderation.ProtoOnlyHasNoAnswers | fb_auto.js:710-733 | a request whose only question is `__proto__` stores no property and takes the no-answers path |
| Moderation.InitialMemberData | fb_auto.js:679-688 | the record before the answers are read: the member's name and Facebook id, status 'unknown', no reason, no approver, no Q&A, phone or transaction id |
| Moderation.WithAnswers | fb_auto.js:747-751 | the Q&A, phone and transaction id are filled in and every other field is kept |
| Moderation.AfterDatabase | fb_auto.js:774-855 | the status follows the ledger: approved (and the approver id recorded), declined with its reason, decline_failed for an empty reason, database_error on a throw; the answers, phone, transaction id and names are kept |
| Moderation.WithoutDatabase | fb_auto.js:856-908 | no answers gives no_answers with its reason; missing information gives missing_info with the computed reason and the answers recorded |
| Moderation.DeclineFailedUnreachable | fb_auto.js:797-830 | against the ledger's results, the decline_failed status never arises |
| Moderation.ApprovalEntry | fb_auto.js:37-50 | an approval entry has status 'approved', a null reason, the class name as given, the Q&A, and a non-empty member name defaulting to 'Unknown' |
| Moderation.DeclineEntry | fb_auto.js:80-93 | a decline entry carries the record's status (default 'declined') and its reason (default 'Unknown reason'), both non-empty |
| Moderation.LogFilesDisjoint | fb_auto.js:34-77 | an approvals file and a declines file never coincide, whatever the class names |
| Moderation.LastN | fb_auto.js:306-315 | `slice(-n)`: the n most recent entries, or all of them when fewer |
| Moderation.PushBounded | fb_auto.js:304-315 | after a push the buffer ends with the new entry, stays within 20, and below 20 it is a plain append |
| Moderation.LastNOfPush | fb_auto.js:304-315 | pushing onto the bounded buffer equals keeping the last 20 of the unbounded log |
| Moderation.PushAllKeepsMostRecent | fb_auto.js:299-317 | however many messages arrive, the buffer holds exactly the 20 most recent, in order |
| Moderation.FormatLogEntry | fb_auto.js:300-301 | an entry is '[', the timestamp, ']', one space, then the message, and nothing else |
| Moderation.LowerChar | fb_auto.js:141 | `toLowerCase` of one character: an upper-case ASCII letter becomes the letter 32 code points above, in a..z; every other character stays |
| Moderation.ToLowerAscii | fb_auto.js:141 | `toLowerCase`: each upper-case ASCII letter becomes its lower-case letter and every other character stays; the length is kept |
| Moderation.LowerEqualIff | fb_auto.js:171-173 | two strings are equal once lower-cased iff they have the same length and agree letter by letter ignoring case |
| Moderation.DigitPrefix | fb_auto.js:166 | parseInt reads the longest prefix of digits of the base: the character after it, if any, is not such a digit |
| Moderation.ParseIntJs | fb_auto.js:166 | `parseInt` without a radix: NaN for an empty string or one starting with neither whitespace, a sign nor a digit; a decimal numeral reads as its value |
| Moderation.FindByName | fb_auto.js:171-173 | `find`: a class in the list whose lower-cased name equals the lower-cased answer, at or before every matching position; none iff no class matches |
| Moderation.FirstInTail | fb_auto.js:171-173 | for any match test: a value found first in the tail, behind a head that does not match, is found first in the whole list |
| Moderation.IsAllAnswer | fb_auto.js:141 | a one-character answer asks for every class iff it is "0" |
| Moderation.AllAnswerAnyCase | fb_auto.js:141 | an answer asks for every class iff it is "0", or "all" or "all classes" letter by letter in any letter case |
| Moderation.PickClass | fb_auto.js:166-177 | a parsed number from 1 to the class count picks the class at that position; otherwise a case-insensitive name; a picked class is in the list; none only when no name matches |
| Moderation.SelectClass | fb_auto.js:141-197 | a chosen class is in the list and is configured; 'all' is granted only for the answers 0, all, all classes |
| Moderation.SelectAllIffConfigured | fb_auto.js:141-163 | an 'all' answer is granted iff some class is configured, and otherwise resolves to null |
| Moderation.SelectByNumber | fb_auto.js:166-193 | a number k from 1 to the class count picks the k-th class, or null when that class is not configured |
| Moderation.SelectByName | fb_auto.js:170-196 | otherwise a case-insensitive name picks that class (null when unconfigured); an answer matching nothing asks again |
| Moderation.ShippedSelectByNumber | fb_auto.js:166-193 | with the shipped table, "5" selects Class 10 Science |
| Moderation.ShippedSelectUnconfigured | fb_auto.js:179-188 | with the shipped table, "2" (Class 7, not configured) resolves to null |
| Moderation.SelectPicked | fb_auto.js:166-193 | an answer that is not an 'all' answer and picks a class selects it when configured, and resolves to null otherwise |
| Moderation.SingleDigitPicks | fb_auto.js:141-168 | a one-digit answer from 1 to the class count is not an 'all' answer and picks the class at that position |
| Moderation.ParseSingleDigit | fb_auto.js:166 | `parseInt` of one decimal digit is that digit's value |
| Moderation.SingleDigitParts | fb_auto.js:166 | one digit has no whitespace to trim, is its own digit prefix and has its own value |
| Moderation.ShippedSelectAll | fb_auto.js:141-163 | with the shipped table, "ALL" is granted |
| Automation.AppendEntry | fb_auto.js:52-107 | the file gains exactly one entry, last; earlier entries and every other file are untouched |
| Automation.EligibleFor | fb_auto.js:757-762 | the list handed to the ledger: the tab class's eligible ids in multi-tab mode with a class, else the current list; none (a throw) iff the tab class is unknown |
| Automation.Consultation | fb_auto.js:755-772 | an unknown tab class throws and changes nothing; the ledger never adds or removes rows, and changes them only on an approval |
| Automation.AuditClass | fb_auto.js:788 | the audit goes to the tab's class in multi-tab mode with a class, otherwise to the selected class |
| Automation.AuditAfter | fb_auto.js:786-906 | without a class, or for a failed decline, the files are unchanged; an approval appends its entry to the class's approvals file; a decline appends to its declines file |
| Automation.AuditAfterAppendsOnly | fb_auto.js:786-906 | logging a record appends at most one entry to one file and only extends existing files |
| Automation.PromptClassSelection | fb_auto.js:137-197 | one answer to the class prompt resolves as the selection rule says; a configured chosen class is applied through setSelectedClass (selected class, group URL and eligible ids copied); 'ALL', null and an invalid answer leave the configuration unchanged |
| Automation.Automator.constructor | fb_auto.js:10-16 | zero counters, empty logs, no tabs, single-tab mode |
| Automation.Automator.AddLogMessage | fb_auto.js:299-317 | pushes the formatted entry into the tab's buffer (multi-tab mode, known tab) or else the global one; the other buffer and the counters are unchanged; every buffer stays within 20 |
| Automation.Automator.InitializeTabData | fb_auto.js:320-327 | the class gets a zeroed record with an empty log; nothing else changes |
| Automation.Automator.UpdateTabProcessingCount | fb_auto.js:330-338 | a known tab gets the new count, and the new total only when one is given; unknown classes are ignored |
| Automation.Automator.StartBatch | fb_auto.js:557-563 | the found count becomes the tab's total (count 0) in multi-tab mode with a class, else the global total with the global count reset |
| Automation.Automator.MarkProgress | fb_auto.js:590-596 | the per-request count goes to the tab or to the global counter, by the same rule |
| Automation.Automator.LogApprovalToJSON | fb_auto.js:31-71 | appends the approval entry to the sanitised class's approvals file |
| Automation.Automator.LogDeclineToJSON | fb_auto.js:74-114 | appends the decline entry to the sanitised class's declines file |
| Automation.Automator.ConsultDatabase | fb_auto.js:755-772 | the ledger decides with the tab class's eligible list (multi-tab mode) or the current list; an unknown class throws before the call; the list is restored after a normal return and stays swapped after a throw |
| Automation.Automator.ProcessMember | fb_auto.js:679-911 | requests without answers or with a missing field never reach the ledger; others take the ledger's outcome; one member-log row unless the save fails; the audit entry goes to the tab class (multi-tab) or the selected class |
| Automation.Automator.RecordAudit | fb_auto.js:786-906 | an approval goes to the approvals file, a decline to the declines file, a failed decline nowhere; nothing is written without a class; counters and logs are unchanged |
| Automation.UnconsultedIsDecline | fb_auto.js:856-908 | a request that skips the ledger is recorded as no_answers or missing_info with its reason, and goes to the declines file |
| Automation.DatabaseErrorDeclines | fb_auto.js:834-852 | a ledger failure is recorded as database_error with the database-error reason, and goes to the declines file |
| Reports.MergeWith | server.js:78-133 | merging a key map: keys are the union; a key present in the report is folded into its entry, created at zero when absent; other keys keep their value |
| Reports.AddClass | server.js:78-96 | one report's counts for a class keep total = approvals + declines; the reason keys are the union |
| Reports.AddDate | server.js:108-132 | the date total grows by the report's own total; the class keys are the union, each merged slot-wise from zero |
| Reports.AddReport | server.js:70-134 | a falsy report changes nothing; rates are untouched; the class, reason and date keys become unions |
| Reports.MapsEqualByAt | server.js:78-133 | two merged maps with the same keys and the same entries are the same map |
| Reports.MergeLoopStep | server.js:91-105 | one key of the forEach merge keeps the loop invariant |
| Reports.MergeLoopStart | server.js:78-133 | before the key loop the accumulator holds every key of `m` still to merge |
| Reports.MergeLoopEnd | server.js:78-133 | once every key is merged, the accumulator is the merged map |
| Reports.MergeInto | server.js:78-133 | the key loop, in any key order, produces the merged map |
| Reports.Accumulate | server.js:70-134 | the reports are folded in order; rates are not computed during the fold |
| Reports.CombineSpec | server.js:136-139 | rates are computed iff totalProcessed > 0 |
| Reports.CombineReports | server.js:52-142 | the accumulating loop yields the fold over the reports |
| Reports.AddReportInto | server.js:70-133 | one iteration folds a report's counts and its three key maps into the accumulator, and a null report is skipped |
| Reports.SummedSnoc | server.js:70-75 | the reference sum, split at the last report |
| Reports.SomeReportHasSnoc | server.js:78-108 | a key appears in some report iff it appears before the last or in the last |
| Reports.SummaryIsSum | server.js:70-75 | the summary counts are the sums over non-null reports, with missing fields as 0 |
| Reports.ReasonsAreKeywiseSums | server.js:100-105 | a reason is in the combined histogram iff some report lists it, and its count is the sum over the reports |
| Reports.ClassKeysFromReports | server.js:78-86 | a class is in the combined report iff some report lists it |
| Reports.ClassCountsAreSums | server.js:87-89 | a class's approvals and declines are sums, and its total is recomputed as approvals + declines |
| Reports.ClassReasonsAreSums | server.js:91-96 | a class's reason histogram is the key-wise sum of the reports' histograms |
| Reports.ClassReasonKeysFromReports | server.js:90-95 | a reason is in a class's combined histogram iff some report lists it for that class, even with count 0 |
| Reports.DateTotalsAreSums | server.js:108-119 | a date is present iff some report lists it; its total is the sum of the reports' own totals, not approvals + declines |
| Reports.DateCountsAreSums | server.js:117-118 | a date's approvals and declines are the sums of the reports' counts for that date |
| Reports.DateApprovalsAreSums | server.js:117 | a date's approvals are the sum of the reports' approvals for that date |
| Reports.DateDeclinesAreSums | server.js:118 | a date's declines are the sum of the reports' declines for that date |
| Reports.DateClassKeysFromReports | server.js:121-128 | a class is under a date in the combined report iff some report lists it for that date |
| Reports.DateClassCountsAreSums | server.js:129-130 | a date-and-class entry's approvals and declines are the sums over the reports |
| Reports.DateClassApprovalsAreSums | server.js:129 | a date-and-class entry's approvals are the sum of the reports' approvals for it |
| Reports.DateClassDeclinesAreSums | server.js:130 | a date-and-class entry's declines are the sum of the reports' declines for it |
| Reports.DateClassTotalsAreSums | server.js:131 | a date-and-class entry's total is the sum of the reports' own totals for it |
| Reports.DateTotalNotRecomputed | server.js:117-119 | a date entry without a total adds nothing to the combined total, whatever its approvals and declines |
| Reports.AllNullGivesZeros | server.js:53-136 | no reports or only null ones give zero counts, empty maps and no rates |
| Reports.FindYear | server.js:153 | `/log(\d{4})/`: the index of the leftmost "log" followed by four ASCII digits; none iff there is no such place |
| Reports.YearIn | server.js:153-156 | the four digits of the leftmost match, read as a decimal number; none iff the name has no match |
| Reports.YearsFound | server.js:146-160 | the years in first-seen order have no duplicates, and a year is found iff some directory name starting with "log" yields it |
| Reports.Insert | server.js:162 | inserting a new year keeps the list strictly ascending and adds exactly that year |
| Reports.SortDistinct | server.js:162 | the sort of distinct years is strictly ascending with the same years |
| Reports.AvailableYears | server.js:145-163 | strictly ascending, no duplicates; a year is listed iff it is the leftmost "log" + four digits of some directory name starting with "log" (so `log2024_log2025` lists 2024 only) |
| Reports.GetAvailableYears | server.js:145-163 | the loop with its duplicate check, then the sort, returns the available years |
| Reports.DecimalString | server.js:196 | a year in a template literal is a non-empty run of decimal digits |
| Reports.DecimalStringNoLeadingZero | server.js:196 | a non-zero year is printed without a leading zero, so `log${year}` never matches a zero-padded directory name |
| Reports.DecimalRoundTrip | server.js:155-196 | printing a year and parsing it back gives the year |
| Reports.PathOf | server.js:168 | `split('?')[0]` is the prefix before the first '?', and it contains no '?' |
| Reports.ClassifyApi | server.js:168-227 | routes in the handler's order: OPTIONS iff preflight; listing and combined need GET and their exact path; a GET four-digit year path is the year route; any other method is unknown |
| Reports.ReportFileFor | server.js:196 | `log${year}`: a name starting "log" followed by digits only |
| Reports.ReportFileNamesYear | server.js:196 | the digits after "log" read back as the year |
| Reports.HandleApiRequest | server.js:166-228 | the status is 200 or 404; 404 iff the body is an error message; there is no body iff the method is OPTIONS (the body of each route is stated by ListingReturnsYears, AllYearsWithoutReports and OneYearResponse) |
| Reports.ReportsFor | server.js:195-198 | at most one entry per year: empty iff no year has a report file; a single year with a file reads exactly that file (with ReportsForAppend this fixes the list) |
| Reports.ReportsForAppend | server.js:195-198 | reading the reports of two year lists one after the other concatenates their reports |
| Reports.OptionsAlwaysSucceeds | server.js:172-177 | OPTIONS gets 200 on every path |
| Reports.PathIgnoresQuery | server.js:168 | the query string is cut off the path |
| Reports.QueryIgnored | server.js:166-228 | the query string never changes the API response |
| Reports.SameRouteSameResponse | server.js:168-227 | two URLs with the same path get the same API response |
| Reports.PathOfNoQuery | server.js:168 | a URL without '?' is its own path |
| Reports.ListingReturnsYears | server.js:180-190 | GET /api/stats lists the available years |
| Reports.AllYearsWithoutReports | server.js:193-207 | GET /api/stats/all answers 404 'No reports found' iff no available year has a report file, and otherwise 200 with the combination of the reports read |
| Reports.OneYearResponse | server.js:211-224 | GET /api/stats/dddd returns that directory's report, or 404 naming the year |
| Reports.OtherMethodsUnknown | server.js:172-227 | any method other than GET and OPTIONS gets 404 'API endpoint not found' |
| Reports.NonDigitYearUnknown | server.js:211-227 | a stats path whose last segment is not all digits, such as abcd, gets 404 'API endpoint not found' |
| Reports.NoQueryAppend | server.js:168 | joining two strings without '?' gives a string without '?' |
| Reports.UnknownPath | server.js:180-227 | a GET path that is neither the listing, the combined path nor a four-digit year path gets 404 'API endpoint not found' |
| Reports.ClassifyAll | server.js:193 | GET /api/stats/all is routed to the combined endpoint |
| Reports.DropTrailingSlashes | server.js:258 | the path without its trailing slashes |
| Reports.AfterLastSlash | server.js:258 | the part after the last '/', as a suffix without '/' |
| Reports.BaseName | server.js:258 | the last path segment contains no '/' |
| Reports.HasExtension | server.js:258 | `path.extname` is non-empty only when the last segment has a dot; never for ".." or a name whose only dot leads it |
| Reports.JoinIndex | server.js:259 | `path.join(p, 'index.html')`: p, a separator when p does not end in '/', then index.html; no ".." is created |
| Reports.StaticFor | server.js:243-260 | forbidden iff the path (after the root rewrite) contains ".."; a served path never contains ".." |
| Reports.StaticPath | server.js:240-260 | the static branch on a URL: forbidden iff its path before '?' is not "/" and contains ".."; a served path never contains ".." |
| Reports.Dispatch | server.js:234-237 | a request is an API request iff its URL starts with "/api/" |
| Reports.RootServesDashboard | server.js:243-245 | "/" serves report-dashboard.html, with or without a query |
| Reports.DashboardServed | server.js:243-262 | the rewritten root path serves report-dashboard.html |
| Reports.DashboardNoDotDot | server.js:243-252 | the dashboard path contains no ".." |
| Reports.AfterLastSlashNoSlash | server.js:258 | a name without '/' is its own last segment |
| Reports.ExtensionlessGetsIndex | server.js:255-260 | a path whose last segment has no extension gets index.html appended |
| Reports.SegmentIsBaseName | server.js:258 | a name without '/' is its own base name |
| Reports.SegmentWithDot | server.js:258 | a one-segment name other than ".." with a dot after its first character has an extension |
| Reports.SegmentWithoutDot | server.js:258 | a one-segment name without a dot has no extension |
| Reports.NoDotNoDotDot | server.js:248 | a path without '.' contains no ".." |
| Reports.ServesSegment | server.js:254-262 | a one-segment path with an extension is served as it stands, without its leading slash |
| Reports.ServesFolder | server.js:254-262 | a one-segment path without a dot is served as that folder's index.html |
| Reports.NoDotDotInSlice | server.js:248-255 | dropping the leading slash cannot create a ".." |
| Reports.NoDotDotAppend | server.js:258-260 | joining index.html cannot create a ".." |
| Reports.ApiWithoutSlashIsStatic | server.js:234-260 | "/api" without a trailing slash is served as the static folder api/index.html |

## Left out

- Browser driving is not modelled. This covers Playwright, the DOM queries, toasts, button clicks, navigation, both automation loops and the launcher. The answers a page yields, and the ledger's failures, are inputs of the model instead.
- A click that throws inside the decision block falls into the database-error handler. The model has no exception for it.
- A request without approve and decline buttons is not modelled; it only logs a message.
- Automation.PromptClassSelection: handles one answer. Re-asking after an invalid answer (`AskAgain`), the readline prompt itself and the listing printed before it are console I/O and are not modelled.
- ProcessMember: the log messages and toasts raised during the decision are not modelled. Those pushes are covered by AddLogMessage.
- Automation.Automator.ConsultDatabase: the swap-and-restore of the eligible product list holds only for sequential processing. The multi-tab launcher (fb_auto.js:1046) does not await each tab, and the ledger reads the list after two awaits (db_automation.js:45, 57, 66), so a parallel tab could swap in its own list in between. Interleaved tabs are not modelled.
- Timestamps are opaque inputs (`Clock`, the log timestamp), and the log tables' creation times are left out.
- The two rates are floating point with `toFixed(2)`. Only whether they are computed is modelled (`ratesComputed`).
- SQL row order is unspecified without ORDER BY. The model's "first row" is the first in table order.
- The connection pool, `client.release` and the 2-second pause after an approval are not modelled.
- Report counts are numbers or missing. A string count would concatenate under JavaScript `+=`; that case is not modelled.
- A `byClass` or `byDate` entry that is null would throw; that case is not modelled.
- The order of keys in the combined JavaScript objects is not modelled, because maps are unordered.
- JSON parsing is not modelled. A malformed or unreadable file counts as absent.
- Automation.Automator.LogApprovalToJSON, Automation.Automator.LogDeclineToJSON, Automation.Automator.RecordAudit: a failed audit write (an unreadable file, JSON that is broken or not an array, a failed write) is caught inside the logging function (fb_auto.js:68-70, 111-113) and only logged to the console, so the file stays as it was and the decision goes on. The model always appends. An absent file and an empty file both read as no entries.
- `decodeURIComponent` is the identity here. A malformed escape sequence would throw.
- `path.join` normalisation (`.` segments, doubled slashes) is not modelled. Neither are the filesystem existence checks, the 404 and 500 file errors, or the MIME table.
- The `endpoints` object in the `/api/stats` body is a constant and is left out.
- `toLowerCase` is modelled on ASCII letters only.
- `parseInt` is modelled for decimal and `0x` prefixes, with an unbounded number. Float precision is not modelled.
- Keys inherited from `Object.prototype` (such as `toString` or `constructor`) are not modelled as present. In config.js a class of that name would pass `this.CLASSES[className]`. In `combineReports` (server.js:79, 92, 101, 109, 122) the `!combined...[key]` tests would see the inherited function and skip the zero initialisation, so such a key would concatenate instead of sum. The report maps here start empty for every key.
- Reports.MergeWith, Reports.AddClass, Reports.AddDate: a report key `__proto__` would reach the prototype accessor instead of creating an entry; the model treats it as an ordinary key. Only the answers object models `__proto__` (Moderation.SetAnswer).
- The other exports of db_automation.js (`getPendingPayments`, `testConnection`, `main`, `getMemberLogs`) are query plumbing and are not modelled.
- setup_classes.js, scripts/test_db.js and the api/ handlers are not part of this model.
- Where the project's documentation and the code differ, the model follows the code:
  - A ledger failure declines the member with the database-error reason. The processing does not halt.
  - A non-four-digit year path gets 404 'API endpoint not found'. It does not get 400.
  - The phone number is never checked against the ledger, so `DECLINE_PHONE_MISMATCH` is never used.
  - No class-name aliasing exists.
- The `/api/stats/all` endpoint reads `log<year>` with the year printed as a number. A directory named `log0999` is therefore read as `log999`. The model keeps this (`ReportFileFor`).
