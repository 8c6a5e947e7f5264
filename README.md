# data-reader ingestion, modelled in Dafny

This project models the ingestion pipeline of the data-reader service, `FileProcessService` in
`data-reader/src/services/fileProcess.ts`. The pipeline reads a text file of person records, one
per line, in the form `name|surname|personalId|status|dateOfEntry|pep|os`. It validates each
line, saves the parsed records into the `people` collection in batches of 100, and reports:

- how many records it parsed (`totalRecords`);
- how many of them it saved (`savedRecords`);
- whether the run succeeded;
- an error log with one entry per rejected line or failed save.

The project has seven modules, one per file:

- `Wrappers` (`wrappers.dfy`): `Option` and `Result`.
- `Text` (`text.dfy`): the string operations the service relies on, restricted to ASCII:
  - `split("|")` and its inverse `Join`;
  - `trim()` and `toLowerCase()`;
  - decimal rendering of numbers, with its inverse.
- `Person` (`person.dfy`): the mongoose `PersonSchema` (`data-reader/src/models/Person.ts`) as an
  acceptance predicate, and the `people` collection behind `person.save()`:
  - the drawn `uuid` is modelled as a counter;
  - the collection's own validator caps name and surname at 256 characters;
  - the collection has unique indexes on `uuid` and on `personalId`.
  - `SaveTo` is the reference definition of one save.
  - `PeopleCollection` is a class whose `Save` method updates the collection in place and is
    proved to follow `SaveTo`.
- `LineParser` (`line_parser.dfy`): `parsePersonLine`, as a pure function from a line to a record
  or a typed error.
- `BatchCommitter` (`batch_committer.dfy`): `processBatch`.
  - `SaveAll` is the reference: it saves the records one after another.
  - `ProcessBatch` and its loop `SaveEach` update the result object and the collection in place,
    and are proved against `SaveAll`.
- `ErrorLog` (`error_log.dfy`): the content `writeErrorsToLog` writes, and a reader that inverts it.
- `Ingestion` (`ingestion.dfy`): `processFile`.
  - `StepLine` describes one iteration of the read loop.
  - `Streamed` is the left fold of `StepLine` over the classified lines.
  - `Drained` is the final commit.
  - `ProcessFileSpec` gives the whole outcome.
  - The `ProcessFile` method keeps the source's mutable state: the buffer, the line counter, the
    error list and the result's counters. It is proved to produce exactly `ProcessFileSpec`.

The input file is a value of type `InputFile`:

- `Missing`: the file does not exist.
- `Readable(lines)`: every line can be read.
- `ReadFails(lines, reason)`: the read stream fails after delivering `lines`. This takes the outer
  `catch` path.

The platform's `new Date(text)` is a parameter `validDate: string -> bool`. It holds when the text
denotes a valid time.

Commit errors are attributed to line `lineNumber - batch.length + 1 + i`, exactly as the source
computes it. That number is the true source line only when the batch's records sit on consecutive
lines. `Ingestion.BlankLineShiftsAttribution` gives a concrete input where it is not: a record on
line 1 followed by a blank line has its failed save reported against line 2.

## Model

| member | source | states |
|---|---|---|
| `Text.SplitCount` | data-reader/src/services/fileProcess.ts:223 | `split` on a delimiter gives exactly one more piece than the text has delimiters |
| `Text.JoinSplit` | data-reader/src/services/fileProcess.ts:223 | joining the pieces of a split with the delimiter gives the original text back |
| `Text.SplitJoin` | data-reader/src/services/fileProcess.ts:223 | splitting a join of delimiter-free fields gives exactly those fields |
| `Text.SplitFieldsFree` | data-reader/src/services/fileProcess.ts:223 | no piece of a split contains the delimiter |
| `Text.Trim` | data-reader/src/services/fileProcess.ts:223 | `trim()` is never longer than its input and neither starts nor ends with whitespace |
| `Text.TrimInfix` | data-reader/src/services/fileProcess.ts:223 | the trimmed text is a contiguous slice of the input, and only whitespace was removed on either side |
| `Text.TrimEmptyIffAllSpace` | data-reader/src/services/fileProcess.ts:67 | `!line.trim()` holds exactly when the line is all whitespace (or empty) |
| `Text.TrimIdempotent` | data-reader/src/services/fileProcess.ts:223 | trimming twice is trimming once |
| `Text.ToLower` | data-reader/src/services/fileProcess.ts:253-254 | `toLowerCase()` keeps the length, maps each capital A to Z to its small letter (code + 32), leaves every other character alone, and leaves no capital behind |
| `Text.ToLowerIdempotent` | data-reader/src/services/fileProcess.ts:253-254 | lowering twice is lowering once, and a text without capitals is its own lowering |
| `Text.IntToStringReadBack` | data-reader/src/services/fileProcess.ts:90 | `${n}` of a line number is all digits and reads back as n; for a negative n it is "-" followed by digits that read back as -n |
| `Text.DecimalRoundTrip` | data-reader/src/services/fileProcess.ts:146 | the decimal text of a count reads back as that count |
| `Text.CanonicalRoundTrip` | data-reader/src/services/fileProcess.ts:146 | a canonical numeral is the rendering of its own value, so the count line has exactly one spelling |
| `Text.NatToStringInjective` | data-reader/src/services/fileProcess.ts:193 | distinct line numbers render to distinct texts |
| `LineParser.Fields` | data-reader/src/services/fileProcess.ts:223 | the fields are the split pieces, each trimmed; there is one more field than there are delimiters |
| `LineParser.ParsePersonLine` | data-reader/src/services/fileProcess.ts:219-266 | `parsePersonLine`: split on the delimiter, trim each field, then check the count, the required fields, the status and the date, in that order, failing on the first check that fails |
| `LineParser.CheckFields` | data-reader/src/services/fileProcess.ts:226-265 | the checks of `parsePersonLine` on the trimmed fields, each with its own error, and the record built from the fields when all pass |
| `LineParser.FieldsAreClean` | data-reader/src/services/fileProcess.ts:223 | no field holds the delimiter or surrounding whitespace |
| `LineParser.FieldCountChecked` | data-reader/src/services/fileProcess.ts:223-230 | the field-count error occurs exactly when the line does not hold six delimiters, and its message is "Invalid number of fields. Expected 7, got n" with n the delimiter count plus one |
| `LineParser.MissingFieldRejected` | data-reader/src/services/fileProcess.ts:232-237 | on a seven-field line, an empty name, surname, personalId, status or date after trimming gives "Missing required fields" and no record |
| `LineParser.EmptyRequiredFieldRejected` | data-reader/src/services/fileProcess.ts:235-237 | the same check, on the trimmed fields |
| `LineParser.InvalidStatusRejected` | data-reader/src/services/fileProcess.ts:240-244 | a seven-field line with all required fields present but a status other than "Activo" or "Inactivo" fails with "Invalid status: s. Must be 'Activo' or 'Inactivo'" |
| `LineParser.InvalidDateRejected` | data-reader/src/services/fileProcess.ts:246-250 | a line that passes the status check but whose date the platform rejects fails with "Invalid date format: d" |
| `LineParser.CheckedRecord` | data-reader/src/services/fileProcess.ts:232-265 | an accepted field list has seven fields; the record carries them in order; status is "Activo" or "Inactivo"; the date is one the platform parser accepts; the booleans are the lenient reading of the last two fields |
| `LineParser.ParsedRecordFacts` | data-reader/src/services/fileProcess.ts:223-265 | a successful parse has name, surname and personalId equal to the trimmed first three pieces, a case-sensitive status from the two values, a valid date, and pep/os true iff the lowered trimmed field is "true" |
| `LineParser.IsTrueTextLowersToTrue` | data-reader/src/services/fileProcess.ts:253-254 | the lenient boolean holds exactly when `toLowerCase()` of the field equals "true" |
| `LineParser.CheckIgnoresBooleans` | data-reader/src/services/fileProcess.ts:252-265 | the pep and os fields never change whether a field list is accepted, only the two booleans |
| `LineParser.BooleansNeverReject` | data-reader/src/services/fileProcess.ts:252-254 | two lines that differ only in their last two fields parse alike: the same error, or records equal up to pep and os |
| `LineParser.TrueTextExamples` | data-reader/src/services/fileProcess.ts:253-254 | "true", "TRUE" and "True" read as true; "false", "yes", "1" and "" read as false |
| `LineParser.FieldsOfCleanJoin` | data-reader/src/services/fileProcess.ts:223 | a line made of clean fields splits back into exactly those fields |
| `LineParser.ParseFormatRoundTrip` | data-reader/src/services/fileProcess.ts:219-266 | rendering a well-formed record as a line and parsing it gives the record back |
| `LineParser.WellFormedAcceptedIffWithinLengths` | data-reader/src/models/Person.ts:22-36 | the schema accepts a record the parser could produce exactly when name and surname fit in 50 characters and personalId in 10 |
| `LineParser.ExampleLineParses` | data-reader/src/services/fileProcess.ts:219-266 | the line of Jane, Doe, 1234567890, Activo, 2023-01-15, true and false joined by the delimiter parses to that record, with pep true and os false |
| `LineParser.ExampleMissingPersonalId` | data-reader/src/services/fileProcess.ts:235-237 | the same line with an empty personalId fails with "Missing required fields" |
| `LineParser.ExampleSixFields` | data-reader/src/services/fileProcess.ts:226-230 | a six-field line fails the count check with got = 6 |
| `LineParser.ExampleSixFieldsMessage` | data-reader/src/services/fileProcess.ts:227-229 | that failure's message reads "Invalid number of fields. Expected 7, got 6" |
| `Person.FailingPaths` | data-reader/src/models/Person.ts:15-54 | validation reports exactly the schema paths whose constraints fail, and reports none exactly when the schema accepts the document |
| `Person.PathHolds` | data-reader/src/models/Person.ts:15-54 | each schema path's constraints: required text within its maximum length, the status enum, and the presence of dateOfEntry, pep and os |
| `Person.Accepts` | data-reader/src/models/Person.ts:15-54 | the schema accepts a document when every path's constraints hold |
| `Person.EveryPathValidated` | data-reader/src/models/Person.ts:15-54 | every path of the schema is validated |
| `Person.AcceptedRecordShape` | data-reader/src/models/Person.ts:22-53 | an accepted document has name and surname of 1 to 50 characters, a personalId of 1 to 10, status "Activo" or "Inactivo", and dateOfEntry, pep and os present |
| `Person.ToStored` | data-reader/migrations/20250715214750-create-person-collection.js:17-26 | a document the schema accepted also passes the collection's own validator (256-character names, 10-character ids, the status enum), and it carries the drawn uuid |
| `Person.SaveTo` | data-reader/src/services/fileProcess.ts:189-190 | every save draws a fresh identity; a successful save appends exactly the accepted document; a failed save leaves the documents alone; a schema failure reports the failing paths |
| `Person.SaveKeepsInvariant` | docker/init-mongo.js:21-22 | a save keeps both unique indexes (uuid, personalId) and the collection validator satisfied |
| `Person.SaveSucceedsIff` | docker/init-mongo.js:22 | on a consistent collection, a save succeeds exactly when the schema accepts the record and no stored document has its personalId |
| `Person.TakenIdRefused` | docker/init-mongo.js:21-22 | on a consistent collection, an accepted record whose personalId is already stored is refused by the `personalId` unique index with that key, never by the `uuid` index, and the collection is unchanged |
| `Person.UuidIndexNeverRefuses` | data-reader/src/models/Person.ts:16-21 | a freshly drawn uuid never collides, so the uuid index never refuses a save |
| `Person.OverlongNameRefused` | data-reader/src/models/Person.ts:22-26 | whatever the collection holds, saving a record whose name is over 50 characters fails validation with exactly the record's failing paths, the name path among them, and stores nothing |
| `Person.PeopleCollection.constructor` | docker/init-mongo.js:20-22 | the collection starts empty and consistent |
| `Person.PeopleCollection.Save` | data-reader/src/services/fileProcess.ts:189-190 | `person.save()` changes the collection and returns the error exactly as `SaveTo` says, and keeps the collection consistent |
| `BatchCommitter.FileProcessResult.constructor` | data-reader/src/services/fileProcess.ts:25-30 | a result starts unsuccessful, with both counters at 0 and no log path |
| `BatchCommitter.SaveAll` | data-reader/src/services/fileProcess.ts:184-199 | saving a batch gives one outcome per record |
| `BatchCommitter.SaveAllSnoc` | data-reader/src/services/fileProcess.ts:184-199 | one more record extends the replay by exactly that record's save |
| `BatchCommitter.SaveAllAppend` | data-reader/src/services/fileProcess.ts:184-199 | saving `a + b` is saving `a`, then saving `b` into what `a` left |
| `BatchCommitter.SaveAllOutcomeAt` | data-reader/src/services/fileProcess.ts:184-199 | record `i` is saved into what records `0..i-1` left, so an earlier failure never stops a later record |
| `BatchCommitter.SaveAllKeepsInvariant` | data-reader/src/services/fileProcess.ts:184-199 | a run of saves keeps the indexes and the validator satisfied, only adds documents, and adds one per success |
| `BatchCommitter.CountOk` | data-reader/src/services/fileProcess.ts:181-191 | the successes never outnumber the attempts |
| `BatchCommitter.CountOkAppend` | data-reader/src/services/fileProcess.ts:205 | success counts of consecutive runs add up |
| `BatchCommitter.FailureLines` | data-reader/src/services/fileProcess.ts:192-197 | the entries a batch logs: "Line start+i - personalId: message" for each failed record i, in index order |
| `BatchCommitter.FailureLinesCount` | data-reader/src/services/fileProcess.ts:192-198 | exactly one entry per failed save |
| `BatchCommitter.FailureLinesSound` | data-reader/src/services/fileProcess.ts:186-197 | every entry is that of a failed record `i`, which it returns: line `startLineNumber + i`, its personalId and its error |
| `BatchCommitter.FailureLinesComplete` | data-reader/src/services/fileProcess.ts:186-197 | every failed record has its entry |
| `BatchCommitter.FailureLinePosition` | data-reader/src/services/fileProcess.ts:186-197 | the position of a failed record's entry among the entries |
| `BatchCommitter.SavedIdsPresent` | docker/init-mongo.js:22 | after a run of saves, the personalId of every record the schema accepted is in the collection |
| `BatchCommitter.AllTakenSavesNothing` | docker/init-mongo.js:22 | when every accepted record's personalId is already stored, nothing is saved and the collection keeps its documents |
| `BatchCommitter.SecondRunSavesNothing` | docker/init-mongo.js:22 | saving the same records a second time saves none of them |
| `BatchCommitter.SecondRunDuplicateKey` | docker/init-mongo.js:22 | on the second save of the same records, each record the schema accepts fails with the duplicate-key error of the `personalId` index, naming its own personalId |
| `BatchCommitter.IdsOfSaveAll` | docker/init-mongo.js:22 | a personalId stored after saving a run of records was stored before it or is the personalId of one of those records |
| `BatchCommitter.FreshRecordsAllSaved` | data-reader/src/services/fileProcess.ts:184-199 | records the schema accepts, with personalIds new to the collection and pairwise distinct, are all saved: the success count equals the number of records and the collection grows by as many documents |
| `BatchCommitter.CommitStep` | data-reader/src/services/fileProcess.ts:184-198 | one iteration of the loop extends the replay, the success count and the error list by that record's save |
| `BatchCommitter.SaveEach` | data-reader/src/services/fileProcess.ts:181-199 | the loop leaves the collection as `SaveAll` does, counts its successes, and appends its failure entries in index order |
| `BatchCommitter.ProcessBatch` | data-reader/src/services/fileProcess.ts:173-211 | `processBatch` adds exactly (successes, batch length) to (savedRecords, totalRecords), appends one entry per failure, and leaves success and the log path alone |
| `ErrorLog.ReadLog` | data-reader/src/services/fileProcess.ts:145-151 | a log that reads back lists the lines after the header, and there are as many as the count line says |
| `ErrorLog.LogLines` | data-reader/src/services/fileProcess.ts:145-151 | the lines the log holds: "Total Errors: n", a blank line, then the errors in order |
| `ErrorLog.LogRoundTrip` | data-reader/src/services/fileProcess.ts:145-151 | reading a written log gives exactly the errors, in order |
| `ErrorLog.ReadLogOnlyWritten` | data-reader/src/services/fileProcess.ts:145-151 | the only log that reads back to some errors is the one written for them |
| `ErrorLog.WriteErrorsToLog` | data-reader/src/services/fileProcess.ts:135-164 | the header "Total Errors: n", a blank line, then each error on its own line, in order |
| `Ingestion.Flush` | data-reader/src/services/fileProcess.ts:80-86 | a commit empties the buffer, moves its length into totalRecords, saves at most that many, and keeps the line counter |
| `Ingestion.StepLine` | data-reader/src/services/fileProcess.ts:63-95 | one iteration of the read loop: count the line; skip it when blank; log "Line n - N/A: message" when the parser rejects it; otherwise buffer the record and commit the buffer when it reaches 100 |
| `Ingestion.Buffered` | data-reader/src/services/fileProcess.ts:75-87 | a buffer of 100 is committed and emptied; a smaller one is kept |
| `Ingestion.Streamed` | data-reader/src/services/fileProcess.ts:63-95 | the state after the read loop has consumed the lines, one `StepLine` per line in order |
| `Ingestion.Drained` | data-reader/src/services/fileProcess.ts:98-106 | after the final commit the buffer is empty |
| `Ingestion.ParsedRecords` | data-reader/src/services/fileProcess.ts:72-75 | there are no more parsed records than lines |
| `Ingestion.RejectedCount` | data-reader/src/services/fileProcess.ts:89-94 | rejected lines and parsed records together never outnumber the lines |
| `Ingestion.FlushConsistent` | data-reader/src/services/fileProcess.ts:75-87 | a commit keeps the accounting: the collection and savedRecords are those of saving every parsed record so far, and there is one error per rejection and per failed save |
| `Ingestion.StepAccounted` | data-reader/src/services/fileProcess.ts:63-95 | every line keeps the accounting, and the buffer stays below 100 between lines |
| `Ingestion.StreamedAccounted` | data-reader/src/services/fileProcess.ts:63-95 | after any prefix of the input: lineNumber counts every line; the committed records are a prefix of the parsed ones, in whole batches of 100; and the buffer holds the rest, fewer than 100 |
| `Ingestion.FlushExactlyAtCapacity` | data-reader/src/services/fileProcess.ts:75-87 | the buffer is committed exactly when a parsed record brings it to 100; otherwise it grows by that record; blank and rejected lines leave the buffer and counters alone |
| `Ingestion.DrainedAccounting` | data-reader/src/services/fileProcess.ts:97-106 | after the last line and the final commit, totalRecords is the number of parsed lines, savedRecords ≤ totalRecords, and the collection is that of saving every parsed record in line order |
| `Ingestion.StreamedLineNumber` | data-reader/src/services/fileProcess.ts:64 | every line is counted, whatever its kind, so lineNumber after k lines is k |
| `Ingestion.StreamedErrorsGrow` | data-reader/src/services/fileProcess.ts:93 | the error list is only ever appended to: after some of the lines it is a prefix of the list after all of them |
| `Ingestion.RejectedLineLogged` | data-reader/src/services/fileProcess.ts:89-94 | every line the parser rejects, anywhere in the file, leaves "Line n - N/A: message" in the final error list, with n its own line number |
| `Ingestion.ErrorsStayLogged` | data-reader/src/services/fileProcess.ts:93-105 | the error list after the first j lines is a prefix of the final one: neither later lines nor the final commit remove or reorder an entry |
| `Ingestion.StaysLogged` | data-reader/src/services/fileProcess.ts:93-105 | an entry logged after the first j lines is still in the final error list |
| `Ingestion.RejectedLineStep` | data-reader/src/services/fileProcess.ts:89-94 | a rejected line j + 1 is logged as "Line j+1 - N/A: message" while that line is read |
| `Ingestion.CommitAtLine` | data-reader/src/services/fileProcess.ts:76-86 | the line whose record fills the buffer appends the batch's failure entries, attributed from `lineNumber - batch.length + 1`, to the entries logged before it, as that line is read |
| `Ingestion.CommittedBatchLogged` | data-reader/src/services/fileProcess.ts:76-86 | a commit triggered by a full buffer appends, right after the entries before it, the batch's failure entries attributed from `lineNumber - batch.length + 1`, and that whole stretch heads the final error list |
| `Ingestion.CommittedFailureLogged` | data-reader/src/services/fileProcess.ts:76-86 | every record of such a batch whose save fails has "Line n - personalId: message" in the final error list, with n its batch-relative line |
| `Ingestion.FinalBatchLogged` | data-reader/src/services/fileProcess.ts:97-106 | the final commit appends the last partial batch's failure entries, attributed from the last line number minus the batch length plus one, after every earlier entry |
| `Ingestion.FinalBatchFailureLogged` | data-reader/src/services/fileProcess.ts:97-106 | every failed record of the last partial batch has its entry in the final error list |
| `Ingestion.ParsedRecordAt` | data-reader/src/services/fileProcess.ts:72-75 | the record parsed from a line is the parsed record whose index counts the records parsed before it |
| `Ingestion.ProcessFileSpec` | data-reader/src/services/fileProcess.ts:22-128 | the outcome of `processFile` on each of its three paths: a missing file, a normal finish and a failing read |
| `Ingestion.MissingFileReport` | data-reader/src/services/fileProcess.ts:41-46 | a missing file gives exactly one "File not found: path" entry, both counts 0, no success, the log path set and the collection untouched |
| `Ingestion.ReadableFileReport` | data-reader/src/services/fileProcess.ts:63-117 | on a normal finish, success holds iff savedRecords > 0; totalRecords is the number of lines that parsed; the log is written iff there is an error; and it lists one entry per rejected line and per failed save; which entries those are is stated by `RejectedLineLogged`, `RejectedLineInLog`, `CommittedBatchLogged`, `CommittedFailureLogged`, `FinalBatchLogged` and `FinalBatchFailureLogged` |
| `Ingestion.RejectedLineInLog` | data-reader/src/services/fileProcess.ts:89-112 | a line of a readable file that the parser rejects always gets the log written, and the log read back holds "Line n - N/A: message" for it |
| `Ingestion.EntryInLog` | data-reader/src/services/fileProcess.ts:108-112 | every entry of the final error list of a readable file is in the log that is written, as read back |
| `Ingestion.ReadFailureDropsPartialBatch` | data-reader/src/services/fileProcess.ts:118-127 | a read failure commits only whole batches of 100, drops the buffer, never succeeds, and ends the log with "File processing error: reason" |
| `Ingestion.ReprocessingSavesNothing` | data-reader/src/services/fileProcess.ts:22-128 | running the same file a second time saves nothing and does not succeed |
| `Ingestion.ReprocessingRefusesEachRecord` | data-reader/src/services/fileProcess.ts:184-198 | on the second run of a file, the run saves the parsed records into what the first run left, and each record the schema accepts fails there with the `personalId` duplicate-key error naming its own id |
| `Ingestion.FreshFileAllSaved` | data-reader/src/services/fileProcess.ts:97-114 | a readable file whose parsed records are accepted, with fresh and pairwise distinct personalIds, has `savedRecords == totalRecords` (the number of parsed lines), succeeds exactly when some line parsed, writes the log exactly when some line was rejected, and grows the collection by `totalRecords` documents |
| `Ingestion.OneRecordFileSaved` | data-reader/src/services/fileProcess.ts:63-114 | a one-line file whose line parses to an accepted record with a personalId the collection does not hold counts one record, saves one, succeeds and writes no log |
| `Ingestion.ExampleLineAccepted` | data-reader/src/services/fileProcess.ts:67-75 | the line of Jane, Doe, 1234567890, Activo, 2023-01-15, true and false joined by the delimiter is classified as a record line and the schema accepts its record |
| `Ingestion.ExampleFileSaved` | data-reader/src/services/fileProcess.ts:22-117 | the one-line file holding that line, read into an empty collection, gives `totalRecords == 1`, `savedRecords == 1`, success, no log, and one stored document |
| `Ingestion.BlankLineRejected` | data-reader/src/services/fileProcess.ts:67-69 | a blank line would fail the count check with one field, so skipping it never hides a record |
| `Ingestion.ClassifyParsed` | data-reader/src/services/fileProcess.ts:66-75 | a line counts as a parsed record exactly when the parser returns that record |
| `Ingestion.BlankLineShiftsAttribution` | data-reader/src/services/fileProcess.ts:100-105 | a record on line 1 followed by a blank line whose save fails is logged against line 2 |
| `Ingestion.OverlongNameCountedNotSaved` | data-reader/src/services/fileProcess.ts:72-105 | a record with a name over 50 characters on any line of any file is among the records committed, its save fails validation on the name path whatever the collection holds by then, so savedRecords < totalRecords and the log is not empty |
| `Ingestion.CommitBuffer` | data-reader/src/services/fileProcess.ts:98-105 | a commit in `processFile` is the `Flush` of the buffer, attributed from `lineNumber - batch.length + 1` |
| `Ingestion.ReadLine` | data-reader/src/services/fileProcess.ts:63-95 | one iteration of the read loop changes the state exactly as `StepLine` does for that line's classification |
| `Ingestion.HandleParsed` | data-reader/src/services/fileProcess.ts:71-94 | a rejection is logged with the line number; a record is buffered |
| `Ingestion.BufferRecord` | data-reader/src/services/fileProcess.ts:74-87 | the record joins the buffer, which is committed and reset once it holds 100 |
| `Ingestion.ReadLines` | data-reader/src/services/fileProcess.ts:62-95 | the read loop leaves the state `Streamed` gives for the classified lines |
| `Ingestion.ProcessFile` | data-reader/src/services/fileProcess.ts:22-128 | `processFile` produces exactly the result fields, log and collection of `ProcessFileSpec`, on all three paths |

## Left out

- HTTP and startup are not part of this model: the controller, the Express app, the entry point
  and the database connection. They are plumbing around the service.
- `processingTime` and `Date.now()` are left out, because they depend on the wall clock.
- The first header line of the error log, "Processing Errors - <ISO time>", is left out, because it
  depends on the wall clock. So is the log file's timestamped name. The log path is a parameter.
- A failure while writing the log is swallowed by the source. The model always writes the log.
- Streams and `async`/`await` are left out. The input is a sequence of lines. A read-stream
  failure is the `ReadFails` case. The log is the sequence of lines written.
- The platform's `new Date(text)` grammar is a parameter (`validDate`), not a date grammar. The
  stored date keeps the text it was parsed from.
- `trim()` and `toLowerCase()` are restricted to ASCII whitespace and ASCII letters, and string
  lengths count characters rather than UTF-16 code units.
- The parse error of a thrown non-`Error` value ("Unknown error") is left out, because
  `parsePersonLine` and `save` only throw `Error`s here.
- `Person.SaveTo`: the error texts of the storage layer are approximations. The duplicate-key
  message imitates the server's E11000 text, and the validation message lists failing paths
  only. The log entries carry these texts, so their exact wording is not promised.
- `Person.SaveTo`: the per-path explanation mongoose adds to a validation message is reduced to
  the path's name. The paths are listed in schema order.
- `Person.SaveTo`: database failures other than the two validators and the two unique indexes
  (lost connection, timeouts) are left out.
- `Person.SaveTo`: `uuidv4()` randomness is a counter of identities drawn so far. A random
  identity could in principle collide; a drawn counter value never does.
- `batchCount` is left out: it is incremented but never read.
- `Ingestion.ReprocessingRefusesEachRecord`: the duplicate-key outcome is stated per record on the
  replay of saves. The log entry it produces is placed by the per-batch lemmas
  (`Ingestion.CommittedFailureLogged`, `Ingestion.FinalBatchFailureLogged`). It is not traced
  from a record's index to its line number here.
- `Ingestion.ReadableFileReport`: the accounting lemmas are stated over line classifications
  (`Kinds`, where each line's kind is `Classify` of it). `Ingestion.ClassifyParsed` links a
  classification to the parser's result.
