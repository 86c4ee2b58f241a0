# Staff-graded points: CSV score import and export

This project models the CSV import and export of staff-graded scores in Open edX, and proves properties of that model in Dafny.

A member of course staff exports a CSV file with one row per enrolled learner for one problem. They fill in a `points` column for some learners and upload the file again. The processor then does the following:

- It validates the file: the maximum size and the required columns.
- It validates every row: a checksum over the learner, the problem and the last points, the problem id, and the points themselves.
- It stages one score update per learner; the first row with points wins.
- It commits the staged updates all at once, and only if no row was refused.
- A file with more than 100 staged rows is handed to a background task.
- The processor can also roll back saved rows by replaying their undo rows.

The block's HTTP handlers are also modelled:

- who may call them;
- what each handler answers;
- how the block reads and writes its own score.

Files:

- `wrappers.dfy` defines `Option`.
- `csv_processor.dfy` (module `CsvProcessor`) holds the generic processor from `common/djangoapps/util/csv_processor.py`:
  - CSV text written and read back;
  - error messages;
  - file validation;
  - the checksum mixin;
  - the preprocessing pass and the commit/rollback replay, as folds whose row hooks are function-valued parameters;
  - the deferral rule;
  - the status record.
- `grade_utils.dfy` (module `GradeUtils`) holds everything from `lms/djangoapps/grades/grade_utils.py`:
  - the score store: a map keyed by (problem, learner) that stands for the `StudentModule` table;
  - `set_score`, `get_score`, `get_scores` and `are_grades_frozen`;
  - the score-specific hooks;
  - the export rows;
  - the state functions of a whole run;
  - the class `ScoreCsvProcessor`.
- `sgp_block.dfy` (module `SgpBlock`) holds the handler decisions, `max_score`, `get_score` and `set_score` of `common/lib/xmodule/xmodule/sgp_block.py`.

In Python, `ScoreCSVProcessor` inherits from `ChecksumMixin`, `DeferrableMixin` and `CSVProcessor`, so one object carries the fields of all four. The model therefore has one class, `GradeUtils.ScoreCsvProcessor`, with all of those fields. Each method's `ensures` ties the new state, `State()`, to a state function of the old state:

- `AfterPreprocess`
- `AfterBaseCommit`
- `AfterCommit`
- `AfterRollback`
- `AfterProcessFile`

The lemmas prove what the source promises about those functions. Row loops are real `while` loops over the object's fields, with invariants.

Inputs the code cannot compute within the model are parameters:

- the number parser `float()` is `parse`;
- the salted, truncated md5 is `digest`;
- the clock is `now`;
- the background task's id is `taskId`;
- the Celery queue's view of a job is a `TaskState` oracle;
- who is staff, the uploaded file and the course enrollments are handler parameters.

Facts of the code that the model keeps:

- A stage of exactly 100 rows commits inline, because the test is `len(stage) <= size_to_defer` (csv_processor.py:310).
- The import never calls `are_grades_frozen`. That predicate is modelled on its own.
- Celery reports an id it does not know as pending, so polling such an id answers "still waiting".
- `last_points` is `int(grade * max_points)`, which truncates toward zero rather than flooring.
- The processor class runs the code as written. Its export stamp hashes `str(v or '')`, and its `process_row` keeps the `get_score` dict as the undo row. The corrected versions are separate members, named in "## Findings".

## Model

| member | source | states |
|---|---|---|
| CsvProcessor.WithError | common/djangoapps/util/csv_processor.py:55-59 | `add_error`: the message is present afterwards. The set of messages grows by exactly that message. Earlier messages keep their order. A message already present leaves the list unchanged. No duplicate is ever introduced. |
| CsvProcessor.WithErrorIdempotent | common/djangoapps/util/csv_processor.py:55-59 | Adding the same message twice is the same as adding it once. |
| CsvProcessor.WriteLine | common/djangoapps/util/csv_processor.py:66-70 | One written line has one cell per column. Each cell is the text of that column's value, and an absent key is the empty text. |
| CsvProcessor.WriteTable | common/djangoapps/util/csv_processor.py:61-70 | For cells of ASCII text, DictWriter succeeds iff every row's keys are among the columns. The file is then the header line followed by each row's line, in order. |
| CsvProcessor.WriteStamped | common/djangoapps/util/csv_processor.py:66-70 | The writing loop of `write_file` gives exactly the table of the rows as the `preprocess_export_row` hook leaves them, and None when DictWriter refuses a row. |
| CsvProcessor.StampedRows | common/djangoapps/util/csv_processor.py:68-69 | The rows as written: row i is the `preprocess_export_row` hook applied to row i. |
| CsvProcessor.ReadWrittenLines | common/djangoapps/util/csv_processor.py:85-93 | Reading written lines back with DictReader gives one row per written row, in order. Each column holds the text written for it. |
| CsvProcessor.FirstMissing | common/djangoapps/util/csv_processor.py:119-123 | None iff every required column is in the header. Otherwise it gives the first required column, in order, that is absent. |
| CsvProcessor.FirstMissingAt | common/djangoapps/util/csv_processor.py:119-123 | When the required columns before index i are present and column i is absent, column i is the one reported. |
| CsvProcessor.CheckFile | common/djangoapps/util/csv_processor.py:111-124 | `validate_file`:<br>• a known size above a non-zero limit is refused with the size message;<br>• otherwise a file without a header line raises when columns are required;<br>• otherwise the first missing required column is refused with "Missing column";<br>• otherwise the file is accepted.<br>Both directions of each case are stated. |
| CsvProcessor.ChecksumTextIgnores | common/djangoapps/util/csv_processor.py:229-232 | The checksum text does not depend on a field outside the checksum columns. |
| CsvProcessor.StampChecksum | common/djangoapps/util/csv_processor.py:234-238 | Corrected `preprocess_export_row`, where only None is the empty text: only the checksum field is added or replaced. Afterwards the row passes the checksum test of `validate_row` (lines 240-244). |
| CsvProcessor.StampChecksumAsWritten | common/djangoapps/util/csv_processor.py:229-238 | `preprocess_export_row` as written: only the checksum field is added or replaced. It holds the digest of the `str(v or '')` text. |
| CsvProcessor.ChecksumTextsAgree | common/djangoapps/util/csv_processor.py:230 | When no checksum column holds a falsy value with a non-empty text (the integer 0, False), `str(v or '')` builds the same text as the corrected rule. |
| CsvProcessor.StampsAgree | common/djangoapps/util/csv_processor.py:229-238 | Under the same condition, the stamp as written is the corrected stamp. |
| CsvProcessor.ChecksumTextReadBack | common/djangoapps/util/csv_processor.py:229-244 | A row read back from the file has the same checksum text as the row written, when the checksum columns are among the written columns. |
| CsvProcessor.ChecksumTextOnReadRows | common/djangoapps/util/csv_processor.py:230 | On rows read from a file, where every value is text or None, `str(v or '')` gives the same text as the corrected rule. |
| CsvProcessor.Preprocessed | common/djangoapps/util/csv_processor.py:95-109 | The preprocessing pass: row errors only grow, by at most one per row, and earlier entries are kept. |
| CsvProcessor.PreprocessedStage | common/djangoapps/util/csv_processor.py:99-105 | `processed_rows` counts exactly the rows appended to `stage`. The stage is only appended to. |
| CsvProcessor.RefusedRowsExact | common/djangoapps/util/csv_processor.py:100-107 | The refused row numbers are strictly increasing and 1-based. Number i+1 is listed iff row i failed `validate_row`. |
| CsvProcessor.PreprocessedRowErrors | common/djangoapps/util/csv_processor.py:100-107 | After the pass, `rowerrors` is its old value followed by exactly the refused row numbers. |
| CsvProcessor.PreprocessedMessages | common/djangoapps/util/csv_processor.py:95-109 | The pass only appends messages and never duplicates one. |
| CsvProcessor.RejectedRowBlocksCommit | common/djangoapps/util/csv_processor.py:152-157 | One refused row makes `can_commit` false, and its number is recorded. |
| CsvProcessor.ReplayedAppend | common/djangoapps/util/csv_processor.py:163-175 | Committing `a + b` is committing `a`, then `b`, so rows are applied in their original order. |
| CsvProcessor.ReplayedCounts | common/djangoapps/util/csv_processor.py:159-192 | Commit and rollback:<br>• `saved` grows by at most one per row;<br>• rollback rows are only appended, at most one per saved row;<br>• rollback rows are unchanged when undo rows are not kept (rollback);<br>• messages are only appended, without duplicates. |
| GradeUtils.OrOne | lms/djangoapps/grades/grade_utils.py:183 | `max_grade or 1` is never zero, and it is the maximum when that is non-zero. |
| GradeUtils.Upsert | lms/djangoapps/grades/grade_utils.py:149-162 | `set_score` via `update_or_create`:<br>• the one key is present, with grade = score / max_points, max_grade = max_points, module type 'problem' and modified now;<br>• creation time and state are kept unless given;<br>• every other record is unchanged. |
| GradeUtils.UpsertIdempotent | lms/djangoapps/grades/grade_utils.py:149-162 | Repeating the same `set_score` call changes nothing more. |
| GradeUtils.GetScore | lms/djangoapps/grades/grade_utils.py:165-186 | None iff the record is absent. Otherwise it gives grade, max_grade, created and modified, with score = grade * (max_grade or 1). |
| GradeUtils.GetAfterUpsert | lms/djangoapps/grades/grade_utils.py:149-186 | A score set with a non-zero maximum is read back as the same score, with grade score/max and the given maximum. |
| GradeUtils.GetScores | lms/djangoapps/grades/grade_utils.py:189-205 | A learner is in the result iff they have a record for the problem and are selected; an empty list selects all. Each entry is `get_score` of that record plus its state. |
| GradeUtils.AreGradesFrozen | lms/djangoapps/grades/grade_utils.py:138-146 | Frozen iff the flag is enabled, the course has an end, and now is past end + 30 days. |
| GradeUtils.FrozenStaysFrozen | lms/djangoapps/grades/grade_utils.py:138-146 | Once frozen, grades stay frozen at any later time. |
| GradeUtils.ScoreVerdict | lms/djangoapps/grades/grade_utils.py:45-63 | `validate_row`, each case as an iff:<br>• a checksum mismatch is refused without a message;<br>• a wrong problem is refused with "does not match";<br>• points that are not a number are refused with "must be numbers";<br>• points above the maximum are refused with "must not be greater";<br>• empty points, or points within the maximum, are accepted.<br>The checksum is tested with the corrected text rule. On rows read from a file, whose cells are all text or None, that rule equals `str(v or '')` (`CsvProcessor.ChecksumTextOnReadRows`), and only such rows reach `validate_row`. |
| GradeUtils.PointsEditKeepsChecksum | lms/djangoapps/grades/grade_utils.py:31 | Filling in the `points` column keeps a row's checksum valid, because `points` is not a checksum column. |
| GradeUtils.ScoreTransform | lms/djangoapps/grades/grade_utils.py:65-74 | `preprocess_row`: it stages an update iff the points are non-empty and the learner was not yet seen. The update is (learner, this problem, points, maximum), and the learner is then marked seen. Nothing else marks a learner. |
| GradeUtils.FirstPointsSnoc | lms/djangoapps/grades/grade_utils.py:66-73 | A later row adds a learner's points only if that learner has none yet; a later row never overrides. |
| GradeUtils.StagedFirstWins | lms/djangoapps/grades/grade_utils.py:65-74 | From a fresh processor, the staged rows are updates for this problem, one per learner. Each learner's staged points are those of their first scored row, and the seen set is exactly those learners. |
| GradeUtils.ScoreProcess | lms/djangoapps/grades/grade_utils.py:76-85 | `process_row` with the corrected undo row:<br>• it saves iff the row is an update with a non-zero maximum and, with undo handling, the record exists;<br>• the store becomes `set_score` of the row;<br>• an undo is present iff undo is handled, and it is an update back to the previous score;<br>• a failure changes nothing. |
| GradeUtils.ScoreProcessAsWritten | lms/djangoapps/grades/grade_utils.py:76-85 | `process_row` as written, which the processor runs: the same writes and the same success as `ScoreProcess`. With undo handling its undo row is the `get_score` dict, which has no block or user. |
| GradeUtils.NoUndoWithoutHandleUndo | lms/djangoapps/grades/grade_utils.py:77-83 | Without `handle_undo`, a commit adds no rollback rows. |
| GradeUtils.CommitStoresScores | common/djangoapps/util/csv_processor.py:159-176 | Committing distinct updates saves every row, keeps the messages and rollback rows, and adds exactly the staged keys. Other records are untouched, and each learner's score is the staged points. |
| GradeUtils.CommitThenRollbackRestores | common/djangoapps/util/csv_processor.py:178-192 | With undo handling, committing an update and rolling it back saves once each way and restores the record's grade and maximum. Every other record is unchanged and no message is added. |
| GradeUtils.RollbackAsWrittenFails | common/djangoapps/util/csv_processor.py:178-192 | As written, replaying undo rows saves nothing and changes no record. It records the KeyError message `u'block_id'` once, the Python 2 `str()` of the KeyError. |
| GradeUtils.CommitThenRollbackAsWrittenKeepsNewScore | lms/djangoapps/grades/grade_utils.py:79-81 | As written, a commit followed by a rollback leaves the new score in place and reports the KeyError. |
| GradeUtils.TruncateToInt | lms/djangoapps/grades/grade_utils.py:132 | Python's `int()` of a float truncates toward zero. |
| GradeUtils.ExportRow | lms/djangoapps/grades/grade_utils.py:119-135 | An export row has exactly the 13 columns.<br>• `points` and `who_last_graded` are empty.<br>• The problem id, title and user id are filled in.<br>• For a learner without a score: empty `last_points` and date.<br>• Otherwise: `int(grade * max_points)` and the modified time. |
| GradeUtils.ExportRows | lms/djangoapps/grades/grade_utils.py:109-135 | One row per enrollment, in enrollment order. |
| GradeUtils.RequiredColumnsPresent | lms/djangoapps/grades/grade_utils.py:27-31 | Every required column is one of the export columns. |
| GradeUtils.ExportTableWritten | common/djangoapps/util/csv_processor.py:61-70 | Export rows, stamped as written or with the corrected stamp, always fit the header, so writing them fails only through byte encoding, which is not modelled. |
| GradeUtils.StampedTableWritten | common/djangoapps/util/csv_processor.py:61-70 | Rows that the hook leaves with exactly the export keys and the checksum field always fit the header, so DictWriter's key check passes. |
| GradeUtils.ExportReadBack | common/djangoapps/util/csv_processor.py:61-93 | A file written from export rows reads back with the export header and one row per exported row. Each row is the read-back form of the row the hook produced. |
| GradeUtils.ReimportedRowIsClean | lms/djangoapps/grades/grade_utils.py:45-74 | An export row with the corrected stamp, read back, is accepted and stages nothing. |
| GradeUtils.ReadBackStamped | common/djangoapps/util/csv_processor.py:229-244 | A row with the corrected stamp, read back, keeps a matching checksum, this problem's id, and empty points. |
| GradeUtils.ExportedFileReimportsClean | common/djangoapps/util/csv_processor.py:61-109 | Round trip with the corrected stamp: the exported file is accepted, has one data row per enrollment, and leaves the processor's preprocess state unchanged when uploaded untouched. |
| GradeUtils.StampedFileReimportsClean | common/djangoapps/util/csv_processor.py:61-109 | The same round trip for any rows shaped like this problem's export rows. |
| GradeUtils.ExportTablesAgree | common/djangoapps/util/csv_processor.py:229-238 | When no exported learner's points truncate to 0, the file as written equals the file with the corrected stamp. |
| GradeUtils.ExportRowsNoFalsyText | lms/djangoapps/grades/grade_utils.py:119-135 | Under that condition no checksum cell of an export row is a falsy value with a non-empty text. |
| GradeUtils.ExportedFileReimportsCleanAsWritten | common/djangoapps/util/csv_processor.py:61-109 | Round trip of the code as written: when no exported learner's points truncate to 0, the file `write_file` produces is accepted untouched, has one data row per enrollment, and stages nothing. |
| GradeUtils.ZeroPointsStampRejected | common/djangoapps/util/csv_processor.py:230 | As written, a row whose `last_points` is the integer 0 is stamped over "" but read back as "0". Whenever the digests of those two texts differ, it fails its own checksum. |
| GradeUtils.ZeroPointsFileRowRejected | common/djangoapps/util/csv_processor.py:61-70 | In a file written as written, such a row comes back refused without a message. |
| GradeUtils.ZeroPointsExportRejectedAsWritten | lms/djangoapps/grades/grade_utils.py:131-132 | As written, the row of the exported file for a learner whose points truncate to 0 is refused on re-import, without a message. |
| GradeUtils.ChecksumTexts | common/djangoapps/util/csv_processor.py:230 | Both checksum texts for this processor's three checksum columns, spelled out. |
| GradeUtils.AfterPreprocess | common/djangoapps/util/csv_processor.py:95-109 | After the pass:<br>• `total_rows` is the number of rows;<br>• `rowerrors` grows by exactly the refused row numbers;<br>• `processed_rows` counts the rows appended to the stage;<br>• saved rows, rollback rows, the store and the result id are unchanged. |
| GradeUtils.AfterBaseCommit | common/djangoapps/util/csv_processor.py:159-176 | `commit`:<br>• the stage is emptied;<br>• at most one save per row;<br>• rollback rows are only appended, at most one per save, and not at all without undo handling;<br>• the counters, row errors, seen set and result id are untouched. |
| GradeUtils.AfterCommit | common/djangoapps/util/csv_processor.py:305-319 | The deferral rule: the base commit runs iff there is a running task or the stage has at most 100 rows. Otherwise only the result id is set; the stage, store and saved count are untouched. |
| GradeUtils.Reloaded | lms/djangoapps/grades/grade_utils.py:37-40 | A processor rebuilt from saved state differs from it only in `users_seen`, which `__init__` empties. |
| GradeUtils.DeferredTaskCommits | common/djangoapps/util/csv_processor.py:248-260 | A deferral keeps the stage and the store and sets the result id. The Celery task rebuilds the state saved before that id was set and commits it inline: the stage is emptied, the store, saved count and messages are those of an inline commit of the same stage, and its status carries the saved state's result id. |
| GradeUtils.AfterRollback | common/djangoapps/util/csv_processor.py:178-192 | `rollback` empties the rollback rows and counts at most one save per undo row. The stage, row errors and result id are untouched. |
| GradeUtils.AfterProcessFile | common/djangoapps/util/csv_processor.py:72-93 | `process_file`:<br>• it raises iff `validate_file` does, and then nothing changes;<br>• a refused file only adds its message;<br>• an accepted file sets `total_rows`;<br>• nothing is staged or stored unless the file is accepted. |
| GradeUtils.StatusOf | common/djangoapps/util/csv_processor.py:299-303 | `status()`:<br>• `can_commit` iff the stage is non-empty and no row was refused;<br>• `waiting` iff the result id is set and non-empty;<br>• the error rows, messages and result id are reported as stored. |
| GradeUtils.RefusedRowBlocksImport | common/djangoapps/util/csv_processor.py:78-83 | All or nothing: one refused row in an accepted file leaves the store, the saved count and the result id untouched. The status reports the row and no commit. |
| GradeUtils.CleanPass | common/djangoapps/util/csv_processor.py:95-109 | A clean file on a fresh processor gives no message and no refused row, and stages one distinct update per learner of the first-points map. |
| GradeUtils.NoneRefusedAllAccepted | common/djangoapps/util/csv_processor.py:100-107 | No refused row number means every row passed `validate_row`. |
| GradeUtils.StagedUpdatesDistinct | lms/djangoapps/grades/grade_utils.py:65-74 | One staged update per learner of one problem names each record once. |
| GradeUtils.NoMessagesWhenAllAccepted | common/djangoapps/util/csv_processor.py:100-107 | When every row is accepted, the pass adds no message. |
| GradeUtils.CommitStoresStage | common/djangoapps/util/csv_processor.py:159-176 | Committing a stage of distinct updates without undo handling saves all of them. It adds exactly their keys and gives each learner the staged points. |
| GradeUtils.CleanImportRuns | common/djangoapps/util/csv_processor.py:78-83 | A clean import of at most 100 learners ends in the base commit of its preprocessed state, or in that state when nothing was staged. |
| GradeUtils.ImportStoresFirstPoints | common/djangoapps/util/csv_processor.py:72-83 | A clean import of at most 100 learners commits inline. Each learner's stored score becomes the points of their first scored row, and no other record changes. No message is reported and nothing stays staged. |
| GradeUtils.LargeImportIsDeferred | common/djangoapps/util/csv_processor.py:305-319 | A clean import with more than 100 staged rows stores nothing and keeps the stage. It sets the Celery task id and reports waiting. |
| GradeUtils.ScoreStore.SetScore | lms/djangoapps/grades/grade_utils.py:149-162 | A zero maximum raises ZeroDivisionError and writes nothing. Otherwise the store becomes the upsert. |
| GradeUtils.ScoreCsvProcessor.constructor | common/djangoapps/util/csv_processor.py:44-53 | The counters are zero, the lists are empty, and no user is seen. |
| GradeUtils.ScoreCsvProcessor.AddError | common/djangoapps/util/csv_processor.py:55-59 | The messages become `WithError` of the old ones. |
| GradeUtils.ScoreCsvProcessor.ValidateFile | common/djangoapps/util/csv_processor.py:111-124 | The size test, then the required columns one by one. The outcome and the messages agree with `CheckFile`. |
| GradeUtils.ScoreCsvProcessor.ValidateRow | lms/djangoapps/grades/grade_utils.py:45-63 | The row is valid iff `ScoreVerdict` accepts it. The verdict's message, if any, is added. |
| GradeUtils.ScoreCsvProcessor.PreprocessRow | lms/djangoapps/grades/grade_utils.py:65-74 | The staged row and the new seen set are those of `ScoreTransform`. |
| GradeUtils.ScoreCsvProcessor.PreprocessStep | common/djangoapps/util/csv_processor.py:100-107 | One iteration of the preprocessing loop. |
| GradeUtils.ScoreCsvProcessor.PreprocessFile | common/djangoapps/util/csv_processor.py:95-109 | The loop leaves the object in `AfterPreprocess` of the old state. |
| GradeUtils.ScoreCsvProcessor.CanCommit | common/djangoapps/util/csv_processor.py:152-157 | True iff the stage is non-empty and no row was refused. |
| GradeUtils.ScoreCsvProcessor.ProcessRow | lms/djangoapps/grades/grade_utils.py:76-85 | The outcome and the store are those of `ScoreProcessAsWritten`, the code as written. |
| GradeUtils.ScoreCsvProcessor.CommitRow | common/djangoapps/util/csv_processor.py:165-174 | One iteration of the commit loop, including the caught exception. |
| GradeUtils.ScoreCsvProcessor.BaseCommit | common/djangoapps/util/csv_processor.py:159-176 | The pop-front loop leaves the object in `AfterBaseCommit`. |
| GradeUtils.ScoreCsvProcessor.Commit | common/djangoapps/util/csv_processor.py:305-319 | The object ends in `AfterCommit`: an inline commit or a deferral. |
| GradeUtils.ScoreCsvProcessor.RollbackRow | common/djangoapps/util/csv_processor.py:184-191 | One iteration of the rollback loop. |
| GradeUtils.ScoreCsvProcessor.Rollback | common/djangoapps/util/csv_processor.py:178-192 | The object ends in `AfterRollback`. |
| GradeUtils.ScoreCsvProcessor.ProcessFile | common/djangoapps/util/csv_processor.py:72-83 | The object, the store and the raised flag end as `AfterProcessFile`. |
| GradeUtils.ScoreCsvProcessor.Status | common/djangoapps/util/csv_processor.py:194-207 | The reported status is `StatusOf` of the object's state. |
| GradeUtils.ScoreCsvProcessor.GetRowsToExport | lms/djangoapps/grades/grade_utils.py:109-135 | The loop yields `ExportRows` against `get_scores` of this problem. |
| GradeUtils.ScoreCsvProcessor.WriteFile | common/djangoapps/util/csv_processor.py:61-70 | The given rows are written, or the export rows when none are given. The result is the table with each row stamped as written (`str(v or '')`). |
| SgpBlock.CsvImportHandler | common/lib/xmodule/xmodule/sgp_block.py:104-126 | A non-staff caller gets 403 and changes nothing. A missing file answers row 1 and "missing file" without touching the store. A file object without a `size` raises in the log line (line 118) before any processing, so the store is untouched. Otherwise the store and the answer are those of `process_file` with autocommit on a fresh processor, and an escaping exception becomes a server error. |
| SgpBlock.CsvExportHandler | common/lib/xmodule/xmodule/sgp_block.py:128-146 | 403 iff the caller is not staff. Staff get the table `write_file` produces as written. Its key check always passes; byte encoding is not modelled. |
| SgpBlock.GetResultsHandler | common/lib/xmodule/xmodule/sgp_block.py:148-168 | 403 iff not staff. Without `result_id` the answer is 'missing'. A pending task gives waiting with the id, a finished task its status, and a failed task raises. |
| SgpBlock.PollWaitsOnlyWhilePending | common/lib/xmodule/xmodule/sgp_block.py:161-167 | A poll answers "waiting for id" iff the Celery task is pending and id is the one polled. |
| SgpBlock.MaxScore | common/lib/xmodule/xmodule/sgp_block.py:170-171 | The block's weight. |
| SgpBlock.BlockScore | common/lib/xmodule/xmodule/sgp_block.py:173-183 | Corrected `get_score`: 0 of 1 without a record, otherwise the stored points earned and the stored maximum. |
| SgpBlock.BlockScoreAsWritten | common/lib/xmodule/xmodule/sgp_block.py:181-183 | `get_score` as written: the earned value is the stored grade fraction. |
| SgpBlock.SetBlockScore | common/lib/xmodule/xmodule/sgp_block.py:185-205 | The raw earned and possible points go to the store unchanged, with a state naming the staff user who set them. A zero maximum raises and writes nothing. |
| SgpBlock.SetThenGetScore | common/lib/xmodule/xmodule/sgp_block.py:173-204 | What `set_score` stores, the corrected `get_score` gives back exactly. |
| SgpBlock.SetThenGetAsWrittenLosesPoints | common/lib/xmodule/xmodule/sgp_block.py:183 | As written, 2 points of 4 are read back as 0.5 of 4. |

## Left out

- CsvProcessor.WriteTable: CSV quoting and escaping are not modelled. A line is the list of cell texts, and the reader splits it back exactly. Byte encoding is not modelled either. Under Python 2, `csv.DictWriter` writing into the `io.BytesIO` of sgp_block.py:137-141 raises UnicodeEncodeError on a unicode cell with non-ASCII characters.
- GradeUtils.ExportTableWritten, GradeUtils.StampedTableWritten and SgpBlock.CsvExportHandler: "always written" covers DictWriter's key check only. A learner whose `full_name`, `username` or `email`, or a problem whose `title`, holds non-ASCII text makes the Python 2 download fail with UnicodeEncodeError. The model does not capture that failure.
- DictReader details: blank lines are skipped; a missing cell reads as None; surplus cells are dropped. A key absent from a row reads as None rather than raising KeyError. The required columns rule out those KeyErrors on the paths the import takes.
- GradeUtils.GetAfterUpsert, GradeUtils.CommitStoresScores, GradeUtils.CommitStoresStage, GradeUtils.ImportStoresFirstPoints, GradeUtils.ExportRow and SgpBlock.SetThenGetScore: Python floats are modelled as exact reals. So the rounding of `score / max_points` (grade_utils.py:155), `grade * (max_grade or 1)` (grade_utils.py:183) and `int(grade * max_points)` (grade_utils.py:132) is not modelled. Take an import of 29 points for a problem worth 100: the code stores 0.29, reads back 28.999999999999996 and exports 28, while the model reads back and exports 29. The same happens at 57 and 58 of 100. The read-back and "stored score is the points" promises of these members hold only in exact arithmetic. Also, grade_utils.py has no `from __future__ import division`, so a caller that passes integers gets floor division in `score / max_points`. The import always passes the output of `float()`.
- Numbers in text: the integer and timestamp text of written values is modelled as decimal digits. `float()` is an abstract `parse` function, so NaN and infinities are not modelled. The `percentage` string of `status()` (csv_processor.py:204) is left out: it is float formatting.
- Message texts are constructors of a `Message` datatype, with the text beside each. Translation and string formatting are not modelled. `error_messages` is a Python 2 dict whose key order is not specified; the model keeps insertion order.
- The checksum's md5 and `settings.SECRET_KEY` are the abstract `digest` of the concatenated column texts.
- The background task:
  - `save`, `default_storage`, the JSON state file, `importlib` reloading and Celery's `delay` are not modelled;
  - `AfterCommit` with a running task, on the `Reloaded` saved state, is what `do_deferred_commit` runs; the JSON round trip of the state is taken to keep every field;
  - the queued task's id is the `taskId` parameter;
  - polling is the `TaskState` oracle;
  - `get_unique_path` and its timestamp are not modelled.
- Time is an integer `now` parameter, one per commit or rollback; every row of one commit gets the same `modified` stamp.
- The Django ORM: `StudentModule` is a map keyed by (problem, learner text). Enrollments are an input sequence; `_get_enrollments` (grade_utils.py:87-107) is the `Enrollment` datatype. User ids are their decimal text. Records whose grade is null are not modelled.
- GradeUtils.AreGradesFrozen: the waffle flag and the course end date are parameters.
- sgp_block rendering (`student_view`, markdown, templates, CSRF, i18n) and the `Response` objects.
- SgpBlock.CsvImportHandler and SgpBlock.CsvExportHandler: the runtime's `grade_utils` service is not visible here. The model assumes that `get_score_processor` builds a `ScoreCSVProcessor` with the given keyword arguments and `handle_undo` False.
- SgpBlock.BlockScore: the same service's `get_score` is called as `(user_id, location)` at sgp_block.py:181, the reverse of grade_utils' `(usage_key, user_id)`. The model assumes the service maps the call onto the record of this block and learner.
- SgpBlock.SetBlockScore: the state is `json.dumps({'grader': username})` without JSON string escaping.

## Findings

| source | as written | input that shows it | evidently intended | confidence | as-written member | corrected member |
|---|---|---|---|---|---|---|
| common/djangoapps/util/csv_processor.py:230 | The checksum text is built as `str(row[key] or '')`. At export, `last_points` is the integer 0 for a learner whose points truncate to 0, so it is hashed as "". The file carries "0", and re-import hashes "0". | Export a learner with a stored grade below 1/max_points and upload the file untouched; any digest that tells "u"+"b" from "u"+"b"+"0" shows it. | Only None counts as the empty text, so every exported row re-validates (`StampChecksum`). | not executed | GradeUtils.ZeroPointsExportRejectedAsWritten | GradeUtils.ExportedFileReimportsClean |
| lms/djangoapps/grades/grade_utils.py:79-81 | With `handle_undo`, the undo row is the `get_score` dict. It has no `block_id` or `user_id`, so `rollback` raises KeyError on every row and restores nothing. | Commit one update with undo handling, then roll back. | The undo row is an update of the same problem and learner back to the previous score. | not executed | GradeUtils.CommitThenRollbackAsWrittenKeepsNewScore | GradeUtils.CommitThenRollbackRestores |
| common/lib/xmodule/xmodule/sgp_block.py:183 | `raw_earned` is `score['grade']`, the fraction that `set_score` divided by `raw_possible`. | `set_score(Score(2.0, 4.0))`, then `get_score()`, gives 0.5 of 4.0. | `raw_earned` is `score['score']`, the points earned, so the block reads back what it stored. | not executed | SgpBlock.SetThenGetAsWrittenLosesPoints | SgpBlock.SetThenGetScore |
