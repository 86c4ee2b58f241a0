/** The decisions of the Staff Graded Points block: who may call its handlers, what the
    import, export and poll handlers answer, and how the block reads and writes its score.
    Rendering, templates and the web framework's response objects are not modelled; a
    response is the status code and JSON body the handler chooses. */
module SgpBlock {
  import opened Wrappers
  import opened CsvProcessor
  import opened GradeUtils

  /** The block's settings: its location (the usage key, as text), problem weight and title. */
  datatype Block = Block(location: string, weight: real, displayName: string)

  /** The JSON bodies the handlers send. */
  datatype Payload =
    | Report(status: Status)                                          // a processor's status()
    | ImportRejected(errorRows: seq<nat>, errorMessages: seq<Message>)  // {'error_rows': ..., 'error_messages': ...}
    | MissingResultId                                                 // {'message': 'missing'}
    | StillWaiting(resultId: string)                                  // {'waiting': True, 'result_id': ...}

  /** What a handler returns: 403 'not allowed', a JSON body, a CSV attachment, or an
      exception that escapes the handler (a server error). */
  datatype Response = Forbidden | Json(payload: Payload) | CsvDownload(table: seq<Line>) | ServerError

  /** What the Celery queue knows of a queued commit: not finished, finished with the status
      the Celery task returned, or finished by raising (then `get()` re-raises). */
  datatype TaskState = Pending | Done(result: Status) | Failed

  /** The Score tuple: raw points earned and possible. */
  datatype RawScore = RawScore(earned: real, possible: Option<real>)

  /** The score of a learner with no stored record: `{'grade': 0, 'max_grade': 1}`. */
  const NoScore: RawScore := RawScore(0.0, Some(1.0))

  /** The processor the import uses: this problem, its weight as the maximum, no undo
      handling; the display name is not passed, and only the export reads it. */
  function ImportConfig(block: Block, parse: string -> Option<real>, digest: string -> string): Config
  {
    Config(block.location, block.weight, "", false, parse, digest)
  }

  /** csv_import_handler: staff only; an upload without a `csv` file answers row 1 and
      "missing file" without building a processor. The log line reads the file's `size`
      before the processor is built, so a file object without one raises there. Otherwise a
      fresh processor processes the file with autocommit and its status is the answer. An
      exception inside process_file (an upload without a header line) escapes the handler. */
  method CsvImportHandler(block: Block, isStaff: bool, upload: Option<Upload>, store: ScoreStore,
                          parse: string -> Option<real>, digest: string -> string, now: int, taskId: string)
    returns (resp: Response)
    modifies store
    ensures !isStaff ==> resp == Forbidden && store.records == old(store.records)
    ensures isStaff && upload.None? ==>
              resp == Json(ImportRejected([1], [MissingFile])) && store.records == old(store.records)
    ensures isStaff && upload.Some? && upload.value.size.None? ==> resp == ServerError && store.records == old(store.records)
    ensures isStaff && upload.Some? && upload.value.size.Some? ==>
              var r := AfterProcessFile(ImportConfig(block, parse, digest), Fresh(old(store.records)),
                                        upload.value, true, now, taskId);
              store.records == r.0.records && resp == (if r.1 then ServerError else Json(Report(StatusOf(r.0))))
  {
    if !isStaff {
      return Forbidden;
    }
    if upload.None? {
      return Json(ImportRejected([1], [MissingFile]));
    }
    if upload.value.size.None? {
      return ServerError;
    }
    var processor := new ScoreCsvProcessor(block.location, block.weight, "", false, parse, digest, store);
    var crashed := processor.ProcessFile(upload.value, true, now, taskId);
    if crashed {
      return ServerError;
    }
    resp := Json(Report(processor.Status()));
  }

  /** csv_export_handler: staff only; the file write_file produces for every enrollment of the
      course, against this problem's scores. Export rows always fit the columns, so the
      download always succeeds. */
  method CsvExportHandler(block: Block, isStaff: bool, enrollments: seq<Enrollment>, store: ScoreStore,
                          parse: string -> Option<real>, digest: string -> string)
    returns (resp: Response)
    ensures !isStaff <==> resp == Forbidden
    ensures isStaff ==>
              var rows := ExportRows(enrollments, GetScores(store.records, block.location, []), block.location,
                                     block.weight, block.displayName);
              ExportTable(rows, digest).Some? && resp == CsvDownload(ExportTable(rows, digest).value)
  {
    if !isStaff {
      return Forbidden;
    }
    var processor := new ScoreCsvProcessor(block.location, block.weight, block.displayName, false, parse, digest, store);
    var table := processor.WriteFile([], enrollments);
    ghost var rows := ExportRows(enrollments, GetScores(store.records, block.location, []), block.location,
                                 block.weight, block.displayName);
    ExportTableWritten(rows, digest);
    resp := CsvDownload(table.value);
  }

  /** get_results_handler: staff only; without a `result_id` the answer is 'missing';
      otherwise the queued commit's status once it is done, and a waiting notice naming the
      id until then. */
  function GetResultsHandler(isStaff: bool, resultId: Option<string>, task: string -> TaskState): (resp: Response)
    ensures !isStaff <==> resp == Forbidden
    ensures isStaff && resultId.None? ==> resp == Json(MissingResultId)
    ensures isStaff && resultId.Some? ==>
              match task(resultId.value)
              case Pending => resp == Json(StillWaiting(resultId.value))
              case Done(st) => resp == Json(Report(st))
              case Failed => resp == ServerError
  {
    if !isStaff then Forbidden
    else if resultId.None? then Json(MissingResultId)
    else match task(resultId.value)
      case Pending => Json(StillWaiting(resultId.value))
      case Done(st) => Json(Report(st))
      case Failed => ServerError
  }

  /** A poll answers "still waiting" exactly while the Celery task is pending, and never reports
      waiting for an id it was not given. */
  lemma PollWaitsOnlyWhilePending(resultId: string, task: string -> TaskState, id: string)
    ensures GetResultsHandler(true, Some(resultId), task) == Json(StillWaiting(id)) <==>
              task(resultId).Pending? && id == resultId
  {
    match task(resultId)
    case Pending =>
    case Done(st) =>
    case Failed =>
  }

  /** max_score: the block's weight. */
  function MaxScore(block: Block): (m: real)
    ensures m == block.weight
  {
    block.weight
  }

  /** get_score, as intended: the stored points earned (`score`, the grade scaled back by
      its maximum) and the stored maximum; a learner without a record has 0 of 1. */
  function BlockScore(records: Records, block: Block, userId: string): (r: RawScore)
    ensures Key(block.location, userId) !in records ==> r == NoScore
    ensures Key(block.location, userId) in records ==>
              r.earned == GetScore(records, Key(block.location, userId)).value.score
              && r.possible == records[Key(block.location, userId)].maxGrade
  {
    match GetScore(records, Key(block.location, userId))
    case None => NoScore
    case Some(info) => RawScore(info.score, info.maxGrade)
  }

  /** get_score as written: `raw_earned` is the stored grade, which set_score divided by
      the maximum. */
  function BlockScoreAsWritten(records: Records, block: Block, userId: string): (r: RawScore)
    ensures Key(block.location, userId) !in records ==> r == NoScore
    ensures Key(block.location, userId) in records ==>
              r.earned == records[Key(block.location, userId)].grade
              && r.possible == records[Key(block.location, userId)].maxGrade
  {
    match GetScore(records, Key(block.location, userId))
    case None => NoScore
    case Some(info) => RawScore(info.grade, info.maxGrade)
  }

  /** The state set_score stores: `json.dumps({'grader': username})` (no escaping modelled). */
  function GraderState(username: Option<string>): string
  {
    "{\"grader\": " + (match username case Some(u) => "\"" + u + "\"" case None => "null") + "}"
  }

  /** set_score: the raw points earned and possible go to the store unchanged, for this
      block and learner, with a state naming the current staff user. */
  method SetBlockScore(block: Block, userId: string, grader: Option<string>, earned: real, possible: real,
                       store: ScoreStore, now: int)
    returns (error: Option<string>)
    modifies store
    ensures possible == 0.0 ==> error == Some(DivisionByZero) && store.records == old(store.records)
    ensures possible != 0.0 ==>
              error == None
              && store.records == Upsert(old(store.records), Key(block.location, userId), earned, possible,
                                         Some(GraderState(grader)), now)
  {
    error := store.SetScore(block.location, userId, earned, possible, Some(GraderState(grader)), now);
  }

  /** What set_score stores, get_score gives back: the points earned and possible. */
  lemma SetThenGetScore(records: Records, block: Block, userId: string, grader: Option<string>,
                        earned: real, possible: real, now: int)
    requires possible != 0.0
    ensures var after := Upsert(records, Key(block.location, userId), earned, possible, Some(GraderState(grader)), now);
            BlockScore(after, block, userId) == RawScore(earned, Some(possible))
  {
    GetAfterUpsert(records, Key(block.location, userId), earned, possible, Some(GraderState(grader)), now);
  }

  /** The score as written does not survive the round trip: 2 points of 4 read back as 0.5. */
  lemma SetThenGetAsWrittenLosesPoints(records: Records, block: Block, userId: string, grader: Option<string>, now: int)
    ensures var after := Upsert(records, Key(block.location, userId), 2.0, 4.0, Some(GraderState(grader)), now);
            BlockScoreAsWritten(after, block, userId) == RawScore(0.5, Some(4.0))
            && BlockScoreAsWritten(after, block, userId) != RawScore(2.0, Some(4.0))
  {
    var after := Upsert(records, Key(block.location, userId), 2.0, 4.0, Some(GraderState(grader)), now);
    assert after[Key(block.location, userId)].grade == 0.5;
  }
}
