/**
 * Score import and export: the score store behind set_score / get_score / get_scores,
 * the freeze predicate, the score processor's hooks (validate_row, preprocess_row,
 * process_row), the roster export, and the ScoreCSVProcessor object itself.
 *
 * The store is the StudentModule table, as a map from (usage key, student) to a record.
 * The course is a function of the usage key, so the usage key alone names the problem.
 */
module GradeUtils {
  import opened Wrappers
  import opened CsvProcessor

  // ------------------------------------------------------------------
  // The score store
  // ------------------------------------------------------------------

  /** (module_state_key, student_id); user ids are the text the CSV carries. */
  datatype Key = Key(block: string, user: string)

  /** The StudentModule fields the helpers touch. Timestamps are seconds. */
  datatype Record = Record(grade: real, maxGrade: Option<real>, moduleType: string,
                           state: Option<string>, created: int, modified: int)

  type Records = map<Key, Record>

  /** The dict get_score returns. */
  datatype ScoreInfo = ScoreInfo(grade: real, score: real, maxGrade: Option<real>, created: int, modified: int)

  /** One value of the dict get_scores returns: get_score's keys and the record's state. */
  datatype ScoreRow = ScoreRow(info: ScoreInfo, state: Option<string>)

  /** The text of the ZeroDivisionError that `score / max_points` raises for a zero maximum. */
  const DivisionByZero: string := "float division by zero"

  /** `max_grade or 1`: a missing or zero maximum counts as 1. */
  function OrOne(maxGrade: Option<real>): (r: real)
    ensures r != 0.0
    ensures maxGrade.Some? && maxGrade.value != 0.0 ==> r == maxGrade.value
  {
    if maxGrade.Some? && maxGrade.value != 0.0 then maxGrade.value else 1.0
  }

  /** update_or_create with defaults module_type, grade = score / max_points, max_grade and
      (when given) state: a new record is created at `now`, an existing one keeps its
      creation time and any field not among the defaults, and is stamped modified at `now`. */
  function Upsert(records: Records, key: Key, score: real, maxPoints: real, state: Option<string>, now: int): (r: Records)
    requires maxPoints != 0.0
    ensures key in r && r.Keys == records.Keys + {key}
    ensures r[key].grade == score / maxPoints && r[key].maxGrade == Some(maxPoints)
    ensures r[key].moduleType == "problem" && r[key].modified == now
    ensures r[key].created == (if key in records then records[key].created else now)
    ensures r[key].state == (if state.Some? then state else if key in records then records[key].state else None)
    ensures forall k :: k in records && k != key ==> r[k] == records[k]
  {
    var grade := score / maxPoints;
    if key in records then
      var old_ := records[key];
      records[key := old_.(grade := grade, maxGrade := Some(maxPoints), moduleType := "problem",
                           state := if state.Some? then state else old_.state, modified := now)]
    else records[key := Record(grade, Some(maxPoints), "problem", state, now, now)]
  }

  /** Repeating the same set_score call at the same moment changes nothing more. */
  lemma UpsertIdempotent(records: Records, key: Key, score: real, maxPoints: real, state: Option<string>, now: int)
    requires maxPoints != 0.0
    ensures var once := Upsert(records, key, score, maxPoints, state, now);
            Upsert(once, key, score, maxPoints, state, now) == once
  {
    var once := Upsert(records, key, score, maxPoints, state, now);
    var twice := Upsert(once, key, score, maxPoints, state, now);
    assert twice[key] == once[key];
  }

  function InfoOf(rec: Record): ScoreInfo
  {
    ScoreInfo(rec.grade, rec.grade * OrOne(rec.maxGrade), rec.maxGrade, rec.created, rec.modified)
  }

  /** get_score: None for an absent record; otherwise the grade fraction and the score
      `grade * (max_grade or 1)`. */
  function GetScore(records: Records, key: Key): (r: Option<ScoreInfo>)
    ensures r.None? <==> key !in records
    ensures r.Some? ==> r.value.grade == records[key].grade && r.value.maxGrade == records[key].maxGrade
                        && r.value.score == records[key].grade * OrOne(records[key].maxGrade)
                        && r.value.created == records[key].created && r.value.modified == records[key].modified
  {
    if key in records then Some(InfoOf(records[key])) else None
  }

  /** A score set with a non-zero maximum is read back as that score. */
  lemma GetAfterUpsert(records: Records, key: Key, score: real, maxPoints: real, state: Option<string>, now: int)
    requires maxPoints != 0.0
    ensures var r := GetScore(Upsert(records, key, score, maxPoints, state, now), key);
            r.Some? && r.value.score == score && r.value.grade == score / maxPoints
            && r.value.maxGrade == Some(maxPoints) && r.value.modified == now
  {
    var g := score / maxPoints;
    assert g * maxPoints == score;
  }

  /** The users holding a record for `block`. */
  function UsersWithRecords(records: Records, block: string): set<string>
  {
    set k | k in records && k.block == block :: k.user
  }

  /** get_scores: every record of the problem, keyed by student; only the listed students
      when `userIds` is non-empty (an empty or missing list selects everyone). */
  function GetScores(records: Records, block: string, userIds: seq<string>): (r: map<string, ScoreRow>)
    ensures forall u :: u in r <==> Key(block, u) in records && (userIds == [] || u in userIds)
    ensures forall u :: u in r ==> GetScore(records, Key(block, u)) == Some(r[u].info)
                                   && r[u].state == records[Key(block, u)].state
  {
    var users := UsersWithRecords(records, block);
    assert forall u :: Key(block, u) in records ==> u in users by {
      forall u | Key(block, u) in records ensures u in users {
        var k := Key(block, u);
        assert k in records && k.block == block;
      }
    }
    map u | u in users && Key(block, u) in records && (userIds == [] || u in userIds)
      :: ScoreRow(InfoOf(records[Key(block, u)]), records[Key(block, u)].state)
  }

  // ------------------------------------------------------------------
  // are_grades_frozen
  // ------------------------------------------------------------------

  /** timedelta(30), in seconds. */
  const FreezeDelay: int := 30 * 24 * 60 * 60

  /** Grades are frozen when the course's freeze flag is on, the course has an end date, and
      more than 30 days have passed since it. */
  function AreGradesFrozen(enforced: bool, courseEnd: Option<int>, now: int): (frozen: bool)
    ensures frozen <==> enforced && courseEnd.Some? && now > courseEnd.value + FreezeDelay
  {
    if enforced && courseEnd.Some? then now > courseEnd.value + FreezeDelay else false
  }

  /** Once frozen, grades stay frozen at every later moment. */
  lemma FrozenStaysFrozen(enforced: bool, courseEnd: Option<int>, now: int, later: int)
    requires AreGradesFrozen(enforced, courseEnd, now) && now <= later
    ensures AreGradesFrozen(enforced, courseEnd, later)
  {
  }

  // ------------------------------------------------------------------
  // ScoreCSVProcessor's columns and settings
  // ------------------------------------------------------------------

  const Columns: seq<string> := ["user_id", "username", "full_name", "email", "student_uid",
                                 "enrolled", "track", "block_id", "title", "date_last_graded",
                                 "who_last_graded", "csum", "last_points", "points"]
  const RequiredColumns: seq<string> := ["user_id", "points", "csum", "block_id", "last_points"]
  const ChecksumColumns: seq<string> := ["user_id", "block_id", "last_points"]
  const ChecksumField: string := "csum"
  /** Files with more than this many staged rows are committed by the background task. */
  const SizeToDefer: nat := 100

  // ------------------------------------------------------------------
  // validate_row
  // ------------------------------------------------------------------

  /** The text of the points cell. */
  function PointsText(row: Row): string
  {
    CsvText(Get(row, "points"))
  }

  /** The student a row is about, as text; a missing cell reads as the empty text. */
  function UserOf(row: Row): string
  {
    CsvText(Get(row, "user_id"))
  }

  /** ScoreCSVProcessor.validate_row, after ChecksumMixin.validate_row: a wrong checksum is
      refused silently; then the block must be this problem; then non-empty points must
      parse (`parse` is float()) and be at most the maximum. The checksum uses the corrected
      text rule; only rows read from a file reach validate_row, and on those it is the
      `str(v or '')` text (CsvProcessor.ChecksumTextOnReadRows). */
  function ScoreVerdict(row: Row, blockId: string, maxPoints: real,
                        parse: string -> Option<real>, digest: string -> string): (v: Verdict)
    ensures v == Reject(None) <==> !ChecksumMatches(row, ChecksumColumns, ChecksumField, digest)
    ensures v == Reject(Some(WrongProblem)) <==>
              ChecksumMatches(row, ChecksumColumns, ChecksumField, digest) && Get(row, "block_id") != Str(blockId)
    ensures v == Reject(Some(PointsNotNumeric)) <==>
              ChecksumMatches(row, ChecksumColumns, ChecksumField, digest) && Get(row, "block_id") == Str(blockId)
              && Truthy(Get(row, "points")) && parse(PointsText(row)).None?
    ensures v == Reject(Some(PointsAboveMax(maxPoints))) <==>
              ChecksumMatches(row, ChecksumColumns, ChecksumField, digest) && Get(row, "block_id") == Str(blockId)
              && Truthy(Get(row, "points")) && parse(PointsText(row)).Some? && parse(PointsText(row)).value > maxPoints
    ensures v.Accept? <==>
              ChecksumMatches(row, ChecksumColumns, ChecksumField, digest) && Get(row, "block_id") == Str(blockId)
              && (!Truthy(Get(row, "points")) || (parse(PointsText(row)).Some? && parse(PointsText(row)).value <= maxPoints))
    ensures v.Reject? && v.message.Some? ==> v.message.value in {WrongProblem, PointsNotNumeric, PointsAboveMax(maxPoints)}
  {
    if !ChecksumMatches(row, ChecksumColumns, ChecksumField, digest) then Reject(None)
    else if Get(row, "block_id") != Str(blockId) then Reject(Some(WrongProblem))
    else if !Truthy(Get(row, "points")) then Accept
    else match parse(PointsText(row))
      case None => Reject(Some(PointsNotNumeric))
      case Some(p) => if p <= maxPoints then Accept else Reject(Some(PointsAboveMax(maxPoints)))
  }

  function Validation(blockId: string, maxPoints: real, parse: string -> Option<real>,
                      digest: string -> string): Row -> Verdict
  {
    row => ScoreVerdict(row, blockId, maxPoints, parse, digest)
  }

  /** Editing only the points column keeps a row's checksum valid. */
  lemma PointsEditKeepsChecksum(row: Row, v: Value, digest: string -> string)
    requires ChecksumMatches(row, ChecksumColumns, ChecksumField, digest)
    ensures ChecksumMatches(row["points" := v], ChecksumColumns, ChecksumField, digest)
  {
    ChecksumTextIgnores(row, ChecksumColumns, "points", v);
  }

  // ------------------------------------------------------------------
  // preprocess_row
  // ------------------------------------------------------------------

  /** A staged row. `Update` is the dict preprocess_row builds (and, corrected, the undo row);
      `UndoRecord` is the undo dict process_row builds as written: get_score's keys plus
      new_points and max_points, with no block_id or user_id. */
  datatype Staged =
    | Update(user: string, block: string, newPoints: real, maxPoints: real)
    | UndoRecord(previous: ScoreInfo, newPoints: real, maxPoints: real)

  /** preprocess_row: a row with points for a student not yet seen becomes an update for
      this problem and marks the student seen; any other row gives nothing. (`parse` cannot
      fail here after ScoreVerdict accepted the row; if it did, nothing would be staged.) */
  function ScoreTransform(seen: set<string>, row: Row, blockId: string, maxPoints: real,
                          parse: string -> Option<real>): (r: (Option<Staged>, set<string>))
    ensures r.0.Some? <==> Truthy(Get(row, "points")) && UserOf(row) !in seen && parse(PointsText(row)).Some?
    ensures r.0.Some? ==> r.0.value == Update(UserOf(row), blockId, parse(PointsText(row)).value, maxPoints)
                          && r.1 == seen + {UserOf(row)}
    ensures r.0.None? ==> r.1 == seen
  {
    if Truthy(Get(row, "points")) && UserOf(row) !in seen then
      match parse(PointsText(row))
      case Some(p) => (Some(Update(UserOf(row), blockId, p, maxPoints)), seen + {UserOf(row)})
      case None => (None, seen)
    else (None, seen)
  }

  function Transform(blockId: string, maxPoints: real, parse: string -> Option<real>)
    : (set<string>, Row) -> (Option<Staged>, set<string>)
  {
    (seen, row) => ScoreTransform(seen, row, blockId, maxPoints, parse)
  }

  /** A row that contributes a score: accepted, with points that parse. */
  predicate Scored(row: Row, validate: Row -> Verdict, parse: string -> Option<real>)
  {
    validate(row).Accept? && Truthy(Get(row, "points")) && parse(PointsText(row)).Some?
  }

  /** Reference for "the first row with points wins", built from the front of the file:
      each scored row overrides whatever the rows after it gave its student. */
  function FirstPoints(rows: seq<Row>, validate: Row -> Verdict, parse: string -> Option<real>): map<string, real>
    decreases |rows|
  {
    if rows == [] then map[]
    else
      var rest := FirstPoints(rows[1..], validate, parse);
      if Scored(rows[0], validate, parse) then rest[UserOf(rows[0]) := parse(PointsText(rows[0])).value] else rest
  }

  /** Adding a row at the end of the file only adds a student not already scored. */
  lemma {:induction false} FirstPointsSnoc(rows: seq<Row>, x: Row, validate: Row -> Verdict, parse: string -> Option<real>)
    ensures var f := FirstPoints(rows, validate, parse);
            FirstPoints(rows + [x], validate, parse)
              == if Scored(x, validate, parse) && UserOf(x) !in f then f[UserOf(x) := parse(PointsText(x)).value] else f
    decreases |rows|
  {
    if rows == [] {
      assert ([] + [x])[1..] == [];
    } else {
      assert (rows + [x])[1..] == rows[1..] + [x];
      assert (rows + [x])[0] == rows[0];
      FirstPointsSnoc(rows[1..], x, validate, parse);
    }
  }

  /** The students and points of the staged updates. */
  function StageMap(stage: seq<Staged>): map<string, real>
    decreases |stage|
  {
    if stage == [] then map[]
    else
      var last := stage[|stage| - 1];
      var front := StageMap(stage[..|stage| - 1]);
      if last.Update? then front[last.user := last.newPoints] else front
  }

  /** Each staged row is an update for `blockId` at `maxPoints`, and no student is staged twice. */
  predicate StagedUpdates(stage: seq<Staged>, blockId: string, maxPoints: real)
  {
    && (forall j :: 0 <= j < |stage| ==> stage[j].Update? && stage[j].block == blockId && stage[j].maxPoints == maxPoints)
    && (forall i, j :: 0 <= i < j < |stage| ==> stage[i].user != stage[j].user)
  }

  lemma StagedUpdatesSnoc(stage: seq<Staged>, seen: set<string>, x: Staged, blockId: string, maxPoints: real)
    requires StagedUpdates(stage, blockId, maxPoints)
    requires forall j :: 0 <= j < |stage| ==> stage[j].user in seen
    requires x.Update? && x.block == blockId && x.maxPoints == maxPoints && x.user !in seen
    ensures StagedUpdates(stage + [x], blockId, maxPoints)
    ensures forall j :: 0 <= j < |stage| + 1 ==> (stage + [x])[j].user in seen + {x.user}
  {
    var s := stage + [x];
    forall i, j | 0 <= i < j < |s| ensures s[i].user != s[j].user {
      if j == |stage| {
        assert s[i] == stage[i];
      } else {
        assert s[i] == stage[i] && s[j] == stage[j];
      }
    }
  }

  /** The staging facts of StagedFirstWins, for a pass state `p` and the map `first`. */
  predicate StagesFirst(p: Staging<Staged, set<string>>, blockId: string, maxPoints: real, first: map<string, real>)
  {
    && StagedUpdates(p.stage, blockId, maxPoints)
    && StageMap(p.stage) == first
    && p.seen == first.Keys
    && (forall j :: 0 <= j < |p.stage| ==> p.stage[j].user in p.seen)
  }

  /** One row of the pass keeps those facts, with the row's points added when it is the
      first scored row of its student. */
  lemma StagesFirstStep(p: Staging<Staged, set<string>>, x: Row, rownum: nat, blockId: string, maxPoints: real,
                        parse: string -> Option<real>, v: Row -> Verdict, first: map<string, real>)
    requires StagesFirst(p, blockId, maxPoints, first)
    ensures StagesFirst(StageRow(p, x, rownum, v, Transform(blockId, maxPoints, parse)), blockId, maxPoints,
                        if Scored(x, v, parse) && UserOf(x) !in first then first[UserOf(x) := parse(PointsText(x)).value] else first)
  {
    var t := Transform(blockId, maxPoints, parse);
    var r := StageRow(p, x, rownum, v, t);
    if !v(x).Accept? {
      assert !Scored(x, v, parse);
      assert r.stage == p.stage && r.seen == p.seen;
      StagesFirstKept(p, r, blockId, maxPoints, first);
    } else {
      var tr := ScoreTransform(p.seen, x, blockId, maxPoints, parse);
      assert t(p.seen, x) == tr;
      assert r.stage == (if tr.0.Some? then p.stage + [tr.0.value] else p.stage) && r.seen == tr.1;
      if tr.0.None? {
        assert !(Scored(x, v, parse) && UserOf(x) !in first);
        StagesFirstKept(p, r, blockId, maxPoints, first);
      } else {
        assert Scored(x, v, parse) && UserOf(x) !in first;
        StagesFirstAdd(p, r, tr.0.value, blockId, maxPoints, first);
      }
    }
  }

  /** A row that stages nothing keeps the facts as they are. */
  lemma StagesFirstKept(p: Staging<Staged, set<string>>, r: Staging<Staged, set<string>>,
                        blockId: string, maxPoints: real, first: map<string, real>)
    requires StagesFirst(p, blockId, maxPoints, first)
    requires r.stage == p.stage && r.seen == p.seen
    ensures StagesFirst(r, blockId, maxPoints, first)
  {
  }

  /** Staging a student not yet seen adds that student's points to the map. */
  lemma StagesFirstAdd(p: Staging<Staged, set<string>>, r: Staging<Staged, set<string>>, u: Staged,
                       blockId: string, maxPoints: real, first: map<string, real>)
    requires StagesFirst(p, blockId, maxPoints, first)
    requires u.Update? && u.block == blockId && u.maxPoints == maxPoints && u.user !in p.seen
    requires r.stage == p.stage + [u] && r.seen == p.seen + {u.user}
    ensures StagesFirst(r, blockId, maxPoints, first[u.user := u.newPoints])
  {
    var n, m := |p.stage|, first[u.user := u.newPoints];
    assert StagedUpdates(r.stage, blockId, maxPoints) && forall j :: 0 <= j < |r.stage| ==> r.stage[j].user in r.seen by {
      StagedUpdatesSnoc(p.stage, p.seen, u, blockId, maxPoints);
    }
    assert StageMap(r.stage) == m by {
      assert r.stage[..n] == p.stage && r.stage[n] == u && |r.stage| == n + 1;
    }
    assert r.seen == m.Keys;
  }

  /** On a fresh processor, preprocess_file stages each student at most once, with the points
      of that student's first scored row, and users_seen holds exactly the staged students. */
  lemma {:induction false} StagedFirstWins(rows: seq<Row>, blockId: string, maxPoints: real,
                                           parse: string -> Option<real>, digest: string -> string,
                                           init: Staging<Staged, set<string>>)
    requires init.stage == [] && init.seen == {}
    ensures var v := Validation(blockId, maxPoints, parse, digest);
            var r := Preprocessed(rows, v, Transform(blockId, maxPoints, parse), init);
            && StagedUpdates(r.stage, blockId, maxPoints)
            && StageMap(r.stage) == FirstPoints(rows, v, parse)
            && r.seen == FirstPoints(rows, v, parse).Keys
            && (forall j :: 0 <= j < |r.stage| ==> r.stage[j].user in r.seen)
    decreases |rows|
  {
    var v := Validation(blockId, maxPoints, parse, digest);
    var t := Transform(blockId, maxPoints, parse);
    if rows != [] {
      var n := |rows| - 1;
      var front, x := rows[..n], rows[n];
      assert rows == front + [x];
      StagedFirstWins(front, blockId, maxPoints, parse, digest, init);
      FirstPointsSnoc(front, x, v, parse);
      StagesFirstStep(Preprocessed(front, v, t, init), x, n + 1, blockId, maxPoints, parse, v, FirstPoints(front, v, parse));
    }
  }

  // ------------------------------------------------------------------
  // process_row
  // ------------------------------------------------------------------

  /** The text of the KeyError that reading row['block_id'] raises for an undo record:
      `str()` of a KeyError is the repr of its key, here a unicode literal under Python 2. */
  const MissingBlockId: string := "u'block_id'"
  /** The text of the TypeError for `undo['new_points'] = …` when get_score found nothing. */
  const NoneItemAssignment: string := "'NoneType' object does not support item assignment"

  function KeyOf(s: Staged): Key
    requires s.Update?
  {
    Key(s.block, s.user)
  }

  /** process_row with the undo row corrected to an update for the same student and problem
      back to the previous score. With handle_undo, the current score is read first (its
      absence raises); then set_score runs (a zero maximum raises); an exception leaves the
      store as it was. */
  function ScoreProcess(records: Records, row: Staged, handleUndo: bool, now: int): (r: (Outcome<Staged>, Records))
    ensures r.0.Saved? <==> row.Update? && row.maxPoints != 0.0 && (!handleUndo || KeyOf(row) in records)
    ensures r.0.Saved? ==> r.1 == Upsert(records, KeyOf(row), row.newPoints, row.maxPoints, None, now)
    ensures !r.0.Saved? ==> r.1 == records && r.0.Failed?
    ensures r.0.Saved? ==> (r.0.undo.Some? <==> handleUndo)
    ensures r.0.Saved? && handleUndo ==>
              r.0.undo.value == Update(row.user, row.block, GetScore(records, KeyOf(row)).value.score, row.maxPoints)
    ensures row.UndoRecord? ==> r.0 == Failed(MissingBlockId)
  {
    if row.UndoRecord? then (Failed(MissingBlockId), records)
    else if handleUndo && KeyOf(row) !in records then (Failed(NoneItemAssignment), records)
    else if row.maxPoints == 0.0 then (Failed(DivisionByZero), records)
    else
      var undo := if handleUndo then Some(Update(row.user, row.block, GetScore(records, KeyOf(row)).value.score, row.maxPoints)) else None;
      (Saved(undo), Upsert(records, KeyOf(row), row.newPoints, row.maxPoints, None, now))
  }

  /** process_row as written: the undo row is get_score's dict with new_points and max_points
      added, which carries neither the problem nor the student. */
  function ScoreProcessAsWritten(records: Records, row: Staged, handleUndo: bool, now: int): (r: (Outcome<Staged>, Records))
    ensures r.1 == ScoreProcess(records, row, handleUndo, now).1
    ensures r.0.Saved? <==> ScoreProcess(records, row, handleUndo, now).0.Saved?
    ensures r.0.Saved? && handleUndo ==> r.0.undo.Some? && r.0.undo.value.UndoRecord?
  {
    if row.Update? && handleUndo && KeyOf(row) in records && row.maxPoints != 0.0 then
      var info := GetScore(records, KeyOf(row)).value;
      (Saved(Some(UndoRecord(info, info.score, row.maxPoints))), Upsert(records, KeyOf(row), row.newPoints, row.maxPoints, None, now))
    else ScoreProcess(records, row, handleUndo, now)
  }

  /** The process_row hook the processor runs: the code as written. */
  function Processing(handleUndo: bool, now: int): (Records, Staged) -> (Outcome<Staged>, Records)
  {
    (records, row) => ScoreProcessAsWritten(records, row, handleUndo, now)
  }

  /** The hook with the corrected undo row. */
  function ProcessingCorrected(handleUndo: bool, now: int): (Records, Staged) -> (Outcome<Staged>, Records)
  {
    (records, row) => ScoreProcess(records, row, handleUndo, now)
  }

  /** Staged updates with a non-zero maximum and no two for the same record. */
  predicate DistinctUpdates(rows: seq<Staged>)
  {
    && (forall i :: 0 <= i < |rows| ==> rows[i].Update? && rows[i].maxPoints != 0.0)
    && (forall i, j :: 0 <= i < j < |rows| ==> KeyOf(rows[i]) != KeyOf(rows[j]))
  }

  /** The records the staged updates name. */
  function StagedKeys(rows: seq<Staged>): set<Key>
  {
    set i | 0 <= i < |rows| && rows[i].Update? :: KeyOf(rows[i])
  }

  lemma StagedKeysSnoc(rows: seq<Staged>, x: Staged)
    requires x.Update?
    ensures StagedKeys(rows + [x]) == StagedKeys(rows) + {KeyOf(x)}
  {
    var s := rows + [x];
    forall k ensures k in StagedKeys(s) <==> k in StagedKeys(rows) || k == KeyOf(x) {
      if k in StagedKeys(s) {
        var i :| 0 <= i < |s| && s[i].Update? && KeyOf(s[i]) == k;
        if i < |rows| { assert rows[i] == s[i]; }
      }
      if k in StagedKeys(rows) {
        var i :| 0 <= i < |rows| && rows[i].Update? && KeyOf(rows[i]) == k;
        assert s[i] == rows[i];
      }
      if k == KeyOf(x) {
        assert s[|rows|] == x;
      }
    }
  }

  /** Committing distinct updates without undo saves every row, raises nothing, and leaves
      each named record holding its new score and every other record as it was. */
  lemma {:induction false} CommitStoresScores(rows: seq<Staged>, now: int, init: Committing<Staged, Records>)
    requires DistinctUpdates(rows)
    ensures var r := Replayed(rows, Processing(false, now), init, true);
            && r.saved == init.saved + |rows| && r.rollbackRows == init.rollbackRows && r.messages == init.messages
            && r.store.Keys == init.store.Keys + StagedKeys(rows)
            && (forall k :: k in init.store && k !in StagedKeys(rows) ==> r.store[k] == init.store[k])
            && (forall i :: 0 <= i < |rows| ==> GetScore(r.store, KeyOf(rows[i])).Some?
                                                && GetScore(r.store, KeyOf(rows[i])).value.score == rows[i].newPoints)
    decreases |rows|
  {
    if rows != [] {
      var n := |rows| - 1;
      var front, x := rows[..n], rows[n];
      assert rows == front + [x];
      assert DistinctUpdates(front) by {
        assert forall i :: 0 <= i < n ==> front[i] == rows[i];
      }
      var proc := Processing(false, now);
      CommitStoresScores(front, now, init);
      var p := Replayed(front, proc, init, true);
      var r := Replayed(rows, proc, init, true);
      assert r == ReplayRow(p, x, proc, true);
      CommitUpdateStep(p, x, now);
      var key := KeyOf(x);
      assert r.store == Upsert(p.store, key, x.newPoints, x.maxPoints, None, now);
      StagedKeysSnoc(front, x);
      GetAfterUpsert(p.store, key, x.newPoints, x.maxPoints, None, now);
      forall k | k in init.store && k !in StagedKeys(rows) ensures r.store[k] == init.store[k] {
        assert k != key && k !in StagedKeys(front);
      }
      forall i | 0 <= i < |rows|
        ensures GetScore(r.store, KeyOf(rows[i])).Some? && GetScore(r.store, KeyOf(rows[i])).value.score == rows[i].newPoints
      {
        if i < n {
          assert front[i] == rows[i];
          assert KeyOf(rows[i]) != key;
          assert GetScore(p.store, KeyOf(rows[i])).Some?;
          assert r.store[KeyOf(rows[i])] == p.store[KeyOf(rows[i])];
        }
      }
    }
  }

  /** One update with a non-zero maximum, without undo, is saved and only upserts its record. */
  lemma CommitUpdateStep(p: Committing<Staged, Records>, x: Staged, now: int)
    requires x.Update? && x.maxPoints != 0.0
    ensures ReplayRow(p, x, Processing(false, now), true)
         == p.(saved := p.saved + 1, store := Upsert(p.store, KeyOf(x), x.newPoints, x.maxPoints, None, now))
  {
    assert Processing(false, now)(p.store, x) == ScoreProcess(p.store, x, false, now);
  }

  /** With handle_undo, committing one update over an existing record and rolling it back
      restores the record's grade, provided its stored maximum is the import's maximum. */
  lemma CommitThenRollbackRestores(records: Records, u: Staged, now: int, later: int, messages: seq<Message>)
    requires u.Update? && u.maxPoints != 0.0 && KeyOf(u) in records
    requires records[KeyOf(u)].maxGrade == Some(u.maxPoints)
    ensures var c := Replayed([u], ProcessingCorrected(true, now), Committing(0, [], messages, records), true);
            var b := Replayed(c.rollbackRows, ProcessingCorrected(true, later), Committing(0, [], c.messages, c.store), false);
            && c.saved == 1 && |c.rollbackRows| == 1 && b.saved == 1 && b.messages == messages
            && KeyOf(u) in b.store && b.store[KeyOf(u)].grade == records[KeyOf(u)].grade
            && b.store[KeyOf(u)].maxGrade == records[KeyOf(u)].maxGrade
            && b.store.Keys == records.Keys
            && (forall k :: k in records && k != KeyOf(u) ==> b.store[k] == records[k])
  {
    var start := Committing(0, [], messages, records);
    var c := Replayed([u], ProcessingCorrected(true, now), start, true);
    ReplayedSnoc([], u, ProcessingCorrected(true, now), start, true);
    assert [] + [u] == [u];
    var g := records[KeyOf(u)].grade;
    var undo := Update(u.user, u.block, g * u.maxPoints, u.maxPoints);
    var step := ScoreProcess(records, u, true, now);
    assert GetScore(records, KeyOf(u)).value.score == g * u.maxPoints;
    assert step.0 == Saved(Some(undo));
    assert c.rollbackRows == [undo];
    var restart := Committing(0, [], c.messages, c.store);
    var b := Replayed(c.rollbackRows, ProcessingCorrected(true, later), restart, false);
    ReplayedSnoc([], undo, ProcessingCorrected(true, later), restart, false);
    assert [] + [undo] == [undo];
    assert (g * u.maxPoints) / u.maxPoints == g;
  }

  /** As written, every undo row raises KeyError('block_id') when replayed: rollback saves
      nothing, leaves the store as it is, and records the exception text. */
  lemma {:induction false} RollbackAsWrittenFails(rows: seq<Staged>, handleUndo: bool, now: int,
                                                  init: Committing<Staged, Records>)
    requires forall i :: 0 <= i < |rows| ==> rows[i].UndoRecord?
    ensures var r := Replayed(rows, Processing(handleUndo, now), init, false);
            && r.saved == init.saved && r.store == init.store && r.rollbackRows == init.rollbackRows
            && r.messages == (if rows == [] then init.messages else WithError(init.messages, Exception(MissingBlockId)))
    decreases |rows|
  {
    if rows != [] {
      var n := |rows| - 1;
      var front, x := rows[..n], rows[n];
      assert rows == front + [x];
      assert forall i :: 0 <= i < n ==> front[i] == rows[i];
      var proc := Processing(handleUndo, now);
      RollbackAsWrittenFails(front, handleUndo, now, init);
      ReplayedSnoc(front, x, proc, init, false);
      var p := Replayed(front, proc, init, false);
      assert proc(p.store, x) == (Failed(MissingBlockId), p.store);
      if front != [] {
        WithErrorIdempotent(init.messages, Exception(MissingBlockId));
      }
    }
  }

  /** The discrepancy, on one row: as written, committing with handle_undo an update over an
      existing record and rolling it back leaves the new score in place and reports
      KeyError('block_id'). */
  lemma CommitThenRollbackAsWrittenKeepsNewScore(records: Records, u: Staged, now: int, later: int, messages: seq<Message>)
    requires u.Update? && u.maxPoints != 0.0 && KeyOf(u) in records
    ensures var c := Replayed([u], Processing(true, now), Committing(0, [], messages, records), true);
            var b := Replayed(c.rollbackRows, Processing(true, later), Committing(0, [], c.messages, c.store), false);
            && c.saved == 1 && |c.rollbackRows| == 1 && b.saved == 0 && b.store == c.store
            && Exception(MissingBlockId) in b.messages
            && GetScore(b.store, KeyOf(u)).Some? && GetScore(b.store, KeyOf(u)).value.score == u.newPoints
  {
    var start := Committing(0, [], messages, records);
    var c := Replayed([u], Processing(true, now), start, true);
    ReplayedSnoc([], u, Processing(true, now), start, true);
    assert [] + [u] == [u];
    assert |c.rollbackRows| == 1 && c.rollbackRows[0].UndoRecord?;
    RollbackAsWrittenFails(c.rollbackRows, true, later, Committing(0, [], c.messages, c.store));
    GetAfterUpsert(records, KeyOf(u), u.newPoints, u.maxPoints, None, now);
  }

  // ------------------------------------------------------------------
  // get_rows_to_export
  // ------------------------------------------------------------------

  /** The dict _get_enrollments yields for one enrollment. */
  datatype Enrollment = Enrollment(userId: string, username: string, fullName: string, email: string,
                                   enrolled: bool, track: string, studentUid: Option<string>)

  /** Python's int() on a float: truncation toward zero. */
  function TruncateToInt(x: real): (i: int)
    ensures x >= 0.0 ==> 0 <= i && i as real <= x < i as real + 1.0
    ensures x < 0.0 ==> i <= 0 && i as real - 1.0 < x <= i as real
  {
    if x >= 0.0 then x.Floor else -((-x).Floor)
  }

  /** The columns an export row fills before the checksum is added. */
  const ExportKeys: set<string> := {"block_id", "title", "points", "last_points", "date_last_graded",
                                    "who_last_graded", "user_id", "username", "full_name", "email",
                                    "enrolled", "track", "student_uid"}

  /** One export row: the enrollment's fields, this problem and its title, empty points, and
      for a student with a score the truncated points and the time of the last change. */
  function ExportRow(e: Enrollment, scores: map<string, ScoreRow>, blockId: string, maxPoints: real, title: string): (r: Row)
    ensures r.Keys == ExportKeys
    ensures r["points"] == Null && r["who_last_graded"] == Null
    ensures r["user_id"] == Str(e.userId) && r["block_id"] == Str(blockId) && r["title"] == Str(title)
    ensures e.userId !in scores ==> r["last_points"] == Null && r["date_last_graded"] == Null
    ensures e.userId in scores ==>
              r["last_points"] == Int(TruncateToInt(scores[e.userId].info.grade * maxPoints))
              && r["date_last_graded"] == Time(scores[e.userId].info.modified)
  {
    var scored := e.userId in scores;
    var lastPoints := if scored then Int(TruncateToInt(scores[e.userId].info.grade * maxPoints)) else Null;
    var lastGraded := if scored then Time(scores[e.userId].info.modified) else Null;
    map["block_id" := Str(blockId), "title" := Str(title), "points" := Null, "last_points" := lastPoints,
        "date_last_graded" := lastGraded, "who_last_graded" := Null,
        "user_id" := Str(e.userId), "username" := Str(e.username), "full_name" := Str(e.fullName),
        "email" := Str(e.email), "enrolled" := Bool(e.enrolled), "track" := Str(e.track),
        "student_uid" := if e.studentUid.Some? then Str(e.studentUid.value) else Null]
  }

  function ExportRows(enrollments: seq<Enrollment>, scores: map<string, ScoreRow>, blockId: string,
                      maxPoints: real, title: string): (rows: seq<Row>)
    ensures |rows| == |enrollments|
    ensures forall i :: 0 <= i < |rows| ==> rows[i] == ExportRow(enrollments[i], scores, blockId, maxPoints, title)
  {
    seq(|enrollments|, i requires 0 <= i < |enrollments| => ExportRow(enrollments[i], scores, blockId, maxPoints, title))
  }

  /** ScoreCSVProcessor's `preprocess_export_row`, ChecksumMixin's as written. */
  function ExportStamp(digest: string -> string): Row -> Row
  {
    row => StampChecksumAsWritten(row, ChecksumColumns, ChecksumField, digest)
  }

  /** The same hook with the corrected checksum text. */
  function ExportStampCorrected(digest: string -> string): Row -> Row
  {
    row => StampChecksum(row, ChecksumColumns, ChecksumField, digest)
  }

  /** The file write_file produces from `rows`. */
  function ExportTable(rows: seq<Row>, digest: string -> string): Option<seq<Line>>
  {
    WriteTable(Columns, StampedRows(rows, ExportStamp(digest)))
  }

  /** The file write_file would produce with the corrected stamp. */
  function ExportTableCorrected(rows: seq<Row>, digest: string -> string): Option<seq<Line>>
  {
    WriteTable(Columns, StampedRows(rows, ExportStampCorrected(digest)))
  }

  lemma ColumnsHold()
    ensures "user_id" in Columns && "block_id" in Columns && "csum" in Columns
    ensures "last_points" in Columns && "points" in Columns
    ensures ChecksumField !in ChecksumColumns
    ensures forall c :: c in ExportKeys + {ChecksumField} ==> c in Columns
  {
    assert Columns[0] == "user_id" && Columns[7] == "block_id" && Columns[11] == "csum";
    assert Columns[12] == "last_points" && Columns[13] == "points";
  }

  lemma RequiredColumnsPresent()
    ensures FirstMissing(RequiredColumns, Columns) == None
  {
    assert Columns[0] == "user_id" && Columns[13] == "points" && Columns[11] == "csum";
    assert Columns[7] == "block_id" && Columns[12] == "last_points";
  }

  /** Every export row, once stamped either way, fits the header. */
  lemma ExportTableWritten(rows: seq<Row>, digest: string -> string)
    requires forall i :: 0 <= i < |rows| ==> rows[i].Keys == ExportKeys
    ensures ExportTable(rows, digest).Some? && ExportTableCorrected(rows, digest).Some?
  {
    ExportStampsKeys(rows, digest);
    StampedTableWritten(rows, ExportStamp(digest));
    StampedTableWritten(rows, ExportStampCorrected(digest));
  }

  /** Rows the hook stamps with exactly the export keys and the checksum fit the header. */
  lemma StampedTableWritten(rows: seq<Row>, stamp: Row -> Row)
    requires forall i :: 0 <= i < |rows| ==> stamp(rows[i]).Keys == ExportKeys + {ChecksumField}
    ensures WriteTable(Columns, StampedRows(rows, stamp)).Some?
  {
    ColumnsHold();
    var st := StampedRows(rows, stamp);
    forall i | 0 <= i < |st| ensures Writable(Columns, st[i]) {
      assert st[i].Keys == ExportKeys + {ChecksumField};
    }
  }

  /** A rejected verdict or the absence of points leaves the pass untouched. */
  lemma {:induction false} PreprocessedNoop<S, U>(rows: seq<Row>, validate: Row -> Verdict,
                                                  transform: (U, Row) -> (Option<S>, U), init: Staging<S, U>)
    requires forall i :: 0 <= i < |rows| ==> validate(rows[i]).Accept? && transform(init.seen, rows[i]) == (None, init.seen)
    ensures Preprocessed(rows, validate, transform, init) == init
    decreases |rows|
  {
    if rows != [] {
      var n := |rows| - 1;
      assert forall i :: 0 <= i < n ==> rows[..n][i] == rows[i];
      PreprocessedNoop(rows[..n], validate, transform, init);
    }
  }

  /** An export row, stamped, written and read back, passes validate_row and stages nothing. */
  lemma ReimportedRowIsClean(row: Row, blockId: string, maxPoints: real, parse: string -> Option<real>,
                             digest: string -> string, seen: set<string>)
    requires row.Keys == ExportKeys && row["points"] == Null && row["block_id"] == Str(blockId)
    ensures var rb := ReadBack(Columns, StampChecksum(row, ChecksumColumns, ChecksumField, digest));
            ScoreVerdict(rb, blockId, maxPoints, parse, digest) == Accept
            && ScoreTransform(seen, rb, blockId, maxPoints, parse) == (None, seen)
  {
    ReadBackStamped(row, blockId, digest);
  }

  /** The stamped export row, read back: its checksum matches, its problem is this one and its
      points are the empty text. */
  lemma ReadBackStamped(row: Row, blockId: string, digest: string -> string)
    requires "points" in row && row["points"] == Null && "block_id" in row && row["block_id"] == Str(blockId)
    ensures var rb := ReadBack(Columns, StampChecksum(row, ChecksumColumns, ChecksumField, digest));
            ChecksumMatches(rb, ChecksumColumns, ChecksumField, digest)
            && Get(rb, "block_id") == Str(blockId) && Get(rb, "points") == Str("")
  {
    var st := StampChecksum(row, ChecksumColumns, ChecksumField, digest);
    var rb := ReadBack(Columns, st);
    ColumnsHold();
    assert forall i :: 0 <= i < |ChecksumColumns| ==> ChecksumColumns[i] in Columns by {
      assert ChecksumColumns == ["user_id", "block_id", "last_points"];
    }
    ChecksumTextReadBack(Columns, ChecksumColumns, st);
    assert ChecksumMatches(st, ChecksumColumns, ChecksumField, digest);
    ReadBackGet(Columns, st, ChecksumField);
    ReadBackGet(Columns, st, "block_id");
    ReadBackGet(Columns, st, "points");
  }

  /** Re-importing an untouched export written with the corrected stamp is a no-op: its header
      passes validate_file, there is one row per enrollment, no row is refused and nothing is
      staged. */
  lemma ExportedFileReimportsClean(enrollments: seq<Enrollment>, scores: map<string, ScoreRow>, blockId: string,
                                   maxPoints: real, title: string, parse: string -> Option<real>,
                                   digest: string -> string, init: Staging<Staged, set<string>>)
    ensures var table := ExportTableCorrected(ExportRows(enrollments, scores, blockId, maxPoints, title), digest);
            && table.Some?
            && Fieldnames(table.value) == Some(Columns)
            && CheckFile(None, Fieldnames(table.value), MaxFileSize, RequiredColumns) == Accepted
            && |DataRows(table.value)| == |enrollments|
            && Preprocessed(DataRows(table.value), Validation(blockId, maxPoints, parse, digest),
                            Transform(blockId, maxPoints, parse), init) == init
  {
    var rows := ExportRows(enrollments, scores, blockId, maxPoints, title);
    StampedFileReimportsClean(rows, blockId, maxPoints, parse, digest, init);
    RequiredColumnsPresent();
  }

  /** The same for any rows shaped like export rows of this problem. */
  lemma StampedFileReimportsClean(rows: seq<Row>, blockId: string, maxPoints: real, parse: string -> Option<real>,
                                  digest: string -> string, init: Staging<Staged, set<string>>)
    requires forall i :: 0 <= i < |rows| ==>
               rows[i].Keys == ExportKeys && rows[i]["points"] == Null && rows[i]["block_id"] == Str(blockId)
    ensures var table := ExportTableCorrected(rows, digest);
            && table.Some? && Fieldnames(table.value) == Some(Columns) && |DataRows(table.value)| == |rows|
            && Preprocessed(DataRows(table.value), Validation(blockId, maxPoints, parse, digest),
                            Transform(blockId, maxPoints, parse), init) == init
  {
    var stamp := ExportStampCorrected(digest);
    ExportStampsKeys(rows, digest);
    ExportReadBack(rows, stamp);
    var read := DataRows(ExportTableCorrected(rows, digest).value);
    var v, t := Validation(blockId, maxPoints, parse, digest), Transform(blockId, maxPoints, parse);
    forall i | 0 <= i < |read| ensures v(read[i]).Accept? && t(init.seen, read[i]) == (None, init.seen) {
      ReimportedRowIsClean(rows[i], blockId, maxPoints, parse, digest, init.seen);
    }
    PreprocessedNoop(read, v, t, init);
  }

  /** Both stamps add exactly the checksum field to an export row. */
  lemma ExportStampsKeys(rows: seq<Row>, digest: string -> string)
    requires forall i :: 0 <= i < |rows| ==> rows[i].Keys == ExportKeys
    ensures forall i :: 0 <= i < |rows| ==> ExportStamp(digest)(rows[i]).Keys == ExportKeys + {ChecksumField}
    ensures forall i :: 0 <= i < |rows| ==> ExportStampCorrected(digest)(rows[i]).Keys == ExportKeys + {ChecksumField}
  {
  }

  /** Reading back an exported file gives, row by row, the read-back form of each stamped row. */
  lemma ExportReadBack(rows: seq<Row>, stamp: Row -> Row)
    requires forall i :: 0 <= i < |rows| ==> stamp(rows[i]).Keys == ExportKeys + {ChecksumField}
    ensures var table := WriteTable(Columns, StampedRows(rows, stamp));
            && table.Some? && Fieldnames(table.value) == Some(Columns)
            && |DataRows(table.value)| == |rows|
            && forall i :: 0 <= i < |rows| ==> DataRows(table.value)[i] == ReadBack(Columns, stamp(rows[i]))
  {
    var st := StampedRows(rows, stamp);
    StampedTableWritten(rows, stamp);
    var table := WriteTable(Columns, st).value;
    ReadWrittenLines(Columns, st, table[1..]);
    assert DataRows(table) == ReadLines(Columns, table[1..]);
  }

  /** The two stamps give the same file unless some exported learner's points truncate to 0. */
  lemma ExportTablesAgree(enrollments: seq<Enrollment>, scores: map<string, ScoreRow>, blockId: string,
                          maxPoints: real, title: string, digest: string -> string)
    requires forall i :: 0 <= i < |enrollments| && enrollments[i].userId in scores ==>
               TruncateToInt(scores[enrollments[i].userId].info.grade * maxPoints) != 0
    ensures var rows := ExportRows(enrollments, scores, blockId, maxPoints, title);
            ExportTable(rows, digest) == ExportTableCorrected(rows, digest)
  {
    var rows := ExportRows(enrollments, scores, blockId, maxPoints, title);
    ExportRowsNoFalsyText(enrollments, scores, blockId, maxPoints, title);
    var a, b := StampedRows(rows, ExportStamp(digest)), StampedRows(rows, ExportStampCorrected(digest));
    forall i | 0 <= i < |rows| ensures a[i] == b[i] {
      assert a[i] == StampChecksumAsWritten(rows[i], ChecksumColumns, ChecksumField, digest);
      assert b[i] == StampChecksum(rows[i], ChecksumColumns, ChecksumField, digest);
      StampsAgree(rows[i], ChecksumColumns, ChecksumField, digest);
    }
    assert a == b;
  }

  lemma ExportRowsNoFalsyText(enrollments: seq<Enrollment>, scores: map<string, ScoreRow>, blockId: string,
                              maxPoints: real, title: string)
    requires forall i :: 0 <= i < |enrollments| && enrollments[i].userId in scores ==>
               TruncateToInt(scores[enrollments[i].userId].info.grade * maxPoints) != 0
    ensures var rows := ExportRows(enrollments, scores, blockId, maxPoints, title);
            forall i :: 0 <= i < |rows| ==> NoFalsyText(rows[i], ChecksumColumns)
  {
    forall i | 0 <= i < |enrollments| ensures NoFalsyText(ExportRow(enrollments[i], scores, blockId, maxPoints, title), ChecksumColumns) {
      ExportRowNoFalsyText(enrollments[i], scores, blockId, maxPoints, title);
    }
  }

  /** The checksum cells of an export row whose points do not truncate to 0 are all truthy or
      empty. */
  lemma ExportRowNoFalsyText(e: Enrollment, scores: map<string, ScoreRow>, blockId: string, maxPoints: real, title: string)
    requires e.userId in scores ==> TruncateToInt(scores[e.userId].info.grade * maxPoints) != 0
    ensures NoFalsyText(ExportRow(e, scores, blockId, maxPoints, title), ChecksumColumns)
  {
    var row := ExportRow(e, scores, blockId, maxPoints, title);
    assert Get(row, "user_id").Str? && Get(row, "block_id").Str?;
    assert Get(row, "last_points").Null? || Truthy(Get(row, "last_points"));
    assert ChecksumColumns == ["user_id", "block_id", "last_points"];
  }

  /** Round trip of the code as written: when no exported learner's points truncate to 0, the
      file write_file produces is accepted on upload, untouched, and stages nothing. */
  lemma ExportedFileReimportsCleanAsWritten(enrollments: seq<Enrollment>, scores: map<string, ScoreRow>, blockId: string,
                                            maxPoints: real, title: string, parse: string -> Option<real>,
                                            digest: string -> string, init: Staging<Staged, set<string>>)
    requires forall i :: 0 <= i < |enrollments| && enrollments[i].userId in scores ==>
               TruncateToInt(scores[enrollments[i].userId].info.grade * maxPoints) != 0
    ensures var table := ExportTable(ExportRows(enrollments, scores, blockId, maxPoints, title), digest);
            && table.Some?
            && CheckFile(None, Fieldnames(table.value), MaxFileSize, RequiredColumns) == Accepted
            && |DataRows(table.value)| == |enrollments|
            && Preprocessed(DataRows(table.value), Validation(blockId, maxPoints, parse, digest),
                            Transform(blockId, maxPoints, parse), init) == init
  {
    ExportTablesAgree(enrollments, scores, blockId, maxPoints, title, digest);
    ExportedFileReimportsClean(enrollments, scores, blockId, maxPoints, title, parse, digest, init);
  }

  /** The discrepancy: a learner whose exported points truncate to 0 gets a checksum over an
      empty points text, while the file carries "0"; their row of the untouched file comes back
      refused. */
  lemma ZeroPointsExportRejectedAsWritten(enrollments: seq<Enrollment>, scores: map<string, ScoreRow>, blockId: string,
                                          maxPoints: real, title: string, parse: string -> Option<real>,
                                          digest: string -> string, k: nat)
    requires k < |enrollments| && enrollments[k].userId in scores
    requires TruncateToInt(scores[enrollments[k].userId].info.grade * maxPoints) == 0
    requires digest(enrollments[k].userId + blockId) != digest(enrollments[k].userId + blockId + "0")
    ensures var table := ExportTable(ExportRows(enrollments, scores, blockId, maxPoints, title), digest);
            && table.Some? && |DataRows(table.value)| == |enrollments|
            && ScoreVerdict(DataRows(table.value)[k], blockId, maxPoints, parse, digest) == Reject(None)
  {
    var rows := ExportRows(enrollments, scores, blockId, maxPoints, title);
    ZeroPointsRow(enrollments, scores, blockId, maxPoints, title, k);
    ZeroPointsFileRowRejected(rows, k, enrollments[k].userId, blockId, maxPoints, parse, digest);
  }

  /** The same for data row k of any exported file whose row k has zero last points. */
  lemma ZeroPointsFileRowRejected(rows: seq<Row>, k: nat, user: string, blockId: string, maxPoints: real,
                                  parse: string -> Option<real>, digest: string -> string)
    requires forall i :: 0 <= i < |rows| ==> rows[i].Keys == ExportKeys
    requires k < |rows|
    requires Get(rows[k], "user_id") == Str(user) && Get(rows[k], "block_id") == Str(blockId)
    requires Get(rows[k], "last_points") == Int(0)
    requires digest(user + blockId) != digest(user + blockId + "0")
    ensures var table := ExportTable(rows, digest);
            && table.Some? && |DataRows(table.value)| == |rows|
            && ScoreVerdict(DataRows(table.value)[k], blockId, maxPoints, parse, digest) == Reject(None)
  {
    ZeroPointsStampRejected(rows[k], user, blockId, maxPoints, parse, digest);
    ExportStampsKeys(rows, digest);
    ExportReadBack(rows, ExportStamp(digest));
    assert ExportStamp(digest)(rows[k]) == StampChecksumAsWritten(rows[k], ChecksumColumns, ChecksumField, digest);
  }

  /** The checksum cells of the export row of a learner whose points truncate to 0. */
  lemma ZeroPointsRow(enrollments: seq<Enrollment>, scores: map<string, ScoreRow>, blockId: string, maxPoints: real,
                      title: string, k: nat)
    requires k < |enrollments| && enrollments[k].userId in scores
    requires TruncateToInt(scores[enrollments[k].userId].info.grade * maxPoints) == 0
    ensures var row := ExportRows(enrollments, scores, blockId, maxPoints, title)[k];
            && Get(row, "user_id") == Str(enrollments[k].userId) && Get(row, "block_id") == Str(blockId)
            && Get(row, "last_points") == Int(0)
  {
    var row := ExportRow(enrollments[k], scores, blockId, maxPoints, title);
    assert ExportRows(enrollments, scores, blockId, maxPoints, title)[k] == row;
  }

  lemma ZeroPointsStampRejected(row: Row, user: string, blockId: string, maxPoints: real,
                                parse: string -> Option<real>, digest: string -> string)
    requires Get(row, "user_id") == Str(user) && Get(row, "block_id") == Str(blockId) && Get(row, "last_points") == Int(0)
    requires digest(user + blockId) != digest(user + blockId + "0")
    ensures var rb := ReadBack(Columns, StampChecksumAsWritten(row, ChecksumColumns, ChecksumField, digest));
            ChecksumTextAsWritten(rb, ChecksumColumns) == ChecksumText(rb, ChecksumColumns)
            && ScoreVerdict(rb, blockId, maxPoints, parse, digest) == Reject(None)
  {
    var st := StampChecksumAsWritten(row, ChecksumColumns, ChecksumField, digest);
    var rb := ReadBack(Columns, st);
    ColumnsHold();
    ChecksumTexts(row);
    assert ChecksumTextAsWritten(row, ChecksumColumns) == user + blockId;
    assert Get(st, "last_points") == Int(0) && Get(st, "user_id") == Str(user) && Get(st, "block_id") == Str(blockId);
    assert Get(rb, "last_points") == Str("0") && Get(rb, "user_id") == Str(user) && Get(rb, "block_id") == Str(blockId);
    ChecksumTexts(rb);
    assert ChecksumText(rb, ChecksumColumns) == user + blockId + "0";
    assert Get(rb, ChecksumField) == Str(digest(user + blockId));
    ChecksumTextOnReadRows(rb, ChecksumColumns);
  }

  /** Both checksum texts, spelled out over the three checksum columns. */
  lemma ChecksumTexts(row: Row)
    ensures ChecksumText(row, ChecksumColumns)
         == CsvText(Get(row, "user_id")) + CsvText(Get(row, "block_id")) + CsvText(Get(row, "last_points"))
    ensures ChecksumTextAsWritten(row, ChecksumColumns)
         == (if Truthy(Get(row, "user_id")) then CsvText(Get(row, "user_id")) else "")
          + (if Truthy(Get(row, "block_id")) then CsvText(Get(row, "block_id")) else "")
          + (if Truthy(Get(row, "last_points")) then CsvText(Get(row, "last_points")) else "")
  {
    ChecksumTextOfThree(row, "user_id", "block_id", "last_points");
    ChecksumTextAsWrittenOfThree(row, "user_id", "block_id", "last_points");
  }

  /** The checksum text of three columns, spelled out. */
  lemma ChecksumTextOfThree(row: Row, a: string, b: string, c: string)
    ensures ChecksumText(row, [a, b, c]) == CsvText(Get(row, a)) + CsvText(Get(row, b)) + CsvText(Get(row, c))
  {
    assert [a, b, c][1..] == [b, c];
    ChecksumTextOfTwo(row, b, c);
  }

  lemma ChecksumTextOfTwo(row: Row, b: string, c: string)
    ensures ChecksumText(row, [b, c]) == CsvText(Get(row, b)) + CsvText(Get(row, c))
  {
    var tc := CsvText(Get(row, c));
    assert [b, c][1..] == [c] && [c][1..] == [];
    assert ChecksumText(row, [c]) == tc + "" == tc;
  }

  /** The as-written checksum text of three columns, spelled out. */
  lemma ChecksumTextAsWrittenOfThree(row: Row, a: string, b: string, c: string)
    ensures ChecksumTextAsWritten(row, [a, b, c])
         == (if Truthy(Get(row, a)) then CsvText(Get(row, a)) else "")
          + (if Truthy(Get(row, b)) then CsvText(Get(row, b)) else "")
          + (if Truthy(Get(row, c)) then CsvText(Get(row, c)) else "")
  {
    assert [a, b, c][1..] == [b, c];
    ChecksumTextAsWrittenOfTwo(row, b, c);
  }

  lemma ChecksumTextAsWrittenOfTwo(row: Row, b: string, c: string)
    ensures ChecksumTextAsWritten(row, [b, c])
         == (if Truthy(Get(row, b)) then CsvText(Get(row, b)) else "")
          + (if Truthy(Get(row, c)) then CsvText(Get(row, c)) else "")
  {
    var tc := if Truthy(Get(row, c)) then CsvText(Get(row, c)) else "";
    assert [b, c][1..] == [c] && [c][1..] == [];
    assert ChecksumTextAsWritten(row, [c]) == tc + "" == tc;
  }

  // ------------------------------------------------------------------
  // The processor's state, step by step
  // ------------------------------------------------------------------

  /** The processor's settings (its keyword arguments): `parse` stands for float() and
      `digest` for the salted, truncated md5. */
  datatype Config = Config(blockId: string, maxPoints: real, displayName: string, handleUndo: bool,
                           parse: string -> Option<real>, digest: string -> string)

  /** Everything a run changes: the processor's fields and the score store. */
  datatype Snapshot = Snapshot(totalRows: nat, processedRows: nat, savedRows: nat, stage: seq<Staged>,
                               rollbackRows: seq<Staged>, rowErrors: seq<nat>, messages: seq<Message>,
                               usersSeen: set<string>, resultId: Option<string>, records: Records)

  /** A newly built processor over the store as it is. */
  function Fresh(records: Records): Snapshot
  {
    Snapshot(0, 0, 0, [], [], [], [], {}, None, records)
  }

  function PassStart(s: Snapshot): Staging<Staged, set<string>>
  {
    Staging(s.stage, s.rowErrors, s.messages, s.usersSeen, 0)
  }

  /** preprocess_file over `rows`. */
  function AfterPreprocess(c: Config, s: Snapshot, rows: seq<Row>): (r: Snapshot)
    ensures r.totalRows == |rows|
    ensures r.rowErrors == s.rowErrors + RefusedRows(rows, Validation(c.blockId, c.maxPoints, c.parse, c.digest))
    ensures |r.stage| == |s.stage| + r.processedRows && r.stage[..|s.stage|] == s.stage && r.processedRows <= |rows|
    ensures r.savedRows == s.savedRows && r.rollbackRows == s.rollbackRows && r.records == s.records && r.resultId == s.resultId
  {
    var v, t := Validation(c.blockId, c.maxPoints, c.parse, c.digest), Transform(c.blockId, c.maxPoints, c.parse);
    var p := Preprocessed(rows, v, t, PassStart(s));
    PreprocessedRowErrors(rows, v, t, PassStart(s));
    PreprocessedStage(rows, v, t, PassStart(s));
    s.(totalRows := |rows|, processedRows := p.processed, stage := p.stage, rowErrors := p.rowErrors,
       messages := p.messages, usersSeen := p.seen)
  }

  /** AfterPreprocess written out as the pass it runs. */
  lemma AfterPreprocessIs(c: Config, s: Snapshot, rows: seq<Row>)
    ensures var p := Preprocessed(rows, Validation(c.blockId, c.maxPoints, c.parse, c.digest),
                                  Transform(c.blockId, c.maxPoints, c.parse), PassStart(s));
            AfterPreprocess(c, s, rows) == s.(totalRows := |rows|, processedRows := p.processed, stage := p.stage,
                                              rowErrors := p.rowErrors, messages := p.messages, usersSeen := p.seen)
  {
  }

  /** CSVProcessor.commit: the stage is drained in order through process_row. */
  function AfterBaseCommit(c: Config, s: Snapshot, now: int): (r: Snapshot)
    ensures r.stage == [] && r.savedRows <= |s.stage|
    ensures |s.rollbackRows| <= |r.rollbackRows| <= |s.rollbackRows| + r.savedRows
    ensures r.rollbackRows[..|s.rollbackRows|] == s.rollbackRows
    ensures !c.handleUndo ==> r.rollbackRows == s.rollbackRows
    ensures r.rowErrors == s.rowErrors && r.totalRows == s.totalRows && r.processedRows == s.processedRows
    ensures r.resultId == s.resultId && r.usersSeen == s.usersSeen
  {
    var start := Committing(0, s.rollbackRows, s.messages, s.records);
    var q := Replayed(s.stage, Processing(c.handleUndo, now), start, true);
    ReplayedCounts(s.stage, Processing(c.handleUndo, now), start, true);
    assert !c.handleUndo ==> q.rollbackRows == s.rollbackRows by {
      if !c.handleUndo {
        NoUndoWithoutHandleUndo(s.stage, now, start);
      }
    }
    s.(stage := [], savedRows := q.saved, rollbackRows := q.rollbackRows, messages := q.messages, records := q.store)
  }

  /** Without handle_undo no undo row is ever kept. */
  lemma {:induction false} NoUndoWithoutHandleUndo(rows: seq<Staged>, now: int, init: Committing<Staged, Records>)
    ensures Replayed(rows, Processing(false, now), init, true).rollbackRows == init.rollbackRows
    decreases |rows|
  {
    if rows != [] {
      NoUndoWithoutHandleUndo(rows[..|rows| - 1], now, init);
    }
  }

  /** DeferrableMixin.commit: inline when running as the Celery task or when the stage is small;
      otherwise the state goes to the Celery queue (`taskId` is the id it hands back) and
      nothing else changes. */
  function AfterCommit(c: Config, s: Snapshot, runningTask: bool, now: int, taskId: string): (r: Snapshot)
    ensures CommitsInline(runningTask, |s.stage|, SizeToDefer) ==> r == AfterBaseCommit(c, s, now)
    ensures !CommitsInline(runningTask, |s.stage|, SizeToDefer) ==>
              r == s.(resultId := Some(taskId)) && r.stage == s.stage && r.records == s.records && r.savedRows == s.savedRows
  {
    if CommitsInline(runningTask, |s.stage|, SizeToDefer) then AfterBaseCommit(c, s, now) else s.(resultId := Some(taskId))
  }

  /** The processor do_deferred_commit rebuilds from a saved state: `ScoreCSVProcessor.__init__`
      sets `users_seen` afresh after the keyword arguments are applied. */
  function Reloaded(saved: Snapshot): (r: Snapshot)
    ensures r.usersSeen == {}
    ensures r.(usersSeen := saved.usersSeen) == saved
  {
    saved.(usersSeen := {})
  }

  /** do_deferred_commit: DeferrableMixin.commit saves the state before it sets `result_id`,
      so the Celery task rebuilds the processor as it was before the deferral and commits it as
      the running task, that is, inline whatever the size. It stores exactly what an inline
      commit of the same stage would have stored, and the status it returns carries the result
      id of the saved state, not the queued task's. */
  lemma DeferredTaskCommits(c: Config, s: Snapshot, now: int, later: int, taskId: string)
    requires !CommitsInline(false, |s.stage|, SizeToDefer)
    ensures var queued := AfterCommit(c, s, false, now, taskId);
            var done := AfterCommit(c, Reloaded(s), true, later, taskId);
            && queued.stage == s.stage && queued.records == s.records && queued.resultId == Some(taskId)
            && done.stage == [] && done.resultId == s.resultId
            && done.records == AfterBaseCommit(c, s, later).records
            && done.savedRows == AfterBaseCommit(c, s, later).savedRows
            && done.messages == AfterBaseCommit(c, s, later).messages
            && StatusOf(done).resultId == s.resultId
  {
  }

  /** CSVProcessor.rollback: the undo rows are drained in order through process_row. */
  function AfterRollback(c: Config, s: Snapshot, now: int): (r: Snapshot)
    ensures r.rollbackRows == [] && r.savedRows <= |s.rollbackRows|
    ensures r.stage == s.stage && r.rowErrors == s.rowErrors && r.resultId == s.resultId
  {
    var start := Committing(0, [], s.messages, s.records);
    var q := Replayed(s.rollbackRows, Processing(c.handleUndo, now), start, false);
    ReplayedCounts(s.rollbackRows, Processing(c.handleUndo, now), start, false);
    s.(rollbackRows := [], savedRows := q.saved, messages := q.messages, records := q.store)
  }

  /** AfterRollback written out as the replay it runs. */
  lemma AfterRollbackIs(c: Config, s: Snapshot, now: int)
    ensures var q := Replayed(s.rollbackRows, Processing(c.handleUndo, now), Committing(0, [], s.messages, s.records), false);
            AfterRollback(c, s, now) == s.(rollbackRows := [], savedRows := q.saved, messages := q.messages, records := q.store)
  {
  }

  /** The validate_file verdict for an upload. */
  function FileVerdict(upload: Upload): FileCheck
  {
    CheckFile(upload.size, Fieldnames(upload.table), MaxFileSize, RequiredColumns)
  }

  /** process_file: a refused file adds its message and stops; an accepted one is
      preprocessed and, with autocommit and nothing refused, committed. The flag is true when
      validate_file raised (an empty file has no header), and then nothing changed. */
  function AfterProcessFile(c: Config, s: Snapshot, upload: Upload, autocommit: bool, now: int, taskId: string)
    : (r: (Snapshot, bool))
    ensures r.1 <==> FileVerdict(upload).Crashed?
    ensures r.1 ==> r.0 == s
    ensures FileVerdict(upload).Rejected? ==> r.0 == s.(messages := WithError(s.messages, FileVerdict(upload).message))
    ensures !FileVerdict(upload).Accepted? ==> r.0.stage == s.stage && r.0.records == s.records && r.0.rowErrors == s.rowErrors
    ensures FileVerdict(upload).Accepted? ==> r.0.totalRows == |DataRows(upload.table)|
  {
    match FileVerdict(upload)
    case Crashed => (s, true)
    case Rejected(m) => (s.(messages := WithError(s.messages, m)), false)
    case Accepted =>
      var p := AfterPreprocess(c, s, DataRows(upload.table));
      if autocommit && Committable(p.stage, p.rowErrors) then (AfterCommit(c, p, false, now, taskId), false) else (p, false)
  }

  /** status(), less the percentage string. */
  function StatusOf(s: Snapshot): (st: Status)
    ensures st.canCommit <==> |s.stage| > 0 && s.rowErrors == []
    ensures st.waiting <==> s.resultId.Some? && s.resultId.value != ""
    ensures st.errorRows == s.rowErrors && st.errorMessages == s.messages && st.resultId == s.resultId
  {
    Status(s.totalRows, s.processedRows, s.savedRows, s.rowErrors, s.messages,
           Committable(s.stage, s.rowErrors), s.resultId, Waiting(s.resultId))
  }

  // ------------------------------------------------------------------
  // Properties of a whole run
  // ------------------------------------------------------------------

  /** All or nothing: a single refused row in an accepted file leaves the store, the saved
      count and the Celery task id untouched, and the status reports the row and no commit. */
  lemma RefusedRowBlocksImport(c: Config, s: Snapshot, upload: Upload, now: int, taskId: string, k: nat)
    requires FileVerdict(upload).Accepted?
    requires k < |DataRows(upload.table)|
    requires ScoreVerdict(DataRows(upload.table)[k], c.blockId, c.maxPoints, c.parse, c.digest).Reject?
    ensures var r := AfterProcessFile(c, s, upload, true, now, taskId).0;
            && r.records == s.records && r.savedRows == s.savedRows && r.resultId == s.resultId
            && k + 1 in r.rowErrors && !StatusOf(r).canCommit
  {
    var rows := DataRows(upload.table);
    var v := Validation(c.blockId, c.maxPoints, c.parse, c.digest);
    RefusedRowsExact(rows, v);
    assert k + 1 in RefusedRows(rows, v);
  }

  /** The staged students and their points, read as a map, for a stage without repeats. */
  lemma {:induction false} StageMapOfDistinct(stage: seq<Staged>, blockId: string, maxPoints: real)
    requires StagedUpdates(stage, blockId, maxPoints)
    ensures StageMapExact(stage)
    decreases |stage|
  {
    if stage != [] {
      var n := |stage| - 1;
      var front, x := stage[..n], stage[n];
      assert forall j :: 0 <= j < n ==> front[j] == stage[j];
      StageMapOfDistinct(front, blockId, maxPoints);
      assert stage == front + [x];
      StageMapSnoc(front, x);
    }
  }

  /** The stage map has one entry per staged row, holding that row's points. */
  predicate StageMapExact(stage: seq<Staged>)
  {
    && (forall j :: 0 <= j < |stage| ==> stage[j].Update?)
    && |StageMap(stage)| == |stage|
    && (forall j :: 0 <= j < |stage| ==> stage[j].user in StageMap(stage) && StageMap(stage)[stage[j].user] == stage[j].newPoints)
    && (forall u :: u in StageMap(stage) ==> exists j :: 0 <= j < |stage| && stage[j].user == u)
  }

  /** Staging an update for a student not staged yet adds one entry. */
  lemma StageMapSnoc(front: seq<Staged>, x: Staged)
    requires StageMapExact(front)
    requires x.Update? && forall j :: 0 <= j < |front| ==> front[j].user != x.user
    ensures StageMapExact(front + [x])
  {
    var stage := front + [x];
    var n := |front|;
    var m := StageMap(front);
    assert x.user !in m;
    var whole := m[x.user := x.newPoints];
    assert stage[..n] == front;
    assert StageMap(stage) == whole;
    assert |whole| == |m| + 1;
    assert forall j :: 0 <= j < |stage| ==> stage[j].Update? by {
      forall j | 0 <= j < |stage| ensures stage[j].Update? {
        if j < n { assert stage[j] == front[j]; }
      }
    }
    forall j | 0 <= j < |stage| ensures stage[j].user in whole && whole[stage[j].user] == stage[j].newPoints {
      if j < n {
        assert stage[j] == front[j];
        assert front[j].user in m && m[front[j].user] == front[j].newPoints;
      }
    }
    forall u | u in whole ensures exists j :: 0 <= j < |stage| && stage[j].user == u {
      if u != x.user {
        var j :| 0 <= j < n && front[j].user == u;
        assert stage[j].user == u;
      } else {
        assert stage[n].user == u;
      }
    }
  }

  /** The preprocess pass of a clean file on a fresh processor: no message, no refused row,
      and one distinct update per student of FirstPoints. */
  lemma CleanPass(c: Config, records: Records, rows: seq<Row>)
    requires c.maxPoints != 0.0
    requires RefusedRows(rows, Validation(c.blockId, c.maxPoints, c.parse, c.digest)) == []
    ensures var v := Validation(c.blockId, c.maxPoints, c.parse, c.digest);
            var first := FirstPoints(rows, v, c.parse);
            var p := AfterPreprocess(c, Fresh(records), rows);
            && p.messages == [] && p.rowErrors == [] && p.processedRows == |p.stage| == |first|
            && StagedUpdates(p.stage, c.blockId, c.maxPoints) && DistinctUpdates(p.stage)
            && (forall u :: u in first ==> exists j :: 0 <= j < |p.stage| && p.stage[j].user == u && p.stage[j].newPoints == first[u])
            && (forall j :: 0 <= j < |p.stage| ==> p.stage[j].user in first)
  {
    var v, t := Validation(c.blockId, c.maxPoints, c.parse, c.digest), Transform(c.blockId, c.maxPoints, c.parse);
    var s := Fresh(records);
    var pre := Preprocessed(rows, v, t, PassStart(s));
    StagedFirstWins(rows, c.blockId, c.maxPoints, c.parse, c.digest, PassStart(s));
    PreprocessedStage(rows, v, t, PassStart(s));
    StageMapOfDistinct(pre.stage, c.blockId, c.maxPoints);
    NoneRefusedAllAccepted(rows, v);
    NoMessagesWhenAllAccepted(rows, v, t, PassStart(s));
    StagedUpdatesDistinct(pre.stage, c.blockId, c.maxPoints);
  }

  /** No refused row number means every row passed validate_row. */
  lemma NoneRefusedAllAccepted(rows: seq<Row>, v: Row -> Verdict)
    requires RefusedRows(rows, v) == []
    ensures forall i :: 0 <= i < |rows| ==> v(rows[i]).Accept?
  {
    RefusedRowsExact(rows, v);
    forall i | 0 <= i < |rows| ensures v(rows[i]).Accept? {
      assert i + 1 !in RefusedRows(rows, v);
    }
  }

  /** A stage of one update per student, for one problem and a non-zero maximum, names each
      record once. */
  lemma StagedUpdatesDistinct(stage: seq<Staged>, blockId: string, maxPoints: real)
    requires StagedUpdates(stage, blockId, maxPoints) && maxPoints != 0.0
    ensures DistinctUpdates(stage)
  {
    forall i, j | 0 <= i < j < |stage| ensures KeyOf(stage[i]) != KeyOf(stage[j]) {
      assert stage[i].user != stage[j].user;
    }
  }

  /** A clean import of at most SizeToDefer students on a fresh processor, without undo and
      with a non-zero maximum, stores for each student the points of that student's first
      scored row, touches no other record and reports no message. */
  lemma ImportStoresFirstPoints(c: Config, records: Records, upload: Upload, now: int, taskId: string)
    requires !c.handleUndo && c.maxPoints != 0.0
    requires FileVerdict(upload).Accepted?
    requires RefusedRows(DataRows(upload.table), Validation(c.blockId, c.maxPoints, c.parse, c.digest)) == []
    requires |FirstPoints(DataRows(upload.table), Validation(c.blockId, c.maxPoints, c.parse, c.digest), c.parse)| <= SizeToDefer
    ensures var first := FirstPoints(DataRows(upload.table), Validation(c.blockId, c.maxPoints, c.parse, c.digest), c.parse);
            var r := AfterProcessFile(c, Fresh(records), upload, true, now, taskId).0;
            && r.stage == [] && r.messages == [] && r.rowErrors == [] && r.resultId == None
            && r.savedRows == r.processedRows == |first|
            && (forall u :: u in first ==>
                  GetScore(r.records, Key(c.blockId, u)).Some? && GetScore(r.records, Key(c.blockId, u)).value.score == first[u])
            && (forall k :: k in records && !(k.block == c.blockId && k.user in first) ==> k in r.records && r.records[k] == records[k])
            && (forall k :: k in r.records ==> k in records || (k.block == c.blockId && k.user in first))
  {
    var rows := DataRows(upload.table);
    var first := FirstPoints(rows, Validation(c.blockId, c.maxPoints, c.parse, c.digest), c.parse);
    var p := AfterPreprocess(c, Fresh(records), rows);
    CleanImportRuns(c, records, upload, now, taskId);
    CleanPass(c, records, rows);
    assert p.processedRows == |p.stage| == |first| && p.resultId == None && p.rowErrors == [];
    if |p.stage| > 0 {
      var r := AfterBaseCommit(c, p, now);
      CleanCommit(c, records, rows, now);
      assert r.stage == [] && r.processedRows == p.processedRows && r.resultId == None && r.rowErrors == [];
    } else {
      assert first == map[];
    }
  }

  /** A clean import of at most SizeToDefer students commits its stage inline when there is one. */
  lemma CleanImportRuns(c: Config, records: Records, upload: Upload, now: int, taskId: string)
    requires c.maxPoints != 0.0
    requires FileVerdict(upload).Accepted?
    requires RefusedRows(DataRows(upload.table), Validation(c.blockId, c.maxPoints, c.parse, c.digest)) == []
    requires |FirstPoints(DataRows(upload.table), Validation(c.blockId, c.maxPoints, c.parse, c.digest), c.parse)| <= SizeToDefer
    ensures var p := AfterPreprocess(c, Fresh(records), DataRows(upload.table));
            AfterProcessFile(c, Fresh(records), upload, true, now, taskId).0
              == (if |p.stage| > 0 then AfterBaseCommit(c, p, now) else p)
  {
    CleanPass(c, records, DataRows(upload.table));
  }

  /** The commit that follows a clean pass. */
  lemma CleanCommit(c: Config, records: Records, rows: seq<Row>, now: int)
    requires !c.handleUndo && c.maxPoints != 0.0
    requires RefusedRows(rows, Validation(c.blockId, c.maxPoints, c.parse, c.digest)) == []
    ensures var first := FirstPoints(rows, Validation(c.blockId, c.maxPoints, c.parse, c.digest), c.parse);
            var r := AfterBaseCommit(c, AfterPreprocess(c, Fresh(records), rows), now);
            && r.messages == [] && r.savedRows == |first|
            && (forall u :: u in first ==>
                  GetScore(r.records, Key(c.blockId, u)).Some? && GetScore(r.records, Key(c.blockId, u)).value.score == first[u])
            && (forall k :: k in records && !(k.block == c.blockId && k.user in first) ==> k in r.records && r.records[k] == records[k])
            && (forall k :: k in r.records ==> k in records || (k.block == c.blockId && k.user in first))
  {
    CleanCommitScores(c, records, rows, now);
    CleanCommitOthers(c, records, rows, now);
    CleanPass(c, records, rows);
    CommitStoresStage(c, AfterPreprocess(c, Fresh(records), rows), now);
  }

  lemma CleanCommitScores(c: Config, records: Records, rows: seq<Row>, now: int)
    requires !c.handleUndo && c.maxPoints != 0.0
    requires RefusedRows(rows, Validation(c.blockId, c.maxPoints, c.parse, c.digest)) == []
    ensures var first := FirstPoints(rows, Validation(c.blockId, c.maxPoints, c.parse, c.digest), c.parse);
            var r := AfterBaseCommit(c, AfterPreprocess(c, Fresh(records), rows), now);
            forall u :: u in first ==>
              GetScore(r.records, Key(c.blockId, u)).Some? && GetScore(r.records, Key(c.blockId, u)).value.score == first[u]
  {
    var first := FirstPoints(rows, Validation(c.blockId, c.maxPoints, c.parse, c.digest), c.parse);
    CleanPass(c, records, rows);
    var p := AfterPreprocess(c, Fresh(records), rows);
    var r := AfterBaseCommit(c, p, now);
    CommitStoresStage(c, p, now);
    forall u | u in first
      ensures GetScore(r.records, Key(c.blockId, u)).Some? && GetScore(r.records, Key(c.blockId, u)).value.score == first[u]
    {
      var j :| 0 <= j < |p.stage| && p.stage[j].user == u && p.stage[j].newPoints == first[u];
      assert KeyOf(p.stage[j]) == Key(c.blockId, u);
    }
  }

  lemma CleanCommitOthers(c: Config, records: Records, rows: seq<Row>, now: int)
    requires !c.handleUndo && c.maxPoints != 0.0
    requires RefusedRows(rows, Validation(c.blockId, c.maxPoints, c.parse, c.digest)) == []
    ensures var first := FirstPoints(rows, Validation(c.blockId, c.maxPoints, c.parse, c.digest), c.parse);
            var r := AfterBaseCommit(c, AfterPreprocess(c, Fresh(records), rows), now);
            && (forall k :: k in records && !(k.block == c.blockId && k.user in first) ==> k in r.records && r.records[k] == records[k])
            && (forall k :: k in r.records ==> k in records || (k.block == c.blockId && k.user in first))
  {
    var first := FirstPoints(rows, Validation(c.blockId, c.maxPoints, c.parse, c.digest), c.parse);
    CleanPass(c, records, rows);
    var p := AfterPreprocess(c, Fresh(records), rows);
    CommitStoresStage(c, p, now);
    forall k | k in StagedKeys(p.stage) ensures k.block == c.blockId && k.user in first {
      var j :| 0 <= j < |p.stage| && p.stage[j].Update? && KeyOf(p.stage[j]) == k;
    }
  }

  /** The base commit of a stage of distinct updates without undo. */
  lemma CommitStoresStage(c: Config, p: Snapshot, now: int)
    requires !c.handleUndo && DistinctUpdates(p.stage)
    ensures var r := AfterBaseCommit(c, p, now);
            && r.messages == p.messages && r.savedRows == |p.stage| && r.rollbackRows == p.rollbackRows
            && r.records.Keys == p.records.Keys + StagedKeys(p.stage)
            && (forall k :: k in p.records && k !in StagedKeys(p.stage) ==> r.records[k] == p.records[k])
            && (forall j :: 0 <= j < |p.stage| ==>
                  GetScore(r.records, KeyOf(p.stage[j])).Some? && GetScore(r.records, KeyOf(p.stage[j])).value.score == p.stage[j].newPoints)
  {
    CommitStoresScores(p.stage, now, Committing(0, p.rollbackRows, p.messages, p.records));
  }

  /** When every row is accepted, the pass adds no message. */
  lemma {:induction false} NoMessagesWhenAllAccepted<S, U>(rows: seq<Row>, validate: Row -> Verdict,
                                                           transform: (U, Row) -> (Option<S>, U), init: Staging<S, U>)
    requires forall i :: 0 <= i < |rows| ==> validate(rows[i]).Accept?
    ensures Preprocessed(rows, validate, transform, init).messages == init.messages
    decreases |rows|
  {
    if rows != [] {
      var n := |rows| - 1;
      assert forall i :: 0 <= i < n ==> rows[..n][i] == rows[i];
      NoMessagesWhenAllAccepted(rows[..n], validate, transform, init);
    }
  }

  /** A clean import staging more than SizeToDefer rows is handed to a Celery task: the store is
      untouched, the stage is kept for it, and the status reports it as waiting. */
  lemma LargeImportIsDeferred(c: Config, s: Snapshot, upload: Upload, now: int, taskId: string)
    requires taskId != "" && FileVerdict(upload).Accepted?
    requires RefusedRows(DataRows(upload.table), Validation(c.blockId, c.maxPoints, c.parse, c.digest)) == [] && s.rowErrors == []
    requires |AfterPreprocess(c, s, DataRows(upload.table)).stage| > SizeToDefer
    ensures var r := AfterProcessFile(c, s, upload, true, now, taskId).0;
            && r.records == s.records && r.savedRows == s.savedRows
            && r.stage == AfterPreprocess(c, s, DataRows(upload.table)).stage
            && r.resultId == Some(taskId) && StatusOf(r).waiting && StatusOf(r).canCommit
  {
  }

  // ------------------------------------------------------------------
  // The objects
  // ------------------------------------------------------------------

  /** The StudentModule table. */
  class ScoreStore {
    var records: Records

    constructor (records: Records)
      ensures this.records == records
    {
      this.records := records;
    }

    /** set_score: upserts the one record; a zero maximum raises before anything is written. */
    method SetScore(block: string, user: string, score: real, maxPoints: real, state: Option<string>, now: int)
      returns (error: Option<string>)
      modifies this
      ensures maxPoints == 0.0 ==> error == Some(DivisionByZero) && records == old(records)
      ensures maxPoints != 0.0 ==> error == None && records == Upsert(old(records), Key(block, user), score, maxPoints, state, now)
    {
      if maxPoints == 0.0 {
        return Some(DivisionByZero);
      }
      records := Upsert(records, Key(block, user), score, maxPoints, state, now);
      error := None;
    }
  }

  /** ScoreCSVProcessor, with the fields that ChecksumMixin, DeferrableMixin and CSVProcessor
      contribute to it. */
  class ScoreCsvProcessor {
    const blockId: string
    const maxPoints: real
    const displayName: string
    const handleUndo: bool
    const parse: string -> Option<real>
    const digest: string -> string
    const store: ScoreStore

    var totalRows: nat
    var processedRows: nat
    var savedRows: nat
    var stage: seq<Staged>
    var rollbackRows: seq<Staged>
    var rowErrors: seq<nat>
    var errorMessages: seq<Message>
    var usersSeen: set<string>
    var resultId: Option<string>

    function Settings(): Config
    {
      Config(blockId, maxPoints, displayName, handleUndo, parse, digest)
    }

    function State(): Snapshot
      reads this, store
    {
      Snapshot(totalRows, processedRows, savedRows, stage, rollbackRows, rowErrors, errorMessages,
               usersSeen, resultId, store.records)
    }

    constructor (blockId: string, maxPoints: real, displayName: string, handleUndo: bool,
                 parse: string -> Option<real>, digest: string -> string, store: ScoreStore)
      ensures this.blockId == blockId && this.maxPoints == maxPoints && this.displayName == displayName
      ensures this.handleUndo == handleUndo && this.parse == parse && this.digest == digest && this.store == store
      ensures State() == Fresh(store.records)
    {
      this.blockId, this.maxPoints, this.displayName, this.handleUndo := blockId, maxPoints, displayName, handleUndo;
      this.parse, this.digest, this.store := parse, digest, store;
      totalRows, processedRows, savedRows := 0, 0, 0;
      stage, rollbackRows, rowErrors, errorMessages := [], [], [], [];
      usersSeen, resultId := {}, None;
    }

    /** add_error. */
    method AddError(m: Message)
      modifies this`errorMessages
      ensures errorMessages == WithError(old(errorMessages), m)
    {
      if m !in errorMessages {
        errorMessages := errorMessages + [m];
      }
    }

    /** validate_file: the size test, then the required columns one by one. */
    method ValidateFile(upload: Upload) returns (valid: bool, crashed: bool)
      modifies this`errorMessages
      ensures valid <==> FileVerdict(upload).Accepted?
      ensures crashed <==> FileVerdict(upload).Crashed?
      ensures errorMessages == if FileVerdict(upload).Rejected? then WithError(old(errorMessages), FileVerdict(upload).message)
                               else old(errorMessages)
    {
      if MaxFileSize != 0 && upload.size.Some? && upload.size.value > MaxFileSize {
        AddError(FileTooLarge(MaxFileSize));
        return false, false;
      }
      var names := Fieldnames(upload.table);
      var i := 0;
      while i < |RequiredColumns|
        invariant 0 <= i <= |RequiredColumns|
        invariant names.Some? || i == 0
        invariant names.Some? ==> forall j :: 0 <= j < i ==> RequiredColumns[j] in names.value
        invariant errorMessages == old(errorMessages)
      {
        if names.None? {
          return false, true;
        }
        if RequiredColumns[i] !in names.value {
          FirstMissingAt(RequiredColumns, names.value, i);
          AddError(MissingColumn(RequiredColumns[i]));
          return false, false;
        }
        i := i + 1;
      }
      return true, false;
    }

    /** validate_row: the checksum first, then the score checks, adding their messages. */
    method ValidateRow(row: Row) returns (valid: bool)
      modifies this`errorMessages
      ensures valid <==> ScoreVerdict(row, blockId, maxPoints, parse, digest).Accept?
      ensures errorMessages == Noted(old(errorMessages), ScoreVerdict(row, blockId, maxPoints, parse, digest))
    {
      valid := Get(row, ChecksumField) == Str(digest(ChecksumText(row, ChecksumColumns)));
      if valid {
        valid := Get(row, "block_id") == Str(blockId);
        if valid {
          if Truthy(Get(row, "points")) {
            var points := parse(PointsText(row));
            if points.Some? {
              valid := points.value <= maxPoints;
              if !valid {
                AddError(PointsAboveMax(maxPoints));
              }
            } else {
              AddError(PointsNotNumeric);
              valid := false;
            }
          } else {
            valid := true;
          }
        } else {
          AddError(WrongProblem);
        }
      }
    }

    /** preprocess_row. */
    method PreprocessRow(row: Row) returns (staged: Option<Staged>)
      modifies this`usersSeen
      ensures (staged, usersSeen) == ScoreTransform(old(usersSeen), row, blockId, maxPoints, parse)
    {
      staged := None;
      if Truthy(Get(row, "points")) && UserOf(row) !in usersSeen {
        var points := parse(PointsText(row));
        if points.Some? {
          staged := Some(Update(UserOf(row), blockId, points.value, maxPoints));
          usersSeen := usersSeen + {UserOf(row)};
        }
      }
    }

    /** preprocess_file: validates each row, stages what preprocess_row returns, and records
        the 1-based numbers of the refused rows. */
    method PreprocessFile(rows: seq<Row>)
      modifies this`stage, this`rowErrors, this`errorMessages, this`usersSeen, this`totalRows, this`processedRows
      ensures State() == AfterPreprocess(Settings(), old(State()), rows)
    {
      ghost var v, t := Validation(blockId, maxPoints, parse, digest), Transform(blockId, maxPoints, parse);
      ghost var s0 := State();
      ghost var start := PassStart(s0);
      var processed := 0;
      var rownum := 0;
      while rownum < |rows|
        invariant 0 <= rownum <= |rows|
        invariant Staging(stage, rowErrors, errorMessages, usersSeen, processed) == Preprocessed(rows[..rownum], v, t, start)
        invariant totalRows == old(totalRows) && processedRows == old(processedRows)
      {
        assert rows[..rownum + 1][..rownum] == rows[..rownum];
        processed := PreprocessStep(rows[rownum], rownum + 1, processed);
        rownum := rownum + 1;
      }
      assert rows[..rownum] == rows;
      totalRows := rownum;
      processedRows := processed;
      AfterPreprocessIs(Settings(), s0, rows);
    }

    /** One turn of the preprocess loop, for the row numbered `rownum`. */
    method PreprocessStep(row: Row, rownum: nat, processed: nat) returns (newProcessed: nat)
      modifies this`stage, this`rowErrors, this`errorMessages, this`usersSeen
      ensures Staging(stage, rowErrors, errorMessages, usersSeen, newProcessed)
           == StageRow(Staging(old(stage), old(rowErrors), old(errorMessages), old(usersSeen), processed), row, rownum,
                       Validation(blockId, maxPoints, parse, digest), Transform(blockId, maxPoints, parse))
    {
      newProcessed := processed;
      var valid := ValidateRow(row);
      if valid {
        var staged := PreprocessRow(row);
        if staged.Some? {
          stage := stage + [staged.value];
          newProcessed := processed + 1;
        }
      } else {
        rowErrors := rowErrors + [rownum];
      }
    }

    /** can_commit. */
    function CanCommit(): (ok: bool)
      reads this
      ensures ok <==> |stage| > 0 && rowErrors == []
    {
      Committable(stage, rowErrors)
    }

    /** process_row. */
    method ProcessRow(row: Staged, now: int) returns (outcome: Outcome<Staged>)
      modifies store
      ensures (outcome, store.records) == ScoreProcessAsWritten(old(store.records), row, handleUndo, now)
    {
      if row.UndoRecord? {
        return Failed(MissingBlockId);
      }
      var undo: Option<Staged> := None;
      if handleUndo {
        var previous := GetScore(store.records, KeyOf(row));
        if previous.None? {
          return Failed(NoneItemAssignment);
        }
        undo := Some(UndoRecord(previous.value, previous.value.score, row.maxPoints));
      }
      var error := store.SetScore(row.block, row.user, row.newPoints, row.maxPoints, None, now);
      if error.Some? {
        return Failed(error.value);
      }
      return Saved(undo);
    }

    /** CSVProcessor.commit: pops the stage from the front until it is empty. */
    method BaseCommit(now: int)
      modifies this`stage, this`savedRows, this`rollbackRows, this`errorMessages, store
      ensures State() == AfterBaseCommit(Settings(), old(State()), now)
    {
      ghost var rows := stage;
      ghost var proc := Processing(handleUndo, now);
      ghost var start := Committing(0, rollbackRows, errorMessages, store.records);
      ghost var i := 0;
      var saved := 0;
      while |stage| > 0
        invariant i <= |rows| && stage == rows[i..]
        invariant Committing(saved, rollbackRows, errorMessages, store.records) == Replayed(rows[..i], proc, start, true)
        decreases |stage|
      {
        var row := stage[0];
        stage := stage[1..];
        saved := CommitRow(row, now, saved);
        ReplayedSnoc(rows[..i], row, proc, start, true);
        assert rows[..i + 1] == rows[..i] + [row];
        i := i + 1;
      }
      assert rows[..i] == rows;
      savedRows := saved;
      ghost var q := Replayed(rows, proc, start, true);
      assert State() == old(State()).(stage := [], savedRows := q.saved, rollbackRows := q.rollbackRows,
                                      messages := q.messages, records := q.store);
    }

    /** One turn of the commit loop: process the row, count a save, keep its undo row, or
        record the exception. */
    method CommitRow(row: Staged, now: int, saved: nat) returns (newSaved: nat)
      modifies this`rollbackRows, this`errorMessages, store
      ensures Committing(newSaved, rollbackRows, errorMessages, store.records)
           == ReplayRow(Committing(saved, old(rollbackRows), old(errorMessages), old(store.records)), row,
                        Processing(handleUndo, now), true)
    {
      newSaved := saved;
      var outcome := ProcessRow(row, now);
      match outcome {
        case Saved(undo) =>
          newSaved := saved + 1;
          if undo.Some? {
            rollbackRows := rollbackRows + [undo.value];
          }
        case NotSaved =>
        case Failed(e) =>
          AddError(Exception(e));
      }
    }

    /** One turn of the rollback loop: as a commit turn, but the undo row is dropped. */
    method RollbackRow(row: Staged, now: int, saved: nat) returns (newSaved: nat)
      modifies this`errorMessages, store
      ensures Committing(newSaved, [], errorMessages, store.records)
           == ReplayRow(Committing(saved, [], old(errorMessages), old(store.records)), row, Processing(handleUndo, now), false)
    {
      newSaved := saved;
      var outcome := ProcessRow(row, now);
      match outcome {
        case Saved(_) =>
          newSaved := saved + 1;
        case NotSaved =>
        case Failed(e) =>
          AddError(Exception(e));
      }
    }

    /** DeferrableMixin.commit; `taskId` is the id the Celery queue hands back. */
    method Commit(runningTask: bool, now: int, taskId: string)
      modifies this`stage, this`savedRows, this`rollbackRows, this`errorMessages, this`resultId, store
      ensures State() == AfterCommit(Settings(), old(State()), runningTask, now, taskId)
    {
      if runningTask || |stage| <= SizeToDefer {
        BaseCommit(now);
      } else {
        resultId := Some(taskId);
      }
    }

    /** rollback: pops the undo rows from the front, dropping what process_row returns. */
    method Rollback(now: int)
      modifies this`savedRows, this`rollbackRows, this`errorMessages, store
      ensures State() == AfterRollback(Settings(), old(State()), now)
    {
      ghost var s0 := State();
      ghost var rows := rollbackRows;
      ghost var proc := Processing(handleUndo, now);
      ghost var start := Committing(0, [], errorMessages, store.records);
      ghost var i := 0;
      var saved := 0;
      while |rollbackRows| > 0
        invariant i <= |rows| && rollbackRows == rows[i..]
        invariant Committing(saved, [], errorMessages, store.records) == Replayed(rows[..i], proc, start, false)
        decreases |rollbackRows|
      {
        var row := rollbackRows[0];
        rollbackRows := rollbackRows[1..];
        saved := RollbackRow(row, now, saved);
        ReplayedSnoc(rows[..i], row, proc, start, false);
        assert rows[..i + 1] == rows[..i] + [row];
        i := i + 1;
      }
      assert rows[..i] == rows;
      savedRows := saved;
      AfterRollbackIs(Settings(), s0, now);
    }

    /** process_file (read_file, then preprocess_file, then commit when allowed). Returns
        true when validate_file raised. */
    method ProcessFile(upload: Upload, autocommit: bool, now: int, taskId: string) returns (crashed: bool)
      modifies this, store
      ensures (State(), crashed) == AfterProcessFile(Settings(), old(State()), upload, autocommit, now, taskId)
    {
      var valid;
      valid, crashed := ValidateFile(upload);
      if valid {
        PreprocessFile(DataRows(upload.table));
        if autocommit && CanCommit() {
          Commit(false, now, taskId);
        }
      }
    }

    /** status(). */
    function Status(): (st: CsvProcessor.Status)
      reads this, store
      ensures st == StatusOf(State())
    {
      CsvProcessor.Status(totalRows, processedRows, savedRows, rowErrors, errorMessages,
                          CanCommit(), resultId, Waiting(resultId))
    }

    /** get_rows_to_export: one row per enrollment, against get_scores of this problem. */
    method GetRowsToExport(enrollments: seq<Enrollment>) returns (rows: seq<Row>)
      ensures rows == ExportRows(enrollments, GetScores(store.records, blockId, []), blockId, maxPoints, displayName)
    {
      var students := GetScores(store.records, blockId, []);
      rows := [];
      var i := 0;
      while i < |enrollments|
        invariant 0 <= i <= |enrollments| && |rows| == i
        invariant forall j :: 0 <= j < i ==> rows[j] == ExportRow(enrollments[j], students, blockId, maxPoints, displayName)
      {
        rows := rows + [ExportRow(enrollments[i], students, blockId, maxPoints, displayName)];
        i := i + 1;
      }
    }

    /** write_file: the given rows, or the export rows when none are given, written with
        the checksum stamped on each. */
    method WriteFile(given: seq<Row>, enrollments: seq<Enrollment>) returns (table: Option<seq<Line>>)
      ensures table == ExportTable(if given != [] then given
                                   else ExportRows(enrollments, GetScores(store.records, blockId, []), blockId, maxPoints, displayName),
                                   digest)
    {
      var rows := given;
      if rows == [] {
        rows := GetRowsToExport(enrollments);
      }
      table := WriteStamped(Columns, rows, ExportStamp(digest));
    }
  }
}
