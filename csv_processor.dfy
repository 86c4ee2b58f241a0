/**
 * The generic CSV processor: rows and their text form, the error-message set, file
 * validation, the checksum guard, the validate/preprocess pass that fills the stage,
 * the commit and rollback passes that drain it, and the status report.
 *
 * The subclass hooks (validate_row, preprocess_row, process_row) are passed to the
 * specification functions as function values; GradeUtils supplies the score versions.
 */
module CsvProcessor {
  import opened Wrappers

  // ------------------------------------------------------------------
  // Cells, rows and their text
  // ------------------------------------------------------------------

  /** A cell of a row. A row read from a file holds Str cells, and Null for a cell that a
      short line leaves out; a row built for export holds the Python values put in the dict. */
  datatype Value = Null | Int(i: int) | Str(s: string) | Bool(b: bool) | Time(t: int)

  /** A row as the dictionaries of csv.DictReader and csv.DictWriter see it. */
  type Row = map<string, Value>

  /** One line of a CSV file, as its cells; quoting and byte encoding are not modelled. */
  type Line = seq<string>

  /** `row[column]`; a column the row does not have reads as None. */
  function Get(row: Row, column: string): Value
  {
    if column in row then row[column] else Null
  }

  /** Python truthiness of a cell value. */
  predicate Truthy(v: Value)
  {
    match v
    case Null => false
    case Int(i) => i != 0
    case Str(s) => s != ""
    case Bool(b) => b
    case Time(_) => true
  }

  function DigitChar(d: nat): char
    requires d < 10
  {
    "0123456789"[d]
  }

  /** Decimal digits of a natural number, as Python's str(int) writes them. */
  function NatText(n: nat): (s: string)
    ensures |s| > 0
    ensures forall k :: 0 <= k < |s| ==> '0' <= s[k] <= '9'
    decreases n
  {
    if n < 10 then [DigitChar(n)] else NatText(n / 10) + [DigitChar(n % 10)]
  }

  function IntText(i: int): string
  {
    if i < 0 then "-" + NatText(-i) else NatText(i)
  }

  /** The text csv.DictWriter writes for a value: None becomes the empty field, anything
      else its str(). A timestamp is an integer here and is written as that integer. */
  function CsvText(v: Value): string
  {
    match v
    case Null => ""
    case Int(i) => IntText(i)
    case Str(s) => s
    case Bool(b) => if b then "True" else "False"
    case Time(t) => IntText(t)
  }

  /** DictWriter refuses (ValueError) a row holding a key that is not one of its field names. */
  predicate Writable(columns: seq<string>, row: Row)
  {
    forall k :: k in row ==> k in columns
  }

  /** One row written under the header `columns`. */
  function WriteLine(columns: seq<string>, row: Row): (line: Line)
    ensures |line| == |columns|
    ensures forall i :: 0 <= i < |columns| ==> line[i] == CsvText(Get(row, columns[i]))
  {
    if columns == [] then []
    else [CsvText(Get(row, columns[0]))] + WriteLine(columns[1..], row)
  }

  /** The file DictWriter produces: the header line, then one line per row;
      None when some row has a key outside the header (DictWriter raises). */
  function WriteTable(columns: seq<string>, rows: seq<Row>): (t: Option<seq<Line>>)
    ensures t.Some? <==> forall i :: 0 <= i < |rows| ==> Writable(columns, rows[i])
    ensures t.Some? ==> |t.value| == |rows| + 1 && t.value[0] == columns
    ensures t.Some? ==> forall i :: 0 <= i < |rows| ==> t.value[i + 1] == WriteLine(columns, rows[i])
  {
    if forall i :: 0 <= i < |rows| ==> Writable(columns, rows[i]) then
      var lines := seq(|rows|, i requires 0 <= i < |rows| => WriteLine(columns, rows[i]));
      assert forall i :: 0 <= i < |rows| ==> ([columns] + lines)[i + 1] == lines[i];
      Some([columns] + lines)
    else None
  }

  /** A header line followed by the line of each writable row is the written table. */
  lemma WriteTableIs(columns: seq<string>, rows: seq<Row>, lines: seq<Line>)
    requires forall i :: 0 <= i < |rows| ==> Writable(columns, rows[i])
    requires |lines| == |rows| + 1 && lines[0] == columns
    requires forall i :: 0 <= i < |rows| ==> lines[i + 1] == WriteLine(columns, rows[i])
    ensures WriteTable(columns, rows) == Some(lines)
  {
    var t := WriteTable(columns, rows).value;
    forall i | 0 <= i < |lines| ensures t[i] == lines[i] {
      if i > 0 {
        assert t[i] == WriteLine(columns, rows[i - 1]);
      }
    }
    assert t == lines;
  }

  /** One row DictWriter refuses makes the whole write fail. */
  lemma WriteTableRefuses(columns: seq<string>, rows: seq<Row>, i: nat)
    requires i < |rows| && !Writable(columns, rows[i])
    ensures WriteTable(columns, rows) == None
  {
  }

  /** The dict DictReader builds for one line: the i-th field name maps to the i-th cell,
      a field with no cell maps to None; surplus cells are dropped. A later duplicate
      field name overrides an earlier one. */
  function ZipRow(names: seq<string>, cells: Line): Row
    decreases |names|
  {
    if names == [] then map[]
    else
      var n := |names| - 1;
      ZipRow(names[..n], cells)[names[n] := if n < |cells| then Str(cells[n]) else Null]
  }

  /** DictReader's field names: the first line, or None for an empty file. */
  function Fieldnames(table: seq<Line>): Option<seq<string>>
  {
    if table == [] then None else Some(table[0])
  }

  /** DictReader's rows under the header `names`; blank lines are skipped. */
  function ReadLines(names: seq<string>, lines: seq<Line>): seq<Row>
    decreases |lines|
  {
    if lines == [] then []
    else (if lines[0] == [] then [] else [ZipRow(names, lines[0])]) + ReadLines(names, lines[1..])
  }

  function DataRows(table: seq<Line>): seq<Row>
  {
    if table == [] then [] else ReadLines(table[0], table[1..])
  }

  /** The row DictReader gives back for a line written from `row`: every column holds the
      text that was written for it. */
  function ReadBack(columns: seq<string>, row: Row): Row
  {
    map c | c in columns :: Str(CsvText(Get(row, c)))
  }

  /** A column of the header reads back as the text written for it. */
  lemma ReadBackGet(columns: seq<string>, row: Row, c: string)
    requires c in columns
    ensures Get(ReadBack(columns, row), c) == Str(CsvText(Get(row, c)))
  {
  }

  lemma ReadBackSnoc(names: seq<string>, c: string, row: Row)
    ensures ReadBack(names + [c], row) == ReadBack(names, row)[c := Str(CsvText(Get(row, c)))]
  {
    var after := ReadBack(names + [c], row);
    var before := ReadBack(names, row);
    assert after.Keys == before.Keys + {c} by {
      forall x ensures x in names + [c] <==> x in names || x == c { }
    }
  }

  /** Cells that hold the written text of their columns read back as ReadBack does. */
  lemma {:induction false} ZipWritten(names: seq<string>, line: Line, row: Row)
    requires |names| <= |line|
    requires forall i :: 0 <= i < |names| ==> line[i] == CsvText(Get(row, names[i]))
    ensures ZipRow(names, line) == ReadBack(names, row)
    decreases |names|
  {
    if names != [] {
      var n := |names| - 1;
      var front, c := names[..n], names[n];
      assert forall i :: 0 <= i < n ==> front[i] == names[i];
      ZipWritten(front, line, row);
      assert ZipRow(names, line) == ReadBack(front, row)[c := Str(CsvText(Get(row, c)))];
      assert names == front + [c];
      ReadBackSnoc(front, c, row);
    }
  }

  /** Reading back a written line gives the written text of every column. */
  lemma ReadWrittenLine(columns: seq<string>, row: Row)
    ensures ZipRow(columns, WriteLine(columns, row)) == ReadBack(columns, row)
  {
    ZipWritten(columns, WriteLine(columns, row), row);
  }

  /** Reading a written file back yields one row per written row, in order, each the read-back
      form of the row written (no written line is blank when there is a column). */
  lemma {:induction false} ReadWrittenLines(columns: seq<string>, rows: seq<Row>, lines: seq<Line>)
    requires |columns| > 0
    requires |lines| == |rows| && forall i :: 0 <= i < |rows| ==> lines[i] == WriteLine(columns, rows[i])
    ensures var read := ReadLines(columns, lines);
            |read| == |rows| && forall i :: 0 <= i < |rows| ==> read[i] == ReadBack(columns, rows[i])
    decreases |rows|
  {
    if rows != [] {
      var read := ReadLines(columns, lines);
      var rest := ReadLines(columns, lines[1..]);
      assert read == [ZipRow(columns, lines[0])] + rest by {
        assert |lines[0]| == |columns|;
      }
      assert ZipRow(columns, lines[0]) == ReadBack(columns, rows[0]) by {
        ReadWrittenLine(columns, rows[0]);
      }
      var rows1, lines1 := rows[1..], lines[1..];
      assert forall i :: 0 <= i < |rows1| ==> lines1[i] == WriteLine(columns, rows1[i]) by {
        forall i | 0 <= i < |rows1| ensures lines1[i] == WriteLine(columns, rows1[i]) {
          assert lines1[i] == lines[i + 1] && rows1[i] == rows[i + 1];
        }
      }
      ReadWrittenLines(columns, rows1, lines1);
      forall i | 0 <= i < |rows| ensures read[i] == ReadBack(columns, rows[i]) {
        if i > 0 {
          assert read[i] == rest[i - 1];
          assert rows[i] == rows1[i - 1];
        }
      }
    }
  }

  // ------------------------------------------------------------------
  // Error messages (add_error)
  // ------------------------------------------------------------------

  /** The messages the processor reports; the text of each is given beside it. */
  datatype Message =
    | FileTooLarge(limit: nat)      // "The CSV file must be under {limit} bytes "
    | MissingColumn(field: string)  // "Missing column: {field}"
    | WrongProblem                  // "The CSV does not match this problem. Check that you uploaded the right CSV."
    | PointsNotNumeric              // "Points must be numbers."
    | PointsAboveMax(max: real)     // "Points must not be greater than {max}."
    | MissingFile                   // "missing file"
    | Exception(text: string)       // str(e) of an exception raised while saving a row

  predicate Distinct<T(==)>(s: seq<T>)
  {
    forall i, j :: 0 <= i < j < |s| ==> s[i] != s[j]
  }

  /** The keys of error_messages after `setdefault(m, 1)`, in insertion order. */
  function WithError(messages: seq<Message>, m: Message): (r: seq<Message>)
    ensures m in r
    ensures forall x :: x in r <==> x in messages || x == m
    ensures |messages| <= |r| <= |messages| + 1 && r[..|messages|] == messages
    ensures m in messages ==> r == messages
    ensures Distinct(messages) ==> Distinct(r)
  {
    if m in messages then messages else messages + [m]
  }

  lemma WithErrorIdempotent(messages: seq<Message>, m: Message)
    ensures WithError(WithError(messages, m), m) == WithError(messages, m)
  {
  }

  // ------------------------------------------------------------------
  // validate_file
  // ------------------------------------------------------------------

  /** An uploaded file: its size when the file object has one, and its lines. */
  datatype Upload = Upload(size: Option<nat>, table: seq<Line>)

  /** Outcome of validate_file: accepted, rejected with a message, or an exception
      (`field not in None` raises TypeError for a file without a header line). */
  datatype FileCheck = Accepted | Rejected(message: Message) | Crashed

  const MaxFileSize: nat := 2 * 1024 * 1024

  /** The first required column that is not among the field names. */
  function FirstMissing(required: seq<string>, names: seq<string>): (r: Option<string>)
    ensures r.None? <==> forall i :: 0 <= i < |required| ==> required[i] in names
    ensures r.Some? ==> exists i :: 0 <= i < |required| && required[i] == r.value && r.value !in names
                                    && forall j :: 0 <= j < i ==> required[j] in names
    decreases |required|
  {
    if required == [] then None
    else if required[0] !in names then Some(required[0])
    else
      var rest := FirstMissing(required[1..], names);
      assert rest.Some? ==> exists i :: 0 <= i < |required| && required[i] == rest.value && rest.value !in names
                                        && forall j :: 0 <= j < i ==> required[j] in names by {
        if rest.Some? {
          var i :| 0 <= i < |required[1..]| && required[1..][i] == rest.value && rest.value !in names
                   && forall j :: 0 <= j < i ==> required[1..][j] in names;
          assert forall j :: 0 <= j < i + 1 ==> required[j] in names by {
            forall j | 0 <= j < i + 1 ensures required[j] in names {
              if j > 0 { assert required[j] == required[1..][j - 1]; }
            }
          }
        }
      }
      rest
  }

  /** The column at `i` is the first missing one when every earlier one is present. */
  lemma {:induction false} FirstMissingAt(required: seq<string>, names: seq<string>, i: nat)
    requires i < |required| && required[i] !in names
    requires forall j :: 0 <= j < i ==> required[j] in names
    ensures FirstMissing(required, names) == Some(required[i])
    decreases i
  {
    if i > 0 {
      FirstMissingAt(required[1..], names, i - 1);
    }
  }

  /** validate_file: a file over the size limit is refused with the size message; otherwise
      the first missing required column is refused; otherwise the file is accepted. */
  function CheckFile(size: Option<nat>, names: Option<seq<string>>, maxFileSize: nat, required: seq<string>): (v: FileCheck)
    ensures v == Rejected(FileTooLarge(maxFileSize)) <==> maxFileSize != 0 && size.Some? && size.value > maxFileSize
    ensures v.Crashed? <==> !(maxFileSize != 0 && size.Some? && size.value > maxFileSize) && required != [] && names.None?
    ensures v.Accepted? <==> !(maxFileSize != 0 && size.Some? && size.value > maxFileSize)
                             && (required == [] || (names.Some? && forall i :: 0 <= i < |required| ==> required[i] in names.value))
    ensures v.Rejected? && v.message.MissingColumn? ==>
              names.Some? && FirstMissing(required, names.value) == Some(v.message.field)
    ensures v.Rejected? ==> v.message.FileTooLarge? || v.message.MissingColumn?
  {
    if maxFileSize != 0 && size.Some? && size.value > maxFileSize then Rejected(FileTooLarge(maxFileSize))
    else if required == [] then Accepted
    else if names.None? then Crashed
    else match FirstMissing(required, names.value)
      case Some(field) => Rejected(MissingColumn(field))
      case None => Accepted
  }

  // ------------------------------------------------------------------
  // ChecksumMixin
  // ------------------------------------------------------------------

  /** The text the digest is taken over: the checksum columns' texts, concatenated in order,
      None counting as the empty text. */
  function ChecksumText(row: Row, columns: seq<string>): string
    decreases |columns|
  {
    if columns == [] then "" else CsvText(Get(row, columns[0])) + ChecksumText(row, columns[1..])
  }

  /** The same text as `str(row[key] or '')` builds it: every falsy value, the integer 0
      included, counts as the empty text. */
  function ChecksumTextAsWritten(row: Row, columns: seq<string>): string
    decreases |columns|
  {
    if columns == [] then ""
    else (if Truthy(Get(row, columns[0])) then CsvText(Get(row, columns[0])) else "")
         + ChecksumTextAsWritten(row, columns[1..])
  }

  /** _get_checksum; `digest` stands for md5 over the text and the secret key, cut to four
      hex digits. */
  function Checksum(row: Row, columns: seq<string>, digest: string -> string): string
  {
    digest(ChecksumText(row, columns))
  }

  /** ChecksumMixin.validate_row: the stored checksum equals the recomputed one. */
  predicate ChecksumMatches(row: Row, columns: seq<string>, field: string, digest: string -> string)
  {
    Get(row, field) == Str(Checksum(row, columns, digest))
  }

  lemma {:induction false} ChecksumTextIgnores(row: Row, columns: seq<string>, field: string, v: Value)
    requires field !in columns
    ensures ChecksumText(row[field := v], columns) == ChecksumText(row, columns)
    decreases |columns|
  {
    if columns != [] {
      ChecksumTextIgnores(row, columns[1..], field, v);
    }
  }

  /** preprocess_export_row: the checksum field is set to the row's checksum, so the stamped
      row passes the checksum check as long as the field is not itself a checksum column. */
  function StampChecksum(row: Row, columns: seq<string>, field: string, digest: string -> string): (r: Row)
    ensures r.Keys == row.Keys + {field}
    ensures forall k :: k in row && k != field ==> r[k] == row[k]
    ensures field !in columns ==> ChecksumMatches(r, columns, field, digest)
  {
    var r := row[field := Str(Checksum(row, columns, digest))];
    assert field !in columns ==> ChecksumMatches(r, columns, field, digest) by {
      if field !in columns {
        ChecksumTextIgnores(row, columns, field, Str(Checksum(row, columns, digest)));
      }
    }
    r
  }

  /** ChecksumMixin.preprocess_export_row as written: the checksum field is set to the digest
      of the `str(v or '')` text, so a falsy value such as the integer 0 counts as "". */
  function StampChecksumAsWritten(row: Row, columns: seq<string>, field: string, digest: string -> string): (r: Row)
    ensures r.Keys == row.Keys + {field}
    ensures forall k :: k in row && k != field ==> r[k] == row[k]
    ensures r[field] == Str(digest(ChecksumTextAsWritten(row, columns)))
  {
    row[field := Str(digest(ChecksumTextAsWritten(row, columns)))]
  }

  /** No checksum column holds a falsy value whose text is not empty (an integer 0 or False). */
  predicate NoFalsyText(row: Row, columns: seq<string>)
  {
    forall i :: 0 <= i < |columns| ==> Truthy(Get(row, columns[i])) || CsvText(Get(row, columns[i])) == ""
  }

  /** Where no checksum column holds a falsy value with text, `str(v or '')` and the corrected
      rule build the same text. */
  lemma {:induction false} ChecksumTextsAgree(row: Row, columns: seq<string>)
    requires NoFalsyText(row, columns)
    ensures ChecksumTextAsWritten(row, columns) == ChecksumText(row, columns)
    decreases |columns|
  {
    if columns != [] {
      assert NoFalsyText(row, columns[1..]) by {
        forall i | 0 <= i < |columns[1..]| ensures Truthy(Get(row, columns[1..][i])) || CsvText(Get(row, columns[1..][i])) == "" {
          assert columns[1..][i] == columns[i + 1];
        }
      }
      ChecksumTextsAgree(row, columns[1..]);
      assert Truthy(Get(row, columns[0])) || CsvText(Get(row, columns[0])) == "";
    }
  }

  /** ... and then the as-written stamp is the corrected one. */
  lemma StampsAgree(row: Row, columns: seq<string>, field: string, digest: string -> string)
    requires NoFalsyText(row, columns)
    ensures StampChecksumAsWritten(row, columns, field, digest) == StampChecksum(row, columns, field, digest)
  {
    ChecksumTextsAgree(row, columns);
  }

  /** A row is as read from a file when every cell is text or a missing cell. */
  predicate IsReadRow(row: Row)
  {
    forall k :: k in row ==> row[k].Str? || row[k].Null?
  }

  /** On rows read from a file, the as-written checksum text and the corrected one agree. */
  lemma ChecksumTextOnReadRows(row: Row, columns: seq<string>)
    requires IsReadRow(row)
    ensures ChecksumTextAsWritten(row, columns) == ChecksumText(row, columns)
  {
    forall i | 0 <= i < |columns| ensures Truthy(Get(row, columns[i])) || CsvText(Get(row, columns[i])) == "" {
      assert Get(row, columns[i]).Str? || Get(row, columns[i]).Null?;
    }
    ChecksumTextsAgree(row, columns);
  }

  /** Column by column, the read-back row hashes to the same text as the row written. */
  lemma {:induction false} ChecksumTextReadBack(columns: seq<string>, csumColumns: seq<string>, row: Row)
    requires forall i :: 0 <= i < |csumColumns| ==> csumColumns[i] in columns
    ensures ChecksumText(ReadBack(columns, row), csumColumns) == ChecksumText(row, csumColumns)
    decreases |csumColumns|
  {
    if csumColumns != [] {
      ChecksumTextReadBack(columns, csumColumns[1..], row);
    }
  }

  // ------------------------------------------------------------------
  // preprocess_file: the validate / preprocess pass
  // ------------------------------------------------------------------

  /** What validate_row decided, with the message it added (if any). */
  datatype Verdict = Accept | Reject(message: Option<Message>)

  /** The messages after the validation that produced `v`. */
  function Noted(messages: seq<Message>, v: Verdict): seq<Message>
  {
    if v.Reject? && v.message.Some? then WithError(messages, v.message.value) else messages
  }

  /** The part of the processor state the pass changes; `seen` is the subclass's own
      bookkeeping (users_seen for scores). */
  datatype Staging<S, U> = Staging(stage: seq<S>, rowErrors: seq<nat>, messages: seq<Message>, seen: U, processed: nat)

  /** One iteration of the loop, for the 1-based row number `rownum`. */
  function StageRow<S, U>(acc: Staging<S, U>, row: Row, rownum: nat,
                          validate: Row -> Verdict, transform: (U, Row) -> (Option<S>, U)): Staging<S, U>
  {
    var verdict := validate(row);
    if verdict.Accept? then
      var (staged, seen) := transform(acc.seen, row);
      if staged.Some? then acc.(stage := acc.stage + [staged.value], seen := seen, processed := acc.processed + 1)
      else acc.(seen := seen)
    else acc.(rowErrors := acc.rowErrors + [rownum], messages := Noted(acc.messages, verdict))
  }

  /** The state after the loop has consumed `rows` from `init`. */
  function Preprocessed<S, U>(rows: seq<Row>, validate: Row -> Verdict, transform: (U, Row) -> (Option<S>, U),
                              init: Staging<S, U>): (r: Staging<S, U>)
    ensures |init.rowErrors| <= |r.rowErrors| <= |init.rowErrors| + |rows|
    ensures r.rowErrors[..|init.rowErrors|] == init.rowErrors
    decreases |rows|
  {
    if rows == [] then init
    else StageRow(Preprocessed(rows[..|rows| - 1], validate, transform, init), rows[|rows| - 1], |rows|, validate, transform)
  }

  predicate StrictlyIncreasing(s: seq<nat>)
  {
    forall i, j :: 0 <= i < j < |s| ==> s[i] < s[j]
  }

  /** The stage only grows, by exactly the number of rows counted as processed. */
  lemma {:induction false} PreprocessedStage<S, U>(rows: seq<Row>, validate: Row -> Verdict,
                                                   transform: (U, Row) -> (Option<S>, U), init: Staging<S, U>)
    ensures var r := Preprocessed(rows, validate, transform, init);
            && init.processed <= r.processed <= init.processed + |rows|
            && |r.stage| == |init.stage| + (r.processed - init.processed)
            && r.stage[..|init.stage|] == init.stage
    decreases |rows|
  {
    if rows != [] {
      PreprocessedStage(rows[..|rows| - 1], validate, transform, init);
    }
  }

  lemma IncreasingSnoc(s: seq<nat>, x: nat)
    requires StrictlyIncreasing(s) && forall k :: k in s ==> k < x
    ensures StrictlyIncreasing(s + [x])
  {
    forall a, b | 0 <= a < b < |s| + 1 ensures (s + [x])[a] < (s + [x])[b] {
      if b == |s| {
        assert s[a] in s;
      }
    }
  }

  lemma StageRowErrors<S, U>(acc: Staging<S, U>, row: Row, rownum: nat,
                             validate: Row -> Verdict, transform: (U, Row) -> (Option<S>, U))
    ensures StageRow(acc, row, rownum, validate, transform).rowErrors
         == acc.rowErrors + (if validate(row).Reject? then [rownum] else [])
  {
  }

  /** The 1-based numbers of the rows of `rows` that `validate` refuses, in file order. */
  function RefusedRows(rows: seq<Row>, validate: Row -> Verdict): (r: seq<nat>)
    ensures |r| <= |rows|
    decreases |rows|
  {
    if rows == [] then []
    else RefusedRows(rows[..|rows| - 1], validate) + (if validate(rows[|rows| - 1]).Reject? then [|rows|] else [])
  }

  /** The row numbers, in increasing order, all within the file, and exactly the refused rows. */
  lemma {:induction false} RefusedRowsExact(rows: seq<Row>, validate: Row -> Verdict)
    ensures var r := RefusedRows(rows, validate);
            && StrictlyIncreasing(r)
            && (forall k :: k in r ==> 1 <= k <= |rows|)
            && (forall i :: 0 <= i < |rows| ==> (i + 1 in r <==> validate(rows[i]).Reject?))
    decreases |rows|
  {
    if rows != [] {
      var n := |rows| - 1;
      var front := rows[..n];
      var before := RefusedRows(front, validate);
      assert StrictlyIncreasing(before) && (forall k :: k in before ==> 1 <= k <= n)
             && (forall i :: 0 <= i < n ==> (i + 1 in before <==> validate(rows[i]).Reject?)) by {
        RefusedRowsExact(front, validate);
        assert forall i :: 0 <= i < n ==> front[i] == rows[i];
      }
      var tail: seq<nat> := if validate(rows[n]).Reject? then [n + 1] else [];
      var r := RefusedRows(rows, validate);
      assert r == before + tail;
      if validate(rows[n]).Reject? {
        IncreasingSnoc(before, n + 1);
      }
      forall k | k in r ensures 1 <= k <= |rows| {
        assert k in before || k in tail;
      }
      forall i | 0 <= i < |rows| ensures (i + 1 in r <==> validate(rows[i]).Reject?) {
        assert (i + 1 in r) <==> (i + 1 in before || i + 1 in tail);
        if i < n {
          assert i + 1 !in tail;
        } else {
          assert i + 1 !in before;
        }
      }
    }
  }

  /** rowerrors gains exactly the refused row numbers, after whatever it held before. */
  lemma {:induction false} PreprocessedRowErrors<S, U>(rows: seq<Row>, validate: Row -> Verdict,
                                                       transform: (U, Row) -> (Option<S>, U), init: Staging<S, U>)
    ensures Preprocessed(rows, validate, transform, init).rowErrors == init.rowErrors + RefusedRows(rows, validate)
    decreases |rows|
  {
    if rows != [] {
      var n := |rows| - 1;
      var p := Preprocessed(rows[..n], validate, transform, init);
      PreprocessedRowErrors(rows[..n], validate, transform, init);
      StageRowErrors(p, rows[n], n + 1, validate, transform);
    }
  }

  /** The message list keeps its earlier entries and gains no duplicate. */
  lemma {:induction false} PreprocessedMessages<S, U>(rows: seq<Row>, validate: Row -> Verdict,
                                                      transform: (U, Row) -> (Option<S>, U), init: Staging<S, U>)
    ensures var r := Preprocessed(rows, validate, transform, init);
            && |init.messages| <= |r.messages| && r.messages[..|init.messages|] == init.messages
            && (Distinct(init.messages) ==> Distinct(r.messages))
    decreases |rows|
  {
    if rows != [] {
      PreprocessedMessages(rows[..|rows| - 1], validate, transform, init);
    }
  }

  // ------------------------------------------------------------------
  // can_commit
  // ------------------------------------------------------------------

  /** `bool(self.stage and not self.rowerrors)`. */
  predicate Committable<S>(stage: seq<S>, rowErrors: seq<nat>)
  {
    |stage| > 0 && |rowErrors| == 0
  }

  /** One refused row anywhere in the file leaves the processor unable to commit. */
  lemma RejectedRowBlocksCommit<S, U>(rows: seq<Row>, validate: Row -> Verdict,
                                      transform: (U, Row) -> (Option<S>, U), init: Staging<S, U>, k: nat)
    requires k < |rows| && validate(rows[k]).Reject?
    ensures var r := Preprocessed(rows, validate, transform, init);
            !Committable(r.stage, r.rowErrors) && k + 1 in r.rowErrors
  {
    PreprocessedRowErrors(rows, validate, transform, init);
    RefusedRowsExact(rows, validate);
  }

  // ------------------------------------------------------------------
  // commit and rollback: draining a list through process_row
  // ------------------------------------------------------------------

  /** What process_row did with one row: saved it (with the undo row it returned, if any),
      declined it, or raised an exception with the given text. */
  datatype Outcome<S> = Saved(undo: Option<S>) | NotSaved | Failed(error: string)

  /** The part of the state a commit or rollback pass changes; `store` is the external store
      process_row writes to. */
  datatype Committing<S, St> = Committing(saved: nat, rollbackRows: seq<S>, messages: seq<Message>, store: St)

  /** One iteration of the commit loop (`keepUndo`) or of the rollback loop (undo rows returned
      during rollback are dropped). An exception becomes a message and the loop goes on. */
  function ReplayRow<S, St>(acc: Committing<S, St>, row: S, process: (St, S) -> (Outcome<S>, St), keepUndo: bool): Committing<S, St>
  {
    var (outcome, store) := process(acc.store, row);
    match outcome
    case Saved(undo) =>
      acc.(saved := acc.saved + 1,
           rollbackRows := if keepUndo && undo.Some? then acc.rollbackRows + [undo.value] else acc.rollbackRows,
           store := store)
    case NotSaved => acc.(store := store)
    case Failed(e) => acc.(messages := WithError(acc.messages, Exception(e)), store := store)
  }

  /** The state after `rows` have been popped from the front, one by one, and processed. */
  function Replayed<S, St>(rows: seq<S>, process: (St, S) -> (Outcome<S>, St), init: Committing<S, St>, keepUndo: bool): Committing<S, St>
    decreases |rows|
  {
    if rows == [] then init
    else ReplayRow(Replayed(rows[..|rows| - 1], process, init, keepUndo), rows[|rows| - 1], process, keepUndo)
  }

  /** The pass over `rows + [x]` is the pass over `rows`, then `x`. */
  lemma ReplayedSnoc<S, St>(rows: seq<S>, x: S, process: (St, S) -> (Outcome<S>, St), init: Committing<S, St>, keepUndo: bool)
    ensures Replayed(rows + [x], process, init, keepUndo) == ReplayRow(Replayed(rows, process, init, keepUndo), x, process, keepUndo)
  {
    assert (rows + [x])[..|rows|] == rows;
  }

  /** Rows are processed strictly in order: the pass over `a + b` is the pass over `b` started
      from wherever the pass over `a` ended, whether or not some row of `a` raised. */
  lemma {:induction false} ReplayedAppend<S, St>(a: seq<S>, b: seq<S>, process: (St, S) -> (Outcome<S>, St),
                                                 init: Committing<S, St>, keepUndo: bool)
    ensures Replayed(a + b, process, init, keepUndo) == Replayed(b, process, Replayed(a, process, init, keepUndo), keepUndo)
    decreases |b|
  {
    if b == [] {
      assert a + b == a;
    } else {
      var n := |b| - 1;
      ReplayedAppend(a, b[..n], process, init, keepUndo);
      assert (a + b)[..|a + b| - 1] == a + b[..n];
      assert (a + b)[|a + b| - 1] == b[n];
    }
  }

  /** Counters of a pass: at most one save per row; the undo list only grows, by at most the
      number of saves, and not at all during rollback; messages keep their order and stay
      free of duplicates. */
  lemma {:induction false} ReplayedCounts<S, St>(rows: seq<S>, process: (St, S) -> (Outcome<S>, St),
                                                 init: Committing<S, St>, keepUndo: bool)
    ensures var r := Replayed(rows, process, init, keepUndo);
            && init.saved <= r.saved <= init.saved + |rows|
            && |init.rollbackRows| <= |r.rollbackRows| <= |init.rollbackRows| + (r.saved - init.saved)
            && r.rollbackRows[..|init.rollbackRows|] == init.rollbackRows
            && (!keepUndo ==> r.rollbackRows == init.rollbackRows)
            && |init.messages| <= |r.messages| && r.messages[..|init.messages|] == init.messages
            && (Distinct(init.messages) ==> Distinct(r.messages))
    decreases |rows|
  {
    if rows != [] {
      ReplayedCounts(rows[..|rows| - 1], process, init, keepUndo);
    }
  }

  // ------------------------------------------------------------------
  // DeferrableMixin and status
  // ------------------------------------------------------------------

  /** DeferrableMixin.commit runs the commit in place when called from the Celery task or when the
      stage holds at most `sizeToDefer` rows. */
  predicate CommitsInline(runningTask: bool, staged: nat, sizeToDefer: nat)
  {
    runningTask || staged <= sizeToDefer
  }

  /** `bool(result_id)`: an id is set and is not the empty string. */
  predicate Waiting(resultId: Option<string>)
  {
    resultId.Some? && resultId.value != ""
  }

  /** The dict status() returns (CSVProcessor's keys and DeferrableMixin's two more). */
  datatype Status = Status(total: nat, processed: nat, saved: nat, errorRows: seq<nat>,
                           errorMessages: seq<Message>, canCommit: bool,
                           resultId: Option<string>, waiting: bool)

  /** The rows after the `preprocess_export_row` hook has run on each. */
  function StampedRows(rows: seq<Row>, exportRow: Row -> Row): (r: seq<Row>)
    ensures |r| == |rows|
    ensures forall i :: 0 <= i < |rows| ==> r[i] == exportRow(rows[i])
  {
    seq(|rows|, i requires 0 <= i < |rows| => exportRow(rows[i]))
  }

  /** The writing loop of write_file: the header, then each row passed through the
      `preprocess_export_row` hook and written; None as soon as DictWriter refuses a row. */
  method WriteStamped(header: seq<string>, rows: seq<Row>, exportRow: Row -> Row) returns (table: Option<seq<Line>>)
    ensures table == WriteTable(header, StampedRows(rows, exportRow))
  {
    var stamped := StampedRows(rows, exportRow);
    var lines := [header];
    var i := 0;
    while i < |stamped|
      invariant 0 <= i <= |stamped|
      invariant |lines| == i + 1 && lines[0] == header
      invariant forall j :: 0 <= j < i ==> Writable(header, stamped[j]) && lines[j + 1] == WriteLine(header, stamped[j])
    {
      if !Writable(header, stamped[i]) {
        WriteTableRefuses(header, stamped, i);
        return None;
      }
      lines := lines + [WriteLine(header, stamped[i])];
      i := i + 1;
    }
    WriteTableIs(header, stamped, lines);
    table := Some(lines);
  }

}
