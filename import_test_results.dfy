/**
 * The `POST` handler of app/api/import-test-results/route.ts: it reads a CSV
 * of one exam's results, finds the columns from the header (or assumes the
 * fixed layout when there is no `student_id` header), parses every row into
 * a record or a row error, splits the records into those already stored and
 * the new ones, and inserts only the new ones.
 *
 * The `test_scores` table is a class holding its rows; whether the
 * existence query of a record fails and whether the insert fails are inputs.
 */
module ImportTestResults {
  import opened Wrappers
  import Text
  import Numbers

  /** A record of the batch, as inserted into `test_scores`. */
  datatype ScoreRecord = ScoreRecord(
    student_id: string,
    name: string,
    test_name: string,
    test_date: string,
    section_a: real,
    section_b: real,
    section_c: real,
    section_d: real,
    section_ad: real,
    section_bc: real,
    total_score: real)

  /** What the existence query matches on: one student's result of one exam. */
  datatype ScoreKey = ScoreKey(student_id: string, test_name: string, test_date: string)

  function KeyOf(r: ScoreRecord): ScoreKey {
    ScoreKey(r.student_id, r.test_name, r.test_date)
  }

  function KeysOf(records: seq<ScoreRecord>): set<ScoreKey> {
    set r | r in records :: KeyOf(r)
  }

  /** The first position of `name` among the headers, or -1. */
  function FindIndex(headers: seq<string>, name: string): (i: int)
    ensures -1 <= i < |headers|
    ensures i >= 0 ==> headers[i] == name && forall j | 0 <= j < i :: headers[j] != name
    ensures i == -1 <==> name !in headers
  {
    if headers == [] then -1
    else if headers[0] == name then 0
    else
      var i := FindIndex(headers[1..], name);
      if i == -1 then -1 else i + 1
  }

  /** The positions of the nine columns the handler reads. */
  datatype Columns = Columns(
    studentId: int, name: int,
    sectionA: int, sectionB: int, sectionC: int, sectionD: int,
    sectionAd: int, sectionBc: int, totalScore: int)

  /** The fixed layout assumed without a `student_id` header: columns 2 to 10. */
  const DefaultColumns := Columns(2, 3, 4, 5, 6, 7, 8, 9, 10)

  /** A line cut at commas, each cell trimmed. */
  function Cells(s: string): seq<string> {
    var parts := Text.Split(s, ',');
    seq(|parts|, i requires 0 <= i < |parts| => Text.Trim(parts[i]))
  }

  /**
   * The header of the first line: whether the default layout is used (no
   * `student_id` header) and where each column is. A header absent from the
   * line gets -1.
   */
  function ResolveColumns(firstLine: string): (r: (bool, Columns))
    ensures r.0 <==> "student_id" !in Cells(firstLine)
    ensures r.0 ==> r.1 == DefaultColumns
    ensures !r.0 ==> 0 <= r.1.studentId < |Cells(firstLine)| && Cells(firstLine)[r.1.studentId] == "student_id"
  {
    var headers := Cells(firstLine);
    var studentIdIndex := FindIndex(headers, "student_id");
    if studentIdIndex == -1 then (true, DefaultColumns)
    else (false, Columns(
      studentIdIndex, FindIndex(headers, "name"),
      FindIndex(headers, "section_a"), FindIndex(headers, "section_b"),
      FindIndex(headers, "section_c"), FindIndex(headers, "section_d"),
      FindIndex(headers, "section_ad"), FindIndex(headers, "section_bc"),
      FindIndex(headers, "total_score")))
  }

  /** The number in column `i`, 0 when the column is absent or holds no number. */
  function NumberAt(columns: seq<string>, i: int): real {
    if 0 <= i < |columns| then Numbers.FloatOrZero(columns[i]) else 0.0
  }

  /** `columns[i]`, where a position past the end reads as a missing (falsy) value. */
  function TextAt(columns: seq<string>, i: int): string {
    if 0 <= i < |columns| then columns[i] else ""
  }

  /** A row error, with the 1-based line number of the message. */
  datatype RowError = TooFewColumns(line: nat, count: nat) | MissingStudentId(line: nat)

  /** What one line of the file becomes. */
  datatype RowOutcome = Blank | Rejected(error: RowError) | Parsed(record: ScoreRecord)

  /**
   * One pass of the row loop for line `i`: a blank line is skipped, fewer
   * than three cells or an empty student id is a row error, anything else a
   * record of the requested exam.
   */
  function ParseRow(line: string, i: nat, cols: Columns, testName: string, testDate: string): RowOutcome
  {
    var row := Text.Trim(line);
    if row == "" then Blank
    else
      var columns := Cells(row);
      if |columns| < 3 then Rejected(TooFewColumns(i + 1, |columns|))
      else
        var studentId := TextAt(columns, cols.studentId);
        if studentId == "" then Rejected(MissingStudentId(i + 1))
        else Parsed(ScoreRecord(
          studentId,
          TextAt(columns, cols.name),
          testName,
          testDate,
          NumberAt(columns, cols.sectionA),
          NumberAt(columns, cols.sectionB),
          NumberAt(columns, cols.sectionC),
          NumberAt(columns, cols.sectionD),
          NumberAt(columns, cols.sectionAd),
          NumberAt(columns, cols.sectionBc),
          NumberAt(columns, cols.totalScore)))
  }

  /** What `ParseRow` promises about one line. */
  lemma ParseRowFacts(line: string, i: nat, cols: Columns, testName: string, testDate: string)
    ensures var o := ParseRow(line, i, cols, testName, testDate);
      && (o == Blank <==> Text.IsBlank(line))
      && (o.Rejected? ==> o.error.line == i + 1)
      && (o.Rejected? && o.error.TooFewColumns? ==> o.error.count < 3)
      && (o.Parsed? ==> o.record.student_id != "" && o.record.test_name == testName && o.record.test_date == testDate)
      && (o.Parsed? ==> |Cells(Text.Trim(line))| >= 3 && o.record.student_id == TextAt(Cells(Text.Trim(line)), cols.studentId))
  {
  }

  /** The row parser of one upload: the columns and the requested exam fixed. */
  function LineParser(cols: Columns, testName: string, testDate: string): (string, nat) -> RowOutcome {
    (line: string, i: nat) => ParseRow(line, i, cols, testName, testDate)
  }

  /** What every line becomes under `parse`, line by line. */
  function OutcomesBy(rows: seq<string>, parse: (string, nat) -> RowOutcome): (o: seq<RowOutcome>)
    ensures |o| == |rows|
  {
    seq(|rows|, i requires 0 <= i < |rows| => parse(rows[i], i))
  }

  /** What every line of the file becomes, line by line. */
  function Outcomes(rows: seq<string>, cols: Columns, testName: string, testDate: string): (o: seq<RowOutcome>)
    ensures |o| == |rows|
  {
    OutcomesBy(rows, LineParser(cols, testName, testDate))
  }

  /** The records among outcomes `start .. end-1`, in line order. */
  function BatchOf(outcomes: seq<RowOutcome>, start: nat, end: nat): seq<ScoreRecord>
    requires start <= end <= |outcomes|
    decreases end
  {
    if end == start then []
    else
      var earlier := BatchOf(outcomes, start, end - 1);
      match outcomes[end - 1]
      case Parsed(r) => earlier + [r]
      case _ => earlier
  }

  /** The row errors among outcomes `start .. end-1`, in line order. */
  function ErrorsOf(outcomes: seq<RowOutcome>, start: nat, end: nat): seq<RowError>
    requires start <= end <= |outcomes|
    decreases end
  {
    if end == start then []
    else
      var earlier := ErrorsOf(outcomes, start, end - 1);
      match outcomes[end - 1]
      case Rejected(e) => earlier + [e]
      case _ => earlier
  }

  /** One more outcome adds its record to the batch or its error to the errors. */
  lemma OutcomeStep(outcomes: seq<RowOutcome>, start: nat, i: nat)
    requires start <= i < |outcomes|
    ensures BatchOf(outcomes, start, i + 1) ==
      BatchOf(outcomes, start, i) + if outcomes[i].Parsed? then [outcomes[i].record] else []
    ensures ErrorsOf(outcomes, start, i + 1) ==
      ErrorsOf(outcomes, start, i) + if outcomes[i].Rejected? then [outcomes[i].error] else []
  {
  }

  /** The records of a file's lines from `start` on. */
  function FileBatch(rows: seq<string>, start: nat, cols: Columns, testName: string, testDate: string): seq<ScoreRecord>
    requires start <= |rows|
  {
    BatchOf(Outcomes(rows, cols, testName, testDate), start, |rows|)
  }

  /** The row errors of a file's lines from `start` on. */
  function FileErrors(rows: seq<string>, start: nat, cols: Columns, testName: string, testDate: string): seq<RowError>
    requires start <= |rows|
  {
    ErrorsOf(Outcomes(rows, cols, testName, testDate), start, |rows|)
  }

  /**
   * Every record carries the requested exam and a student id, and no line
   * yields both a record and an error.
   */
  lemma {:induction false} BatchFacts(outcomes: seq<RowOutcome>, start: nat, end: nat, testName: string, testDate: string)
    requires start <= end <= |outcomes|
    requires forall i | start <= i < end && outcomes[i].Parsed? ::
      outcomes[i].record.test_name == testName && outcomes[i].record.test_date == testDate && outcomes[i].record.student_id != ""
    ensures var batch := BatchOf(outcomes, start, end);
      && (forall r | r in batch :: r.test_name == testName && r.test_date == testDate && r.student_id != "")
      && |batch| + |ErrorsOf(outcomes, start, end)| <= end - start
    decreases end
  {
    if end > start {
      BatchFacts(outcomes, start, end - 1, testName, testDate);
    }
  }

  /** The records of a file all belong to the requested exam and name a student. */
  lemma FileBatchFacts(rows: seq<string>, start: nat, cols: Columns, testName: string, testDate: string)
    requires start <= |rows|
    ensures var batch := FileBatch(rows, start, cols, testName, testDate);
      && (forall r | r in batch :: r.test_name == testName && r.test_date == testDate && r.student_id != "")
      && |batch| + |FileErrors(rows, start, cols, testName, testDate)| <= |rows| - start
  {
    BatchFacts(Outcomes(rows, cols, testName, testDate), start, |rows|, testName, testDate);
  }

  /** Errors taken from outcomes that carry their own line number come in increasing line order. */
  lemma {:induction false} ErrorLines(outcomes: seq<RowOutcome>, start: nat, end: nat)
    requires start <= end <= |outcomes|
    requires forall i | start <= i < end && outcomes[i].Rejected? :: outcomes[i].error.line == i + 1
    ensures var errors := ErrorsOf(outcomes, start, end);
      && (forall k | 0 <= k < |errors| :: start < errors[k].line <= end)
      && (forall a, b | 0 <= a < b < |errors| :: errors[a].line < errors[b].line)
    decreases end
  {
    if end > start {
      ErrorLines(outcomes, start, end - 1);
      OutcomeStep(outcomes, start, end - 1);
      var earlier := ErrorsOf(outcomes, start, end - 1);
      var errors := ErrorsOf(outcomes, start, end);
      if outcomes[end - 1].Rejected? {
        forall a, b | 0 <= a < b < |errors| ensures errors[a].line < errors[b].line {
          assert errors[a] == earlier[a];
          if b < |earlier| {
            assert errors[b] == earlier[b];
          }
        }
      }
    }
  }

  /** A rejected line is reported under its own 1-based number. */
  lemma ParserNumbersLines(cols: Columns, testName: string, testDate: string)
    ensures forall line: string, i: nat :: LineParser(cols, testName, testDate)(line, i).Rejected? ==>
      LineParser(cols, testName, testDate)(line, i).error.line == i + 1
  {
    forall line: string, i: nat ensures LineParser(cols, testName, testDate)(line, i).Rejected? ==>
      LineParser(cols, testName, testDate)(line, i).error.line == i + 1
    {
      ParseRowFacts(line, i, cols, testName, testDate);
    }
  }

  /** The row errors of a file name lines after `start`, each at most once, in file order. */
  lemma FileErrorLines(rows: seq<string>, start: nat, cols: Columns, testName: string, testDate: string)
    requires start <= |rows|
    ensures var errors := FileErrors(rows, start, cols, testName, testDate);
      && (forall k | 0 <= k < |errors| :: start < errors[k].line <= |rows|)
      && (forall a, b | 0 <= a < b < |errors| :: errors[a].line < errors[b].line)
  {
    var parse := LineParser(cols, testName, testDate);
    var outcomes := OutcomesBy(rows, parse);
    ParserNumbersLines(cols, testName, testDate);
    forall i | start <= i < |rows| && outcomes[i].Rejected? ensures outcomes[i].error.line == i + 1 {
      assert outcomes[i] == parse(rows[i], i);
    }
    ErrorLines(outcomes, start, |rows|);
    assert FileErrors(rows, start, cols, testName, testDate) == ErrorsOf(outcomes, start, |rows|);
  }

  /**
   * The row loop of the handler: lines from `start` on are parsed one at a
   * time; records go to the batch and row errors to the error list.
   */
  method ParseRows(rows: seq<string>, start: nat, parse: (string, nat) -> RowOutcome)
    returns (batch: seq<ScoreRecord>, errors: seq<RowError>)
    requires start <= |rows|
    ensures batch == BatchOf(OutcomesBy(rows, parse), start, |rows|)
    ensures errors == ErrorsOf(OutcomesBy(rows, parse), start, |rows|)
  {
    ghost var outcomes := OutcomesBy(rows, parse);
    batch := [];
    errors := [];
    var i := start;
    while i < |rows|
      invariant start <= i <= |rows|
      invariant batch == BatchOf(outcomes, start, i)
      invariant errors == ErrorsOf(outcomes, start, i)
    {
      var outcome := parse(rows[i], i);
      OutcomeStep(outcomes, start, i);
      if outcome.Rejected? {
        errors := errors + [outcome.error];
      } else if outcome.Parsed? {
        batch := batch + [outcome.record];
      }
      i := i + 1;
    }
  }

  /**
   * The records of an uploaded text: the lines are split on "\n", the first
   * line decides the layout, and parsing starts at line 0 when the default
   * layout is used and at line 1 otherwise.
   */
  function TextRecords(text: string, testName: string, testDate: string): seq<ScoreRecord> {
    var rows := Text.Split(text, '\n');
    var (useDefault, cols) := ResolveColumns(rows[0]);
    FileBatch(rows, if useDefault then 0 else 1, cols, testName, testDate)
  }

  /** The row errors of an uploaded text. */
  function TextErrors(text: string, testName: string, testDate: string): seq<RowError> {
    var rows := Text.Split(text, '\n');
    var (useDefault, cols) := ResolveColumns(rows[0]);
    FileErrors(rows, if useDefault then 0 else 1, cols, testName, testDate)
  }

  /** Without a `student_id` header the first line is read as data; with one it is skipped. */
  lemma FirstLineIsDataWithoutHeader(text: string, testName: string, testDate: string)
    ensures var rows := Text.Split(text, '\n');
      var (useDefault, cols) := ResolveColumns(rows[0]);
      && (useDefault <==> "student_id" !in Cells(rows[0]))
      && (useDefault ==> cols == DefaultColumns && TextRecords(text, testName, testDate) == FileBatch(rows, 0, cols, testName, testDate))
      && (!useDefault ==> TextRecords(text, testName, testDate) == FileBatch(rows, 1, cols, testName, testDate))
  {
  }

  /** Splitting the text, resolving the layout and running the row loop. */
  method ParseText(text: string, testName: string, testDate: string) returns (batch: seq<ScoreRecord>, errors: seq<RowError>)
    ensures batch == TextRecords(text, testName, testDate)
    ensures errors == TextErrors(text, testName, testDate)
  {
    var rows := Text.Split(text, '\n');
    var (useDefault, cols) := ResolveColumns(rows[0]);
    var start := if useDefault then 0 else 1;
    batch, errors := ParseRows(rows, start, LineParser(cols, testName, testDate));
  }

  /** What the existence check decides for the record at position k of the batch. */
  datatype Fate = Dropped | AlreadyStored | New

  /** A failing query drops the record; otherwise it is stored already or new. */
  function FateOf(present: set<ScoreKey>, r: ScoreRecord, checkFails: bool): (f: Fate)
    ensures f == Dropped <==> checkFails
    ensures f == AlreadyStored <==> !checkFails && KeyOf(r) in present
    ensures f == New <==> !checkFails && KeyOf(r) !in present
  {
    if checkFails then Dropped else if KeyOf(r) in present then AlreadyStored else New
  }

  /** The new records among the first n of the batch. */
  function NewOf(present: set<ScoreKey>, batch: seq<ScoreRecord>, checkFails: nat -> bool, n: nat): seq<ScoreRecord>
    requires n <= |batch|
  {
    if n == 0 then []
    else
      var earlier := NewOf(present, batch, checkFails, n - 1);
      if FateOf(present, batch[n - 1], checkFails(n - 1)) == New then earlier + [batch[n - 1]] else earlier
  }

  /** The keys of the already stored records among the first n of the batch. */
  function ExistingOf(present: set<ScoreKey>, batch: seq<ScoreRecord>, checkFails: nat -> bool, n: nat): seq<ScoreKey>
    requires n <= |batch|
  {
    if n == 0 then []
    else
      var earlier := ExistingOf(present, batch, checkFails, n - 1);
      if FateOf(present, batch[n - 1], checkFails(n - 1)) == AlreadyStored then earlier + [KeyOf(batch[n - 1])] else earlier
  }

  /** Number of the first n existence queries that fail. */
  function FailedChecks(checkFails: nat -> bool, n: nat): nat {
    if n == 0 then 0 else FailedChecks(checkFails, n - 1) + (if checkFails(n - 1) then 1 else 0)
  }

  /**
   * The partition: every record of the batch is new, already stored or
   * dropped by a failing query, and nothing else; new records are absent
   * from the table and the stored ones present.
   */
  lemma {:induction false} PartitionAccounts(present: set<ScoreKey>, batch: seq<ScoreRecord>, checkFails: nat -> bool, n: nat)
    requires n <= |batch|
    ensures |NewOf(present, batch, checkFails, n)| + |ExistingOf(present, batch, checkFails, n)| + FailedChecks(checkFails, n) == n
    ensures forall r | r in NewOf(present, batch, checkFails, n) :: KeyOf(r) !in present && r in batch[..n]
    ensures forall k | k in ExistingOf(present, batch, checkFails, n) :: k in present
  {
    if n > 0 {
      PartitionAccounts(present, batch, checkFails, n - 1);
      assert batch[..n] == batch[..n - 1] + [batch[n - 1]];
    }
  }

  /** Without failing queries, the new records are exactly the batch's records whose key is absent. */
  lemma {:induction false} NewOfWithoutFailures(present: set<ScoreKey>, batch: seq<ScoreRecord>, checkFails: nat -> bool, n: nat)
    requires n <= |batch|
    requires forall k | 0 <= k < n :: !checkFails(k)
    ensures forall r | r in batch[..n] && KeyOf(r) !in present :: r in NewOf(present, batch, checkFails, n)
  {
    if n > 0 {
      NewOfWithoutFailures(present, batch, checkFails, n - 1);
      assert batch[..n] == batch[..n - 1] + [batch[n - 1]];
    }
  }

  /**
   * Re-importing the same batch after an import whose queries all answered
   * inserts nothing, whatever the second round's queries do.
   */
  lemma ReimportInsertsNothing(stored: seq<ScoreRecord>, batch: seq<ScoreRecord>, first: nat -> bool, second: nat -> bool)
    requires forall k | 0 <= k < |batch| :: !first(k)
    ensures var after := stored + NewOf(KeysOf(stored), batch, first, |batch|);
      NewOf(KeysOf(after), batch, second, |batch|) == []
  {
    var inserted := NewOf(KeysOf(stored), batch, first, |batch|);
    var after := stored + inserted;
    NewOfWithoutFailures(KeysOf(stored), batch, first, |batch|);
    assert batch[..|batch|] == batch;
    forall r | r in batch ensures KeyOf(r) in KeysOf(after) {
      if KeyOf(r) !in KeysOf(stored) {
        assert r in inserted;
      } else {
        var s :| s in stored && KeyOf(s) == KeyOf(r);
        assert s in after;
      }
    }
    NothingNewWhenAllPresent(KeysOf(after), batch, second, |batch|);
  }

  lemma {:induction false} NothingNewWhenAllPresent(present: set<ScoreKey>, batch: seq<ScoreRecord>, checkFails: nat -> bool, n: nat)
    requires n <= |batch|
    requires forall r | r in batch :: KeyOf(r) in present
    ensures NewOf(present, batch, checkFails, n) == []
  {
    if n > 0 {
      NothingNewWhenAllPresent(present, batch, checkFails, n - 1);
    }
  }

  /** Duplicates inside one batch are not detected: both copies of a new record are inserted. */
  lemma DuplicatesInOneBatchAreBothNew(r: ScoreRecord, present: set<ScoreKey>, checkFails: nat -> bool)
    requires KeyOf(r) !in present && !checkFails(0) && !checkFails(1)
    ensures NewOf(present, [r, r], checkFails, 2) == [r, r]
  {
    assert NewOf(present, [r, r], checkFails, 1) == [r];
  }

  /** The `test_scores` table. */
  class ScoreTable {
    var records: seq<ScoreRecord>

    constructor (records: seq<ScoreRecord>)
      ensures this.records == records
    {
      this.records := records;
    }

    /** Whether a row with this student, exam name and date exists. */
    function Contains(k: ScoreKey): (b: bool)
      reads this
      ensures b <==> k in KeysOf(records)
    {
      exists r | r in records :: KeyOf(r) == k
    }

    /**
     * The loop over the batch: one existence query per record; a failing
     * query skips the record, a match reports it as already stored, and
     * anything else is kept for the insert.
     */
    method Partition(batch: seq<ScoreRecord>, checkFails: nat -> bool)
      returns (existing: seq<ScoreKey>, newRecords: seq<ScoreRecord>)
      ensures newRecords == NewOf(KeysOf(records), batch, checkFails, |batch|)
      ensures existing == ExistingOf(KeysOf(records), batch, checkFails, |batch|)
    {
      existing := [];
      newRecords := [];
      var k := 0;
      while k < |batch|
        invariant 0 <= k <= |batch|
        invariant newRecords == NewOf(KeysOf(records), batch, checkFails, k)
        invariant existing == ExistingOf(KeysOf(records), batch, checkFails, k)
      {
        var record := batch[k];
        if !checkFails(k) {
          if Contains(KeyOf(record)) {
            existing := existing + [KeyOf(record)];
          } else {
            newRecords := newRecords + [record];
          }
        }
        k := k + 1;
      }
    }

    /** `insert(newRecords)`: the rows are added unless the insert fails. */
    method Insert(newRecords: seq<ScoreRecord>, insertFails: bool) returns (ok: bool)
      modifies this
      ensures ok == !insertFails
      ensures ok ==> records == old(records) + newRecords
      ensures !ok ==> records == old(records)
    {
      if insertFails {
        return false;
      }
      records := records + newRecords;
      return true;
    }
  }

  /** One entry of `results`: a student whose row was inserted. */
  datatype Imported = Imported(studentId: string, name: string)

  /** The entries of `errors`: row errors first, then one per already stored record. */
  datatype ImportError = RowProblem(error: RowError) | SkippedExisting(key: ScoreKey)

  datatype Response =
    | MissingParameters
    | InsertFailed
    | Success(results: seq<Imported>, errors: Option<seq<ImportError>>)

  function ImportedOf(records: seq<ScoreRecord>): (r: seq<Imported>)
    ensures |r| == |records|
    ensures forall i | 0 <= i < |r| :: r[i] == Imported(records[i].student_id, records[i].name)
  {
    if records == [] then [] else ImportedOf(records[..|records| - 1]) + [Imported(records[|records| - 1].student_id, records[|records| - 1].name)]
  }

  function RowProblems(errors: seq<RowError>): (r: seq<ImportError>)
    ensures |r| == |errors| && forall i | 0 <= i < |r| :: r[i] == RowProblem(errors[i])
  {
    seq(|errors|, i requires 0 <= i < |errors| => RowProblem(errors[i]))
  }

  function Skipped(keys: seq<ScoreKey>): (r: seq<ImportError>)
    ensures |r| == |keys| && forall i | 0 <= i < |r| :: r[i] == SkippedExisting(keys[i])
  {
    seq(|keys|, i requires 0 <= i < |keys| => SkippedExisting(keys[i]))
  }

  /** `errors.length > 0 ? errors : null`. */
  function ErrorsField(errors: seq<ImportError>): (r: Option<seq<ImportError>>)
    ensures r == None <==> errors == []
    ensures r.Some? ==> r.value == errors
  {
    if |errors| > 0 then Some(errors) else None
  }

  /**
   * The handler. `file` is the uploaded text, or `None` when no file came.
   * Without a file, test name or test date nothing is read or written. The
   * records of the file that are new to the table are inserted; an insert
   * error answers 500 and leaves the table as it was.
   */
  method ImportTestResults(table: ScoreTable, file: Option<string>, testName: string, testDate: string,
                           checkFails: nat -> bool, insertFails: bool)
    returns (response: Response)
    modifies table
    ensures file.None? || testName == "" || testDate == "" ==> response == MissingParameters && table.records == old(table.records)
    ensures response.InsertFailed? ==> table.records == old(table.records)
    ensures file.Some? && testName != "" && testDate != "" ==>
      var batch := TextRecords(file.value, testName, testDate);
      var newRecords := NewOf(KeysOf(old(table.records)), batch, checkFails, |batch|);
      var existing := ExistingOf(KeysOf(old(table.records)), batch, checkFails, |batch|);
      var rowErrors := RowProblems(TextErrors(file.value, testName, testDate));
      && !response.MissingParameters?
      && (response.InsertFailed? <==> insertFails && newRecords != [])
      && (response.Success? ==>
            && table.records == old(table.records) + newRecords
            && response.results == ImportedOf(newRecords)
            && response.errors == ErrorsField(rowErrors + Skipped(existing)))
  {
    if file.None? || testName == "" || testDate == "" {
      return MissingParameters;
    }
    var batch, rowErrors := ParseText(file.value, testName, testDate);
    var errors := RowProblems(rowErrors);
    var results: seq<Imported> := [];
    if |batch| > 0 {
      var existing, newRecords := table.Partition(batch, checkFails);
      if |newRecords| > 0 {
        var ok := table.Insert(newRecords, insertFails);
        if !ok {
          return InsertFailed;
        }
        results := ImportedOf(newRecords);
      }
      errors := errors + Skipped(existing);
    } else {
      assert Skipped(ExistingOf(KeysOf(table.records), batch, checkFails, 0)) == [];
      assert errors + [] == errors;
    }
    response := Success(results, ErrorsField(errors));
  }
}
