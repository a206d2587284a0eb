/**
 * The three roster importers, which turn a CSV of (name, student ID,
 * password) lines into `students` rows upserted on `student_id`:
 *   - app/api/import-students/route.ts (admin upload; header detected by its text),
 *   - app/api/import-csv/route.ts (fixed URL; line 0 always skipped; no quote stripping),
 *   - app/api/import-csv-fixed/route.ts (fixed URL; BOM strip, row validation, `debugInfo`).
 * The store is a `StudentTable` whose upsert may fail; fetching the URL is an
 * `Option<string>` input whose `None` is a response that is not OK.
 */
module RosterImport {
  import opened Wrappers
  import Text
  import Numbers
  import Auth

  datatype Student = Student(name: string, student_id: string, password: string)

  /** A cell trimmed, then one leading and one trailing double quote removed. */
  function CleanCell(col: string): string {
    Text.StripQuotes(Text.Trim(col))
  }

  function CleanCells(cols: seq<string>): seq<string> {
    seq(|cols|, i requires 0 <= i < |cols| => CleanCell(cols[i]))
  }

  /** One line of import-students: trimmed, non-blank, at least three cleaned columns. */
  function QuotedRow(line: string): Option<Student> {
    var row := Text.Trim(line);
    if row == "" then None
    else
      var cols := CleanCells(Text.Split(row, ','));
      if |cols| >= 3 then Some(Student(cols[0], cols[1], cols[2])) else None
  }

  /** One line of import-csv: the first three raw columns, each trimmed; quotes stay. */
  function PlainRow(line: string): Option<Student> {
    var row := Text.Trim(line);
    if row == "" then None
    else
      var cols := Text.Split(row, ',');
      if |cols| >= 3 then Some(Student(Text.Trim(cols[0]), Text.Trim(cols[1]), Text.Trim(cols[2]))) else None
  }

  lemma CommaCountOfBlank(s: string)
    requires s == ""
    ensures Text.Count(s, ',') == 0
  {
  }

  /** import-students keeps a line exactly when its trimmed text holds at least two commas. */
  lemma QuotedRowKeptIff(line: string)
    ensures QuotedRow(line).Some? <==> Text.Count(Text.Trim(line), ',') >= 2
  {
    if Text.Trim(line) == "" {
      CommaCountOfBlank(Text.Trim(line));
    }
  }

  /** import-csv keeps a line exactly when its trimmed text holds at least two commas. */
  lemma PlainRowKeptIff(line: string)
    ensures PlainRow(line).Some? <==> Text.Count(Text.Trim(line), ',') >= 2
  {
    if Text.Trim(line) == "" {
      CommaCountOfBlank(Text.Trim(line));
    }
  }

  /** A line of comma-free fields: the first three become the student, the rest are ignored. */
  lemma {:induction false} SplitOfFields(a: string, b: string, c: string, rest: seq<string>)
    requires ',' !in a && ',' !in b && ',' !in c
    requires forall i | 0 <= i < |rest| :: ',' !in rest[i]
    ensures Text.Split(Text.Join([a, b, c] + rest, ','), ',') == [a, b, c] + rest
  {
    var parts := [a, b, c] + rest;
    forall i | 0 <= i < |parts|
      ensures ',' !in parts[i]
    {
      if i >= 3 {
        assert parts[i] == rest[i - 3];
      }
    }
    Text.SplitJoin(parts, ',');
  }

  /** A trimmed line that splits into at least three columns is not blank. */
  lemma NotBlankWhenSplit(line: string)
    requires |Text.Split(line, ',')| >= 3
    ensures line != ""
  {
    if line == "" {
      CommaCountOfBlank(line);
    }
  }

  /** import-students reads the first three columns of a line, cleaned, and ignores the rest. */
  lemma QuotedRowOfColumns(line: string, a: string, b: string, c: string, rest: seq<string>)
    requires Text.Trimmed(line) && Text.Split(line, ',') == [a, b, c] + rest
    ensures QuotedRow(line) == Some(Student(CleanCell(a), CleanCell(b), CleanCell(c)))
  {
    NotBlankWhenSplit(line);
    assert Text.Trim(line) == line;
    var cols := CleanCells(Text.Split(line, ','));
    assert cols[0] == CleanCell(a) && cols[1] == CleanCell(b) && cols[2] == CleanCell(c);
  }

  /** import-csv reads the first three columns of a line, trimmed, and ignores the rest. */
  lemma PlainRowOfColumns(line: string, a: string, b: string, c: string, rest: seq<string>)
    requires Text.Trimmed(line) && Text.Split(line, ',') == [a, b, c] + rest
    ensures PlainRow(line) == Some(Student(Text.Trim(a), Text.Trim(b), Text.Trim(c)))
  {
    NotBlankWhenSplit(line);
    assert Text.Trim(line) == line;
  }

  /** import-students drops the quotes around a field that import-csv keeps. */
  lemma QuotesStrippedOnlyByQuotedRow(b: string, c: string)
    requires ',' !in b && ',' !in c && '"' !in b && '"' !in c
    requires Text.Trimmed(b) && Text.Trimmed(c) && c != ""
    ensures QuotedRow(Text.Join(["\"A\"", b, c], ',')) == Some(Student("A", b, c))
    ensures PlainRow(Text.Join(["\"A\"", b, c], ',')) == Some(Student("\"A\"", b, c))
  {
    var q := "\"A\"";
    var line := Text.Join([q, b, c], ',');
    assert [q, b, c][1..] == [b, c] && [b, c][1..] == [c];
    assert Text.Join([c], ',') == c;
    assert Text.Join([b, c], ',') == b + [','] + c;
    assert line == q + [','] + (b + [','] + c);
    assert line[0] == '"' && line[|line| - 1] == c[|c| - 1];
    assert [q, b, c] + [] == [q, b, c];
    SplitOfFields(q, b, c, []);
    QuotedRowOfColumns(line, q, b, c, []);
    PlainRowOfColumns(line, q, b, c, []);
    CleanQuotedCell();
  }

  lemma CleanQuotedCell()
    ensures CleanCell("\"A\"") == "A" && Text.Trim("\"A\"") == "\"A\""
  {
    var q := "\"A\"";
    assert Text.Trimmed(q);
    assert q[1..|q| - 1] == "A";
  }

  /**
   * The students the lines `rows[start..end]` yield under the row parser
   * `parse`, in line order.
   */
  function Collect(rows: seq<string>, start: nat, end: nat, parse: string -> Option<Student>): seq<Student>
    requires end <= |rows|
    decreases end
  {
    if end <= start then []
    else
      Collect(rows, start, end - 1, parse) + (match parse(rows[end - 1]) case Some(s) => [s] case None => [])
  }

  /** A student is collected exactly when some line of the range parses to it; one per line at most. */
  lemma CollectMembers(rows: seq<string>, start: nat, end: nat, parse: string -> Option<Student>)
    requires end <= |rows|
    ensures |Collect(rows, start, end, parse)| <= end - start || end <= start
    ensures forall s :: s in Collect(rows, start, end, parse) <==> exists i | start <= i < end :: parse(rows[i]) == Some(s)
  {
    CollectLength(rows, start, end, parse);
    forall s
      ensures s in Collect(rows, start, end, parse) <==> exists i | start <= i < end :: parse(rows[i]) == Some(s)
    {
      CollectHas(rows, start, end, parse, s);
    }
  }

  lemma {:induction false} CollectLength(rows: seq<string>, start: nat, end: nat, parse: string -> Option<Student>)
    requires end <= |rows|
    ensures |Collect(rows, start, end, parse)| <= end - start || end <= start
    decreases end
  {
    if end > start {
      CollectLength(rows, start, end - 1, parse);
      var added: seq<Student> := match parse(rows[end - 1]) case Some(t) => [t] case None => [];
      assert Collect(rows, start, end, parse) == Collect(rows, start, end - 1, parse) + added;
      assert |added| <= 1;
    }
  }

  lemma {:induction false} CollectHas(rows: seq<string>, start: nat, end: nat, parse: string -> Option<Student>, s: Student)
    requires end <= |rows|
    ensures s in Collect(rows, start, end, parse) <==> exists i | start <= i < end :: parse(rows[i]) == Some(s)
    decreases end
  {
    if end > start {
      CollectHas(rows, start, end - 1, parse, s);
      var earlier := Collect(rows, start, end - 1, parse);
      var added: seq<Student> := match parse(rows[end - 1]) case Some(t) => [t] case None => [];
      assert Collect(rows, start, end, parse) == earlier + added;
      assert s in added <==> parse(rows[end - 1]) == Some(s);
      if exists i | start <= i < end :: parse(rows[i]) == Some(s) {
        var i :| start <= i < end && parse(rows[i]) == Some(s);
        if i < end - 1 {
          assert s in earlier;
        }
      }
    }
  }

  /** The loop of lines 30-46 (import-students) and 26-42 (import-csv): one pass, in order. */
  method CollectRows(rows: seq<string>, start: nat, parse: string -> Option<Student>) returns (students: seq<Student>)
    ensures students == Collect(rows, start, |rows|, parse)
  {
    students := [];
    var i := start;
    if i > |rows| {
      return;
    }
    while i < |rows|
      invariant start <= i <= |rows|
      invariant students == Collect(rows, start, i, parse)
    {
      var parsed := parse(rows[i]);
      match parsed {
        case Some(s) =>
          students := students + [s];
        case None =>
      }
      i := i + 1;
    }
  }

  /** import-students skips line 0 only when it mentions "ID" or "PASS". */
  function StartIndex(first: string): nat {
    if Text.Contains(first, "ID") || Text.Contains(first, "PASS") then 1 else 0
  }

  /** The students import-students reads from the uploaded text. */
  function StudentsFromText(text: string): seq<Student> {
    var rows := Text.Split(text, '\n');
    Collect(rows, StartIndex(rows[0]), |rows|, QuotedRow)
  }

  /** A first line naming "ID" or "PASS" is a header and never yields a student; every other line is read. */
  lemma HeaderDetection(text: string)
    ensures var rows := Text.Split(text, '\n');
      && (Text.Contains(rows[0], "ID") || Text.Contains(rows[0], "PASS") ==>
            forall s :: s in StudentsFromText(text) <==> exists i | 1 <= i < |rows| :: QuotedRow(rows[i]) == Some(s))
      && (!Text.Contains(rows[0], "ID") && !Text.Contains(rows[0], "PASS") ==>
            forall s :: s in StudentsFromText(text) <==> exists i | 0 <= i < |rows| :: QuotedRow(rows[i]) == Some(s))
  {
    var rows := Text.Split(text, '\n');
    var start := StartIndex(rows[0]);
    assert StudentsFromText(text) == Collect(rows, start, |rows|, QuotedRow);
    CollectMembers(rows, start, |rows|, QuotedRow);
  }

  /** A first line without "ID" or "PASS" is data: a header like "name,student_id,password" becomes a student. */
  lemma UnmarkedFirstLineIsImported(text: string, s: Student)
    requires var rows := Text.Split(text, '\n');
      !Text.Contains(rows[0], "ID") && !Text.Contains(rows[0], "PASS") && QuotedRow(rows[0]) == Some(s)
    ensures s in StudentsFromText(text)
  {
    HeaderDetection(text);
  }

  /** The students import-csv reads from the fetched text: line 0 is always dropped. */
  function PlainStudentsFromText(text: string): seq<Student> {
    var rows := Text.Split(text, '\n');
    Collect(rows, 1, |rows|, PlainRow)
  }

  // ---------------------------------------------------------------------
  // import-csv-fixed: classification of one line and the `debugInfo` scan
  // ---------------------------------------------------------------------

  /** The stand-in for an empty name. */
  const NoName: string := "名前なし"

  /** What lines 54-89 of import-csv-fixed do with one line. */
  datatype Verdict = Blank | TooFewColumns(count: nat) | MissingCredentials | Accepted(student: Student)

  function Classify(line: string): Verdict {
    var row := Text.Trim(line);
    if row == "" then Blank
    else
      var cols := CleanCells(Text.Split(row, ','));
      if |cols| < 3 then TooFewColumns(|cols|)
      else if cols[1] == "" || cols[2] == "" then MissingCredentials
      else Accepted(Student(if cols[0] == "" then NoName else cols[0], cols[1], cols[2]))
  }

  /**
   * import-csv-fixed accepts exactly the import-students rows with a non-empty
   * ID and password, keeping both and defaulting an empty name; a short row
   * reports one or two columns.
   */
  lemma ClassifyAgreesWithQuotedRow(line: string)
    ensures Classify(line).Accepted? <==>
      QuotedRow(line).Some? && QuotedRow(line).value.student_id != "" && QuotedRow(line).value.password != ""
    ensures Classify(line).Accepted? ==>
      var q := QuotedRow(line).value;
      var s := Classify(line).student;
      && s.student_id == q.student_id && s.password == q.password
      && s.name == (if q.name == "" then NoName else q.name)
      && s.name != ""
    ensures Classify(line).TooFewColumns? ==> 1 <= Classify(line).count <= 2 && QuotedRow(line) == None
    ensures Classify(line) == Blank <==> Text.IsBlank(line)
  {
  }

  datatype Problem = ColumnsMissing(count: nat) | CredentialsMissing

  /** An entry of `debugInfo.errors`, `line` being the 1-based line number. */
  datatype RowError = RowError(line: nat, problem: Problem)

  /** The text pushed into `debugInfo.errors`. */
  function ErrorText(e: RowError): string {
    "行 " + Numbers.NatToDecimal(e.line) + ": " +
    match e.problem
    case ColumnsMissing(n) => "列が不足しています (" + Numbers.NatToDecimal(n) + " 列)"
    case CredentialsMissing => "学生IDまたはパスワードがありません"
  }

  datatype DebugInfo = DebugInfo(totalRows: nat, processedRows: nat, skippedRows: nat, errors: seq<RowError>)

  function ErrorOf(v: Verdict, line: nat): seq<RowError> {
    match v
    case TooFewColumns(n) => [RowError(line, ColumnsMissing(n))]
    case MissingCredentials => [RowError(line, CredentialsMissing)]
    case _ => []
  }

  /** The students accepted from lines 1..end-1 under `classify`. */
  function AcceptedStudents(rows: seq<string>, end: nat, classify: string -> Verdict): seq<Student>
    requires end <= |rows|
    decreases end
  {
    if end <= 1 then []
    else
      var v := classify(rows[end - 1]);
      AcceptedStudents(rows, end - 1, classify) + (if v.Accepted? then [v.student] else [])
  }

  /** The number of lines among 1..end-1 that were not accepted. */
  function Skipped(rows: seq<string>, end: nat, classify: string -> Verdict): nat
    requires end <= |rows|
    decreases end
  {
    if end <= 1 then 0
    else Skipped(rows, end - 1, classify) + (if classify(rows[end - 1]).Accepted? then 0 else 1)
  }

  /** The errors reported for lines 1..end-1, line `i` numbered `i + 1`. */
  function Errors(rows: seq<string>, end: nat, classify: string -> Verdict): seq<RowError>
    requires end <= |rows|
    decreases end
  {
    if end <= 1 then []
    else Errors(rows, end - 1, classify) + ErrorOf(classify(rows[end - 1]), end)
  }

  /**
   * Every data line is counted once, as processed or skipped; blank lines are
   * skipped without an error, so there are never more errors than skips; every
   * error names a data line (2 up to `end`), in increasing order.
   */
  lemma {:induction false} ScanCounts(rows: seq<string>, end: nat, classify: string -> Verdict)
    requires 1 <= end <= |rows|
    ensures |AcceptedStudents(rows, end, classify)| + Skipped(rows, end, classify) == end - 1
    ensures |Errors(rows, end, classify)| <= Skipped(rows, end, classify)
    ensures forall j | 0 <= j < |Errors(rows, end, classify)| :: 2 <= Errors(rows, end, classify)[j].line <= end
    ensures forall j, k | 0 <= j < k < |Errors(rows, end, classify)| ::
      Errors(rows, end, classify)[j].line < Errors(rows, end, classify)[k].line
    decreases end
  {
    if end > 1 {
      ScanCounts(rows, end - 1, classify);
    }
  }

  /** The loop of lines 53-94, updating `debugInfo` as it goes. */
  method Scan(rows: seq<string>, classify: string -> Verdict) returns (students: seq<Student>, info: DebugInfo)
    requires |rows| >= 1
    ensures students == AcceptedStudents(rows, |rows|, classify)
    ensures info == DebugInfo(|rows|, |students|, Skipped(rows, |rows|, classify), Errors(rows, |rows|, classify))
    ensures info.processedRows + info.skippedRows == info.totalRows - 1
    ensures |info.errors| <= info.skippedRows
  {
    students := [];
    info := DebugInfo(|rows|, 0, 0, []);
    var i := 1;
    while i < |rows|
      invariant 1 <= i <= |rows|
      invariant students == AcceptedStudents(rows, i, classify)
      invariant info == DebugInfo(|rows|, |students|, Skipped(rows, i, classify), Errors(rows, i, classify))
      invariant info.processedRows + info.skippedRows == i - 1
      invariant |info.errors| <= info.skippedRows
    {
      var v := classify(rows[i]);
      match v {
        case Blank =>
          info := info.(skippedRows := info.skippedRows + 1);
        case TooFewColumns(n) =>
          info := info.(errors := info.errors + [RowError(i + 1, ColumnsMissing(n))], skippedRows := info.skippedRows + 1);
        case MissingCredentials =>
          info := info.(errors := info.errors + [RowError(i + 1, CredentialsMissing)], skippedRows := info.skippedRows + 1);
        case Accepted(s) =>
          students := students + [s];
          info := info.(processedRows := info.processedRows + 1);
      }
      i := i + 1;
    }
  }

  /** A byte-order mark (U+FEFF) at the start of the text is dropped, once; one elsewhere stays. */
  function StripBom(text: string): (r: string)
    ensures |text| - 1 <= |r| <= |text| && r == text[|text| - |r|..]
    ensures |r| < |text| <==> text != [] && text[0] == '\U{FEFF}'
  {
    if text != [] && text[0] == '\U{FEFF}' then text[1..] else text
  }

  lemma {:induction false} AcceptedFromLineOne(a: seq<string>, b: seq<string>, end: nat, classify: string -> Verdict)
    requires end <= |a| == |b| && |a| >= 1 && a[1..] == b[1..]
    ensures AcceptedStudents(a, end, classify) == AcceptedStudents(b, end, classify)
    ensures Skipped(a, end, classify) == Skipped(b, end, classify)
    ensures Errors(a, end, classify) == Errors(b, end, classify)
    decreases end
  {
    if end > 1 {
      assert a[end - 1] == a[1..][end - 2] == b[1..][end - 2] == b[end - 1];
      AcceptedFromLineOne(a, b, end - 1, classify);
    }
  }

  /**
   * The BOM only ever sits on line 0, which the scan never reads: stripping it
   * changes neither the students nor any `debugInfo` counter.
   */
  lemma BomStripChangesNoOutcome(text: string, classify: string -> Verdict)
    ensures var a := Text.Split(text, '\n');
      var b := Text.Split(StripBom(text), '\n');
      |a| == |b| && AcceptedStudents(a, |a|, classify) == AcceptedStudents(b, |b|, classify)
      && Skipped(a, |a|, classify) == Skipped(b, |b|, classify)
      && Errors(a, |a|, classify) == Errors(b, |b|, classify)
  {
    var a := Text.Split(text, '\n');
    var b := Text.Split(StripBom(text), '\n');
    if text != [] && text[0] == '\U{FEFF}' {
      assert text == [text[0]] + text[1..];
      assert a == [[text[0]] + b[0]] + b[1..];
      AcceptedFromLineOne(a, b, |a|, classify);
    }
  }

  // ---------------------------------------------------------------------
  // The `students` table and the three route handlers
  // ---------------------------------------------------------------------

  /** `upsert(batch, { onConflict: "student_id" })` on a table keyed by student ID. */
  function UpsertAll(table: map<string, Student>, batch: seq<Student>): map<string, Student>
    decreases |batch|
  {
    if batch == [] then table
    else
      var last := batch[|batch| - 1];
      UpsertAll(table, batch[..|batch| - 1])[last.student_id := last]
  }

  ghost predicate InBatch(batch: seq<Student>, id: string) {
    exists i | 0 <= i < |batch| :: batch[i].student_id == id
  }

  ghost predicate LastOfId(batch: seq<Student>, i: int) {
    0 <= i < |batch| && forall j | i < j < |batch| :: batch[j].student_id != batch[i].student_id
  }

  /** After an upsert the table holds exactly the old IDs and the batch's IDs. */
  lemma {:induction false} UpsertAllKeys(table: map<string, Student>, batch: seq<Student>)
    ensures forall id :: id in UpsertAll(table, batch) <==> id in table || InBatch(batch, id)
    decreases |batch|
  {
    if batch != [] {
      var init := batch[..|batch| - 1];
      var last := batch[|batch| - 1];
      UpsertAllKeys(table, init);
      forall id
        ensures id in UpsertAll(table, batch) <==> id in table || InBatch(batch, id)
      {
        if InBatch(init, id) {
          var i :| 0 <= i < |init| && init[i].student_id == id;
          assert batch[i].student_id == id;
        }
        if InBatch(batch, id) && id != last.student_id {
          var i :| 0 <= i < |batch| && batch[i].student_id == id;
          assert init[i].student_id == id;
        }
      }
    }
  }

  /** A row of the batch is stored unless a later row of the batch has the same ID. */
  lemma {:induction false} UpsertAllLastWins(table: map<string, Student>, batch: seq<Student>)
    ensures forall i | LastOfId(batch, i) ::
      batch[i].student_id in UpsertAll(table, batch) && UpsertAll(table, batch)[batch[i].student_id] == batch[i]
    decreases |batch|
  {
    if batch != [] {
      var init := batch[..|batch| - 1];
      UpsertAllLastWins(table, init);
      forall i | LastOfId(batch, i)
        ensures batch[i].student_id in UpsertAll(table, batch) && UpsertAll(table, batch)[batch[i].student_id] == batch[i]
      {
        if i < |batch| - 1 {
          assert LastOfId(init, i);
        }
      }
    }
  }

  /** An ID the batch does not mention keeps its old row. */
  lemma {:induction false} UpsertAllUntouched(table: map<string, Student>, batch: seq<Student>)
    ensures forall id | id in table && !InBatch(batch, id) ::
      id in UpsertAll(table, batch) && UpsertAll(table, batch)[id] == table[id]
    decreases |batch|
  {
    if batch != [] {
      var init := batch[..|batch| - 1];
      UpsertAllUntouched(table, init);
      forall id | id in table && !InBatch(batch, id)
        ensures !InBatch(init, id)
      {
        assert forall i | 0 <= i < |init| :: init[i] == batch[i];
      }
    }
  }

  /** Upserting the same batch twice leaves the table as after the first time. */
  lemma UpsertTwiceIsUpsertOnce(table: map<string, Student>, batch: seq<Student>)
    ensures UpsertAll(UpsertAll(table, batch), batch) == UpsertAll(table, batch)
  {
    var once := UpsertAll(table, batch);
    var twice := UpsertAll(once, batch);
    UpsertAllKeys(table, batch);
    UpsertAllKeys(once, batch);
    UpsertAllLastWins(table, batch);
    UpsertAllLastWins(once, batch);
    UpsertAllUntouched(once, batch);
    forall id | id in twice
      ensures id in once && twice[id] == once[id]
    {
      if InBatch(batch, id) {
        var i :| 0 <= i < |batch| && batch[i].student_id == id;
        var k := LastIndexOfId(batch, id, i);
        assert twice[id] == batch[k] == once[id];
      }
    }
  }

  /** The last row of the batch carrying `id`, at or after `i`. */
  lemma LastIndexOfId(batch: seq<Student>, id: string, i: nat) returns (k: nat)
    requires i < |batch| && batch[i].student_id == id
    ensures i <= k < |batch| && batch[k].student_id == id && LastOfId(batch, k)
    decreases |batch| - i
  {
    if j :| i < j < |batch| && batch[j].student_id == id {
      k := LastIndexOfId(batch, id, j);
    } else {
      k := i;
    }
  }

  /** The `students` table, keyed by student ID. */
  class StudentTable {
    var rows: map<string, Student>

    constructor()
      ensures rows == map[]
    {
      rows := map[];
    }

    /** The upsert with `.select()`; `fails` is the database's error. */
    method Upsert(batch: seq<Student>, fails: bool) returns (ok: bool, data: seq<Student>)
      modifies this
      ensures ok == !fails
      ensures ok ==> rows == UpsertAll(old(rows), batch) && data == batch
      ensures !ok ==> rows == old(rows) && data == []
    {
      if fails {
        return false, [];
      }
      rows := UpsertAll(rows, batch);
      return true, batch;
    }
  }

  /** The answers of import-students. */
  datatype StudentsResponse =
    | Denied(auth: Auth.AuthResult)   // the auth check's own 401
    | NoFile                          // 400 "No file provided"
    | NoValidStudents                 // 400 "No valid student data found"
    | StoreFailed                     // 500 with the database message
    | StudentsImported(count: nat)    // "<count> students imported successfully"

  /** POST /api/import-students. */
  method ImportStudents(table: StudentTable, headers: Auth.RequestHeaders, production: bool,
                        file: Option<string>, upsertFails: bool) returns (resp: StudentsResponse)
    modifies table
    ensures var auth := Auth.CheckAdminApiAuth(headers, production);
      !auth.authenticated ==> resp == Denied(auth) && table.rows == old(table.rows)
    ensures Auth.CheckAdminApiAuth(headers, production).authenticated ==>
      match file
      case None => resp == NoFile && table.rows == old(table.rows)
      case Some(text) =>
        var students := StudentsFromText(text);
        if students == [] then resp == NoValidStudents && table.rows == old(table.rows)
        else if upsertFails then resp == StoreFailed && table.rows == old(table.rows)
        else resp == StudentsImported(|students|) && table.rows == UpsertAll(old(table.rows), students)
  {
    var authCheck := Auth.CheckAdminApiAuth(headers, production);
    if !authCheck.authenticated {
      return Denied(authCheck);
    }
    if file.None? {
      return NoFile;
    }
    var rows := Text.Split(file.value, '\n');
    var students := CollectRows(rows, StartIndex(rows[0]), QuotedRow);
    if |students| == 0 {
      return NoValidStudents;
    }
    var ok, _ := table.Upsert(students, upsertFails);
    if !ok {
      return StoreFailed;
    }
    return StudentsImported(|students|);
  }

  /** The answers of import-csv. */
  datatype CsvResponse =
    | FetchFailed                                              // 500 from the thrown fetch error
    | NoValidRows                                              // 400
    | CsvStoreFailed                                           // 500 with the database message
    | CsvImported(count: nat, upserted: seq<Student>)          // message and `students: data`

  /** GET /api/import-csv; `fetched` is the body of an OK response. */
  method ImportCsv(table: StudentTable, fetched: Option<string>, upsertFails: bool) returns (resp: CsvResponse)
    modifies table
    ensures match fetched
      case None => resp == FetchFailed && table.rows == old(table.rows)
      case Some(text) =>
        var students := PlainStudentsFromText(text);
        if students == [] then resp == NoValidRows && table.rows == old(table.rows)
        else if upsertFails then resp == CsvStoreFailed && table.rows == old(table.rows)
        else resp == CsvImported(|students|, students) && table.rows == UpsertAll(old(table.rows), students)
  {
    if fetched.None? {
      return FetchFailed;
    }
    var rows := Text.Split(fetched.value, '\n');
    var students := CollectRows(rows, 1, PlainRow);
    if |students| == 0 {
      return NoValidRows;
    }
    var ok, data := table.Upsert(students, upsertFails);
    if !ok {
      return CsvStoreFailed;
    }
    return CsvImported(|students|, data);
  }

  /** The answers of import-csv-fixed; all but the fetch failure carry `debugInfo`. */
  datatype FixedResponse =
    | FixedFetchFailed
    | FixedNoValidRows(debug: DebugInfo)
    | TableCheckFailed(debug: DebugInfo)
    | FixedStoreFailed(debug: DebugInfo, sample: seq<Student>)
    | FixedImported(count: nat, upserted: seq<Student>, debug: DebugInfo)

  /** The `debugInfo` import-csv-fixed reports for a decoded text. */
  function DebugOf(text: string): DebugInfo {
    var rows := Text.Split(StripBom(text), '\n');
    DebugInfo(|rows|, |AcceptedStudents(rows, |rows|, Classify)|, Skipped(rows, |rows|, Classify), Errors(rows, |rows|, Classify))
  }

  /** The students import-csv-fixed reads from a decoded text. */
  function FixedStudentsFromText(text: string): seq<Student> {
    var rows := Text.Split(StripBom(text), '\n');
    AcceptedStudents(rows, |rows|, Classify)
  }

  /** GET /api/import-csv-fixed; `tableCheckFails` is the error of the `limit(0)` probe. */
  method ImportCsvFixed(table: StudentTable, fetched: Option<string>, tableCheckFails: bool, upsertFails: bool)
    returns (resp: FixedResponse)
    modifies table
    ensures match fetched
      case None => resp == FixedFetchFailed && table.rows == old(table.rows)
      case Some(text) =>
        var students := FixedStudentsFromText(text);
        var debug := DebugOf(text);
        if students == [] then resp == FixedNoValidRows(debug) && table.rows == old(table.rows)
        else if tableCheckFails then resp == TableCheckFailed(debug) && table.rows == old(table.rows)
        else if upsertFails then
          resp == FixedStoreFailed(debug, students[..if |students| < 3 then |students| else 3])
          && table.rows == old(table.rows)
        else resp == FixedImported(|students|, students, debug) && table.rows == UpsertAll(old(table.rows), students)
  {
    if fetched.None? {
      return FixedFetchFailed;
    }
    var text := StripBom(fetched.value);
    var rows := Text.Split(text, '\n');
    var students, debugInfo := Scan(rows, Classify);
    if |students| == 0 {
      return FixedNoValidRows(debugInfo);
    }
    if tableCheckFails {
      return TableCheckFailed(debugInfo);
    }
    var ok, data := table.Upsert(students, upsertFails);
    if !ok {
      return FixedStoreFailed(debugInfo, students[..if |students| < 3 then |students| else 3]);
    }
    return FixedImported(|students|, data, debugInfo);
  }

  /** The counters import-csv-fixed reports always add up, whatever the text. */
  lemma DebugInfoAddsUp(text: string)
    ensures DebugOf(text).processedRows + DebugOf(text).skippedRows == DebugOf(text).totalRows - 1
    ensures DebugOf(text).processedRows == |FixedStudentsFromText(text)|
    ensures |DebugOf(text).errors| <= DebugOf(text).skippedRows
  {
    var rows := Text.Split(StripBom(text), '\n');
    ScanCounts(rows, |rows|, Classify);
  }

  /** Every student import-csv-fixed accepts has a name, an ID and a password. */
  lemma {:induction false} FixedStudentsComplete(rows: seq<string>, end: nat)
    requires end <= |rows|
    ensures forall s | s in AcceptedStudents(rows, end, Classify) :: s.name != "" && s.student_id != "" && s.password != ""
    decreases end
  {
    if end > 1 {
      FixedStudentsComplete(rows, end - 1);
      ClassifyAgreesWithQuotedRow(rows[end - 1]);
    }
  }
}
