/**
 * The data handling of the admin page, app/admin/page.tsx: the two CSV
 * exports (students and test scores) and the manual score form
 * `handleAddScore`. The download itself is left to the browser; an export
 * here yields the CSV text, or nothing when the list is empty.
 */
module AdminPage {
  import opened Wrappers
  import Text
  import Numbers
  import RosterImport

  // ---------------------------------------------------------------------
  // Exports
  // ---------------------------------------------------------------------

  /** A `students` row as the page holds it; the name column may be null. */
  datatype StudentRow = StudentRow(name: Option<string>, student_id: string, password: string)

  /** `x || ""` for a text that may be null or empty. */
  function TextOrEmpty(x: Option<string>): (s: string)
    ensures x.Some? ==> s == x.value
  {
    x.GetOr("")
  }

  const StudentsHeader: seq<string> := ["名前", "学生ID", "パスワード"]

  /** The fields of one student line. */
  function StudentFields(s: StudentRow): seq<string> {
    [TextOrEmpty(s.name), s.student_id, s.password]
  }

  /** The CSV text: the header and then each row, fields joined by commas and lines by newlines. */
  function CsvText(header: seq<string>, rows: seq<seq<string>>): string {
    Text.Join([Text.Join(header, ',')] + seq(|rows|, i requires 0 <= i < |rows| => Text.Join(rows[i], ',')), '\n')
  }

  /** `exportStudentsCSV`: nothing for an empty list, otherwise the header and one line per student. */
  function ExportStudentsCsv(students: seq<StudentRow>): (csv: Option<string>)
    ensures csv.Some? <==> students != []
  {
    if students == [] then None
    else Some(CsvText(StudentsHeader, seq(|students|, i requires 0 <= i < |students| => StudentFields(students[i]))))
  }

  /** A `test_scores` row joined with its student's name, as the page holds it. */
  datatype ScoreRow = ScoreRow(
    student_id: string, name: Option<string>, test_name: string, test_date: string,
    section_a: Option<real>, section_b: Option<real>, section_c: Option<real>, section_d: Option<real>,
    section_ad: Option<real>, section_bc: Option<real>, total_score: Option<real>)

  const ScoresHeader: seq<string> := [
    "学生ID", "学生名", "テスト名", "テスト日",
    "A問題（一般）", "B問題（必修）", "C問題（必修症例）", "D問題（一般症例）",
    "AD問題（一般合計）", "BC問題（必修合計）", "合計"]

  /** `x || ""` for a number: null and 0 are falsy and print as "", anything else through `show`. */
  function NumberOrEmpty(x: Option<real>, show: real -> string): (s: string)
    ensures x == None || x == Some(0.0) ==> s == ""
    ensures x.Some? && x.value != 0.0 ==> s == show(x.value)
  {
    match x
    case Some(v) => if v != 0.0 then show(v) else ""
    case None => ""
  }

  /** The eleven fields of one score line, in header order. */
  function ScoreFields(s: ScoreRow, show: real -> string): (fields: seq<string>)
    ensures |fields| == |ScoresHeader|
  {
    [s.student_id, TextOrEmpty(s.name), s.test_name, s.test_date,
     NumberOrEmpty(s.section_a, show), NumberOrEmpty(s.section_b, show), NumberOrEmpty(s.section_c, show),
     NumberOrEmpty(s.section_d, show), NumberOrEmpty(s.section_ad, show), NumberOrEmpty(s.section_bc, show),
     NumberOrEmpty(s.total_score, show)]
  }

  /** `exportScoresCSV`: nothing for an empty list, otherwise the header and one line per score. */
  function ExportScoresCsv(scores: seq<ScoreRow>, show: real -> string): (csv: Option<string>)
    ensures csv.Some? <==> scores != []
  {
    if scores == [] then None
    else Some(CsvText(ScoresHeader, seq(|scores|, i requires 0 <= i < |scores| => ScoreFields(scores[i], show))))
  }

  /** A field that survives a CSV line unchanged: no comma, newline or quote, nothing to trim. */
  predicate PlainField(f: string) {
    ',' !in f && '\n' !in f && '"' !in f && Text.Trimmed(f)
  }

  ghost predicate PlainFields(fields: seq<string>) {
    forall j | 0 <= j < |fields| :: PlainField(fields[j])
  }

  /** Fields that keep a CSV line whole: no comma and no newline. */
  ghost predicate Unbroken(fields: seq<string>) {
    forall j | 0 <= j < |fields| :: ',' !in fields[j] && '\n' !in fields[j]
  }

  lemma HeadersUnbroken()
    ensures Unbroken(StudentsHeader) && Unbroken(ScoresHeader)
  {
  }

  /** The lines of the CSV text are the header line and one line per row, in order. */
  lemma CsvLines(header: seq<string>, rows: seq<seq<string>>)
    requires Unbroken(header)
    requires forall i | 0 <= i < |rows| :: Unbroken(rows[i])
    ensures var lines := Text.Split(CsvText(header, rows), '\n');
      && |lines| == |rows| + 1
      && lines[0] == Text.Join(header, ',')
      && forall i | 0 <= i < |rows| :: lines[i + 1] == Text.Join(rows[i], ',')
  {
    var lines := [Text.Join(header, ',')] + seq(|rows|, i requires 0 <= i < |rows| => Text.Join(rows[i], ','));
    JoinHasNo(header, ',', '\n');
    forall i | 0 <= i < |lines|
      ensures '\n' !in lines[i]
    {
      if i > 0 {
        JoinHasNo(rows[i - 1], ',', '\n');
      }
    }
    Text.SplitJoin(lines, '\n');
  }

  /** Joining pieces that lack a character, with a different separator, yields a text that lacks it. */
  lemma {:induction false} JoinHasNo(parts: seq<string>, sep: char, c: char)
    requires sep != c
    requires forall j | 0 <= j < |parts| :: c !in parts[j]
    ensures c !in Text.Join(parts, sep)
  {
    if |parts| > 1 {
      JoinHasNo(parts[1..], sep, c);
    }
  }

  /** Every line of the scores export, header included, splits back into its eleven fields. */
  lemma ScoresExportShape(scores: seq<ScoreRow>, show: real -> string)
    requires scores != []
    requires forall i | 0 <= i < |scores| :: Unbroken(ScoreFields(scores[i], show))
    ensures var lines := Text.Split(ExportScoresCsv(scores, show).value, '\n');
      && |lines| == |scores| + 1
      && Text.Split(lines[0], ',') == ScoresHeader
      && forall i | 0 <= i < |scores| :: Text.Split(lines[i + 1], ',') == ScoreFields(scores[i], show)
  {
    var rows := seq(|scores|, i requires 0 <= i < |scores| => ScoreFields(scores[i], show));
    HeadersUnbroken();
    CsvLines(ScoresHeader, rows);
    Text.SplitJoin(ScoresHeader, ',');
    forall i | 0 <= i < |scores|
      ensures Text.Split(Text.Join(rows[i], ','), ',') == ScoreFields(scores[i], show)
    {
      Text.SplitJoin(rows[i], ',');
    }
  }

  /** A score of 0 is falsy: the export writes it as an empty field, like a missing one. */
  lemma ZeroScoreExportsEmpty(s: ScoreRow, show: real -> string)
    requires s.total_score == Some(0.0)
    ensures ScoreFields(s, show)[10] == ""
    ensures ScoreFields(s, show)[10] == ScoreFields(s.(total_score := None), show)[10]
  {
  }

  // ---------------------------------------------------------------------
  // Round trip: students export -> import-students
  // ---------------------------------------------------------------------

  /** What import-students reads back for an exported student: the name falls back to "". */
  function Reimported(s: StudentRow): RosterImport.Student {
    RosterImport.Student(TextOrEmpty(s.name), s.student_id, s.password)
  }

  /** Every exported student as import-students reads it back. */
  function ReimportedAll(students: seq<StudentRow>): (r: seq<RosterImport.Student>)
    ensures |r| == |students|
    ensures forall i | 0 <= i < |students| :: r[i] == Reimported(students[i])
  {
    seq(|students|, i requires 0 <= i < |students| => Reimported(students[i]))
  }

  lemma PrefixSnoc<T>(s: seq<T>, n: nat)
    requires 0 < n <= |s|
    ensures s[..n] == s[..n - 1] + [s[n - 1]]
  {
  }

  lemma JoinThree(a: string, b: string, c: string)
    ensures Text.Join([a, b, c], ',') == a + [','] + b + [','] + c
  {
    assert [a, b, c][1..] == [b, c] && [b, c][1..] == [c];
    assert Text.Join([c], ',') == c;
  }

  /** A line of three plain fields is trimmed: it starts and ends with a field character or a comma. */
  lemma PlainLineTrimmed(a: string, b: string, c: string)
    requires PlainField(a) && PlainField(b) && PlainField(c)
    ensures Text.Trimmed(Text.Join([a, b, c], ','))
  {
    JoinThree(a, b, c);
    var line := a + [','] + b + [','] + c;
    assert line[0] == if a == [] then ',' else a[0];
    assert line[|line| - 1] == if c == [] then ',' else c[|c| - 1];
  }

  /** A plain field is read back unchanged by import-students. */
  lemma CleanPlainField(f: string)
    requires PlainField(f)
    ensures RosterImport.CleanCell(f) == f
  {
  }

  lemma ReimportLine(s: StudentRow)
    requires PlainFields(StudentFields(s))
    ensures RosterImport.QuotedRow(Text.Join(StudentFields(s), ',')) == Some(Reimported(s))
  {
    var f := StudentFields(s);
    var line := Text.Join(f, ',');
    assert f + [] == f;
    RosterImport.SplitOfFields(f[0], f[1], f[2], []);
    PlainLineTrimmed(f[0], f[1], f[2]);
    RosterImport.QuotedRowOfColumns(line, f[0], f[1], f[2], []);
    CleanPlainField(f[0]);
    CleanPlainField(f[1]);
    CleanPlainField(f[2]);
  }

  lemma HeaderHasId()
    ensures Text.Contains(Text.Join(StudentsHeader, ','), "ID")
  {
    var h := Text.Join(StudentsHeader, ',');
    JoinThree("名前", "学生ID", "パスワード");
    assert h[5..7] == "ID";
    assert Text.OccursAt(h, "ID", 5);
  }

  /**
   * The students export read back by import-students gives every student,
   * in order, with a missing name read as "": the header "学生ID" contains
   * "ID", so it is skipped. This holds when no field holds a comma, newline,
   * quote or edge whitespace.
   */
  lemma StudentsExportRoundTrip(students: seq<StudentRow>)
    requires students != []
    requires forall i | 0 <= i < |students| :: PlainFields(StudentFields(students[i]))
    ensures RosterImport.StudentsFromText(ExportStudentsCsv(students).value)
      == ReimportedAll(students)
  {
    var lines := Text.Split(ExportStudentsCsv(students).value, '\n');
    ExportLines(students);
    ExportSkipsHeader(students);
    var out := ReimportedAll(students);
    ReimportedLines(students, lines, out, |lines|);
    assert out[..|lines| - 1] == out;
  }

  /** import-students skips the first line of the students export, its header. */
  lemma ExportSkipsHeader(students: seq<StudentRow>)
    requires students != []
    requires forall i | 0 <= i < |students| :: PlainFields(StudentFields(students[i]))
    ensures var text := ExportStudentsCsv(students).value;
      var lines := Text.Split(text, '\n');
      RosterImport.StudentsFromText(text) == RosterImport.Collect(lines, 1, |lines|, RosterImport.QuotedRow)
  {
    ExportLines(students);
    HeaderHasId();
  }

  /** The students export is the header line and one line per student. */
  lemma ExportLines(students: seq<StudentRow>)
    requires students != []
    requires forall i | 0 <= i < |students| :: PlainFields(StudentFields(students[i]))
    ensures var lines := Text.Split(ExportStudentsCsv(students).value, '\n');
      && |lines| == |students| + 1
      && lines[0] == Text.Join(StudentsHeader, ',')
      && forall i | 1 <= i < |lines| :: lines[i] == Text.Join(StudentFields(students[i - 1]), ',')
  {
    var rows := seq(|students|, i requires 0 <= i < |students| => StudentFields(students[i]));
    HeadersUnbroken();
    CsvLines(StudentsHeader, rows);
    var lines := Text.Split(ExportStudentsCsv(students).value, '\n');
    forall i | 1 <= i < |lines|
      ensures lines[i] == Text.Join(StudentFields(students[i - 1]), ',')
    {
      assert rows[i - 1] == StudentFields(students[i - 1]);
    }
  }

  /** Lines holding the exported students, after a first line, are read back as those students. */
  lemma {:induction false} ReimportedLines(students: seq<StudentRow>, lines: seq<string>,
                                           out: seq<RosterImport.Student>, end: nat)
    requires 1 <= end <= |lines| == |students| + 1 && |out| == |students|
    requires forall i | 0 <= i < |students| :: PlainFields(StudentFields(students[i]))
    requires forall i | 1 <= i < |lines| :: lines[i] == Text.Join(StudentFields(students[i - 1]), ',')
    requires forall i | 0 <= i < |out| :: out[i] == Reimported(students[i])
    ensures RosterImport.Collect(lines, 1, end, RosterImport.QuotedRow) == out[..end - 1]
    decreases end
  {
    if end > 1 {
      ReimportedLines(students, lines, out, end - 1);
      ReimportLine(students[end - 2]);
      PrefixSnoc(out, end - 1);
    }
  }

  // ---------------------------------------------------------------------
  // The manual score form
  // ---------------------------------------------------------------------

  /** The row `handleAddScore` inserts into `test_scores`; `None` is a `parseInt` that found no number. */
  datatype NewScore = NewScore(student_id: string, test_name: string, test_date: string,
                               total_score: Option<int>, max_score: Option<int>)

  datatype Toast =
    | InputError                   // "すべての項目を入力してください"
    | AddFailed(message: string)   // the thrown error's message
    | Added                        // "テスト成績が正常に追加されました"

  const StudentNotFound: string := "学生IDが見つかりません"
  const DefaultMaxScore: string := "100"

  /** The rows `handleAddScore` has written. */
  class ScoreLog {
    var rows: seq<NewScore>

    constructor()
      ensures rows == []
    {
      rows := [];
    }
  }

  /** The score form's inputs and its busy flag. */
  class ScoreForm {
    var studentId: string
    var testName: string
    var testDate: string
    var score: string
    var maxScore: string
    var isAddingScore: bool

    constructor()
      ensures studentId == "" && testName == "" && testDate == "" && score == ""
      ensures maxScore == DefaultMaxScore && !isAddingScore
    {
      studentId := "";
      testName := "";
      testDate := "";
      score := "";
      maxScore := DefaultMaxScore;
      isAddingScore := false;
    }

    predicate Complete()
      reads this
    {
      studentId != "" && testName != "" && testDate != "" && score != "" && maxScore != ""
    }

    /** The row the form would insert. */
    function Row(): (r: NewScore)
      reads this
      ensures r.total_score == Numbers.ParseInt(score) && r.max_score == Numbers.ParseInt(maxScore)
      ensures r.student_id == studentId && r.test_name == testName && r.test_date == testDate
    {
      NewScore(studentId, testName, testDate, Numbers.ParseInt(score), Numbers.ParseInt(maxScore))
    }

    /**
     * `handleAddScore`: an incomplete form only shows an error; an unknown
     * student or a failed insert shows the error and keeps the form; a stored
     * score clears the form and puts the maximum back to "100".
     * `studentFound` is the outcome of the lookup and `insertError` the
     * database's error message, if any.
     */
    method HandleAddScore(log: ScoreLog, studentFound: bool, insertError: Option<string>) returns (toast: Toast)
      modifies this, log
      ensures !old(Complete()) ==> (
        && toast == InputError && log.rows == old(log.rows) && isAddingScore == old(isAddingScore)
        && studentId == old(studentId) && testName == old(testName) && testDate == old(testDate)
        && score == old(score) && maxScore == old(maxScore))
      ensures old(Complete()) ==> !isAddingScore
      ensures old(Complete()) && !studentFound ==> (
        && toast == AddFailed(StudentNotFound) && log.rows == old(log.rows)
        && studentId == old(studentId) && testName == old(testName) && testDate == old(testDate)
        && score == old(score) && maxScore == old(maxScore))
      ensures old(Complete()) && studentFound && insertError.Some? ==> (
        && toast == AddFailed(insertError.value) && log.rows == old(log.rows)
        && studentId == old(studentId) && testName == old(testName) && testDate == old(testDate)
        && score == old(score) && maxScore == old(maxScore))
      ensures old(Complete()) && studentFound && insertError.None? ==> (
        && toast == Added && log.rows == old(log.rows) + [old(Row())]
        && studentId == "" && testName == "" && testDate == "" && score == "" && maxScore == DefaultMaxScore)
    {
      if !Complete() {
        return InputError;
      }
      isAddingScore := true;
      if !studentFound {
        toast := AddFailed(StudentNotFound);
      } else if insertError.Some? {
        toast := AddFailed(insertError.value);
      } else {
        log.rows := log.rows + [Row()];
        toast := Added;
        studentId := "";
        testName := "";
        testDate := "";
        score := "";
        maxScore := DefaultMaxScore;
      }
      isAddingScore := false;
    }
  }

  /** The score typed as the decimal text of `n` is stored as `n`; a fractional part is cut off. */
  lemma TypedScoreIsStored(n: nat, frac: string)
    ensures Numbers.ParseInt(Numbers.NatToDecimal(n)) == Some(n)
    ensures Numbers.ParseInt(Numbers.NatToDecimal(n) + "." + frac) == Some(n)
  {
    Numbers.ParseIntOfNatToDecimal(n);
    Numbers.ParseIntStopsAtPoint(n, frac);
  }
}
