/**
 * The test-results upload form of components/test-results-import.tsx: the
 * preview of the chosen CSV (split on "\n", blank lines dropped, each line
 * cut into fields by a quote-aware scanner, first five rows kept) and the
 * input checks and state changes of the upload itself. The server's answer
 * to the upload is an input.
 */
module TestResultsImport {
  import opened Wrappers
  import Text

  // ---------------------------------------------------------------------
  // The quote-aware line splitter
  // ---------------------------------------------------------------------

  /** The loop's variables: the finished fields, the field being built, and whether a quote is open. */
  datatype Splitter = Splitter(fields: seq<string>, current: string, inQuotes: bool)

  /** One character: a quote toggles, an unquoted comma ends the field, anything else is copied. */
  function Step(st: Splitter, ch: char): Splitter {
    if ch == '"' then st.(inQuotes := !st.inQuotes)
    else if ch == ',' && !st.inQuotes then Splitter(st.fields + [st.current], "", st.inQuotes)
    else st.(current := st.current + [ch])
  }

  /** The variables after the first `n` characters of `row`. */
  function ScanPrefix(row: string, n: nat): Splitter
    requires n <= |row|
  {
    if n == 0 then Splitter([], "", false) else Step(ScanPrefix(row, n - 1), row[n - 1])
  }

  /** The fields of a line: the finished ones and the last one. */
  function SplitLine(row: string): seq<string> {
    var st := ScanPrefix(row, |row|);
    st.fields + [st.current]
  }

  /** The per-line loop of `handleFileChange`. */
  method SplitQuoted(row: string) returns (result: seq<string>)
    ensures result == SplitLine(row)
  {
    result := [];
    var current := "";
    var inQuotes := false;
    for i := 0 to |row|
      invariant Splitter(result, current, inQuotes) == ScanPrefix(row, i)
    {
      var ch := row[i];
      if ch == '"' {
        inQuotes := !inQuotes;
      } else if ch == ',' && !inQuotes {
        result := result + [current];
        current := "";
      } else {
        current := current + [ch];
      }
    }
    result := result + [current];
  }

  /** A quote is open before position `i` when an odd number of quotes precede it. */
  predicate QuotedAt(row: string, i: nat)
    requires i <= |row|
  {
    Text.Count(row[..i], '"') % 2 == 1
  }

  /** The number of commas among the first `n` characters that are not inside quotes. */
  function UnquotedCommas(row: string, n: nat): nat
    requires n <= |row|
  {
    if n == 0 then 0
    else UnquotedCommas(row, n - 1) + (if row[n - 1] == ',' && !QuotedAt(row, n - 1) then 1 else 0)
  }

  lemma {:induction false} CountSnoc(s: string, x: char, c: char)
    ensures Text.Count(s + [x], c) == Text.Count(s, c) + (if x == c then 1 else 0)
  {
    if s != [] {
      assert (s + [x])[1..] == s[1..] + [x];
      CountSnoc(s[1..], x, c);
    }
  }

  /**
   * The scanner's state after `n` characters: a quote is open exactly when an
   * odd number of quotes were read, one field was finished per unquoted comma,
   * and no quote character was ever copied.
   */
  lemma {:induction false} ScanPrefixInvariant(row: string, n: nat)
    requires n <= |row|
    ensures ScanPrefix(row, n).inQuotes == QuotedAt(row, n)
    ensures |ScanPrefix(row, n).fields| == UnquotedCommas(row, n)
    ensures '"' !in ScanPrefix(row, n).current
    ensures forall j | 0 <= j < |ScanPrefix(row, n).fields| :: '"' !in ScanPrefix(row, n).fields[j]
  {
    if n > 0 {
      ScanPrefixInvariant(row, n - 1);
      assert row[..n] == row[..n - 1] + [row[n - 1]];
      CountSnoc(row[..n - 1], row[n - 1], '"');
    }
  }

  /** A line has one field more than it has commas outside quotes; never none. */
  lemma FieldCount(row: string)
    ensures |SplitLine(row)| == 1 + UnquotedCommas(row, |row|)
  {
    ScanPrefixInvariant(row, |row|);
  }

  /** Quote characters only steer the scanner: no field contains one. */
  lemma QuotesNeverCopied(row: string)
    ensures forall j | 0 <= j < |SplitLine(row)| :: '"' !in SplitLine(row)[j]
  {
    ScanPrefixInvariant(row, |row|);
  }

  /** `split` of a text extended by one character. */
  lemma {:induction false} SplitSnoc(s: string, x: char, sep: char)
    ensures var p := Text.Split(s, sep);
      Text.Split(s + [x], sep) ==
        if x == sep then p + [""] else p[..|p| - 1] + [p[|p| - 1] + [x]]
  {
    var p := Text.Split(s, sep);
    if s == [] {
      SplitOfOne(x, sep);
      assert s + [x] == [x];
    } else {
      var t := s[1..];
      assert (s + [x])[1..] == t + [x];
      SplitSnoc(t, x, sep);
      var q := Text.Split(t, sep);
      if s[0] == sep {
        assert p == [""] + q;
        assert Text.Split(s + [x], sep) == [""] + Text.Split(t + [x], sep);
        SnocAfterNewPart(q, x, sep);
      } else {
        var r := Text.Split(t + [x], sep);
        assert p == [[s[0]] + q[0]] + q[1..];
        assert Text.Split(s + [x], sep) == [[s[0]] + r[0]] + r[1..];
        SnocAfterExtendedPart(s[0], q, x, sep);
      }
    }
  }

  /** The snoc step of `SplitSnoc` when the text starts with the separator. */
  lemma SnocAfterNewPart(q: seq<string>, x: char, sep: char)
    requires |q| >= 1
    ensures var p := [""] + q;
      var r := if x == sep then q + [""] else q[..|q| - 1] + [q[|q| - 1] + [x]];
      [""] + r == if x == sep then p + [""] else p[..|p| - 1] + [p[|p| - 1] + [x]]
  {
    var p := [""] + q;
    if x != sep {
      assert p[..|p| - 1] == [""] + q[..|q| - 1];
    }
  }

  /** The snoc step of `SplitSnoc` when the text starts with another character. */
  lemma SnocAfterExtendedPart(c: char, q: seq<string>, x: char, sep: char)
    requires |q| >= 1
    ensures var p := [[c] + q[0]] + q[1..];
      var r := if x == sep then q + [""] else q[..|q| - 1] + [q[|q| - 1] + [x]];
      [[c] + r[0]] + r[1..] == if x == sep then p + [""] else p[..|p| - 1] + [p[|p| - 1] + [x]]
  {
    var p := [[c] + q[0]] + q[1..];
    if x == sep {
      assert (q + [""])[1..] == q[1..] + [""];
    } else if |q| == 1 {
      assert [c] + (q[0] + [x]) == ([c] + q[0]) + [x];
    } else {
      var r := q[..|q| - 1] + [q[|q| - 1] + [x]];
      assert r[0] == q[0];
      assert r[1..] == q[1..|q| - 1] + [q[|q| - 1] + [x]];
      assert p[..|p| - 1] == [[c] + q[0]] + q[1..|q| - 1];
    }
  }

  lemma SplitOfOne(x: char, sep: char)
    ensures Text.Split([x], sep) == if x == sep then ["", ""] else [[x]]
  {
    assert [x][1..] == [];
    assert Text.Split([], sep) == [""];
    assert [x] + "" == [x];
  }

  /** Without quotes the scanner is `split(",")`: no trimming, a trailing "\r" stays. */
  lemma NoQuotesIsPlainSplit(row: string)
    requires '"' !in row
    ensures SplitLine(row) == Text.Split(row, ',')
  {
    ScanMatchesSplit(row, |row|);
    assert row[..|row|] == row;
  }

  lemma {:induction false} ScanMatchesSplit(row: string, n: nat)
    requires '"' !in row && n <= |row|
    ensures !ScanPrefix(row, n).inQuotes
    ensures ScanPrefix(row, n).fields + [ScanPrefix(row, n).current] == Text.Split(row[..n], ',')
  {
    if n > 0 {
      ScanMatchesSplit(row, n - 1);
      assert row[..n] == row[..n - 1] + [row[n - 1]];
      SplitSnoc(row[..n - 1], row[n - 1], ',');
    }
  }

  /** A comma between quotes stays inside its field, and the quotes go. */
  lemma CommaInsideQuotesIsKept()
    ensures SplitLine("\"x,y\",z") == ["x,y", "z"]
  {
    var row := "\"x,y\",z";
    assert ScanPrefix(row, 1) == Splitter([], "", true);
    assert ScanPrefix(row, 2) == Splitter([], "x", true);
    assert ScanPrefix(row, 3) == Splitter([], "x,", true);
    assert ScanPrefix(row, 4) == Splitter([], "x,y", true);
    assert ScanPrefix(row, 5) == Splitter([], "x,y", false);
    assert ScanPrefix(row, 6) == Splitter(["x,y"], "", false);
    assert ScanPrefix(row, 7) == Splitter(["x,y"], "z", false);
  }

  // ---------------------------------------------------------------------
  // The preview pipeline
  // ---------------------------------------------------------------------

  /** The lines that are not blank, order kept. */
  function NonBlankLines(rows: seq<string>): (r: seq<string>)
    ensures |r| <= |rows|
  {
    if rows == [] then []
    else if Text.IsBlank(rows[0]) then NonBlankLines(rows[1..])
    else [rows[0]] + NonBlankLines(rows[1..])
  }

  /** The filter keeps exactly the lines that are not blank, and changes nothing when none is. */
  lemma NonBlankLinesSpec(rows: seq<string>)
    ensures forall l :: l in NonBlankLines(rows) <==> l in rows && !Text.IsBlank(l)
    ensures (forall j | 0 <= j < |rows| :: !Text.IsBlank(rows[j])) ==> NonBlankLines(rows) == rows
  {
    NonBlankLinesMembers(rows);
    if forall j | 0 <= j < |rows| :: !Text.IsBlank(rows[j]) {
      NonBlankLinesKeepAll(rows);
    }
  }

  lemma {:induction false} NonBlankLinesMembers(rows: seq<string>)
    ensures forall l :: l in NonBlankLines(rows) <==> l in rows && !Text.IsBlank(l)
  {
    if rows != [] {
      var tail := rows[1..];
      NonBlankLinesMembers(tail);
      forall l ensures l in NonBlankLines(rows) <==> l in rows && !Text.IsBlank(l) {
        assert l in rows <==> l == rows[0] || l in tail;
      }
    }
  }

  lemma {:induction false} NonBlankLinesKeepAll(rows: seq<string>)
    requires forall j | 0 <= j < |rows| :: !Text.IsBlank(rows[j])
    ensures NonBlankLines(rows) == rows
  {
    if rows != [] {
      var tail := rows[1..];
      forall j | 0 <= j < |tail| ensures !Text.IsBlank(tail[j]) {
        assert tail[j] == rows[j + 1];
      }
      NonBlankLinesKeepAll(tail);
      assert !Text.IsBlank(rows[0]);
      assert NonBlankLines(rows) == [rows[0]] + NonBlankLines(tail);
      assert rows == [rows[0]] + tail;
    }
  }

  /** Each line cut into fields. */
  function ParsedLines(lines: seq<string>): (r: seq<seq<string>>)
    ensures |r| == |lines|
  {
    seq(|lines|, j requires 0 <= j < |lines| => SplitLine(lines[j]))
  }

  /** The most rows the preview shows. */
  const PreviewRows: nat := 5

  /** The preview of an uploaded text: the first five non-blank lines, split by the scanner. */
  function PreviewOf(text: string): (r: seq<seq<string>>)
    ensures var lines := NonBlankLines(Text.Split(text, '\n'));
      && |r| == (if |lines| < PreviewRows then |lines| else PreviewRows)
      && forall j | 0 <= j < |r| :: r[j] == SplitLine(lines[j]) && |r[j]| >= 1
  {
    var lines := NonBlankLines(Text.Split(text, '\n'));
    forall j | 0 <= j < |lines|
      ensures |SplitLine(lines[j])| >= 1
    {
      FieldCount(lines[j]);
    }
    var parsed := ParsedLines(lines);
    parsed[..if |parsed| < PreviewRows then |parsed| else PreviewRows]
  }

  /** The `split`/`filter`/`map`/`slice` pipeline of `handleFileChange`, running the scanner per line. */
  method Preview(text: string) returns (preview: seq<seq<string>>)
    ensures preview == PreviewOf(text)
  {
    var lines := NonBlankLines(Text.Split(text, '\n'));
    var rows := ParseLines(lines);
    preview := rows[..if |rows| < PreviewRows then |rows| else PreviewRows];
  }

  /** The `map` step: the scanner run on each line, in order. */
  method ParseLines(lines: seq<string>) returns (rows: seq<seq<string>>)
    ensures rows == ParsedLines(lines)
  {
    rows := [];
    for i := 0 to |lines|
      invariant |rows| == i
      invariant forall j | 0 <= j < i :: rows[j] == SplitLine(lines[j])
    {
      var fields := SplitQuoted(lines[i]);
      rows := rows + [fields];
    }
  }

  // ---------------------------------------------------------------------
  // The form
  // ---------------------------------------------------------------------

  datatype SelectedFile = SelectedFile(name: string, text: string)

  /** The JSON answer of POST /api/import-test-results as the form reads it. */
  datatype Reply =
    | Ok(results: nat, errors: Option<nat>)    // the sizes of the results and errors lists
    | NotOk(error: Option<string>)              // `result.error`

  datatype Toast =
    | MissingInput                                            // "ファイル、テスト名、日付をすべて指定してください"
    | Summary(succeeded: nat, failed: nat, destructive: bool) // "<n>件成功、<m>件エラー"
    | ImportFailed(message: string)

  const DefaultFailure: string := "インポートに失敗しました"

  /** The toast shown for a refused upload: the server's message, or the default when it is missing or empty. */
  function FailureMessage(error: Option<string>): (m: string)
    ensures m != ""
    ensures error.Some? && error.value != "" ==> m == error.value
  {
    match error
    case Some(e) => if e != "" then e else DefaultFailure
    case None => DefaultFailure
  }

  /** The component state and the three inputs it reads from the page. */
  class UploadForm {
    var file: Option<SelectedFile>
    var testName: string
    var testDate: string
    var fileName: string
    var preview: seq<seq<string>>
    var isImporting: bool
    var success: bool
    var importResults: Option<Reply>

    constructor()
      ensures file == None && testName == "" && testDate == "" && fileName == ""
      ensures preview == [] && !isImporting && !success && importResults == None
    {
      file := None;
      testName := "";
      testDate := "";
      fileName := "";
      preview := [];
      isImporting := false;
      success := false;
      importResults := None;
    }

    /**
     * `handleFileChange`: with a file chosen, its name is shown, and its
     * preview, or no preview when `file.text()` rejects (`readFails`).
     */
    method HandleFileChange(chosen: Option<SelectedFile>, readFails: bool)
      modifies this
      ensures file == chosen
      ensures chosen.None? ==> fileName == old(fileName) && preview == old(preview)
      ensures chosen.Some? ==> fileName == chosen.value.name
      ensures chosen.Some? && !readFails ==> preview == PreviewOf(chosen.value.text)
      ensures chosen.Some? && readFails ==> preview == []
      ensures testName == old(testName) && testDate == old(testDate)
      ensures isImporting == old(isImporting) && success == old(success) && importResults == old(importResults)
    {
      file := chosen;
      if chosen.None? {
        return;
      }
      fileName := chosen.value.name;
      if readFails {
        preview := [];
      } else {
        var rows := Preview(chosen.value.text);
        preview := rows;
      }
    }

    /**
     * `handleImport`: refused without a file, a test name and a date; otherwise
     * sent, and on an OK answer the form is cleared only when no row failed.
     */
    method HandleImport(reply: Reply) returns (toast: Toast, sent: bool)
      modifies this
      ensures sent <==> old(file).Some? && old(testName) != "" && old(testDate) != ""
      ensures !sent ==> (
        && toast == MissingInput
        && file == old(file) && testName == old(testName) && testDate == old(testDate)
        && fileName == old(fileName) && preview == old(preview)
        && isImporting == old(isImporting) && success == old(success) && importResults == old(importResults))
      ensures sent ==> !isImporting
      ensures sent && reply.NotOk? ==> (
        && toast == ImportFailed(FailureMessage(reply.error))
        && !success && importResults == None
        && file == old(file) && testName == old(testName) && testDate == old(testDate)
        && fileName == old(fileName) && preview == old(preview))
      ensures sent && reply.Ok? ==>
        var failed := reply.errors.GetOr(0);
        && toast == Summary(reply.results, failed, failed > 0)
        && success && importResults == Some(reply)
        && (failed == 0 ==> file == None && testName == "" && testDate == "" && preview == [] && fileName == "")
        && (failed > 0 ==> file == old(file) && testName == old(testName) && testDate == old(testDate)
                           && preview == old(preview) && fileName == old(fileName))
    {
      if file.None? || testName == "" || testDate == "" {
        return MissingInput, false;
      }
      sent := true;
      isImporting := true;
      success := false;
      importResults := None;
      match reply {
        case Ok(results, errors) =>
          success := true;
          importResults := Some(reply);
          var failed := if errors.Some? then errors.value else 0;
          toast := Summary(results, failed, failed > 0);
          if failed == 0 {
            file := None;
            testName := "";
            testDate := "";
            preview := [];
            fileName := "";
          }
        case NotOk(error) =>
          toast := ImportFailed(FailureMessage(error));
      }
      isImporting := false;
    }
  }
}
