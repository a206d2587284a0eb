/**
 * The CSV inspection page of app/csv-inspector/page.tsx: a hex dump of the
 * first 100 bytes of the fetched file and up to nine records read from its
 * first ten lines, each a map from trimmed header to trimmed value.
 */
module CsvInspector {
  import opened Wrappers
  import Text
  import Numbers

  type Byte = x: nat | x < 256

  /** The lowercase hexadecimal digit of a value below 16. */
  function HexDigit(d: nat): (c: char)
    requires d < 16
  {
    if d < 10 then Numbers.DigitChar(d) else ('a' as int + (d - 10)) as char
  }

  /** The value of a lowercase hexadecimal digit. */
  function HexValue(c: char): nat {
    if '0' <= c <= '9' then c as int - '0' as int
    else if 'a' <= c <= 'f' then c as int - 'a' as int + 10
    else 0
  }

  /** A byte as two lowercase hex digits, high digit first, padded with "0". */
  function HexByte(b: Byte): (s: string)
    ensures |s| == 2 && ' ' !in s
  {
    [HexDigit(b / 16), HexDigit(b % 16)]
  }

  /** Two hex digits read back: the inverse of `HexByte`. */
  function ByteOfHex(s: string): nat
    requires |s| == 2
  {
    16 * HexValue(s[0]) + HexValue(s[1])
  }

  lemma HexDigitValue(d: nat)
    requires d < 16
    ensures HexValue(HexDigit(d)) == d
  {
  }

  /** Reading the two digits back gives the byte: no two bytes print alike. */
  lemma ByteOfHexByte(b: Byte)
    ensures ByteOfHex(HexByte(b)) == b
  {
    HexDigitValue(b / 16);
    HexDigitValue(b % 16);
  }

  /** The most bytes the dump shows. */
  const DumpBytes: nat := 100

  function DumpedCount(bytes: seq<Byte>): nat {
    if |bytes| < DumpBytes then |bytes| else DumpBytes
  }

  /** The first 100 bytes in hexadecimal, separated by spaces. */
  function HexDump(bytes: seq<Byte>): string {
    var shown := bytes[..DumpedCount(bytes)];
    Text.Join(seq(|shown|, j requires 0 <= j < |shown| => HexByte(shown[j])), ' ')
  }

  /** Joining two-character pieces with a space puts piece `j` at `3 * j`, a space after every piece but the last. */
  lemma {:induction false} JoinPairs(parts: seq<string>)
    requires forall j | 0 <= j < |parts| :: |parts[j]| == 2
    ensures |Text.Join(parts, ' ')| == if parts == [] then 0 else 3 * |parts| - 1
    ensures forall j | 0 <= j < |parts| :: Text.Join(parts, ' ')[3 * j..3 * j + 2] == parts[j]
    ensures forall j | 0 <= j < |parts| - 1 :: Text.Join(parts, ' ')[3 * j + 2] == ' '
  {
    if |parts| > 1 {
      var rest := parts[1..];
      JoinPairs(rest);
      var s := Text.Join(parts, ' ');
      assert s == parts[0] + [' '] + Text.Join(rest, ' ');
      forall j | 0 <= j < |parts|
        ensures s[3 * j..3 * j + 2] == parts[j]
      {
        if j > 0 {
          assert s[3 * j..3 * j + 2] == Text.Join(rest, ' ')[3 * (j - 1)..3 * (j - 1) + 2];
          assert parts[j] == rest[j - 1];
        }
      }
      forall j | 0 <= j < |parts| - 1
        ensures s[3 * j + 2] == ' '
      {
        if j > 0 {
          assert s[3 * j + 2] == Text.Join(rest, ' ')[3 * (j - 1) + 2];
        }
      }
    }
  }

  /**
   * The dump shows `min(|bytes|, 100)` bytes in order: byte `j` as the two
   * characters at `3 * j`, which read back to it, and single spaces between.
   */
  lemma HexDumpLayout(bytes: seq<Byte>)
    ensures var k := DumpedCount(bytes);
      && k <= DumpBytes
      && |HexDump(bytes)| == (if k == 0 then 0 else 3 * k - 1)
      && (forall j | 0 <= j < k :: ByteOfHex(HexDump(bytes)[3 * j..3 * j + 2]) == bytes[j])
      && (forall j | 0 <= j < k - 1 :: HexDump(bytes)[3 * j + 2] == ' ')
  {
    var shown := bytes[..DumpedCount(bytes)];
    var parts := seq(|shown|, j requires 0 <= j < |shown| => HexByte(shown[j]));
    JoinPairs(parts);
    assert HexDump(bytes) == Text.Join(parts, ' ');
    forall j | 0 <= j < DumpedCount(bytes)
      ensures ByteOfHex(HexDump(bytes)[3 * j..3 * j + 2]) == bytes[j]
    {
      assert HexDump(bytes)[3 * j..3 * j + 2] == parts[j] == HexByte(bytes[j]);
      ByteOfHexByte(bytes[j]);
    }
  }

  // ---------------------------------------------------------------------
  // Records from the first ten lines
  // ---------------------------------------------------------------------

  /** The cell at `index`, trimmed; "" when the line has no such cell. */
  function ValueAt(values: seq<string>, index: nat): string {
    if index < |values| then Text.Trim(values[index]) else ""
  }

  /** The keys the record assigns, in header order: each header trimmed. */
  function HeaderKeys(headers: seq<string>): (keys: seq<string>)
    ensures |keys| == |headers|
  {
    seq(|headers|, i requires 0 <= i < |headers| => Text.Trim(headers[i]))
  }

  /** The values assigned to them, column by column. */
  function ColumnValues(headers: seq<string>, values: seq<string>): (vals: seq<string>)
    ensures |vals| == |headers|
  {
    seq(|headers|, i requires 0 <= i < |headers| => ValueAt(values, i))
  }

  /** The map after the first `n` assignments `m[keys[i]] = vals[i]`. */
  function Assignments(keys: seq<string>, vals: seq<string>, n: nat): map<string, string>
    requires n <= |keys| == |vals|
  {
    if n == 0 then map[] else Assignments(keys, vals, n - 1)[keys[n - 1] := vals[n - 1]]
  }

  ghost predicate Assigned(keys: seq<string>, n: nat, key: string)
    requires n <= |keys|
  {
    exists i | 0 <= i < n :: keys[i] == key
  }

  ghost predicate LastAssignment(keys: seq<string>, n: nat, i: nat)
    requires n <= |keys|
  {
    i < n && forall j | i < j < n :: keys[j] != keys[i]
  }

  /** The assigned keys are exactly the keys written. */
  lemma {:induction false} AssignmentsKeys(keys: seq<string>, vals: seq<string>, n: nat)
    requires n <= |keys| == |vals|
    ensures forall key :: key in Assignments(keys, vals, n) <==> Assigned(keys, n, key)
  {
    if n > 0 {
      AssignmentsKeys(keys, vals, n - 1);
      forall key
        ensures key in Assignments(keys, vals, n) <==> Assigned(keys, n, key)
      {
        if Assigned(keys, n - 1, key) {
          var i :| 0 <= i < n - 1 && keys[i] == key;
          assert Assigned(keys, n, key);
        }
        if key == keys[n - 1] {
          assert Assigned(keys, n, key);
        }
      }
    }
  }

  /** A key holds the value of its last assignment. */
  lemma {:induction false} AssignmentsLastWins(keys: seq<string>, vals: seq<string>, n: nat)
    requires n <= |keys| == |vals|
    ensures forall i: nat | LastAssignment(keys, n, i) ::
      keys[i] in Assignments(keys, vals, n) && Assignments(keys, vals, n)[keys[i]] == vals[i]
  {
    if n > 0 {
      AssignmentsLastWins(keys, vals, n - 1);
      forall i: nat | LastAssignment(keys, n, i)
        ensures keys[i] in Assignments(keys, vals, n) && Assignments(keys, vals, n)[keys[i]] == vals[i]
      {
        if i < n - 1 {
          assert LastAssignment(keys, n - 1, i);
        }
      }
    }
  }

  /** `row` after the `forEach`: each trimmed header assigned its column's value in turn. */
  function RecordOf(headers: seq<string>, values: seq<string>): map<string, string> {
    Assignments(HeaderKeys(headers), ColumnValues(headers, values), |headers|)
  }

  /** A record has exactly one key per trimmed header. */
  lemma RecordKeys(headers: seq<string>, values: seq<string>)
    ensures forall key :: key in RecordOf(headers, values) <==> exists i | 0 <= i < |headers| :: Text.Trim(headers[i]) == key
  {
    var keys := HeaderKeys(headers);
    AssignmentsKeys(keys, ColumnValues(headers, values), |headers|);
    forall key
      ensures Assigned(keys, |headers|, key) <==> exists i | 0 <= i < |headers| :: Text.Trim(headers[i]) == key
    {
      if exists i | 0 <= i < |headers| :: Text.Trim(headers[i]) == key {
        var i :| 0 <= i < |headers| && Text.Trim(headers[i]) == key;
        assert keys[i] == key;
      }
    }
  }

  /**
   * A header's value is the trimmed value in its column, "" past the end of
   * the line; when two headers trim alike the later column wins.
   */
  lemma RecordValues(headers: seq<string>, values: seq<string>)
    ensures forall i: nat | LastAssignment(HeaderKeys(headers), |headers|, i) ::
      && Text.Trim(headers[i]) in RecordOf(headers, values)
      && RecordOf(headers, values)[Text.Trim(headers[i])] == (if i < |values| then Text.Trim(values[i]) else "")
  {
    var keys := HeaderKeys(headers);
    var vals := ColumnValues(headers, values);
    AssignmentsLastWins(keys, vals, |headers|);
    forall i: nat | LastAssignment(keys, |headers|, i)
      ensures keys[i] == Text.Trim(headers[i]) && vals[i] == (if i < |values| then Text.Trim(values[i]) else "")
    {
    }
  }

  /** The loop reads lines 1 up to, not including, `min(lines.length, 10)`. */
  const InspectedLines: nat := 10

  function ScanEnd(lines: seq<string>): nat {
    if |lines| < InspectedLines then |lines| else InspectedLines
  }

  /** The records of the non-blank lines among 1..end-1. */
  function RecordsUpTo(lines: seq<string>, end: nat): seq<map<string, string>>
    requires 1 <= |lines| && end <= |lines|
  {
    if end <= 1 then []
    else
      var earlier := RecordsUpTo(lines, end - 1);
      if Text.IsBlank(lines[end - 1]) then earlier
      else earlier + [RecordOf(Text.Split(lines[0], ','), Text.Split(lines[end - 1], ','))]
  }

  function Records(lines: seq<string>): seq<map<string, string>>
    requires |lines| >= 1
  {
    RecordsUpTo(lines, ScanEnd(lines))
  }

  /** One record per non-blank line read, so never more than nine. */
  lemma {:induction false} RecordsCount(lines: seq<string>, end: nat)
    requires 1 <= |lines| && end <= |lines|
    ensures |RecordsUpTo(lines, end)| <= (if end == 0 then 0 else end - 1)
    ensures (forall i | 1 <= i < end :: !Text.IsBlank(lines[i])) ==> |RecordsUpTo(lines, end)| == (if end == 0 then 0 else end - 1)
  {
    if end > 1 {
      RecordsCount(lines, end - 1);
    }
  }

  lemma RecordsAtMostNine(lines: seq<string>)
    requires |lines| >= 1
    ensures |Records(lines)| <= InspectedLines - 1 && |Records(lines)| <= |lines| - 1
  {
    RecordsCount(lines, ScanEnd(lines));
  }

  /** The pass over the headers, assigning each cell under its trimmed header. */
  method BuildRecord(headers: seq<string>, values: seq<string>) returns (row: map<string, string>)
    ensures row == RecordOf(headers, values)
  {
    row := map[];
    for index := 0 to |headers|
      invariant row == Assignments(HeaderKeys(headers), ColumnValues(headers, values), index)
    {
      row := row[Text.Trim(headers[index]) := ValueAt(values, index)];
    }
  }

  /** The parse loop of `fetchCsv`. */
  method ParseRecords(text: string) returns (data: seq<map<string, string>>)
    ensures data == Records(Text.Split(text, '\n'))
  {
    var lines := Text.Split(text, '\n');
    var headers := Text.Split(lines[0], ',');
    data := [];
    for i := 1 to ScanEnd(lines)
      invariant data == RecordsUpTo(lines, i)
    {
      RecordsUpToNext(lines, headers, i);
      if !Text.IsBlank(lines[i]) {
        var values := Text.Split(lines[i], ',');
        var row := BuildRecord(headers, values);
        data := data + [row];
      }
    }
  }

  /** One more line read: its record is appended unless it is blank. */
  lemma RecordsUpToNext(lines: seq<string>, headers: seq<string>, i: nat)
    requires 1 <= i < |lines| && headers == Text.Split(lines[0], ',')
    ensures RecordsUpTo(lines, i + 1)
         == RecordsUpTo(lines, i) + (if Text.IsBlank(lines[i]) then [] else [RecordOf(headers, Text.Split(lines[i], ','))])
  {
    if Text.IsBlank(lines[i]) {
      assert RecordsUpTo(lines, i) + [] == RecordsUpTo(lines, i);
    }
  }

  // ---------------------------------------------------------------------
  // The page state
  // ---------------------------------------------------------------------

  /** What the fetch of the CSV URL yields. */
  datatype Fetched = NotOk(status: nat) | Body(text: string, bytes: seq<Byte>)

  /**
   * A response body as the Fetch standard treats it: it can be consumed
   * once, and any later `text()` or `arrayBuffer()` rejects with a TypeError.
   */
  datatype BodyStream = BodyStream(text: string, bytes: seq<Byte>, used: bool)

  /** `response.text()`: the text, or `None` (a rejection) when the body was consumed before. */
  function ReadText(b: BodyStream): (r: (Option<string>, BodyStream))
    ensures r.1.used && r.1.text == b.text && r.1.bytes == b.bytes
    ensures r.0.Some? <==> !b.used
    ensures r.0.Some? ==> r.0.value == b.text
  {
    if b.used then (None, b) else (Some(b.text), b.(used := true))
  }

  /** `response.arrayBuffer()`: the bytes, or `None` (a rejection) when the body was consumed before. */
  function ReadBytes(b: BodyStream): (r: (Option<seq<Byte>>, BodyStream))
    ensures r.1.used && r.1.text == b.text && r.1.bytes == b.bytes
    ensures r.0.Some? <==> !b.used
    ensures r.0.Some? ==> r.0.value == b.bytes
  {
    if b.used then (None, b) else (Some(b.bytes), b.(used := true))
  }

  /** Whichever read comes first succeeds, and the other one then rejects. */
  lemma SecondReadRejects(text: string, bytes: seq<Byte>)
    ensures var (t, afterText) := ReadText(BodyStream(text, bytes, false));
      t == Some(text) && ReadBytes(afterText).0 == None
    ensures var (b, afterBytes) := ReadBytes(BodyStream(text, bytes, false));
      b == Some(bytes) && ReadText(afterBytes).0 == None
  {
  }

  class InspectorPage {
    var loading: bool
    var error: Option<string>
    var csvContent: Option<string>
    var parsedData: seq<map<string, string>>
    var rawBytes: seq<string>

    constructor()
      ensures !loading && error == None && csvContent == None && parsedData == [] && rawBytes == []
    {
      loading := false;
      error := None;
      csvContent := None;
      parsedData := [];
      rawBytes := [];
    }

    /**
     * `fetchCsv` as written: `response.text()` consumes the body, so the
     * following `response.arrayBuffer()` rejects and the `catch` shows the
     * TypeError's message (`typeError`, worded by the platform). The text is
     * kept, but no hex dump and no records are ever shown.
     */
    method FetchCsvAsWritten(fetched: Fetched, typeError: string)
      modifies this
      ensures !loading
      ensures fetched.NotOk? ==>
        && error == Some("CSVファイルの取得に失敗しました: " + Numbers.NatToDecimal(fetched.status))
        && csvContent == old(csvContent) && parsedData == old(parsedData) && rawBytes == old(rawBytes)
      ensures fetched.Body? ==>
        && error == Some(typeError) && csvContent == Some(fetched.text)
        && parsedData == old(parsedData) && rawBytes == old(rawBytes)
    {
      loading := true;
      error := None;
      match fetched {
        case NotOk(status) =>
          error := Some("CSVファイルの取得に失敗しました: " + Numbers.NatToDecimal(status));
        case Body(text, bytes) =>
          var (textRead, afterText) := ReadText(BodyStream(text, bytes, false));
          csvContent := textRead;
          var (bytesRead, _) := ReadBytes(afterText);
          assert bytesRead == None;
          error := Some(typeError);
      }
      loading := false;
    }

    /**
     * `fetchCsv` with the body read once per copy (as `response.clone()`
     * allows): a response that is not OK sets the error and nothing else; a
     * body fills the page.
     */
    method FetchCsv(fetched: Fetched)
      modifies this
      ensures !loading
      ensures fetched.NotOk? ==>
        && error == Some("CSVファイルの取得に失敗しました: " + Numbers.NatToDecimal(fetched.status))
        && csvContent == old(csvContent) && parsedData == old(parsedData) && rawBytes == old(rawBytes)
      ensures fetched.Body? ==>
        && error == None && csvContent == Some(fetched.text)
        && rawBytes == [HexDump(fetched.bytes)]
        && parsedData == Records(Text.Split(fetched.text, '\n'))
    {
      loading := true;
      error := None;
      match fetched {
        case NotOk(status) =>
          error := Some("CSVファイルの取得に失敗しました: " + Numbers.NatToDecimal(status));
        case Body(text, bytes) =>
          csvContent := Some(text);
          rawBytes := [HexDump(bytes)];
          var data := ParseRecords(text);
          parsedData := data;
      }
      loading := false;
    }
  }
}
