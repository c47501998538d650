/** Appending datapoint rows to an experiment CSV (append_experiment_csv and
    existing_csv_width_or_validate in src/output.rs). `schema` stands for EXPERIMENT_CSV_HEADER;
    a full row has one cell for each of its columns. */
module CsvAppend {
  import opened CsvText
  import opened Wrappers

  type Row = seq<string>

  datatype AppendError = IncompatibleHeader

  /** Column names hold no separator, quote or line break. */
  ghost predicate IsSchema(schema: Row) {
    schema != [] && forall i :: 0 <= i < |schema| ==> Plain(schema[i])
  }

  // ------------------------------------------------------------ the header check

  /** `BufRead::read_line`: up to and with the first line feed. */
  function FirstLine(text: string): string {
    if text == "" then "" else if text[0] == '\n' then "\n" else [text[0]] + FirstLine(text[1..])
  }

  function TrimLineEnd(line: string): string
    decreases |line|
  {
    if line != "" && line[|line| - 1] in {'\r', '\n'} then TrimLineEnd(line[..|line| - 1]) else line
  }

  /** `str::split(',')`, which gives at least one piece. */
  function Split(line: string): (pieces: seq<string>)
    ensures pieces != []
  {
    if line == "" then [""]
    else
      var rest := Split(line[1..]);
      if line[0] == ',' then [""] + rest else [[line[0]] + rest[0]] + rest[1..]
  }

  function ExistingWidth(schema: Row, content: Option<string>): Result<Option<nat>, AppendError> {
    if content.None? || content.value == "" then Ok(None)
    else
      var fields := Split(TrimLineEnd(FirstLine(content.value)));
      if fields <= schema then Ok(Some(|fields|)) else Err(IncompatibleHeader)
  }

  // ------------------------------------------------------------ the append

  function Clipped(row: Row, width: nat): Row { if width <= |row| then row[..width] else row }

  function ClippedRows(rows: seq<Row>, width: nat): (r: seq<Row>)
    ensures |r| == |rows|
  {
    if rows == [] then [] else [Clipped(rows[0], width)] + ClippedRows(rows[1..], width)
  }

  function Text(content: Option<string>): string { if content.None? then "" else content.value }

  /** The new content of the file; an error leaves it as it is. */
  function Appended(schema: Row, content: Option<string>, rows: seq<Row>): Result<Option<string>, AppendError> {
    if rows == [] then Ok(content)
    else
      match ExistingWidth(schema, content)
      case Err(error) => Err(error)
      case Ok(None) => Ok(Some(Text(content) + CsvRecord(schema) + CsvRecords(ClippedRows(rows, |schema|))))
      case Ok(Some(width)) => Ok(Some(Text(content) + CsvRecords(ClippedRows(rows, width))))
  }

  class CsvFile {
    var content: Option<string>

    method AppendExperimentCsv(schema: Row, rows: seq<Row>) returns (r: Result<nat, AppendError>)
      modifies this
      ensures var after := Appended(schema, old(content), rows);
              if after.Ok? then r == Ok(|rows|) && content == after.value
              else r == Err(after.error) && content == old(content)
      ensures rows == [] ==> r == Ok(0) && content == old(content)
    {
      hide CsvRecord, CsvRecords, ClippedRows, ExistingWidth, Clipped;
      if rows == [] {
        NoRows(0);
        return Ok(0);
      }
      var existing := ExistingWidth(schema, content);
      if existing.Err? {
        return Err(existing.error);
      }
      var writeHeader := existing.value.None?;
      var rowWidth := if writeHeader then |schema| else existing.value.value;
      var text := Text(content);
      if writeHeader {
        text := WriteCsvRecord(text, schema);
      }
      ghost var start := text;
      NoRows(rowWidth);
      for i := 0 to |rows|
        invariant text == start + CsvRecords(ClippedRows(rows[..i], rowWidth))
      {
        OneMoreRow(rows, i, rowWidth);
        text := WriteCsvRecord(text, Clipped(rows[i], rowWidth));
      }
      assert rows[..|rows|] == rows;
      content := Some(text);
      r := Ok(|rows|);
    }
  }

  lemma NoRows(width: nat)
    ensures CsvRecords(ClippedRows([], width)) == ""
  {}

  lemma {:induction false} ClipsApart(a: seq<Row>, b: seq<Row>, width: nat)
    ensures ClippedRows(a + b, width) == ClippedRows(a, width) + ClippedRows(b, width)
    decreases |a|
  {
    hide Clipped;
    if a == [] {
      assert a + b == b;
      assert [] + ClippedRows(b, width) == ClippedRows(b, width);
    } else {
      ClipsApart(a[1..], b, width);
      assert (a + b)[0] == a[0] && (a + b)[1..] == a[1..] + b;
      RegroupRows([Clipped(a[0], width)], ClippedRows(a[1..], width), ClippedRows(b, width));
    }
  }

  lemma RegroupRows(x: seq<Row>, y: seq<Row>, z: seq<Row>)
    ensures x + (y + z) == (x + y) + z
  {}

  lemma {:induction false} RecordsApart(a: seq<Row>, b: seq<Row>)
    ensures CsvRecords(a + b) == CsvRecords(a) + CsvRecords(b)
  {
    hide CsvRecord;
    if a == [] {
      assert a + b == b;
      assert CsvRecords(a) + CsvRecords(b) == CsvRecords(b);
    } else {
      RecordsApart(a[1..], b);
      assert (a + b)[0] == a[0] && (a + b)[1..] == a[1..] + b;
      Regroup(CsvRecord(a[0]), CsvRecords(a[1..]), CsvRecords(b));
    }
  }

  lemma Regroup(x: string, y: string, z: string)
    ensures x + (y + z) == (x + y) + z
  {}

  lemma OneMoreRow(rows: seq<Row>, i: nat, width: nat)
    requires i < |rows|
    ensures CsvRecords(ClippedRows(rows[..i + 1], width))
         == CsvRecords(ClippedRows(rows[..i], width)) + CsvRecord(Clipped(rows[i], width))
  {
    hide CsvRecord;
    assert rows[..i + 1] == rows[..i] + [rows[i]];
    ClipsApart(rows[..i], [rows[i]], width);
    var last := [Clipped(rows[i], width)];
    assert ClippedRows([rows[i]], width) == last;
    RecordsApart(ClippedRows(rows[..i], width), last);
    assert CsvRecords(last) == CsvRecord(last[0]) + "";
  }

  // ------------------------------------------------------------ the header is what it was

  lemma {:induction false} FirstLineStays(text: string, more: string)
    requires '\n' in text
    ensures FirstLine(text + more) == FirstLine(text)
  {
    if text[0] != '\n' {
      assert text[1..] + more == (text + more)[1..];
      FirstLineStays(text[1..], more);
    }
  }

  lemma {:induction false} PlainLine(line: string, more: string)
    requires '\n' !in line
    ensures FirstLine(line + "\n" + more) == line + "\n"
  {
    var text := line + "\n" + more;
    if line != "" {
      assert text[1..] == line[1..] + "\n" + more;
      PlainLine(line[1..], more);
    }
  }

  lemma RestOf(piece: string, c: char)
    requires piece != "" && c !in piece
    ensures piece[0] != c && c !in piece[1..]
  {
    assert piece[0] in piece;
    assert forall d :: d in piece[1..] ==> d in piece;
  }

  lemma PieceGrows(piece: string, others: seq<string>)
    requires piece != ""
    ensures var rest := [piece[1..]] + others;
            [[piece[0]] + rest[0]] + rest[1..] == [piece] + others
  {
    assert [piece[0]] + piece[1..] == piece;
  }

  lemma {:induction false} SplitAtComma(piece: string, rest: string)
    requires ',' !in piece
    ensures Split(piece + "," + rest) == [piece] + Split(rest)
  {
    var line := piece + "," + rest;
    if piece == "" {
      assert line[1..] == rest;
    } else {
      assert line[1..] == piece[1..] + "," + rest;
      RestOf(piece, ',');
      SplitAtComma(piece[1..], rest);
      PieceGrows(piece, Split(rest));
    }
  }

  lemma {:induction false} SplitPlain(piece: string)
    requires ',' !in piece
    ensures Split(piece) == [piece]
  {
    if piece != "" {
      RestOf(piece, ',');
      SplitPlain(piece[1..]);
      PieceGrows(piece, []);
    }
  }

  /** The schema's own line holds nothing but names and commas, and splits back into it. */
  lemma {:induction false} SplitJoined(fields: Row)
    requires IsSchema(fields)
    ensures Split(Joined(fields)) == fields
    ensures '\n' !in Joined(fields) && '\r' !in Joined(fields)
  {
    var first := fields[0];
    assert forall i :: 0 <= i < |first| ==> !IsSpecial(first[i]);
    if |fields| == 1 {
      SplitPlain(first);
    } else {
      SplitJoined(fields[1..]);
      SplitAtComma(first, Joined(fields[1..]));
    }
  }

  lemma {:induction false} JoinedSplit(line: string)
    requires IsSchema(Split(line))
    ensures Joined(Split(line)) == line
  {
    if line != "" {
      var pieces, rest := Split(line), Split(line[1..]);
      if line[0] == ',' {
        assert rest == pieces[1..];
        JoinedSplit(line[1..]);
      } else {
        assert rest[0] == pieces[0][1..] && rest[1..] == pieces[1..];
        assert Plain(rest[0]) by { assert forall i :: 0 <= i < |rest[0]| ==> rest[0][i] == pieces[0][i + 1]; }
        assert IsSchema(rest) by { assert forall i :: 0 < i < |rest| ==> rest[i] == pieces[i]; }
        JoinedSplit(line[1..]);
        assert Joined(pieces) == [line[0]] + Joined(rest);
      }
    }
  }

  // ------------------------------------------------------------ tables

  /** A file that the header check accepts at this width, and that a CSV reader takes for exactly
      these records, all of that width, the last one ended. */
  ghost predicate IsTable(schema: Row, text: string, width: nat, records: seq<Row>) {
    && ExistingWidth(schema, Some(text)) == Ok(Some(width))
    && Feed(START, text) == Reading(records, [], "", FieldStart)
    && forall i :: 0 <= i < |records| ==> |records[i]| == width
  }

  lemma {:induction false} ClippedShape(rows: seq<Row>, width: nat, i: nat)
    requires i < |rows|
    ensures ClippedRows(rows, width)[i] == Clipped(rows[i], width)
  {
    if i > 0 { ClippedShape(rows[1..], width, i - 1); }
  }

  lemma ClippedWidths(schema: Row, rows: seq<Row>, width: nat)
    requires width <= |schema| && forall i :: 0 <= i < |rows| ==> |rows[i]| == |schema|
    ensures forall i :: 0 <= i < |rows| ==> ClippedRows(rows, width)[i] == rows[i][..width]
  {
    forall i | 0 <= i < |rows| ensures ClippedRows(rows, width)[i] == rows[i][..width] { ClippedShape(rows, width, i); }
  }

  lemma WholeRows(schema: Row, rows: seq<Row>)
    requires forall i :: 0 <= i < |rows| ==> |rows[i]| == |schema|
    ensures ClippedRows(rows, |schema|) == rows
  {
    ClippedWidths(schema, rows, |schema|);
    assert forall i :: 0 <= i < |rows| ==> rows[i][..|rows[i]|] == rows[i];
  }

  /** A readable file that ends its last record ends with a line feed, so more text leaves its first
      line alone. */
  lemma HeaderStays(schema: Row, text: string, more: string)
    requires text != "" && AtRecordStart(Feed(START, text))
    ensures ExistingWidth(schema, Some(text + more)) == ExistingWidth(schema, Some(text))
  {
    hide Feed;
    EndsRecordIff(text);
    assert text[|text| - 1] in text;
    FirstLineStays(text, more);
  }

  lemma FreshHeader(schema: Row, more: string)
    requires IsSchema(schema)
    ensures ExistingWidth(schema, Some(CsvRecord(schema) + more)) == Ok(Some(|schema|))
  {
    hide Joined, Split;
    SplitJoined(schema);
    PlainLine(Joined(schema), more);
    var line := Joined(schema) + "\n";
    assert line[..|line| - 1] == Joined(schema);
    assert Joined(schema) != "" ==> Joined(schema)[|Joined(schema)| - 1] in Joined(schema);
    assert TrimLineEnd(line) == Joined(schema);
  }

  /** An append to a table extends it by the rows, each cut to the table's width. */
  lemma AppendExtendsTable(schema: Row, text: string, width: nat, records: seq<Row>, rows: seq<Row>)
    requires IsSchema(schema) && IsTable(schema, text, width, records)
    requires rows != [] && forall i :: 0 <= i < |rows| ==> |rows[i]| == |schema|
    ensures var after := Appended(schema, Some(text), rows);
            && after.Ok? && after.value.Some?
            && IsTable(schema, after.value.value, width, records + ClippedRows(rows, width))
            && forall i :: 0 <= i < |rows| ==> (records + ClippedRows(rows, width))[|records| + i] == rows[i][..width]
  {
    hide Feed, CsvRecords, ClippedRows, Split, TrimLineEnd, FirstLine;
    var clipped := ClippedRows(rows, width);
    ClippedWidths(schema, rows, width);
    HeaderStays(schema, text, CsvRecords(clipped));
    FeedAppend(START, text, CsvRecords(clipped));
    RecordsReadBackFrom(records, clipped);
  }

  /** An append to an absent or empty file makes a table of the schema and the whole rows. */
  lemma AppendMakesTable(schema: Row, content: Option<string>, rows: seq<Row>)
    requires IsSchema(schema) && Text(content) == ""
    requires rows != [] && forall i :: 0 <= i < |rows| ==> |rows[i]| == |schema|
    ensures var after := Appended(schema, content, rows);
            after.Ok? && after.value.Some? && IsTable(schema, after.value.value, |schema|, [schema] + rows)
  {
    hide Feed, CsvRecords, CsvRecord, ClippedRows, Split, TrimLineEnd, FirstLine;
    var clipped := ClippedRows(rows, |schema|);
    WholeRows(schema, rows);
    var head := CsvRecord(schema);
    assert "" + head + CsvRecords(rows) == head + CsvRecords(rows);
    FreshHeader(schema, CsvRecords(rows));
    FeedAppend(START, head, CsvRecords(rows));
    RecordReadsBackFrom([], schema);
    assert [] + [schema] == [schema];
    RecordsReadBackFrom([schema], rows);
  }

  // ------------------------------------------------------------ the check reads raw text

  function TrimCr(line: string): string
    decreases |line|
  {
    if line != "" && line[|line| - 1] == '\r' then TrimCr(line[..|line| - 1]) else line
  }

  lemma {:induction false} TrimCrShape(line: string)
    ensures TrimCr(line) <= line
    ensures forall i :: |TrimCr(line)| <= i < |line| ==> line[i] == '\r'
    decreases |line|
  {
    if line != "" && line[|line| - 1] == '\r' { TrimCrShape(line[..|line| - 1]); }
  }

  lemma {:induction false} TrimIsTrimCr(line: string)
    requires '\n' !in line
    ensures TrimLineEnd(line) == TrimCr(line)
    decreases |line|
  {
    if line != "" {
      assert line[|line| - 1] in line;
      assert forall c :: c in line[..|line| - 1] ==> c in line;
      TrimIsTrimCr(line[..|line| - 1]);
    }
  }

  lemma {:induction false} FirstLineShape(text: string) returns (line: string, rest: string)
    requires '\n' in text
    ensures text == line + "\n" + rest && FirstLine(text) == line + "\n" && '\n' !in line
  {
    if text[0] == '\n' {
      line, rest := "", text[1..];
    } else {
      line, rest := FirstLineShape(text[1..]);
      line := [text[0]] + line;
    }
  }

  lemma {:induction false} RecordsGrow(r: Reader, text: string)
    requires Feed(r, text).Reading?
    ensures r.Reading? && r.records <= Feed(r, text).records
    decreases |text|
  {
    if r.Broken? {
      BrokenStays(text);
    } else if text != "" {
      RecordsGrow(Read(r, text[0]), text[1..]);
    }
  }

  /** A line of schema names, with any carriage returns before its line feed: none or one end a
      record, more break the text. */
  lemma HeaderLineReads(line: string, names: Row)
    requires IsSchema(names) && TrimCr(line) == Joined(names)
    requires Feed(START, line + "\n").Reading?
    ensures Feed(START, line + "\n") == Reading([names], [], "", FieldStart)
  {
    hide Joined, Feed, TrimCr, Holds;
    TrimCrShape(line);
    var head, last := Joined(names), |names| - 1;
    var held := Feed(START, head);
    FieldsAreHeld([], [], names);
    assert [] + names[..last] == names[..last] && names[..last] + [names[last]] == names;
    assert [] + [names] == [names];
    HeldFieldEnds(held, [], names[..last], names[last]);
    if |line| == |head| {
      assert line == head;
      FeedAppend(START, head, "\n");
    } else if |line| == |head| + 1 {
      assert line == head + "\r";
      FeedAppend(START, head + "\r", "\n");
      FeedAppend(START, head, "\r");
      FeedOne(held.(mode := CrSeen), '\n');
    } else {
      var more := line[|head| + 2..] + "\n";
      assert line + "\n" == head + "\r" + "\r" + more;
      FeedAppend(START, head + "\r" + "\r", more);
      FeedAppend(START, head + "\r", "\r");
      FeedAppend(START, head, "\r");
      FeedOne(held.(mode := CrSeen), '\r');
      BrokenStays(more);
    }
  }

  /** The check splits the raw first line at its commas and never parses CSV, and that is enough: in
      a readable file it accepts, the first record is the schema up to the width it reports. */
  lemma CheckedHeaderIsFirstRecord(schema: Row, text: string, width: nat)
    requires IsSchema(schema) && text != "" && AtRecordStart(Feed(START, text))
    requires ExistingWidth(schema, Some(text)) == Ok(Some(width))
    ensures 0 < width <= |schema|
    ensures Feed(START, text).records != [] && Feed(START, text).records[0] == schema[..width]
  {
    hide Feed, Split, TrimLineEnd, FirstLine, Joined, TrimCr;
    EndsRecordIff(text);
    assert text[|text| - 1] in text;
    var line, rest := FirstLineShape(text);
    TrimEnd(line);
    var names := Split(TrimCr(line));
    assert names == schema[..width];
    JoinedSplit(TrimCr(line));
    FeedAppend(START, line + "\n", rest);
    RecordsGrow(Feed(START, line + "\n"), rest);
    HeaderLineReads(line, names);
  }

  lemma TrimEnd(line: string)
    requires '\n' !in line
    ensures TrimLineEnd(line + "\n") == TrimCr(line)
  {
    assert (line + "\n")[..|line|] == line;
    TrimIsTrimCr(line);
  }

  // ------------------------------------------------------------ series of appends

  function AppendAll(schema: Row, content: Option<string>, batches: seq<seq<Row>>)
    : Result<Option<string>, AppendError>
  {
    if batches == [] then Ok(content)
    else
      match AppendAll(schema, content, batches[..|batches| - 1])
      case Err(error) => Err(error)
      case Ok(before) => Appended(schema, before, batches[|batches| - 1])
  }

  function AllRows(batches: seq<seq<Row>>): seq<Row> {
    if batches == [] then [] else AllRows(batches[..|batches| - 1]) + batches[|batches| - 1]
  }

  ghost predicate FullRows(schema: Row, batches: seq<seq<Row>>) {
    forall b :: 0 <= b < |batches| ==> forall i :: 0 <= i < |batches[b]| ==> |batches[b][i]| == |schema|
  }

  /** Any series of appends to a table keeps it a table: every record at the header's width, the old
      records first, then each row of the series cut to that width, in order. */
  lemma {:induction false} SeriesExtendsTable(schema: Row, text: string, width: nat, records: seq<Row>,
                                              batches: seq<seq<Row>>)
    requires IsSchema(schema) && IsTable(schema, text, width, records) && FullRows(schema, batches)
    ensures var after := AppendAll(schema, Some(text), batches);
            && after.Ok? && after.value.Some?
            && IsTable(schema, after.value.value, width, records + ClippedRows(AllRows(batches), width))
    decreases |batches|
  {
    hide IsTable, Appended, ClippedRows;
    if batches == [] {
      NoClippedRows(width);
      assert records + [] == records;
    } else {
      var before, last := batches[..|batches| - 1], batches[|batches| - 1];
      SeriesExtendsTable(schema, text, width, records, before);
      var reached := AppendAll(schema, Some(text), before).value;
      var so := records + ClippedRows(AllRows(before), width);
      ClipsApart(AllRows(before), last, width);
      assert so + ClippedRows(last, width)
          == records + (ClippedRows(AllRows(before), width) + ClippedRows(last, width));
      if last != [] {
        AppendExtendsTable(schema, reached.value, width, so, last);
      } else {
        NoClippedRows(width);
        AppendNothing(schema, reached);
        assert so + [] == so;
      }
    }
  }

  lemma NoClippedRows(width: nat)
    ensures ClippedRows([], width) == []
  {}

  lemma AppendNothing(schema: Row, content: Option<string>)
    ensures Appended(schema, content, []) == Ok(content)
  {}

  /** A series that starts with no file, or an empty one, leaves nothing until its first row, and
      from then on the schema followed by every row. */
  lemma {:induction false} SeriesMakesTable(schema: Row, content: Option<string>, batches: seq<seq<Row>>)
    requires IsSchema(schema) && Text(content) == "" && FullRows(schema, batches)
    ensures var after := AppendAll(schema, content, batches);
            && after.Ok?
            && if AllRows(batches) == [] then after.value == content
               else after.value.Some? && IsTable(schema, after.value.value, |schema|, [schema] + AllRows(batches))
    decreases |batches|
  {
    hide IsTable, Appended, ClippedRows;
    if batches != [] {
      var before, last := batches[..|batches| - 1], batches[|batches| - 1];
      SeriesMakesTable(schema, content, before);
      var reached := AppendAll(schema, content, before).value;
      AppendNothing(schema, reached);
      if last != [] {
        assert AllRows(batches) != [];
        if AllRows(before) == [] {
          AppendMakesTable(schema, content, last);
          assert AllRows(before) + last == last;
        } else {
          AppendExtendsTable(schema, reached.value, |schema|, [schema] + AllRows(before), last);
          WholeRows(schema, last);
          assert [schema] + AllRows(before) + last == [schema] + (AllRows(before) + last);
        }
      } else {
        assert AllRows(before) + last == AllRows(before);
      }
    }
  }

  /** For a readable file the header check accepts, the new rows come out after the old records
      exactly when the file ends with a line feed. */
  lemma AppendIsCleanIff(schema: Row, text: string, width: nat, rows: seq<Row>)
    requires IsSchema(schema) && ReadCsv(text).Some? && ExistingWidth(schema, Some(text)) == Ok(Some(width))
    requires rows != [] && forall i :: 0 <= i < |rows| ==> |rows[i]| == |schema|
    ensures var after := Appended(schema, Some(text), rows);
            && after.Ok? && after.value.Some?
            && var clean := ReadCsv(after.value.value) == Some(ReadCsv(text).value + ClippedRows(rows, width));
            clean <==> text[|text| - 1] == '\n'
  {
    hide ReadCsv, CsvRecords, ClippedRows, Split, TrimLineEnd, FirstLine;
    WidthIsPositive(schema, text);
    ClippedWidths(schema, rows, width);
    AppendReadsBackIff(text, ClippedRows(rows, width));
  }

  lemma WidthIsPositive(schema: Row, text: string)
    requires ExistingWidth(schema, Some(text)).Ok? && text != ""
    ensures var width := ExistingWidth(schema, Some(text)).value;
            width.Some? && 0 < width.value <= |schema|
  {}

  lemma HeaderWithoutLineFeed(schema: Row, width: nat)
    requires IsSchema(schema) && 0 < width <= |schema| && Joined(schema[..width]) != ""
    ensures ExistingWidth(schema, Some(Joined(schema[..width]))) == Ok(Some(width))
  {
    hide Joined, Split;
    var text := Joined(schema[..width]);
    SplitJoined(schema[..width]);
    NoLineFeed(text);
    assert text[|text| - 1] in text;
    assert TrimLineEnd(text) == text;
  }

  lemma {:induction false} NoLineFeed(text: string)
    requires '\n' !in text
    ensures FirstLine(text) == text
  {
    if text != "" {
      RestOf(text, '\n');
      NoLineFeed(text[1..]);
    }
  }

  /** A file that holds the header, whole or cut to any width, without its last line feed. The append is
      accepted, and the first new row runs into the header: its first cell is joined to the last column
      name, and the record is almost twice as wide. If that cell needs quotes, no record can be read. */
  lemma UnendedFileRunsOn(schema: Row, width: nat, rows: seq<Row>)
    requires IsSchema(schema) && 0 < width <= |schema| && Joined(schema[..width]) != ""
    requires rows != [] && forall i :: 0 <= i < |rows| ==> |rows[i]| == |schema|
    ensures var text := Joined(schema[..width]);
            var after := Appended(schema, Some(text), rows);
            var clipped := ClippedRows(rows, width);
            var first := RunOn(schema[..width - 1], schema[width - 1], clipped[0]);
            && ReadCsv(text) == Some([schema[..width]])
            && after.Ok? && after.value.Some?
            && |first| == 2 * width - 1
            && ReadCsv(after.value.value) ==
               if Plain(rows[0][0]) || schema[width - 1] == "" then Some([first] + clipped[1..]) else None
  {
    hide Feed, CsvRecords, CsvRecord, ClippedRows, Joined, RunOn, Plain, ExistingWidth, Holds;
    var names, clipped := schema[..width], ClippedRows(rows, width);
    var text, last := Joined(names), schema[width - 1];
    HeaderWithoutLineFeed(schema, width);
    ClippedWidths(schema, rows, width);
    FieldsAreHeld([], [], names);
    assert Plain(names[width - 1]) by { assert Plain(schema[width - 1]); }
    assert [] + names[..width - 1] == schema[..width - 1];
    var held := PlainlyHeld([], schema[..width - 1], last);
    assert Feed(START, text) == held;
    HeaderIsOpen(schema, width);
    FirstOfMany(clipped);
    FeedAppend(START, text, CsvRecords(clipped));
    FeedAppend(held, CsvRecord(clipped[0]), CsvRecords(clipped[1..]));
    RecordRunsOn([], schema[..width - 1], last, clipped[0]);
    RunOnWidth(schema[..width - 1], last, clipped[0]);
    var first := RunOn(schema[..width - 1], last, clipped[0]);
    if Plain(rows[0][0]) || last == "" {
      assert [] + [first] == [first];
      RecordsReadBackFrom([first], clipped[1..]);
    } else {
      BrokenStays(CsvRecords(clipped[1..]));
    }
  }

  lemma FirstOfMany(records: seq<Row>)
    requires records != []
    ensures CsvRecords(records) == CsvRecord(records[0]) + CsvRecords(records[1..])
  {}

  lemma RunOnWidth(before: Row, field: string, fields: Row)
    requires fields != []
    ensures |RunOn(before, field, fields)| == |before| + |fields|
  {}

  /** An open header ends as the one record it is. */
  lemma HeaderIsOpen(schema: Row, width: nat)
    requires 0 < width <= |schema| && Joined(schema[..width]) != ""
    requires Feed(START, Joined(schema[..width])) == PlainlyHeld([], schema[..width - 1], schema[width - 1])
    ensures ReadCsv(Joined(schema[..width])) == Some([schema[..width]])
  {
    hide Joined, Feed;
    var r := PlainlyHeld([], schema[..width - 1], schema[width - 1]);
    assert schema[..width - 1] + [schema[width - 1]] == schema[..width];
    assert [] + [schema[..width]] == [schema[..width]];
    if AtRecordStart(r) { EmptyNameAlone(schema); }
  }

  lemma EmptyNameAlone(schema: Row)
    requires schema != [] && schema[0] == ""
    ensures Joined(schema[..1]) == ""
  {
    assert schema[..1] == [""];
    assert CsvEscape("") == "";
  }
}
