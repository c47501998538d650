/** CSV records as src/output.rs writes them (csv_escape, write_csv_record), and a reader that
    follows section 2 of RFC 4180 and also accepts a bare LF as line end. */
module CsvText {
  import opened Wrappers

  predicate IsSpecial(c: char) { c == ',' || c == '"' || c == '\n' || c == '\r' }

  predicate Plain(field: string) { forall i :: 0 <= i < |field| ==> !IsSpecial(field[i]) }

  function DoubleQuotes(field: string): string {
    if field == "" then ""
    else (if field[0] == '"' then "\"\"" else [field[0]]) + DoubleQuotes(field[1..])
  }

  function CsvEscape(field: string): string {
    if Plain(field) then field else "\"" + DoubleQuotes(field) + "\""
  }

  /** The fields joined by commas. */
  function Joined(fields: seq<string>): string {
    if fields == [] then ""
    else if |fields| == 1 then CsvEscape(fields[0])
    else CsvEscape(fields[0]) + "," + Joined(fields[1..])
  }

  function CsvRecord(fields: seq<string>): string { Joined(fields) + "\n" }

  function CsvRecords(records: seq<seq<string>>): string {
    if records == [] then "" else CsvRecord(records[0]) + CsvRecords(records[1..])
  }

  lemma {:induction false} JoinedOneMore(fields: seq<string>, field: string)
    requires fields != []
    ensures Joined(fields + [field]) == Joined(fields) + "," + CsvEscape(field)
  {
    hide CsvEscape;
    if |fields| > 1 {
      JoinedOneMore(fields[1..], field);
      assert (fields + [field])[1..] == fields[1..] + [field];
    } else {
      assert (fields + [field])[1..] == [field];
    }
  }

  /** The loop of write_csv_record: what it appends to the output. */
  method WriteCsvRecord(written: string, fields: seq<string>) returns (output: string)
    ensures output == written + CsvRecord(fields)
  {
    hide CsvEscape;
    output := written;
    var first := true;
    for i := 0 to |fields|
      invariant first <==> i == 0
      invariant output == written + Joined(fields[..i])
    {
      if first {
        first := false;
        assert fields[..1] == [fields[0]];
      } else {
        output := output + ",";
        JoinedOneMore(fields[..i], fields[i]);
        assert fields[..i + 1] == fields[..i] + [fields[i]];
      }
      output := output + CsvEscape(fields[i]);
    }
    assert fields[..|fields|] == fields;
    output := output + "\n";
  }

  // ------------------------------------------------------------ the reader

  datatype Mode = FieldStart | Unquoted | Quoted | QuoteInQuoted | CrSeen

  /** Complete records, complete fields of the present record, and the present field. */
  datatype Reader =
    | Reading(records: seq<seq<string>>, fields: seq<string>, field: string, mode: Mode)
    | Broken

  const START: Reader := Reading([], [], "", FieldStart)

  function EndField(r: Reader): Reader
    requires r.Reading?
  {
    Reading(r.records, r.fields + [r.field], "", FieldStart)
  }

  function EndRecord(r: Reader): Reader
    requires r.Reading?
  {
    Reading(r.records + [r.fields + [r.field]], [], "", FieldStart)
  }

  /** Between fields: after an unquoted field, or after the closing quote of a quoted one. */
  function Delimited(r: Reader, c: char, other: Reader): Reader
    requires r.Reading?
  {
    if c == ',' then EndField(r)
    else if c == '\n' then EndRecord(r)
    else if c == '\r' then r.(mode := CrSeen)
    else other
  }

  function Read(r: Reader, c: char): Reader {
    if r.Broken? then Broken
    else
      match r.mode
      case FieldStart =>
        if c == '"' then r.(mode := Quoted) else Delimited(r, c, r.(field := r.field + [c], mode := Unquoted))
      case Unquoted =>
        if c == '"' then Broken else Delimited(r, c, r.(field := r.field + [c]))
      case Quoted =>
        if c == '"' then r.(mode := QuoteInQuoted) else r.(field := r.field + [c])
      case QuoteInQuoted =>
        if c == '"' then r.(field := r.field + ['"'], mode := Quoted) else Delimited(r, c, Broken)
      case CrSeen =>
        if c == '\n' then EndRecord(r) else Broken
  }

  function Feed(r: Reader, text: string): Reader
    decreases |text|
  {
    if text == "" then r else Feed(Read(r, text[0]), text[1..])
  }

  predicate AtRecordStart(r: Reader) { r.Reading? && r.fields == [] && r.field == "" && r.mode == FieldStart }

  /** At the end of the text: the last record may lack its line end. */
  function Ended(r: Reader): Option<seq<seq<string>>> {
    if r.Broken? || r.mode == Quoted || r.mode == CrSeen then None
    else if AtRecordStart(r) then Some(r.records)
    else Some(EndRecord(r).records)
  }

  function ReadCsv(text: string): Option<seq<seq<string>>> { Ended(Feed(START, text)) }

  // ------------------------------------------------------------ written records read back

  lemma {:induction false} FeedAppend(r: Reader, a: string, b: string)
    ensures Feed(r, a + b) == Feed(Feed(r, a), b)
    decreases |a|
  {
    hide Read;
    if a == "" {
      assert a + b == b;
    } else {
      FeedAppend(Read(r, a[0]), a[1..], b);
      assert (a + b)[1..] == a[1..] + b;
    }
  }

  lemma FeedOne(r: Reader, c: char)
    ensures Feed(r, [c]) == Read(r, c)
  {
    hide Read;
    assert [c][1..] == "";
    assert Feed(Read(r, c), "") == Read(r, c);
  }

  lemma {:induction false} FeedPlain(r: Reader, field: string)
    requires r.Reading? && r.mode == Unquoted && Plain(field)
    ensures Feed(r, field) == r.(field := r.field + field)
    decreases |field|
  {
    if field != "" {
      FeedPlain(Read(r, field[0]), field[1..]);
      assert r.field + [field[0]] + field[1..] == r.field + field;
    } else {
      assert r.field + field == r.field;
    }
  }

  lemma {:induction false} FeedQuoted(r: Reader, field: string)
    requires r.Reading? && r.mode == Quoted
    ensures Feed(r, DoubleQuotes(field)) == r.(field := r.field + field)
    decreases |field|
  {
    if field != "" {
      var head := if field[0] == '"' then "\"\"" else [field[0]];
      var after := r.(field := r.field + [field[0]]);
      assert Feed(r, head) == after by {
        if field[0] == '"' {
          FeedAppend(r, "\"", "\"");
          assert "\"" + "\"" == "\"\"";
          FeedOne(r, '"');
          FeedOne(Read(r, '"'), '"');
        } else {
          FeedOne(r, field[0]);
        }
      }
      FeedAppend(r, head, DoubleQuotes(field[1..]));
      FeedQuoted(after, field[1..]);
      assert r.field + [field[0]] + field[1..] == r.field + field;
    } else {
      assert r.field + field == r.field;
    }
  }

  /** A reader that holds exactly the field it was fed and waits for what ends it. */
  predicate Holds(r: Reader, records: seq<seq<string>>, fields: seq<string>, field: string) {
    && r.Reading? && r.records == records && r.fields == fields && r.field == field
    && (r.mode == FieldStart || r.mode == Unquoted || r.mode == QuoteInQuoted)
  }

  /** The same, for a field that was written without quotes. */
  function PlainlyHeld(records: seq<seq<string>>, fields: seq<string>, field: string): Reader {
    Reading(records, fields, field, if field == "" then FieldStart else Unquoted)
  }

  lemma EscapedFieldIsHeld(records: seq<seq<string>>, fields: seq<string>, field: string)
    ensures Holds(Feed(Reading(records, fields, "", FieldStart), CsvEscape(field)), records, fields, field)
    ensures Plain(field) ==>
              Feed(Reading(records, fields, "", FieldStart), CsvEscape(field)) == PlainlyHeld(records, fields, field)
  {
    var start := Reading(records, fields, "", FieldStart);
    if Plain(field) {
      if field != "" {
        FeedPlain(Read(start, field[0]), field[1..]);
        assert "" + [field[0]] + field[1..] == field;
      }
    } else {
      hide DoubleQuotes, Plain;
      FeedAppend(start, "\"" + DoubleQuotes(field), "\"");
      FeedAppend(start, "\"", DoubleQuotes(field));
      FeedOne(start, '"');
      FeedQuoted(start.(mode := Quoted), field);
      assert "" + field == field;
      FeedOne(start.(field := field, mode := Quoted), '"');
    }
  }

  lemma HeldFieldEnds(r: Reader, records: seq<seq<string>>, fields: seq<string>, field: string)
    requires Holds(r, records, fields, field)
    ensures Feed(r, ",") == Reading(records, fields + [field], "", FieldStart)
    ensures Feed(r, "\n") == Reading(records + [fields + [field]], [], "", FieldStart)
    ensures r.Reading? && Feed(r, "\r") == r.(mode := CrSeen)
    ensures Read(r.(mode := CrSeen), '\n') == Reading(records + [fields + [field]], [], "", FieldStart)
    ensures Read(r.(mode := CrSeen), '\r') == Broken
  {
    FeedOne(r, ',');
    FeedOne(r, '\n');
    FeedOne(r, '\r');
  }

  lemma {:induction false} FieldsAreHeld(records: seq<seq<string>>, before: seq<string>, fields: seq<string>)
    requires fields != []
    ensures var held, last := Feed(Reading(records, before, "", FieldStart), Joined(fields)), |fields| - 1;
            && Holds(held, records, before + fields[..last], fields[last])
            && (Plain(fields[last]) ==> held == PlainlyHeld(records, before + fields[..last], fields[last]))
    decreases |fields|
  {
    hide CsvEscape, Feed, Holds, PlainlyHeld, Plain, Joined;
    var start, last := Reading(records, before, "", FieldStart), |fields| - 1;
    EscapedFieldIsHeld(records, before, fields[0]);
    JoinedParts(fields);
    if last == 0 {
      assert before + fields[..0] == before;
    } else {
      HeldFieldEnds(Feed(start, CsvEscape(fields[0])), records, before, fields[0]);
      FeedAppend(start, CsvEscape(fields[0]) + ",", Joined(fields[1..]));
      FeedAppend(start, CsvEscape(fields[0]), ",");
      FieldsAreHeld(records, before + [fields[0]], fields[1..]);
      OneFieldFurther(before, fields);
    }
  }

  lemma JoinedParts(fields: seq<string>)
    requires fields != []
    ensures Joined(fields) == if |fields| == 1 then CsvEscape(fields[0])
                              else CsvEscape(fields[0]) + "," + Joined(fields[1..])
  {
    hide CsvEscape;
  }

  lemma OneFieldFurther(before: seq<string>, fields: seq<string>)
    requires |fields| > 1
    ensures var last, rest := |fields| - 1, fields[1..];
            before + [fields[0]] + rest[..|rest| - 1] == before + fields[..last] && rest[|rest| - 1] == fields[last]
  {}

  lemma RestReadsBack(records: seq<seq<string>>, before: seq<string>, fields: seq<string>)
    requires fields != []
    ensures Feed(Reading(records, before, "", FieldStart), CsvRecord(fields))
         == Reading(records + [before + fields], [], "", FieldStart)
  {
    hide Joined, Feed, Holds, PlainlyHeld;
    var start, last := Reading(records, before, "", FieldStart), |fields| - 1;
    FieldsAreHeld(records, before, fields);
    assert before + fields[..last] + [fields[last]] == before + fields;
    HeldFieldEnds(Feed(start, Joined(fields)), records, before + fields[..last], fields[last]);
    FeedAppend(start, Joined(fields), "\n");
  }

  lemma RecordReadsBackFrom(records: seq<seq<string>>, fields: seq<string>)
    requires fields != []
    ensures Feed(Reading(records, [], "", FieldStart), CsvRecord(fields))
         == Reading(records + [fields], [], "", FieldStart)
  {
    RestReadsBack(records, [], fields);
    assert [] + fields == fields;
  }

  lemma {:induction false} RecordsReadBackFrom(before: seq<seq<string>>, records: seq<seq<string>>)
    requires forall i :: 0 <= i < |records| ==> records[i] != []
    ensures Feed(Reading(before, [], "", FieldStart), CsvRecords(records))
         == Reading(before + records, [], "", FieldStart)
    decreases |records|
  {
    hide CsvRecord, Feed;
    var start := Reading(before, [], "", FieldStart);
    if records == [] {
      NoRecordsNoText(start);
      assert before + records == before;
    } else {
      FeedAppend(start, CsvRecord(records[0]), CsvRecords(records[1..]));
      RecordReadsBackFrom(before, records[0]);
      RecordsReadBackFrom(before + [records[0]], records[1..]);
      assert before + [records[0]] + records[1..] == before + records;
    }
  }

  /** Any stream of records, none of them empty, reads back. */
  lemma RecordsReadBack(records: seq<seq<string>>)
    requires forall i :: 0 <= i < |records| ==> records[i] != []
    ensures ReadCsv(CsvRecords(records)) == Some(records)
  {
    hide CsvRecords, Feed;
    RecordsReadBackFrom([], records);
    assert [] + records == records;
  }

  /** One record reads back exactly when it has a field. With none it is written as an empty line,
      which is also how the record of one empty field is written. */
  lemma RecordReadsBackIff(fields: seq<string>)
    ensures ReadCsv(CsvRecord(fields)) == Some([fields]) <==> fields != []
    ensures CsvRecord([]) == CsvRecord([""])
  {
    hide Feed;
    assert CsvEscape("") == "";
    RecordReadsBackFrom([], [""]);
    if fields != [] {
      RecordReadsBackFrom([], fields);
      assert [] + [fields] == [fields];
    }
  }

  // ------------------------------------------------------------ a record written anywhere

  /** After `count` records, outside quotes; or past recovery. */
  predicate Outside(r: Reader, count: nat) { r.Broken? || (|r.records| == count && r.mode != Quoted) }

  lemma {:induction false} PlainStaysOutside(r: Reader, field: string, count: nat)
    requires Outside(r, count) && Plain(field)
    ensures Outside(Feed(r, field), count)
    decreases |field|
  {
    if field != "" { PlainStaysOutside(Read(r, field[0]), field[1..], count); }
  }

  lemma {:induction false} BrokenStays(text: string)
    ensures Feed(Broken, text) == Broken
  {
    if text != "" { BrokenStays(text[1..]); }
  }

  lemma EscapedStaysOutside(r: Reader, field: string, count: nat)
    requires Outside(r, count)
    ensures Outside(Feed(r, CsvEscape(field)), count)
  {
    if Plain(field) {
      PlainStaysOutside(r, field, count);
    } else {
      hide DoubleQuotes, Plain, Feed;
      FeedAppend(r, "\"" + DoubleQuotes(field), "\"");
      FeedAppend(r, "\"", DoubleQuotes(field));
      FeedOne(r, '"');
      var entered := Read(r, '"');
      if entered.Broken? {
        BrokenStays(DoubleQuotes(field));
        BrokenStays("\"");
      } else {
        FeedQuoted(entered, field);
        FeedOne(entered.(field := entered.field + field), '"');
      }
    }
  }

  lemma {:induction false} JoinedStaysOutside(r: Reader, fields: seq<string>, count: nat)
    requires Outside(r, count)
    ensures Outside(Feed(r, Joined(fields)), count)
    decreases |fields|
  {
    hide CsvEscape;
    if fields != [] {
      EscapedStaysOutside(r, fields[0], count);
      if |fields| > 1 {
        var after := Feed(r, CsvEscape(fields[0]));
        FeedAppend(r, CsvEscape(fields[0]) + ",", Joined(fields[1..]));
        FeedAppend(r, CsvEscape(fields[0]), ",");
        FeedOne(after, ',');
        JoinedStaysOutside(Read(after, ','), fields[1..], count);
      }
    }
  }

  /** Written anywhere outside quotes, a record completes exactly one record or breaks the text. */
  lemma RecordAddsOne(r: Reader, fields: seq<string>)
    requires r.Reading? && r.mode != Quoted
    ensures var after := Feed(r, CsvRecord(fields));
            after.Broken? || (AtRecordStart(after) && |after.records| == |r.records| + 1)
  {
    hide Feed, Joined;
    JoinedStaysOutside(r, fields, |r.records|);
    FeedAppend(r, Joined(fields), "\n");
    FeedOne(Feed(r, Joined(fields)), '\n');
  }

  lemma {:induction false} RecordsAddTheirNumber(r: Reader, records: seq<seq<string>>)
    requires r.Reading? && r.mode != Quoted && records != []
    ensures var after := Feed(r, CsvRecords(records));
            after.Broken? || (AtRecordStart(after) && |after.records| == |r.records| + |records|)
    decreases |records|
  {
    hide Feed, CsvRecord;
    RecordAddsOne(r, records[0]);
    var after := Feed(r, CsvRecord(records[0]));
    FeedAppend(r, CsvRecord(records[0]), CsvRecords(records[1..]));
    if after.Broken? {
      BrokenStays(CsvRecords(records[1..]));
    } else if |records| > 1 {
      RecordsAddTheirNumber(after, records[1..]);
    } else {
      NoRecordsNoText(after);
    }
  }

  lemma NoRecordsNoText(r: Reader)
    ensures Feed(r, CsvRecords([])) == r
  {}

  /** A readable text ends a record exactly when it is empty or its last character is a line feed. */
  lemma {:induction false} EndsRecordIff(text: string)
    requires ReadCsv(text).Some?
    ensures AtRecordStart(Feed(START, text)) <==> text == "" || text[|text| - 1] == '\n'
  {
    if text != "" {
      var last := |text| - 1;
      FeedAppend(START, text[..last], [text[last]]);
      assert text[..last] + [text[last]] == text;
      FeedOne(Feed(START, text[..last]), text[last]);
    }
  }

  /** Records appended to a readable text come out after the old ones exactly when the text is empty
      or ends with a line feed. */
  lemma AppendReadsBackIff(text: string, records: seq<seq<string>>)
    requires ReadCsv(text).Some? && records != [] && forall i :: 0 <= i < |records| ==> records[i] != []
    ensures ReadCsv(text + CsvRecords(records)) == Some(ReadCsv(text).value + records)
       <==> text == "" || text[|text| - 1] == '\n'
  {
    hide Feed, CsvRecords;
    var r := Feed(START, text);
    FeedAppend(START, text, CsvRecords(records));
    EndsRecordIff(text);
    if AtRecordStart(r) {
      RecordsReadBackFrom(r.records, records);
    } else {
      RecordsAddTheirNumber(r, records);
    }
  }

  // ------------------------------------------------------------ a record written after an open field

  /** The record that comes out when `fields` is written after an open record that holds `before` and,
      unquoted, `field`: the first field runs into the open one. */
  function RunOn(before: seq<string>, field: string, fields: seq<string>): seq<string>
    requires fields != []
  {
    before + [field + fields[0]] + fields[1..]
  }

  lemma FieldRunsOn(records: seq<seq<string>>, before: seq<string>, field: string, next: string)
    requires Plain(next) || field == ""
    ensures Holds(Feed(PlainlyHeld(records, before, field), CsvEscape(next)), records, before, field + next)
  {
    if field == "" {
      EscapedFieldIsHeld(records, before, next);
      assert field + next == next;
    } else {
      FeedPlain(PlainlyHeld(records, before, field), next);
    }
  }

  /** A quotation mark inside an unquoted field breaks the text. */
  lemma QuoteBreaks(records: seq<seq<string>>, before: seq<string>, field: string, next: string, rest: string)
    requires !Plain(next) && field != ""
    ensures Feed(PlainlyHeld(records, before, field), CsvEscape(next) + rest) == Broken
  {
    var text := CsvEscape(next) + rest;
    assert text[0] == '"';
    BrokenStays(text[1..]);
  }

  lemma RecordRunsOn(records: seq<seq<string>>, before: seq<string>, field: string, fields: seq<string>)
    requires fields != []
    ensures Feed(PlainlyHeld(records, before, field), CsvRecord(fields)) ==
            if Plain(fields[0]) || field == ""
            then Reading(records + [RunOn(before, field, fields)], [], "", FieldStart)
            else Broken
  {
    hide CsvEscape, Feed, Holds, PlainlyHeld, Plain, Joined;
    var start := PlainlyHeld(records, before, field);
    var escaped := CsvEscape(fields[0]);
    CsvRecordParts(fields);
    if Plain(fields[0]) || field == "" {
      FieldRunsOn(records, before, field, fields[0]);
      var held := Feed(start, escaped);
      HeldFieldEnds(held, records, before, field + fields[0]);
      if |fields| == 1 {
        FeedAppend(start, escaped, "\n");
        assert RunOn(before, field, fields) == before + [field + fields[0]];
      } else {
        var rest := CsvRecord(fields[1..]);
        FeedAppend(start, escaped + ",", rest);
        FeedAppend(start, escaped, ",");
        RestReadsBack(records, before + [field + fields[0]], fields[1..]);
      }
    } else {
      QuoteBreaks(records, before, field, fields[0], CsvRecord(fields)[|escaped|..]);
      assert escaped + CsvRecord(fields)[|escaped|..] == CsvRecord(fields);
    }
  }

  lemma CsvRecordParts(fields: seq<string>)
    requires fields != []
    ensures CsvRecord(fields) == if |fields| == 1 then CsvEscape(fields[0]) + "\n"
                                 else CsvEscape(fields[0]) + "," + CsvRecord(fields[1..])
    ensures CsvEscape(fields[0]) <= CsvRecord(fields)
  {
    hide CsvEscape;
  }
}
