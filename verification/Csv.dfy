/**
 The CSV scanner of huayou-new-sync.user.js, against the format of RFC 4180 section 2.
 */
module Csv {

  type Row = seq<string>

  datatype State = State(rows: seq<Row>, row: Row, cell: string, quoted: bool)

  const START: State := State([], [], "", false)

  /** cell.replace(/\r$/, "") */
  function DropCr(cell: string): string {
    if cell != "" && cell[|cell| - 1] == '\r' then cell[..|cell| - 1] else cell
  }

  function EndCell(s: State): State {
    s.(row := s.row + [s.cell], cell := "")
  }

  function EndRow(s: State): State {
    State(s.rows + [s.row + [DropCr(s.cell)]], [], "", s.quoted)
  }

  function AddChar(s: State, c: char): State {
    s.(cell := s.cell + [c])
  }

  /** A doubled quote inside a quoted cell is the only thing that takes two characters. */
  predicate IsDoubled(text: string, s: State) {
    s.quoted && |text| >= 2 && text[0] == '"' && text[1] == '"'
  }

  function Next(text: string, s: State): State
    requires text != ""
  {
    var c := text[0];
    if s.quoted then
      if IsDoubled(text, s) then AddChar(s, '"')
      else if c == '"' then s.(quoted := false)
      else AddChar(s, c)
    else if c == '"' then s.(quoted := true)
    else if c == ',' then EndCell(s)
    else if c == '\n' then EndRow(s)
    else AddChar(s, c)
  }

  function Scan(text: string, s: State): State
    decreases |text|
  {
    if text == "" then s
    else Scan(text[if IsDoubled(text, s) then 2 else 1..], Next(text, s))
  }

  /** The last row counts even without a line break, unless nothing has been read for it. */
  function Finish(s: State): seq<Row> {
    if s.cell != "" || s.row != [] then EndRow(s).rows else s.rows
  }

  function Parsed(text: string): seq<Row> {
    Finish(Scan(text, START))
  }

  method ParseCsv(text: string) returns (rows: seq<Row>)
    ensures rows == Parsed(text)
  {
    rows := [];
    var row: Row := [];
    var cell := "";
    var quoted := false;
    var index := 0;
    while index < |text|
      invariant 0 <= index <= |text|
      invariant Scan(text, START) == Scan(text[index..], State(rows, row, cell, quoted))
    {
      ghost var before := State(rows, row, cell, quoted);
      ghost var rest := text[index..];
      var c := text[index];
      if quoted {
        if c == '"' && index + 1 < |text| && text[index + 1] == '"' {
          cell := cell + "\"";
          index := index + 1;
        } else if c == '"' {
          quoted := false;
        } else {
          cell := cell + [c];
        }
      } else if c == '"' {
        quoted := true;
      } else if c == ',' {
        row := row + [cell];
        cell := "";
      } else if c == '\n' {
        row := row + [DropCr(cell)];
        rows := rows + [row];
        row := [];
        cell := "";
      } else {
        cell := cell + [c];
      }
      index := index + 1;
      assert Next(rest, before) == State(rows, row, cell, quoted);
      assert text[index..] == rest[if IsDoubled(rest, before) then 2 else 1..];
    }
    assert text[index..] == "";
    if cell != "" || row != [] {
      row := row + [DropCr(cell)];
      rows := rows + [row];
    }
  }

  // ---------------------------------------------------------------- writing

  /** A field as RFC 4180 writes it: bare if it has no comma, quote or line break, or else in quotes. */
  datatype Field = Field(text: string, quoted: bool)

  predicate IsPlain(text: string) {
    forall i :: 0 <= i < |text| ==> text[i] !in {'"', ',', '\r', '\n'}
  }

  predicate IsField(f: Field) {
    f.quoted || IsPlain(f.text)
  }

  predicate AreFields(fields: seq<Field>) {
    fields != [] && forall i :: 0 <= i < |fields| ==> IsField(fields[i])
  }

  function Doubled(text: string): string {
    if text == "" then "" else (if text[0] == '"' then "\"\"" else [text[0]]) + Doubled(text[1..])
  }

  function Written(f: Field): string {
    if f.quoted then "\"" + Doubled(f.text) + "\"" else f.text
  }

  function WrittenRow(fields: seq<Field>): string
    requires fields != []
  {
    if |fields| == 1 then Written(fields[0]) else Written(fields[0]) + "," + WrittenRow(fields[1..])
  }

  function WrittenRows(rows: seq<seq<Field>>, lineBreak: string): string
    requires forall i :: 0 <= i < |rows| ==> AreFields(rows[i])
  {
    if rows == [] then "" else
      assert AreFields(rows[0]);
      WrittenRow(rows[0]) + lineBreak + WrittenRows(rows[1..], lineBreak)
  }

  function Texts(fields: seq<Field>): Row {
    seq(|fields|, i requires 0 <= i < |fields| => fields[i].text)
  }

  function AllTexts(rows: seq<seq<Field>>): seq<Row> {
    seq(|rows|, i requires 0 <= i < |rows| => Texts(rows[i]))
  }

  // ---------------------------------------------------------------- reading back

  predicate NoQuoteFirst(rest: string) {
    rest == "" || rest[0] != '"'
  }

  lemma {:induction false} ScanDoubled(text: string, rest: string, s: State)
    requires s.quoted && NoQuoteFirst(rest)
    ensures Scan(Doubled(text) + "\"" + rest, s) == Scan(rest, s.(cell := s.cell + text, quoted := false))
    decreases |text|
  {
    var all := Doubled(text) + "\"" + rest;
    if text == "" {
      assert all == "\"" + rest && all[1..] == rest && s.cell + text == s.cell;
    } else {
      var tail := Doubled(text[1..]) + "\"" + rest;
      var next := AddChar(s, text[0]);
      assert next.cell + text[1..] == s.cell + text;
      ScanDoubled(text[1..], rest, next);
      if text[0] == '"' {
        assert all == "\"\"" + tail && all[2..] == tail;
      } else {
        assert all == [text[0]] + tail && all[1..] == tail;
      }
    }
  }

  lemma {:induction false} ScanPlain(text: string, rest: string, s: State)
    requires !s.quoted && IsPlain(text)
    ensures Scan(text + rest, s) == Scan(rest, s.(cell := s.cell + text))
    decreases |text|
  {
    if text == "" {
      assert text + rest == rest && s.cell + text == s.cell;
    } else {
      var next := AddChar(s, text[0]);
      assert (text + rest)[1..] == text[1..] + rest && next.cell + text[1..] == s.cell + text;
      ScanPlain(text[1..], rest, next);
    }
  }

  lemma ScanField(f: Field, rest: string, s: State)
    requires IsField(f) && !s.quoted && s.cell == "" && NoQuoteFirst(rest)
    ensures Scan(Written(f) + rest, s) == Scan(rest, s.(cell := f.text))
  {
    assert "" + f.text == f.text;
    if f.quoted {
      var all := Written(f) + rest;
      assert all[1..] == Doubled(f.text) + "\"" + rest;
      ScanDoubled(f.text, rest, s.(quoted := true));
    } else {
      ScanPlain(f.text, rest, s);
    }
  }

  lemma {:induction false} ScanRow(fields: seq<Field>, rest: string, s: State)
    requires AreFields(fields) && !s.quoted && s.cell == "" && NoQuoteFirst(rest)
    ensures Scan(WrittenRow(fields) + rest, s)
            == Scan(rest, s.(row := s.row + Texts(fields[..|fields| - 1]), cell := fields[|fields| - 1].text))
    decreases |fields|
  {
    if |fields| == 1 {
      assert s.row + Texts(fields[..0]) == s.row;
      ScanField(fields[0], rest, s);
    } else {
      var tail := WrittenRow(fields[1..]) + rest;
      assert WrittenRow(fields) + rest == Written(fields[0]) + ("," + tail);
      ScanField(fields[0], "," + tail, s);
      var next := EndCell(s.(cell := fields[0].text));
      assert ("," + tail)[1..] == tail;
      ScanRow(fields[1..], rest, next);
      assert next.row + Texts(fields[1..][..|fields| - 2]) == s.row + Texts(fields[..|fields| - 1]);
    }
  }

  const CRLF: string := "\r\n"
  const LF: string := "\n"

  /** What a row comes back as: with a bare line feed after it, a final CR of the last cell is lost. */
  function ReadBack(row: Row, lineBreak: string): Row {
    if row == [] || lineBreak == CRLF then row else row[|row| - 1 := DropCr(row[|row| - 1])]
  }

  lemma ScanBreak(s: State, lineBreak: string, rest: string)
    requires !s.quoted && (lineBreak == CRLF || lineBreak == LF)
    ensures Scan(lineBreak + rest, s)
            == Scan(rest, State(s.rows + [s.row + [if lineBreak == CRLF then s.cell else DropCr(s.cell)]],
                                [], "", false))
  {
    if lineBreak == CRLF {
      assert (lineBreak + rest)[1..] == LF + rest;
      assert DropCr(s.cell + "\r") == s.cell;
    }
    assert (LF + rest)[1..] == rest;
  }

  lemma ScanLine(fields: seq<Field>, lineBreak: string, rest: string, rows: seq<Row>)
    requires AreFields(fields) && (lineBreak == CRLF || lineBreak == LF)
    ensures Scan(WrittenRow(fields) + lineBreak + rest, State(rows, [], "", false))
            == Scan(rest, State(rows + [ReadBack(Texts(fields), lineBreak)], [], "", false))
  {
    hide Scan, WrittenRow;
    assert WrittenRow(fields) + lineBreak + rest == WrittenRow(fields) + (lineBreak + rest);
    ScanRow(fields, lineBreak + rest, State(rows, [], "", false));
    var s := State(rows, Texts(fields[..|fields| - 1]), fields[|fields| - 1].text, false);
    assert [] + Texts(fields[..|fields| - 1]) == s.row;
    ScanBreak(s, lineBreak, rest);
    assert s.row + [s.cell] == Texts(fields);
    assert s.row + [DropCr(s.cell)] == ReadBack(Texts(fields), LF);
  }

  function ReadBackAll(rows: seq<seq<Field>>, lineBreak: string): seq<Row> {
    seq(|rows|, i requires 0 <= i < |rows| => ReadBack(Texts(rows[i]), lineBreak))
  }

  lemma {:induction false} ScanLines(rows: seq<seq<Field>>, lineBreak: string, rest: string, done: seq<Row>)
    requires forall i :: 0 <= i < |rows| ==> AreFields(rows[i])
    requires lineBreak == CRLF || lineBreak == LF
    ensures Scan(WrittenRows(rows, lineBreak) + rest, State(done, [], "", false))
            == Scan(rest, State(done + ReadBackAll(rows, lineBreak), [], "", false))
    decreases |rows|
  {
    if rows == [] {
      assert WrittenRows(rows, lineBreak) + rest == rest && done + ReadBackAll(rows, lineBreak) == done;
    } else {
      var tail := WrittenRows(rows[1..], lineBreak) + rest;
      assert WrittenRows(rows, lineBreak) + rest == WrittenRow(rows[0]) + lineBreak + tail;
      ScanLine(rows[0], lineBreak, tail, done);
      var next := done + [ReadBack(Texts(rows[0]), lineBreak)];
      ScanLines(rows[1..], lineBreak, rest, next);
      assert next + ReadBackAll(rows[1..], lineBreak) == done + ReadBackAll(rows, lineBreak);
    }
  }

  /** Reading inverts writing with CRLF after every row, whatever the cells hold and however they are quoted. */
  lemma CrlfRoundTrip(rows: seq<seq<Field>>)
    requires forall i :: 0 <= i < |rows| ==> AreFields(rows[i])
    ensures Parsed(WrittenRows(rows, CRLF)) == AllTexts(rows)
  {
    ScanLines(rows, CRLF, "", []);
    assert WrittenRows(rows, CRLF) + "" == WrittenRows(rows, CRLF);
    assert [] + ReadBackAll(rows, CRLF) == AllTexts(rows);
  }

  predicate EndsWithCr(row: Row) {
    row != [] && row[|row| - 1] != "" && row[|row| - 1][|row[|row| - 1]| - 1] == '\r'
  }

  /** With bare line feeds, exactly the rows whose last cell ends in CR come back wrong. */
  lemma LfRoundTripIff(rows: seq<seq<Field>>)
    requires forall i :: 0 <= i < |rows| ==> AreFields(rows[i])
    ensures Parsed(WrittenRows(rows, LF)) == AllTexts(rows)
            <==> forall i :: 0 <= i < |rows| ==> !EndsWithCr(Texts(rows[i]))
  {
    ScanLines(rows, LF, "", []);
    assert WrittenRows(rows, LF) + "" == WrittenRows(rows, LF);
    assert [] + ReadBackAll(rows, LF) == ReadBackAll(rows, LF);
    forall i | 0 <= i < |rows| ensures ReadBack(Texts(rows[i]), LF) == Texts(rows[i]) <==> !EndsWithCr(Texts(rows[i])) {
      ReadBackIff(Texts(rows[i]));
    }
    if Parsed(WrittenRows(rows, LF)) == AllTexts(rows) {
      forall i | 0 <= i < |rows| ensures !EndsWithCr(Texts(rows[i])) {
        assert ReadBackAll(rows, LF)[i] == AllTexts(rows)[i];
      }
    }
  }

  lemma ReadBackIff(row: Row)
    requires row != []
    ensures ReadBack(row, LF) == row <==> !EndsWithCr(row)
  {
    var last := row[|row| - 1];
    assert ReadBack(row, LF)[|row| - 1] == DropCr(last);
    if !EndsWithCr(row) {
      assert ReadBack(row, LF) == row;
    }
  }

  /** A last row without a line break is read unless it is one empty cell; a final CR of it is lost. */
  lemma UnterminatedRoundTripIff(rows: seq<seq<Field>>, last: seq<Field>)
    requires (forall i :: 0 <= i < |rows| ==> AreFields(rows[i])) && AreFields(last)
    ensures Parsed(WrittenRows(rows, CRLF) + WrittenRow(last)) == AllTexts(rows) + [Texts(last)]
            <==> Texts(last) != [""] && !EndsWithCr(Texts(last))
  {
    ScanLines(rows, CRLF, WrittenRow(last), []);
    var done := AllTexts(rows);
    assert [] + ReadBackAll(rows, CRLF) == done;
    assert WrittenRow(last) + "" == WrittenRow(last);
    ScanRow(last, "", State(done, [], "", false));
    var s := State(done, Texts(last[..|last| - 1]), last[|last| - 1].text, false);
    assert [] + Texts(last[..|last| - 1]) == s.row;
    assert Scan(WrittenRows(rows, CRLF) + WrittenRow(last), START) == s;
    assert s.row + [DropCr(s.cell)] == ReadBack(Texts(last), LF);
    ReadBackIff(Texts(last));
    if s.cell == "" && s.row == [] {
      assert |last| == 1 && Texts(last) == [""];
      assert |Finish(s)| < |done + [Texts(last)]|;
    } else {
      assert Finish(s) == done + [ReadBack(Texts(last), LF)];
      assert Texts(last) == [""] ==> s.row == [] && s.cell == Texts(last)[0];
      assert (done + [ReadBack(Texts(last), LF)])[|done|] == ReadBack(Texts(last), LF);
      assert (done + [Texts(last)])[|done|] == Texts(last);
    }
  }

  // ---------------------------------------------------------------- every text

  predicate RowsNonempty(rows: seq<Row>) {
    forall i :: 0 <= i < |rows| ==> rows[i] != []
  }

  lemma {:induction false} ScanKeepsRowsNonempty(text: string, s: State)
    requires RowsNonempty(s.rows)
    ensures RowsNonempty(Scan(text, s).rows)
    decreases |text|
  {
    if text != "" {
      ScanKeepsRowsNonempty(text[if IsDoubled(text, s) then 2 else 1..], Next(text, s));
    }
  }

  function Quoted(row: Row): seq<Field> {
    seq(|row|, i requires 0 <= i < |row| => Field(row[i], true))
  }

  function AllQuoted(rows: seq<Row>): seq<seq<Field>> {
    seq(|rows|, i requires 0 <= i < |rows| => Quoted(rows[i]))
  }

  /** Whatever was read, well-formed or not, can be written back and reads the same again. */
  lemma RereadingIsStable(text: string)
    ensures forall i :: 0 <= i < |Parsed(text)| ==> AreFields(AllQuoted(Parsed(text))[i])
    ensures Parsed(WrittenRows(AllQuoted(Parsed(text)), CRLF)) == Parsed(text)
  {
    ScanKeepsRowsNonempty(text, START);
    var rows := Parsed(text);
    forall i | 0 <= i < |rows| ensures AreFields(AllQuoted(rows)[i]) && Texts(AllQuoted(rows)[i]) == rows[i] {
      assert rows[i] != [];
    }
    CrlfRoundTrip(AllQuoted(rows));
    assert AllTexts(AllQuoted(rows)) == rows;
  }
}
