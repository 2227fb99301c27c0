/**
 CSV text: the writer's field escaping and row layout, and an independent reader that
 follows section 2 of RFC 4180 with LF ending each record. Fields are sequences of
 Unicode characters.
 */
module Csv {

  datatype Option<+T> = None | Some(value: T)

  predicate Special(c: char) {
    c == ',' || c == '"' || c == '\n' || c == '\r'
  }

  ghost predicate IsPlain(s: string) {
    forall i :: 0 <= i < |s| ==> !Special(s[i])
  }

  // ----- The writer -----

  /** Every quote twice. */
  function Doubled(s: string): string {
    if s == "" then ""
    else
      var c := s[|s| - 1];
      Doubled(s[..|s| - 1]) + if c == '"' then ['"', '"'] else [c]
  }

  ghost function Escape(s: string): string {
    if IsPlain(s) then s else ['"'] + Doubled(s) + ['"']
  }

  method CsvEscape(s: string) returns (r: string)
    ensures r == Escape(s)
  {
    if s == "" {
      return "";
    }
    var needs := false;
    for i := 0 to |s|
      invariant !needs && IsPlain(s[..i])
    {
      if Special(s[i]) {
        needs := true;
        assert !IsPlain(s);
        break;
      }
    }
    if !needs {
      assert s[..|s|] == s;
      return s;
    }
    var out := ['"'];
    for i := 0 to |s|
      invariant out == ['"'] + Doubled(s[..i])
    {
      assert s[..i + 1][..i] == s[..i];
      if s[i] == '"' {
        out := out + ['"', '"'];
        continue;
      }
      out := out + [s[i]];
    }
    assert s[..|s|] == s;
    return out + ['"'];
  }

  /** The fields escaped, separated by commas, ended by LF. */
  ghost function Line(fields: seq<string>): string
    requires fields != []
  {
    Cells(fields[..|fields| - 1]) + Escape(fields[|fields| - 1]) + ['\n']
  }

  /** The fields escaped, each followed by a comma. */
  ghost function Cells(fields: seq<string>): string {
    if fields == [] then "" else Cells(fields[..|fields| - 1]) + Escape(fields[|fields| - 1]) + [',']
  }

  ghost predicate Records(rows: seq<seq<string>>) {
    forall i :: 0 <= i < |rows| ==> rows[i] != []
  }

  ghost function Lines(rows: seq<seq<string>>): string
    requires Records(rows)
  {
    if rows == [] then "" else Lines(rows[..|rows| - 1]) + Line(rows[|rows| - 1])
  }

  // ----- The reader -----

  /** At a field's start, inside a plain field, inside quotes, or just after a quote inside quotes. */
  datatype Mode = Fresh | Plain | Quoted | AfterQuote

  datatype Reader = Reader(rows: seq<seq<string>>, row: seq<string>, field: string, mode: Mode)

  function EndField(r: Reader): Reader {
    Reader(r.rows, r.row + [r.field], "", Fresh)
  }

  function EndRow(r: Reader): Reader {
    Reader(r.rows + [r.row + [r.field]], [], "", Fresh)
  }

  /** Between records, with `rows` read so far. */
  function AfterRows(rows: seq<seq<string>>): Reader {
    Reader(rows, [], "", Fresh)
  }

  function ReadChar(r: Reader, c: char): Option<Reader> {
    match r.mode
    case Fresh =>
      if c == '"' then Some(r.(mode := Quoted))
      else if c == ',' then Some(EndField(r))
      else if c == '\n' then Some(EndRow(r))
      else if c == '\r' then None
      else Some(r.(field := r.field + [c], mode := Plain))
    case Plain =>
      if c == ',' then Some(EndField(r))
      else if c == '\n' then Some(EndRow(r))
      else if c == '"' || c == '\r' then None
      else Some(r.(field := r.field + [c]))
    case Quoted =>
      if c == '"' then Some(r.(mode := AfterQuote)) else Some(r.(field := r.field + [c]))
    case AfterQuote =>
      if c == '"' then Some(r.(field := r.field + [c], mode := Quoted))
      else if c == ',' then Some(EndField(r))
      else if c == '\n' then Some(EndRow(r))
      else None
  }

  function Read(r: Reader, text: string): Option<Reader> {
    if text == "" then Some(r)
    else
      var before := Read(r, text[..|text| - 1]);
      if before.None? then None else ReadChar(before.value, text[|text| - 1])
  }

  /** The records of a text; the last one may lack its LF, and an open quote is an error. */
  function Parse(text: string): Option<seq<seq<string>>> {
    var r := Read(AfterRows([]), text);
    if r.None? || r.value.mode == Quoted then None
    else if r.value.mode == Fresh && r.value.row == [] then Some(r.value.rows)
    else Some(EndRow(r.value).rows)
  }

  // ----- Reading what was written -----

  lemma {:induction false} ReadAppend(r: Reader, a: string, b: string)
    ensures Read(r, a + b) == if Read(r, a).None? then None else Read(Read(r, a).value, b)
  {
    if b == "" {
      assert a + b == a;
    } else {
      ReadAppend(r, a, b[..|b| - 1]);
      assert (a + b)[..|a + b| - 1] == a + b[..|b| - 1];
    }
  }

  lemma {:induction false} ReadOne(r: Reader, c: char)
    ensures Read(r, [c]) == ReadChar(r, c)
  {
  }

  lemma {:induction false} ReadPlain(r: Reader, s: string)
    requires r.mode == Fresh && r.field == "" && IsPlain(s)
    ensures Read(r, s) == Some(r.(field := s, mode := if s == "" then Fresh else Plain))
  {
    if s != "" {
      ReadPlain(r, s[..|s| - 1]);
      assert s == s[..|s| - 1] + [s[|s| - 1]];
    }
  }

  lemma {:induction false} ReadDoubled(r: Reader, s: string)
    requires r.mode == Quoted
    ensures Read(r, Doubled(s)) == Some(r.(field := r.field + s))
  {
    if s == "" {
      assert r.field + s == r.field;
    } else {
      var front, c := s[..|s| - 1], s[|s| - 1];
      ReadDoubled(r, front);
      var mid := r.(field := r.field + front);
      assert r.field + s == r.field + front + [c];
      if c == '"' {
        assert Doubled(s) == Doubled(front) + ['"'] + ['"'];
        ReadAppend(r, Doubled(front) + ['"'], ['"']);
        ReadAppend(r, Doubled(front), ['"']);
        ReadOne(mid, '"');
        ReadOne(mid.(mode := AfterQuote), '"');
      } else {
        ReadAppend(r, Doubled(front), [c]);
        ReadOne(mid, c);
      }
    }
  }

  /** One escaped field followed by a separator is read back as that field. */
  lemma {:induction false} ReadField(r: Reader, s: string, sep: char)
    requires r.mode == Fresh && r.field == "" && (sep == ',' || sep == '\n')
    ensures Read(r, Escape(s) + [sep]) == Some(if sep == ',' then EndField(r.(field := s)) else EndRow(r.(field := s)))
  {
    ReadAppend(r, Escape(s), [sep]);
    if IsPlain(s) {
      ReadPlain(r, s);
      ReadOne(Read(r, s).value, sep);
    } else {
      var quoted := r.(mode := Quoted);
      ReadAppend(r, ['"'] + Doubled(s), ['"']);
      ReadAppend(r, ['"'], Doubled(s));
      ReadOne(r, '"');
      ReadDoubled(quoted, s);
      assert quoted.field + s == s;
      ReadOne(quoted.(field := s), '"');
      ReadOne(r.(field := s, mode := AfterQuote), sep);
    }
  }

  lemma {:induction false} LastCell(fields: seq<string>)
    requires fields != []
    ensures var front, last := fields[..|fields| - 1], fields[|fields| - 1];
            fields == front + [last] && Cells(fields) == Cells(front) + (Escape(last) + [','])
  {
  }

  lemma {:induction false} Associate(a: string, b: string, c: string)
    ensures (a + b) + c == a + (b + c)
  {
  }

  lemma {:induction false} LastOfLine(fields: seq<string>)
    requires fields != []
    ensures var front, last := fields[..|fields| - 1], fields[|fields| - 1];
            fields == front + [last] && Line(fields) == Cells(front) + (Escape(last) + ['\n'])
  {
    Associate(Cells(fields[..|fields| - 1]), Escape(fields[|fields| - 1]), ['\n']);
  }

  lemma {:induction false} ReadNextCell(r: Reader, text: string, front: seq<string>, last: string)
    requires r.mode == Fresh && r.field == "" && Read(r, text) == Some(r.(row := r.row + front))
    ensures Read(r, text + (Escape(last) + [','])) == Some(r.(row := r.row + (front + [last])))
  {
    ReadAppend(r, text, Escape(last) + [',']);
    ReadField(r.(row := r.row + front), last, ',');
    assert r.row + front + [last] == r.row + (front + [last]);
  }

  lemma {:induction false} ReadCells(r: Reader, fields: seq<string>)
    requires r.mode == Fresh && r.field == ""
    ensures Read(r, Cells(fields)) == Some(r.(row := r.row + fields))
  {
    if fields == [] {
      assert r.row + fields == r.row;
    } else {
      var front, last := fields[..|fields| - 1], fields[|fields| - 1];
      LastCell(fields);
      ReadCells(r, front);
      ReadNextCell(r, Cells(front), front, last);
    }
  }

  lemma {:induction false} ReadLastCell(r: Reader, text: string, front: seq<string>, last: string)
    requires r.mode == Fresh && r.field == "" && r.row == [] && Read(r, text) == Some(r.(row := front))
    ensures Read(r, text + (Escape(last) + ['\n'])) == Some(r.(rows := r.rows + [front + [last]]))
  {
    ReadAppend(r, text, Escape(last) + ['\n']);
    ReadField(r.(row := front), last, '\n');
  }

  lemma {:induction false} ReadLine(r: Reader, fields: seq<string>)
    requires r.mode == Fresh && r.field == "" && r.row == [] && fields != []
    ensures Read(r, Line(fields)) == Some(r.(rows := r.rows + [fields]))
  {
    var front, last := fields[..|fields| - 1], fields[|fields| - 1];
    LastOfLine(fields);
    ReadCells(r, front);
    assert r.row + front == front;
    ReadLastCell(r, Cells(front), front, last);
  }

  lemma {:induction false} ReadNextLine(text: string, front: seq<seq<string>>, last: seq<string>)
    requires last != [] && Read(AfterRows([]), text) == Some(AfterRows(front))
    ensures Read(AfterRows([]), text + Line(last)) == Some(AfterRows(front + [last]))
  {
    ReadAppend(AfterRows([]), text, Line(last));
    ReadLine(AfterRows(front), last);
  }

  lemma {:induction false} LastLine(rows: seq<seq<string>>)
    requires Records(rows) && rows != []
    ensures var front, last := rows[..|rows| - 1], rows[|rows| - 1];
            rows == front + [last] && Records(front) && last != [] && Lines(rows) == Lines(front) + Line(last)
  {
  }

  lemma {:induction false} ReadLines(rows: seq<seq<string>>)
    requires Records(rows)
    ensures Read(AfterRows([]), Lines(rows)) == Some(AfterRows(rows))
  {
    if rows != [] {
      var front, last := rows[..|rows| - 1], rows[|rows| - 1];
      LastLine(rows);
      ReadLines(front);
      ReadNextLine(Lines(front), front, last);
    }
  }

  /** Reading back any written rows gives exactly those rows. */
  lemma {:induction false} ParseLines(rows: seq<seq<string>>)
    requires Records(rows)
    ensures Parse(Lines(rows)) == Some(rows)
  {
    ReadLines(rows);
  }

  /** So two different row lists are never written as the same text. */
  lemma {:induction false} LinesInjective(a: seq<seq<string>>, b: seq<seq<string>>)
    requires Records(a)
    requires Records(b)
    requires Lines(a) == Lines(b)
    ensures a == b
  {
    ParseLines(a);
    ParseLines(b);
  }
}
