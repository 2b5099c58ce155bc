/** Reading a table from a comma-separated file. */
module Csv {
  import opened Tables

  predicate IsBreak(c: char) {
    c == '\n' || c == '\r'
  }

  // ----- lines -----

  /** The characters before the first line break. */
  function FirstLine(s: string): (line: string)
    ensures line <= s && (forall i :: 0 <= i < |line| ==> !IsBreak(line[i]))
    ensures |line| < |s| ==> IsBreak(s[|line|])
  {
    if s == [] || IsBreak(s[0]) then []
    else
      var rest := FirstLine(s[1..]);
      assert [s[0]] + rest <= [s[0]] + s[1..] == s;
      [s[0]] + rest
  }

  /** How many characters the first line takes with its line break, where CR LF counts as one break. */
  function LineLength(s: string): (n: nat)
    ensures n <= |s| && (s != [] ==> n > 0)
  {
    var n := |FirstLine(s)|;
    if n == |s| then n
    else if s[n] == '\r' && n + 1 < |s| && s[n + 1] == '\n' then n + 2
    else n + 1
  }

  /** The lines that are not blank. */
  function Lines(s: string): seq<string>
    decreases |s|
  {
    if s == [] then []
    else (if FirstLine(s) == [] then [] else [FirstLine(s)]) + Lines(s[LineLength(s)..])
  }

  lemma LinesStep(s: string)
    ensures Lines(s) == (if FirstLine(s) == [] then [] else [FirstLine(s)]) + Lines(s[LineLength(s)..])
  {
    if s == [] {
      assert s[LineLength(s)..] == [];
    }
  }

  /** An input stream: its characters, how many were read, and its two state bits. */
  class InputFile {
    const content: string
    var pos: nat
    var eof: bool
    var failed: bool

    ghost predicate Valid()
      reads this
    {
      pos <= |content| && (eof ==> pos == |content|)
    }

    constructor (content: string)
      ensures Valid() && this.content == content && pos == 0 && !eof && !failed
    {
      this.content, pos, eof, failed := content, 0, false, false;
    }

    /** `safeGetline`. The end of the file ends a last line without a break; only a read that starts
        there and finds nothing marks the end, and the read after that fails. */
    method SafeGetline() returns (t: string)
      requires Valid()
      modifies this
      ensures Valid() && failed == (old(failed) || old(eof))
      ensures t == FirstLine(content[old(pos)..]) && pos == old(pos) + LineLength(content[old(pos)..])
      ensures eof == (old(eof) || old(pos) == |content|)
    {
      t := [];
      failed := failed || eof;
      ghost var start := content[pos..];
      while true
        invariant Valid() && failed == (old(failed) || old(eof)) && eof == old(eof)
        invariant pos == old(pos) + |t| <= |content| && t == start[..|t|] && start == content[old(pos)..]
        invariant forall i :: 0 <= i < |t| ==> !IsBreak(t[i])
        decreases |content| - pos
      {
        if pos == |content| {
          eof := eof || t == [];
          LineIs(start, t);
          return;
        }
        var c := content[pos];
        assert c == start[|t|];
        pos := pos + 1;
        if c == '\n' {
          LineIs(start, t);
          return;
        } else if c == '\r' {
          if pos < |content| && content[pos] == '\n' {
            assert start[|t| + 1] == content[pos];
            pos := pos + 1;
          }
          LineIs(start, t);
          return;
        }
        t := t + [c];
      }
    }
  }

  lemma LineIs(s: string, t: string)
    requires t <= s && (forall i :: 0 <= i < |t| ==> !IsBreak(t[i])) && (|t| < |s| ==> IsBreak(s[|t|]))
    ensures FirstLine(s) == t
  {
    var line := FirstLine(s);
    assert t == s[..|t|] && line == s[..|line|];
  }

  // ----- fields -----

  /** The characters before the first comma. */
  function FirstField(line: string): (f: string)
    ensures f <= line && ',' !in f
    ensures |f| < |line| ==> line[|f|] == ','
  {
    if line == [] || line[0] == ',' then []
    else
      var rest := FirstField(line[1..]);
      assert [line[0]] + rest <= [line[0]] + line[1..] == line;
      [line[0]] + rest
  }

  /** `getline` by commas until the line is used up: an empty field behind a last comma is not seen. */
  function Fields(line: string): seq<string>
    decreases |line|
  {
    if line == [] then []
    else
      var f := FirstField(line);
      [f] + if |f| == |line| then [] else Fields(line[|f| + 1..])
  }

  /** Fields joined by commas, as a table is written. */
  function CommaJoined(fields: seq<string>): string {
    if fields == [] then []
    else if |fields| == 1 then fields[0]
    else fields[0] + "," + CommaJoined(fields[1..])
  }

  predicate CommaFree(fields: seq<string>) {
    forall i :: 0 <= i < |fields| ==> ',' !in fields[i]
  }

  lemma {:induction false} FieldsAreCommaFree(line: string)
    ensures CommaFree(Fields(line))
    decreases |line|
  {
    if line != [] {
      var f := FirstField(line);
      if |f| < |line| {
        FieldsAreCommaFree(line[|f| + 1..]);
      }
    }
  }

  lemma FirstFieldIs(line: string, f: string)
    requires f <= line && ',' !in f && (|f| < |line| ==> line[|f|] == ',')
    ensures FirstField(line) == f
  {
    var g := FirstField(line);
    assert f == line[..|f|] && g == line[..|g|];
  }

  /** The fields that are seen: all but an empty last one. */
  function SeenFields(fields: seq<string>): seq<string> {
    if |fields| > 0 && fields[|fields| - 1] == [] then fields[..|fields| - 1] else fields
  }

  lemma FieldsOfOne(f: string)
    requires ',' !in f
    ensures Fields(f) == SeenFields([f])
  {
    if f != [] {
      FirstFieldIs(f, f);
    }
  }

  lemma SeenFieldsCons(f: string, rest: seq<string>)
    requires |rest| > 0
    ensures SeenFields([f] + rest) == [f] + SeenFields(rest)
  {
    assert ([f] + rest)[..|rest|] == [f] + rest[..|rest| - 1];
  }

  lemma {:induction false} FieldsOfJoined(fields: seq<string>)
    requires CommaFree(fields) && |fields| > 0
    ensures Fields(CommaJoined(fields)) == SeenFields(fields)
  {
    hide Fields, CommaFree, SeenFields;
    var rest := fields[1..];
    assert fields == [fields[0]] + rest;
    TailCommaFree(fields);
    if |fields| == 1 {
      assert fields == [fields[0]];
      FieldsOfOne(fields[0]);
    } else {
      FieldsOfJoined(rest);
      FieldsCons(fields[0], CommaJoined(rest));
      SeenFieldsCons(fields[0], rest);
    }
  }

  lemma TailCommaFree(fields: seq<string>)
    requires CommaFree(fields) && |fields| > 0
    ensures CommaFree(fields[1..]) && ',' !in fields[0]
  {
  }

  lemma FieldsCons(f: string, rest: string)
    requires ',' !in f
    ensures Fields(f + "," + rest) == [f] + Fields(rest)
  {
    hide FirstField;
    var line := f + "," + rest;
    assert line[|f|] == ',';
    FirstFieldIs(line, f);
    assert line[|f| + 1..] == rest;
  }

  /** Reading a joined line gives its fields back exactly when none holds a comma and the last one is
      not empty. */
  lemma FieldsRoundTripIff(fields: seq<string>)
    requires |fields| > 0
    ensures Fields(CommaJoined(fields)) == fields <==> CommaFree(fields) && fields[|fields| - 1] != []
  {
    FieldsAreCommaFree(CommaJoined(fields));
    if CommaFree(fields) {
      FieldsOfJoined(fields);
    }
  }

  // ----- tables -----

  /** A table read from the lines that are not blank: with a header, the first names the columns and
      the second their types. */
  function Assembled(lines: seq<string>, hasHeader: bool): Table {
    var skip := if !hasHeader then 0 else if |lines| < 2 then |lines| else 2;
    Table("",
          seq(|lines| - skip, i requires 0 <= i < |lines| - skip => Fields(lines[skip + i])),
          if hasHeader && |lines| > 0 then Fields(lines[0]) else [],
          if hasHeader && |lines| > 1 then Fields(lines[1]) else [],
          [])
  }

  /** `fileReader`. */
  method FileReader(content: string, hasHeader: bool) returns (table: Table)
    ensures table == Assembled(Lines(content), hasHeader)
  {
    hide Assembled, Lines, Fields, FirstLine, LineLength;
    var inFile := new InputFile(content);
    table := Table("", [], [], [], []);
    var strArray: Rows := [];
    var count := 0;
    ghost var seen: seq<string> := [];
    AssembledEmpty(hasHeader);
    assert content[0..] == content;
    while true
      invariant inFile.Valid() && !inFile.failed && inFile.content == content && fresh(inFile)
      invariant Lines(content) == seen + Lines(content[inFile.pos..]) && count == |seen|
      invariant table.(table := strArray) == Assembled(seen, hasHeader)
      decreases |content| - inFile.pos, !inFile.eof
    {
      ghost var rest := content[inFile.pos..];
      LinesStep(rest);
      ReadsSomething(rest);
      var lineStr := inFile.SafeGetline();
      if inFile.failed {
        LinesOfNothing();
        assert rest == [] && Lines(content) == seen;
        break;
      }
      assert content[inFile.pos..] == rest[LineLength(rest)..];
      if lineStr == [] {
        continue;
      }
      var lineArray := Fields(lineStr);
      AssembledNext(seen, lineStr, hasHeader);
      if count == 0 && hasHeader {
        table := table.(columns := lineArray);
      } else if count == 1 && hasHeader {
        table := table.(columnsType := lineArray);
      } else {
        strArray := strArray + [lineArray];
      }
      count := count + 1;
      seen := seen + [lineStr];
    }
    table := table.(table := strArray);
  }

  lemma ReadsSomething(s: string)
    ensures s != [] ==> LineLength(s) > 0
  {
  }

  lemma LinesOfNothing()
    ensures Lines([]) == []
  {
  }

  lemma AssembledEmpty(hasHeader: bool)
    ensures Assembled([], hasHeader) == Table("", [], [], [], [])
  {
  }

  /** One more line: the columns, the types, or one more row. */
  lemma AssembledNext(seen: seq<string>, line: string, hasHeader: bool)
    ensures var t := Assembled(seen, hasHeader);
            Assembled(seen + [line], hasHeader)
            == if |seen| == 0 && hasHeader then t.(columns := Fields(line))
               else if |seen| == 1 && hasHeader then t.(columnsType := Fields(line))
               else t.(table := t.table + [Fields(line)])
  {
    var t, next := Assembled(seen, hasHeader), Assembled(seen + [line], hasHeader);
    if hasHeader && |seen| < 2 {
      assert next.table == t.table;
    } else {
      assert next.table == t.table + [Fields(line)];
    }
  }

  // ----- writing and reading back -----

  predicate AllBreaks(s: string) {
    forall i :: 0 <= i < |s| ==> IsBreak(s[i])
  }

  predicate Unbroken(s: string) {
    forall i :: 0 <= i < |s| ==> !IsBreak(s[i])
  }

  /** Lines with the given runs of line breaks behind them. */
  function Written(lines: seq<string>, breaks: seq<string>): string
    requires |lines| == |breaks|
  {
    if lines == [] then [] else lines[0] + breaks[0] + Written(lines[1..], breaks[1..])
  }

  lemma {:induction false} BreaksAreSkipped(b: string, rest: string)
    requires AllBreaks(b)
    ensures Lines(b + rest) == Lines(rest)
    decreases |b|
  {
    var s := b + rest;
    if b == [] {
      assert s == rest;
    } else {
      hide Lines, FirstLine;
      LineIs(s, []);
      LinesStep(s);
      if |b| >= LineLength(s) {
        assert s[LineLength(s)..] == b[LineLength(s)..] + rest;
        BreaksAreSkipped(b[LineLength(s)..], rest);
      } else {
        LineIs(rest, []);
        LinesStep(rest);
        assert s[2..] == rest[1..];
      }
    }
  }

  lemma LineThenBreaks(line: string, b: string, rest: string)
    requires Unbroken(line) && line != [] && AllBreaks(b) && (b != [] || rest == [])
    ensures Lines(line + b + rest) == [line] + Lines(rest)
  {
    hide Lines, FirstLine;
    var s, tail := line + b + rest, b + rest;
    assert s == line + tail;
    LineIs(s, line);
    LinesStep(s);
    if b == [] {
      assert s == line;
      assert s[LineLength(s)..] == [] == rest;
    } else {
      BreaksAreSkipped(b, rest);
      LineIs(tail, []);
      LinesStep(tail);
      assert s[|line|] == tail[0] && (|tail| > 1 ==> s[|line| + 1] == tail[1]);
      assert s[LineLength(s)..] == tail[LineLength(tail)..];
    }
  }

  /** Lines without breaks in them are read back from a file that ends each with one or more line
      breaks of any kind; the last one needs none. */
  lemma {:induction false} LinesOfWritten(lines: seq<string>, breaks: seq<string>)
    requires |lines| == |breaks|
    requires forall i :: 0 <= i < |lines| ==> Unbroken(lines[i]) && lines[i] != [] && AllBreaks(breaks[i])
    requires forall i :: 0 <= i < |lines| - 1 ==> breaks[i] != []
    ensures Lines(Written(lines, breaks)) == lines
  {
    if lines != [] {
      LinesOfWritten(lines[1..], breaks[1..]);
      LineThenBreaks(lines[0], breaks[0], Written(lines[1..], breaks[1..]));
    }
  }

  /** A list of fields that survives writing and reading. */
  predicate Readable(fields: seq<string>) {
    |fields| > 0 && CommaFree(fields) && fields[|fields| - 1] != []
    && forall i :: 0 <= i < |fields| ==> Unbroken(fields[i])
  }

  lemma {:induction false} JoinedUnbroken(fields: seq<string>)
    requires forall i :: 0 <= i < |fields| ==> Unbroken(fields[i])
    ensures Unbroken(CommaJoined(fields))
    ensures |fields| > 0 && fields[|fields| - 1] != [] ==> CommaJoined(fields) != []
  {
    if |fields| > 1 {
      JoinedUnbroken(fields[1..]);
    }
  }

  function JoinedLines(records: seq<seq<string>>): (lines: seq<string>)
    ensures |lines| == |records|
  {
    seq(|records|, i requires 0 <= i < |records| => CommaJoined(records[i]))
  }

  /** Writing the columns, the types and the rows of a table and reading the file with a header gives
      the same table, however many blank lines lie between. */
  lemma FileRoundTrip(t: Table, breaks: seq<string>)
    requires t.name == "" && t.keyType == []
    requires Readable(t.columns) && Readable(t.columnsType) && forall r :: 0 <= r < |t.table| ==> Readable(t.table[r])
    requires |breaks| == |t.table| + 2 && forall i :: 0 <= i < |breaks| ==> AllBreaks(breaks[i])
    requires forall i :: 0 <= i < |breaks| - 1 ==> breaks[i] != []
    ensures Assembled(Lines(Written(JoinedLines([t.columns, t.columnsType] + t.table), breaks)), true) == t
  {
    hide Lines, Written, CommaJoined, Fields, Readable;
    var records := [t.columns, t.columnsType] + t.table;
    var lines := JoinedLines(records);
    forall i | 0 <= i < |records| ensures Unbroken(lines[i]) && lines[i] != [] && Fields(lines[i]) == records[i] {
      RecordReadable(t, i);
      ReadableIsReadBack(records[i]);
    }
    LinesOfWritten(lines, breaks);
    AssembledRecords(t, lines);
  }

  lemma RecordReadable(t: Table, i: nat)
    requires Readable(t.columns) && Readable(t.columnsType) && forall r :: 0 <= r < |t.table| ==> Readable(t.table[r])
    requires i < |t.table| + 2
    ensures Readable(([t.columns, t.columnsType] + t.table)[i])
  {
    hide Readable;
  }

  lemma AssembledRecords(t: Table, lines: seq<string>)
    requires t.name == "" && t.keyType == [] && |lines| == |t.table| + 2
    requires forall i :: 0 <= i < |lines| ==> Fields(lines[i]) == ([t.columns, t.columnsType] + t.table)[i]
    ensures Assembled(lines, true) == t
  {
    hide Fields;
    assert Assembled(lines, true).table == t.table;
  }

  lemma ReadableIsReadBack(fields: seq<string>)
    requires Readable(fields)
    ensures Unbroken(CommaJoined(fields)) && CommaJoined(fields) != [] && Fields(CommaJoined(fields)) == fields
  {
    JoinedUnbroken(fields);
    FieldsRoundTripIff(fields);
  }
}
