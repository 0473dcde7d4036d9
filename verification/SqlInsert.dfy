/** What the INSERT statements of a dump load: reading them back gives the table that was dumped. */
module SqlInsert {
  import opened Text
  import opened SqlScan
  import opened SqlExport
  import opened SqlReader
  import SqlLimit

  /** A value as the server reads it; a number is the text it was written with. */
  datatype Cell = NullCell | BoolCell(b: bool) | NumberCell(text: string) | BytesCell(bytes: seq<Byte>) | TextCell(s: string)

  /** What a value becomes on the way: MySQL has no booleans, only 1 and 0. */
  function CellOf(mysql: bool, v: Value): Cell {
    match v
    case Null => NullCell
    case Bool(b) => if mysql then NumberCell(if b then "1" else "0") else BoolCell(b)
    case Int(i) => NumberCell(IntText(i))
    case Float(text) => NumberCell(text)
    case Binary(bytes) => BytesCell(bytes)
    case Text(s) => TextCell(s)
  }

  function CellsOf(mysql: bool, row: seq<Value>): (r: seq<Cell>)
    ensures |r| == |row|
  {
    if row == [] then [] else [CellOf(mysql, row[0])] + CellsOf(mysql, row[1..])
  }

  function TableOf(mysql: bool, rows: seq<seq<Value>>): (r: seq<seq<Cell>>)
    ensures |r| == |rows|
  {
    if rows == [] then [] else [CellsOf(mysql, rows[0])] + TableOf(mysql, rows[1..])
  }

  predicate Numeric(mysql: bool, v: Value) {
    v.Int? || v.Float? || (mysql && v.Bool?)
  }

  /** Values that are read alike are the same, but for numbers written alike by different types. */
  lemma CellsTellApart(mysql: bool, v: Value, w: Value)
    requires CellOf(mysql, v) == CellOf(mysql, w)
    ensures v == w || (Numeric(mysql, v) && Numeric(mysql, w) && (v.Int? ==> !w.Int?))
  {
    if v.Int? && w.Int? {
      IntTextIs(v.i, w.i);
    }
  }

  // ---------------------------------------------------------------- reading a literal

  function HexValue(c: char): Option<nat> {
    if '0' <= c <= '9' then Some((c - '0') as nat)
    else if 'a' <= c <= 'f' then Some((c - 'a') as nat + 10)
    else None
  }

  function UnHex(s: string): Option<seq<Byte>> {
    if s == [] then Some([])
    else if |s| == 1 then None
    else
      var high, low, rest := HexValue(s[0]), HexValue(s[1]), UnHex(s[2..]);
      if high.None? || low.None? || rest.None? then None
      else
        var b := 16 * high.value + low.value;
        if b < 256 then Some([b] + rest.value) else None
  }

  /** Where a word ends: at a comma or a closing parenthesis. */
  function WordEnd(s: string): (n: nat)
    ensures n <= |s|
  {
    if s == [] || s[0] == ',' || s[0] == ')' then 0 else 1 + WordEnd(s[1..])
  }

  function WordCell(mysql: bool, word: string): Cell {
    if word == "NULL" then NullCell
    else if !mysql && word == "TRUE" then BoolCell(true)
    else if !mysql && word == "FALSE" then BoolCell(false)
    else NumberCell(word)
  }

  function BytesOf(s: string, rest: string): Parsed<Cell> {
    var bytes := UnHex(s);
    if bytes.None? then Failed else Parsed(BytesCell(bytes.value), rest)
  }

  const BYTEA := "::bytea"

  function ReadLiteral(mysql: bool, s: string): Parsed<Cell> {
    if "'" <= s then
      match ReadString(mysql, s)
      case Failed => Failed
      case Parsed(text, rest) =>
        if !mysql && BYTEA <= rest then (if "\\x" <= text then BytesOf(text[2..], rest[7..]) else Failed)
        else Parsed(TextCell(text), rest)
    else if mysql && "X'" <= s then
      match ReadString(mysql, s[1..])
      case Failed => Failed
      case Parsed(text, rest) => BytesOf(text, rest)
    else
      var n := WordEnd(s);
      if n == 0 then Failed else Parsed(WordCell(mysql, s[..n]), s[n..])
  }

  /** The text goes on with the next item of a list or with its end. */
  predicate Stops(s: string) {
    s != [] && (s[0] == ',' || s[0] == ')')
  }

  /** The bytes of a floating-point number as the runtime library prints it. */
  predicate FloatByte(c: char) {
    '0' <= c <= '9' || c == '-' || c == '+' || c == '.' || c == 'e' || c == 'N' || c == 'a' || c == 'I' || c == 'n' || c == 'f'
  }

  predicate FloatText(s: string) {
    s != [] && forall i :: 0 <= i < |s| ==> FloatByte(s[i])
  }

  predicate Plain(v: Value) {
    v.Float? ==> FloatText(v.text)
  }

  lemma {:induction false} WordEnds(word: string, rest: string)
    requires Stops(rest) && forall i :: 0 <= i < |word| ==> word[i] != ',' && word[i] != ')'
    ensures WordEnd(word + rest) == |word|
  {
    if word == [] {
      assert word + rest == rest;
    } else {
      assert (word + rest)[1..] == word[1..] + rest;
      WordEnds(word[1..], rest);
    }
  }

  /** A word of plain bytes is read as one, unless it starts like a quoted literal. */
  lemma WordReads(mysql: bool, word: string, rest: string)
    requires Stops(rest) && word != [] && word[0] != '\'' && word[0] != 'X'
    requires forall i :: 0 <= i < |word| ==> word[i] != ',' && word[i] != ')'
    ensures ReadLiteral(mysql, word + rest) == Parsed(WordCell(mysql, word), rest)
  {
    WordEnds(word, rest);
    var s := word + rest;
    assert s[0] == word[0] && s[..|word|] == word && s[|word|..] == rest;
  }

  lemma FloatWord(mysql: bool, word: string)
    requires FloatText(word)
    ensures WordCell(mysql, word) == NumberCell(word) && word[0] != '\'' && word[0] != 'X'
    ensures forall i :: 0 <= i < |word| ==> word[i] != ',' && word[i] != ')'
  {
    assert FloatByte(word[0]);
    assert |word| > 1 ==> FloatByte(word[1]);
    assert "NULL"[1] == 'U' && "TRUE"[0] == 'T' && "FALSE"[0] == 'F';
  }

  lemma IntIsFloat(i: int)
    ensures FloatText(IntText(i))
  {
  }

  lemma {:induction false} HexReads(bytes: seq<Byte>)
    ensures UnHex(Hex(bytes)) == Some(bytes)
  {
    if bytes != [] {
      HexReads(bytes[1..]);
      var high, low := bytes[0] / 16, bytes[0] % 16;
      var s := [HexDigit(high), HexDigit(low)] + Hex(bytes[1..]);
      assert s[0] == HexDigit(high) && s[1] == HexDigit(low) && s[2..] == Hex(bytes[1..]);
      assert HexValue(HexDigit(high)) == Some(high) && HexValue(HexDigit(low)) == Some(low);
      assert [bytes[0]] + bytes[1..] == bytes;
    }
  }

  lemma {:induction false} PlainEscape(mysql: bool, s: string)
    requires forall i :: 0 <= i < |s| ==> s[i] != '\'' && s[i] != '\0' && s[i] != '\U{1A}' && (mysql ==> s[i] != '\\')
    ensures Escape(mysql, s) == s
  {
    if s != [] {
      PlainEscape(mysql, s[1..]);
      assert [s[0]] + s[1..] == s;
    }
  }

  lemma BytesRead(mysql: bool, bytes: seq<Byte>, rest: string)
    requires Stops(rest)
    ensures ReadLiteral(mysql, Literal(mysql, Binary(bytes)) + rest) == Parsed(BytesCell(bytes), rest)
  {
    HexReads(bytes);
    if mysql {
      PlainEscape(true, Hex(bytes));
      StringReads(true, Hex(bytes), rest);
      HexText(Hex(bytes), rest);
    } else {
      ByteaReads(bytes, Hex(bytes), rest);
    }
  }

  lemma ByteaReads(bytes: seq<Byte>, hex: string, rest: string)
    requires hex == Hex(bytes) && UnHex(hex) == Some(bytes)
    ensures ReadLiteral(false, "'\\x" + hex + "'::bytea" + rest) == Parsed(BytesCell(bytes), rest)
  {
    var text := "\\x" + hex;
    PlainEscape(false, text);
    StringReads(false, text, BYTEA + rest);
    ByteaText(hex, rest);
    assert text[2..] == hex;
  }

  lemma HexText(hex: string, rest: string)
    ensures var s := "X'" + hex + "'" + rest; s[0] == 'X' && "X'" <= s && s[1..] == "'" + hex + "'" + rest
  {
  }

  lemma ByteaText(hex: string, rest: string)
    ensures var s := "'\\x" + hex + "'::bytea" + rest;
            s == ("'" + ("\\x" + hex) + "'") + (BYTEA + rest) && "'" <= s
    ensures BYTEA <= BYTEA + rest && (BYTEA + rest)[7..] == rest
  {
  }

  lemma TextReads(mysql: bool, s: string, rest: string)
    requires Stops(rest)
    ensures ReadLiteral(mysql, QuoteString(mysql, s) + rest) == Parsed(TextCell(s), rest)
  {
    StringReads(mysql, s, rest);
    assert (QuoteString(mysql, s) + rest)[0] == '\'';
    assert BYTEA[0] == ':';
  }

  /** Every literal is read as its value, whatever bytes it has. */
  lemma LiteralReads(mysql: bool, v: Value, rest: string)
    requires Plain(v) && Stops(rest)
    ensures ReadLiteral(mysql, Literal(mysql, v) + rest) == Parsed(CellOf(mysql, v), rest)
  {
    match v
    case Binary(bytes) => BytesRead(mysql, bytes, rest);
    case Text(s) => TextReads(mysql, s, rest);
    case Int(i) =>
      IntIsFloat(i);
      FloatWord(mysql, IntText(i));
      WordReads(mysql, IntText(i), rest);
    case Float(text) =>
      FloatWord(mysql, text);
      WordReads(mysql, text, rest);
    case _ => WordReads(mysql, Literal(mysql, v), rest);
  }

  // ---------------------------------------------------------------- lists

  /** Items up to the first that is not followed by the separator. */
  function ReadItems<T>(read: string -> Parsed<T>, sep: string, s: string): Parsed<seq<T>>
    decreases |s|
  {
    match read(s)
    case Failed => Failed
    case Parsed(item, rest) =>
      match Strip(rest, sep)
      case None => Parsed([item], rest)
      case Some(more) =>
        if |more| >= |s| then Failed
        else
          match ReadItems(read, sep, more)
          case Failed => Failed
          case Parsed(items, end) => Parsed([item] + items, end)
  }

  /** A list in parentheses may be empty. */
  function ReadList<T>(read: string -> Parsed<T>, s: string): Parsed<seq<T>> {
    if ")" <= s then Parsed([], s) else ReadItems(read, ", ", s)
  }

  /** The text reads as the item before whatever may follow it in a list with this end. */
  ghost predicate ReadsAs<T(!new)>(read: string -> Parsed<T>, text: string, item: T, sep: string, end: string) {
    && text != []
    && (forall more :: read(text + (sep + more)) == Parsed(item, sep + more))
    && read(text + end) == Parsed(item, end)
  }

  lemma {:induction false} ItemsRead<T(!new)>(
    read: string -> Parsed<T>, texts: seq<string>, items: seq<T>, sep: string, end: string)
    requires |texts| == |items| > 0 && sep != [] && !(sep <= end)
    requires forall i :: 0 <= i < |texts| ==> ReadsAs(read, texts[i], items[i], sep, end)
    ensures ReadItems(read, sep, Join(texts, sep) + end) == Parsed(items, end)
  {
    assert ReadsAs(read, texts[0], items[0], sep, end);
    if |texts| == 1 {
      assert Join(texts, sep) == texts[0] && items == [items[0]];
    } else {
      var more := Join(texts[1..], sep) + end;
      ItemsRead(read, texts[1..], items[1..], sep, end);
      JoinMore(texts[0], sep, Join(texts[1..], sep), end);
      StripWord(sep, more);
      assert items == [items[0]] + items[1..];
    }
  }

  lemma JoinMore(first: string, sep: string, rest: string, end: string)
    ensures (first + sep + rest) + end == first + (sep + (rest + end))
  {
  }

  // ---------------------------------------------------------------- reading an INSERT

  datatype Insertion = Insertion(table: string, columns: seq<string>, rows: seq<seq<Cell>>)

  const ROW_BREAK := ",\n"

  function LiteralReader(mysql: bool): string -> Parsed<Cell> {
    (s: string) => ReadLiteral(mysql, s)
  }

  function IdentReader(mysql: bool): string -> Parsed<string> {
    (s: string) => ReadIdent(mysql, s)
  }

  function RowReader(mysql: bool): string -> Parsed<seq<Cell>> {
    (s: string) => ReadRow(mysql, s)
  }

  function ReadRow(mysql: bool, s: string): Parsed<seq<Cell>> {
    match Strip(s, "(")
    case None => Failed
    case Some(inner) =>
      match ReadList(LiteralReader(mysql), inner)
      case Failed => Failed
      case Parsed(cells, rest) =>
        match Strip(rest, ")")
        case None => Failed
        case Some(end) => Parsed(cells, end)
  }

  /** Table, columns and rows of an INSERT statement. */
  function ReadInsert(mysql: bool, s: string): Option<Insertion> {
    match Strip(s, INSERT_INTO)
    case None => None
    case Some(s1) =>
      match ReadIdent(mysql, s1)
      case Failed => None
      case Parsed(table, s2) =>
        match Strip(s2, OPEN_LIST)
        case None => None
        case Some(s3) => ReadColumns(mysql, table, s3)
  }

  function ReadColumns(mysql: bool, table: string, s: string): Option<Insertion> {
    match ReadList(IdentReader(mysql), s)
    case Failed => None
    case Parsed(columns, rest) =>
      match Strip(rest, VALUES)
      case None => None
      case Some(values) =>
        match ReadItems(RowReader(mysql), ROW_BREAK, values)
        case Failed => None
        case Parsed(rows, end) => if end == "" then Some(Insertion(table, columns, rows)) else None
  }

  predicate PlainRow(row: seq<Value>) {
    forall i :: 0 <= i < |row| ==> Plain(row[i])
  }

  predicate PlainRows(rows: seq<seq<Value>>) {
    forall i :: 0 <= i < |rows| ==> PlainRow(rows[i])
  }

  lemma LiteralReadsAs(mysql: bool, v: Value, rest: string)
    requires Plain(v)
    ensures ReadsAs(LiteralReader(mysql), Literal(mysql, v), CellOf(mysql, v), ", ", ")" + rest)
    ensures Literal(mysql, v)[0] != ')'
  {
    var read, text, cell := LiteralReader(mysql), Literal(mysql, v), CellOf(mysql, v);
    LiteralStarts(mysql, v);
    forall more ensures read(text + (", " + more)) == Parsed(cell, ", " + more) {
      LiteralReads(mysql, v, ", " + more);
    }
    LiteralReads(mysql, v, ")" + rest);
  }

  lemma LiteralStarts(mysql: bool, v: Value)
    requires Plain(v)
    ensures Literal(mysql, v) != [] && Literal(mysql, v)[0] != ')'
  {
    if v.Int? {
      IntIsFloat(v.i);
    }
  }

  lemma {:induction false} LiteralAt(mysql: bool, row: seq<Value>, i: nat)
    requires i < |row|
    ensures |Literals(mysql, row)| == |row| && Literals(mysql, row)[i] == Literal(mysql, row[i])
    ensures CellsOf(mysql, row)[i] == CellOf(mysql, row[i])
  {
    if |row| > 1 {
      LiteralAt(mysql, row[1..], if i > 0 then i - 1 else 0);
    }
  }

  lemma CellsRead(mysql: bool, row: seq<Value>, rest: string)
    requires PlainRow(row)
    ensures ReadList(LiteralReader(mysql), Join(Literals(mysql, row), ", ") + (")" + rest)) ==
            Parsed(CellsOf(mysql, row), ")" + rest)
  {
    var texts, end := Literals(mysql, row), ")" + rest;
    if row == [] {
      assert Join(texts, ", ") + end == end;
    } else {
      forall i | 0 <= i < |row|
        ensures |texts| == |row| && ReadsAs(LiteralReader(mysql), texts[i], CellsOf(mysql, row)[i], ", ", end)
      {
        LiteralAt(mysql, row, i);
        LiteralReadsAs(mysql, row[i], rest);
      }
      LiteralAt(mysql, row, 0);
      LiteralStarts(mysql, row[0]);
      JoinStarts(texts, ", ", end);
      assert end[0] == ')' && ", "[0] == ',';
      ItemsRead(LiteralReader(mysql), texts, CellsOf(mysql, row), ", ", end);
    }
  }

  lemma JoinStarts(texts: seq<string>, sep: string, end: string)
    requires texts != [] && texts[0] != []
    ensures (Join(texts, sep) + end)[0] == texts[0][0]
  {
  }

  lemma RowReads(mysql: bool, row: seq<Value>, rest: string)
    requires PlainRow(row)
    ensures ReadRow(mysql, RowText(mysql, row) + rest) == Parsed(CellsOf(mysql, row), rest)
  {
    var body := Join(Literals(mysql, row), ", ");
    Parens(body, rest);
    StripWord("(", body + (")" + rest));
    CellsRead(mysql, row, rest);
    StripWord(")", rest);
  }

  lemma Parens(body: string, rest: string)
    ensures ("(" + body + ")") + rest == "(" + (body + (")" + rest))
  {
  }

  lemma {:induction false} RowAt(mysql: bool, rows: seq<seq<Value>>, i: nat)
    requires i < |rows|
    ensures RowTexts(mysql, rows)[i] == RowText(mysql, rows[i]) && TableOf(mysql, rows)[i] == CellsOf(mysql, rows[i])
  {
    if |rows| > 1 {
      RowAt(mysql, rows[1..], if i > 0 then i - 1 else 0);
    }
  }

  lemma RowsRead(mysql: bool, rows: seq<seq<Value>>)
    requires rows != [] && PlainRows(rows)
    ensures ReadItems(RowReader(mysql), ROW_BREAK, Join(RowTexts(mysql, rows), ROW_BREAK)) ==
            Parsed(TableOf(mysql, rows), "")
  {
    var texts, read := RowTexts(mysql, rows), RowReader(mysql);
    forall i | 0 <= i < |rows| ensures ReadsAs(read, texts[i], TableOf(mysql, rows)[i], ROW_BREAK, "") {
      RowAt(mysql, rows, i);
      forall more ensures read(texts[i] + (ROW_BREAK + more)) == Parsed(TableOf(mysql, rows)[i], ROW_BREAK + more) {
        RowReads(mysql, rows[i], ROW_BREAK + more);
      }
      RowReads(mysql, rows[i], "");
    }
    ItemsRead(read, texts, TableOf(mysql, rows), ROW_BREAK, "");
    assert Join(texts, ROW_BREAK) + "" == Join(texts, ROW_BREAK);
  }

  lemma {:induction false} IdentAt(mysql: bool, names: seq<string>, i: nat)
    requires i < |names|
    ensures |Idents(mysql, names)| == |names| && Idents(mysql, names)[i] == QuoteIdent(mysql, names[i])
  {
    if |names| > 1 {
      IdentAt(mysql, names[1..], if i > 0 then i - 1 else 0);
    }
  }

  lemma IdentReadsAs(mysql: bool, name: string, end: string)
    requires Stops(end)
    ensures ReadsAs(IdentReader(mysql), QuoteIdent(mysql, name), name, ", ", end)
  {
    var read, text := IdentReader(mysql), QuoteIdent(mysql, name);
    forall more ensures read(text + (", " + more)) == Parsed(name, ", " + more) {
      IdentReads(mysql, name, ", " + more);
    }
    IdentReads(mysql, name, end);
  }

  lemma ColumnsRead(mysql: bool, names: seq<string>, end: string)
    requires ")" <= end
    ensures ReadList(IdentReader(mysql), Join(Idents(mysql, names), ", ") + end) == Parsed(names, end)
  {
    var texts := Idents(mysql, names);
    if names == [] {
      assert Join(texts, ", ") + end == end;
    } else {
      forall i | 0 <= i < |names|
        ensures |texts| == |names| && ReadsAs(IdentReader(mysql), texts[i], names[i], ", ", end)
      {
        IdentAt(mysql, names, i);
        IdentReadsAs(mysql, names[i], end);
      }
      IdentAt(mysql, names, 0);
      JoinStarts(texts, ", ", end);
      IdentReads(mysql, names[0], end);
      ItemsRead(IdentReader(mysql), texts, names, ", ", end);
    }
  }

  /** An INSERT statement of a dump reads as the table, the columns and the rows it was made from. */
  lemma InsertReads(mysql: bool, table: string, columns: seq<string>, batch: seq<seq<Value>>)
    requires batch != [] && PlainRows(batch)
    ensures ReadInsert(mysql, Insert(mysql, Head(mysql, table, columns), batch)) ==
            Some(Insertion(table, columns, TableOf(mysql, batch)))
  {
    var values := Join(RowTexts(mysql, batch), ROW_BREAK);
    var names := Join(Idents(mysql, columns), ", ");
    HeadParts(INSERT_INTO, QuoteIdent(mysql, table), OPEN_LIST, names, VALUES, values);
    var s3 := names + (VALUES + values);
    var s2 := OPEN_LIST + s3;
    StripWord(INSERT_INTO, QuoteIdent(mysql, table) + s2);
    IdentReads(mysql, table, s2);
    StripWord(OPEN_LIST, s3);
    ColumnsRead(mysql, columns, VALUES + values);
    StripWord(VALUES, values);
    RowsRead(mysql, batch);
  }

  lemma HeadParts(a: string, b: string, c: string, d: string, e: string, f: string)
    ensures (a + (b + (c + (d + e)))) + f == a + (b + (c + (d + (e + f))))
  {
  }

  // ---------------------------------------------------------------- loading a dump

  /** One row as it is inserted. */
  datatype Record = Record(table: string, columns: seq<string>, cells: seq<Cell>)

  function Records(table: string, columns: seq<string>, rows: seq<seq<Cell>>): seq<Record> {
    if rows == [] then [] else [Record(table, columns, rows[0])] + Records(table, columns, rows[1..])
  }

  /** The rows a list of statements inserts, in order. */
  function Loaded(mysql: bool, stmts: seq<string>): seq<Record> {
    if stmts == [] then []
    else
      var ins := ReadInsert(mysql, stmts[0]);
      (if ins.Some? then Records(ins.value.table, ins.value.columns, ins.value.rows) else []) + Loaded(mysql, stmts[1..])
  }

  lemma {:induction false} LoadedConcat(mysql: bool, a: seq<string>, b: seq<string>)
    ensures Loaded(mysql, a + b) == Loaded(mysql, a) + Loaded(mysql, b)
  {
    if a == [] {
      assert a + b == b && [] + Loaded(mysql, b) == Loaded(mysql, b);
    } else {
      assert (a + b)[1..] == a[1..] + b && (a + b)[0] == a[0];
      LoadedConcat(mysql, a[1..], b);
      var ins := ReadInsert(mysql, a[0]);
      Assoc(if ins.Some? then Records(ins.value.table, ins.value.columns, ins.value.rows) else [],
            Loaded(mysql, a[1..]), Loaded(mysql, b));
    }
  }

  lemma {:induction false} RecordsConcat(mysql: bool, table: string, columns: seq<string>, a: seq<seq<Value>>, b: seq<seq<Value>>)
    ensures Records(table, columns, TableOf(mysql, a + b)) ==
            Records(table, columns, TableOf(mysql, a)) + Records(table, columns, TableOf(mysql, b))
  {
    if a == [] {
      assert a + b == b;
    } else {
      assert (a + b)[1..] == a[1..] + b && (a + b)[0] == a[0];
      RecordsConcat(mysql, table, columns, a[1..], b);
      RecordsCons(mysql, table, columns, a);
      RecordsCons(mysql, table, columns, a + b);
      Assoc([Record(table, columns, CellsOf(mysql, a[0]))], Records(table, columns, TableOf(mysql, a[1..])),
            Records(table, columns, TableOf(mysql, b)));
    }
  }

  lemma RecordsCons(mysql: bool, table: string, columns: seq<string>, rows: seq<seq<Value>>)
    requires rows != []
    ensures Records(table, columns, TableOf(mysql, rows)) ==
            [Record(table, columns, CellsOf(mysql, rows[0]))] + Records(table, columns, TableOf(mysql, rows[1..]))
  {
    assert TableOf(mysql, rows)[1..] == TableOf(mysql, rows[1..]);
  }

  lemma {:induction false} InsertsLoad(mysql: bool, table: string, columns: seq<string>, batches: seq<seq<seq<Value>>>)
    requires forall i :: 0 <= i < |batches| ==> batches[i] != [] && PlainRows(batches[i])
    ensures Loaded(mysql, Inserts(mysql, Head(mysql, table, columns), batches)) ==
            Records(table, columns, TableOf(mysql, Concat(batches)))
  {
    if batches != [] {
      InsertsLoad(mysql, table, columns, batches[1..]);
      InsertReads(mysql, table, columns, batches[0]);
      RecordsConcat(mysql, table, columns, batches[0], Concat(batches[1..]));
      FirstLoads(mysql, Insert(mysql, Head(mysql, table, columns), batches[0]),
                 Inserts(mysql, Head(mysql, table, columns), batches[1..]));
    }
  }

  lemma FirstLoads(mysql: bool, stmt: string, more: seq<string>)
    ensures var ins := ReadInsert(mysql, stmt);
            Loaded(mysql, [stmt] + more) ==
            (if ins.Some? then Records(ins.value.table, ins.value.columns, ins.value.rows) else []) + Loaded(mysql, more)
  {
    assert ([stmt] + more)[1..] == more;
  }

  lemma SetValLoads(stmt: string, rest: string)
    requires stmt == SETVAL + rest
    ensures ReadInsert(false, stmt) == None
  {
    assert stmt[0] == 'S' && INSERT_INTO[0] == 'I';
    StripNot(stmt, INSERT_INTO, 0);
  }

  lemma {:induction false} SetValsLoad(table: string, serials: seq<string>)
    ensures Loaded(false, SetVals(table, serials)) == []
  {
    if serials != [] {
      var qt, col := QuoteIdent(false, table), serials[0];
      var max := MaxText(table, col);
      SetValLoads(SetVal(table, col), QuoteString(false, qt) + (COMMA + (QuoteString(false, col) + (COALESCE_MAX + max))));
      SetValsLoad(table, serials[1..]);
      FirstLoads(false, SetVal(table, col), SetVals(table, serials[1..]));
    }
  }

  lemma {:induction false} BatchesPlain(batches: seq<seq<seq<Value>>>, rows: seq<seq<Value>>)
    requires Concat(batches) == rows && PlainRows(rows)
    ensures forall i :: 0 <= i < |batches| ==> PlainRows(batches[i])
  {
    if batches != [] {
      var first, more := batches[0], Concat(batches[1..]);
      assert rows == first + more;
      assert forall k :: 0 <= k < |first| ==> first[k] == rows[k];
      assert forall k :: 0 <= k < |more| ==> more[k] == rows[|first| + k];
      BatchesPlain(batches[1..], more);
      assert forall i :: 0 < i < |batches| ==> batches[i] == batches[1..][i - 1];
    }
  }

  /** The statements of a dump load exactly the rows of the table, in order. */
  lemma DumpLoads(mysql: bool, table: string, columns: seq<string>, rows: seq<seq<Value>>, serials: seq<string>)
    requires PlainRows(rows)
    ensures Loaded(mysql, DumpStatements(mysql, table, columns, rows, serials)) ==
            Records(table, columns, TableOf(mysql, rows))
  {
    var batches := Batches(mysql, rows, [], 0);
    BatchesCoverRows(mysql, rows, [], 0);
    assert [] + rows == rows;
    BatchesPlain(batches, rows);
    InsertsLoad(mysql, table, columns, batches);
    LoadedConcat(mysql, Inserts(mysql, Head(mysql, table, columns), batches), if mysql then [] else SetVals(table, serials));
    SetValsLoad(table, serials);
  }

  /** Dumping a table, splitting the text again and reading the statements is the identity on it. */
  lemma TableRoundTrip(mysql: bool, max: nat, table: string, columns: seq<string>, rows: seq<seq<Value>>, serials: seq<string>)
    requires '\n' !in table && RowsOk(rows) && PlainRows(rows)
    requires max == |DumpText(mysql, table, DumpStatements(mysql, table, columns, rows, serials))| + 1
    ensures var text := DumpText(mysql, table, DumpStatements(mysql, table, columns, rows, serials));
            Loaded(mysql, Run(Config(mysql, max, false), Start(text)).stmts) ==
            Records(table, columns, TableOf(mysql, rows))
  {
    SqlLimit.SplitDump(mysql, max, table, columns, rows, serials);
    DumpLoads(mysql, table, columns, rows, serials);
  }
}
