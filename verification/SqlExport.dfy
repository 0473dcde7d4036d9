/** The dump exporter: literals, identifiers and batched INSERTs, and what reading them back gives. */
module SqlExport {
  import opened Text
  import opened SqlScan
  import opened SqlTokens

  const BATCH_ROWS := 100
  const BATCH_BYTES := 524288

  // The fixed parts of the statements of a dump.
  const INSERT_INTO := "INSERT INTO "
  const VALUES := ") VALUES\n"
  const OPEN_LIST := " ("
  const SETVAL := "SELECT setval(pg_get_serial_sequence("
  const COALESCE_MAX := "), COALESCE(MAX("
  const AND_MAX := "), 1), MAX("
  const COMMA := ", "
  const FROM_TABLE := ") IS NOT NULL) FROM "

  /** The text of a floating-point literal: printed by the runtime library, only its bytes matter here. */
  predicate NumberText(s: string) {
    && s != [] && s[|s| - 1] != '-'
    && (forall i :: 0 <= i < |s| ==> s[i] == '-' || Inert(s[i]))
    && (forall i :: 0 < i < |s| ==> !(s[i - 1] == '-' && s[i] == '-'))
  }

  /** A scanned cell. Times, byte strings that are text and anything else are rendered as Text. */
  datatype Value = Null | Bool(b: bool) | Int(i: int) | Float(text: string) | Binary(bytes: seq<Byte>) | Text(s: string)

  predicate ValueOk(v: Value) {
    v.Float? ==> NumberText(v.text)
  }

  // ------------------------------------------------------------ printers

  /** The replacement of one byte inside a quoted string literal. */
  function EscapeByte(mysql: bool, c: char): string {
    if c == '\'' then "''"
    else if mysql && c == '\\' then "\\\\"
    else if mysql && c == '\0' then "\\0"
    else if mysql && c == '\U{1A}' then "\\Z"
    else [c]
  }

  function Escape(mysql: bool, s: string): string {
    if s == [] then "" else EscapeByte(mysql, s[0]) + Escape(mysql, s[1..])
  }

  function QuoteString(mysql: bool, s: string): string {
    "'" + Escape(mysql, s) + "'"
  }

  function IdentQuote(mysql: bool): char {
    if mysql then '`' else '"'
  }

  function DoubleQuotes(q: char, s: string): string {
    if s == [] then "" else (if s[0] == q then [q, q] else [s[0]]) + DoubleQuotes(q, s[1..])
  }

  function QuoteIdent(mysql: bool, s: string): string {
    [IdentQuote(mysql)] + DoubleQuotes(IdentQuote(mysql), s) + [IdentQuote(mysql)]
  }

  function HexDigit(k: nat): char
    requires k < 16
  {
    if k < 10 then '0' + k as char else 'a' + (k - 10) as char
  }

  function Hex(bytes: seq<Byte>): (s: string)
    ensures forall i :: 0 <= i < |s| ==> '0' <= s[i] <= '9' || 'a' <= s[i] <= 'f'
  {
    if bytes == [] then "" else [HexDigit(bytes[0] / 16), HexDigit(bytes[0] % 16)] + Hex(bytes[1..])
  }

  function Literal(mysql: bool, v: Value): string {
    match v
    case Null => "NULL"
    case Bool(b) => if mysql then (if b then "1" else "0") else (if b then "TRUE" else "FALSE")
    case Int(i) => IntText(i)
    case Float(text) => text
    case Binary(bytes) => if mysql then "X'" + Hex(bytes) + "'" else "'\\x" + Hex(bytes) + "'::bytea"
    case Text(s) => QuoteString(mysql, s)
  }

  function Literals(mysql: bool, row: seq<Value>): seq<string> {
    if row == [] then [] else [Literal(mysql, row[0])] + Literals(mysql, row[1..])
  }

  function RowText(mysql: bool, row: seq<Value>): string {
    "(" + Join(Literals(mysql, row), ", ") + ")"
  }

  function Idents(mysql: bool, names: seq<string>): seq<string> {
    if names == [] then [] else [QuoteIdent(mysql, names[0])] + Idents(mysql, names[1..])
  }

  function Head(mysql: bool, table: string, columns: seq<string>): string {
    INSERT_INTO + (QuoteIdent(mysql, table) + (OPEN_LIST + (Join(Idents(mysql, columns), ", ") + VALUES)))
  }

  function RowTexts(mysql: bool, rows: seq<seq<Value>>): (r: seq<string>)
    ensures |r| == |rows|
  {
    if rows == [] then [] else [RowText(mysql, rows[0])] + RowTexts(mysql, rows[1..])
  }

  /** One batched INSERT statement. */
  function Insert(mysql: bool, head: string, batch: seq<seq<Value>>): string {
    head + Join(RowTexts(mysql, batch), ",\n")
  }

  function SetVal(table: string, col: string): string {
    SetValText(QuoteIdent(false, table), col, MaxText(table, col))
  }

  function SetValText(qt: string, col: string, max: string): string {
    SETVAL + (QuoteString(false, qt) + (COMMA + (QuoteString(false, col) + (COALESCE_MAX + max))))
  }

  function MaxText(table: string, col: string): string {
    var qc, qt := QuoteIdent(false, col), QuoteIdent(false, table);
    qc + (AND_MAX + (qc + (FROM_TABLE + qt)))
  }

  // ------------------------------------------------------------ batches

  /** Where the row buffer is flushed: at 100 rows, or once it holds half a mebibyte of text. */
  function Batches(mysql: bool, rows: seq<seq<Value>>, batch: seq<seq<Value>>, size: nat): seq<seq<seq<Value>>>
    decreases |rows|
  {
    if rows == [] then if batch == [] then [] else [batch]
    else
      var b, n := batch + [rows[0]], size + |RowText(mysql, rows[0])|;
      if |b| >= BATCH_ROWS || n >= BATCH_BYTES then [b] + Batches(mysql, rows[1..], [], 0)
      else Batches(mysql, rows[1..], b, n)
  }

  /** The batches joined are all the rows in order; none is empty and none is longer than 100 rows. */
  lemma {:induction false} BatchesCoverRows(mysql: bool, rows: seq<seq<Value>>, batch: seq<seq<Value>>, size: nat)
    requires |batch| < BATCH_ROWS
    ensures var bs := Batches(mysql, rows, batch, size);
            && Concat(bs) == batch + rows
            && forall i :: 0 <= i < |bs| ==> 1 <= |bs[i]| <= BATCH_ROWS
    decreases |rows|
  {
    if rows == [] {
      assert Concat([batch]) == batch + Concat([]);
    } else {
      var b, n := batch + [rows[0]], size + |RowText(mysql, rows[0])|;
      assert batch + rows == b + rows[1..];
      if |b| >= BATCH_ROWS || n >= BATCH_BYTES {
        BatchesCoverRows(mysql, rows[1..], [], 0);
        var bs := Batches(mysql, rows[1..], [], 0);
        assert ([b] + bs)[1..] == bs;
      } else {
        BatchesCoverRows(mysql, rows[1..], b, n);
      }
    }
  }

  // ------------------------------------------------------------ the exporter

  /** The statements of a dump of one table. */
  function Inserts(mysql: bool, head: string, batches: seq<seq<seq<Value>>>): seq<string> {
    if batches == [] then [] else [Insert(mysql, head, batches[0])] + Inserts(mysql, head, batches[1..])
  }

  function SetVals(table: string, serials: seq<string>): seq<string> {
    if serials == [] then [] else [SetVal(table, serials[0])] + SetVals(table, serials[1..])
  }

  function DumpStatements(mysql: bool, table: string, columns: seq<string>, rows: seq<seq<Value>>, serials: seq<string>): seq<string> {
    Inserts(mysql, Head(mysql, table, columns), Batches(mysql, rows, [], 0)) +
    if mysql then [] else SetVals(table, serials)
  }

  /** Statements as written to a script: each with its semicolon and newline. */
  function Written(stmts: seq<string>): string {
    if stmts == [] then "" else stmts[0] + ";\n" + Written(stmts[1..])
  }

  function DumpText(mysql: bool, table: string, stmts: seq<string>): string {
    "-- Data of " + QuoteIdent(mysql, table) + "\n" + Written(stmts) + "\n"
  }

  /** Streams a table's rows as batched INSERT statements. */
  method ExportTableData(mysql: bool, table: string, columns: seq<string>, rows: seq<seq<Value>>, serials: seq<string>)
    returns (out: string)
    ensures out == DumpText(mysql, table, DumpStatements(mysql, table, columns, rows, serials))
  {
    var inserts := WriteRows(mysql, Head(mysql, table, columns), rows);
    var setvals := "";
    if !mysql {
      setvals := WriteSetVals(table, serials);
    }
    WrittenSum(Inserts(mysql, Head(mysql, table, columns), Batches(mysql, rows, [], 0)),
               if mysql then [] else SetVals(table, serials));
    out := "-- Data of " + QuoteIdent(mysql, table) + "\n" + (inserts + setvals) + "\n";
  }

  /** The text the row loop still has to write, with the rows in batch held back. */
  function RowsText(mysql: bool, head: string, rows: seq<seq<Value>>, batch: seq<string>, size: nat): string
    decreases |rows|
  {
    var flushed := head + Join(batch, ",\n") + ";\n";
    if rows == [] then if batch == [] then "" else flushed
    else
      var line := RowText(mysql, rows[0]);
      var b, n := batch + [line], size + |line|;
      if |b| >= BATCH_ROWS || n >= BATCH_BYTES
      then head + Join(b, ",\n") + ";\n" + RowsText(mysql, head, rows[1..], [], 0)
      else RowsText(mysql, head, rows[1..], b, n)
  }

  method WriteRows(mysql: bool, head: string, rows: seq<seq<Value>>) returns (out: string)
    ensures out == Written(Inserts(mysql, head, Batches(mysql, rows, [], 0)))
  {
    out := "";
    var batch: seq<string> := [];
    var size: nat := 0;
    assert rows[0..] == rows;
    for i := 0 to |rows|
      invariant RowsText(mysql, head, rows, [], 0) == out + RowsText(mysql, head, rows[i..], batch, size)
    {
      var line := RowText(mysql, rows[i]);
      RowsTurn(mysql, head, rows, i, batch, size, out);
      batch, size := batch + [line], size + |line|;
      if |batch| >= BATCH_ROWS || size >= BATCH_BYTES {
        out := out + (head + Join(batch, ",\n") + ";\n");
        batch, size := [], 0;
      }
    }
    assert rows[|rows|..] == [];
    if |batch| > 0 {
      out := out + (head + Join(batch, ",\n") + ";\n");
    }
    RowsTextIsInserts(mysql, head, rows, [], 0);
  }

  lemma RowsTurn(mysql: bool, head: string, rows: seq<seq<Value>>, i: nat, batch: seq<string>, size: nat, out: string)
    requires i < |rows|
    ensures var line := RowText(mysql, rows[i]);
            var b, n := batch + [line], size + |line|;
            out + RowsText(mysql, head, rows[i..], batch, size) ==
            if |b| >= BATCH_ROWS || n >= BATCH_BYTES
            then (out + (head + Join(b, ",\n") + ";\n")) + RowsText(mysql, head, rows[i + 1..], [], 0)
            else out + RowsText(mysql, head, rows[i + 1..], b, n)
  {
    assert rows[i..][0] == rows[i] && rows[i..][1..] == rows[i + 1..];
    var b := batch + [RowText(mysql, rows[i])];
    Assoc(out, head + Join(b, ",\n") + ";\n", RowsText(mysql, head, rows[i + 1..], [], 0));
  }

  lemma {:induction false} RowsTextIsInserts(mysql: bool, head: string, rows: seq<seq<Value>>, held: seq<seq<Value>>, size: nat)
    ensures RowsText(mysql, head, rows, RowTexts(mysql, held), size) ==
            Written(Inserts(mysql, head, Batches(mysql, rows, held, size)))
    decreases |rows|
  {
    if rows == [] {
      if held != [] {
        FirstInsert(mysql, head, held, []);
        assert [held] + [] == [held];
      }
    } else {
      var b, n := held + [rows[0]], size + |RowText(mysql, rows[0])|;
      RowTextsAppend(mysql, held, rows[0]);
      if |b| >= BATCH_ROWS || n >= BATCH_BYTES {
        FirstInsert(mysql, head, b, Batches(mysql, rows[1..], [], 0));
        RowsTextIsInserts(mysql, head, rows[1..], [], 0);
      } else {
        RowsTextIsInserts(mysql, head, rows[1..], b, n);
      }
    }
  }

  method WriteSetVals(table: string, serials: seq<string>) returns (out: string)
    ensures out == Written(SetVals(table, serials))
  {
    out := "";
    assert serials[0..] == serials;
    for i := 0 to |serials|
      invariant Written(SetVals(table, serials)) == out + Written(SetVals(table, serials[i..]))
    {
      assert serials[i..][1..] == serials[i + 1..];
      var stmt := SetVal(table, serials[i]);
      FirstWritten(stmt, SetVals(table, serials[i + 1..]));
      Assoc(out, stmt + ";\n", Written(SetVals(table, serials[i + 1..])));
      out := out + (stmt + ";\n");
    }
  }

  lemma FirstWritten(s: string, rest: seq<string>)
    ensures Written([s] + rest) == (s + ";\n") + Written(rest)
  {
    assert ([s] + rest)[1..] == rest;
  }

  lemma FirstInsert(mysql: bool, head: string, batch: seq<seq<Value>>, rest: seq<seq<seq<Value>>>)
    ensures Written(Inserts(mysql, head, [batch] + rest)) ==
            (head + Join(RowTexts(mysql, batch), ",\n") + ";\n") + Written(Inserts(mysql, head, rest))
  {
    assert ([batch] + rest)[1..] == rest;
    FirstWritten(Insert(mysql, head, batch), Inserts(mysql, head, rest));
  }

  lemma {:induction false} WrittenSum(a: seq<string>, b: seq<string>)
    ensures Written(a + b) == Written(a) + Written(b)
  {
    if a == [] {
      assert a + b == b;
    } else {
      assert (a + b)[1..] == a[1..] + b;
      WrittenSum(a[1..], b);
    }
  }

  lemma {:induction false} RowTextsAppend(mysql: bool, rows: seq<seq<Value>>, row: seq<Value>)
    ensures RowTexts(mysql, rows + [row]) == RowTexts(mysql, rows) + [RowText(mysql, row)]
  {
    if rows == [] {
      assert [row][1..] == [];
    } else {
      assert (rows + [row])[1..] == rows[1..] + [row];
      RowTextsAppend(mysql, rows[1..], row);
    }
  }

  // ------------------------------------------------------------ tokens that mean the same anywhere

  /** A byte that starts nothing, wherever it stands. */
  predicate Inert(c: char) {
    && c != '\'' && c != '"' && c != '`' && c != '-' && c != '#' && c != '/' && c != '$' && c != ';'
    && c != 'd' && c != 'D'
  }

  predicate AllInert(s: string) {
    s == "" || (Inert(s[0]) && AllInert(s[1..]))
  }

  lemma {:induction false} Word(s: string)
    requires forall i :: 0 <= i < |s| ==> Inert(s[i])
    ensures AllInert(s)
  {
    if s != "" {
      Word(s[1..]);
    }
  }

  /** With after behind it, the token is read as itself whatever the scanner read before. */
  predicate SteadyToken(mysql: bool, t: Token, after: string) {
    match t
    case Char(c) => Inert(c) || (c == '-' && !("-" <= after))
    case Quote(q, units) =>
      QuoteChar(mysql, q) && !([q] <= after) &&
      forall i :: 0 <= i < |units| ==> UnitOk(units[i], q, Backslashes(mysql, q))
    case LineComment(text) => '\n' !in text && "-- " <= text && EndsLine(after)
    case End => true
    case _ => false
  }

  predicate Steady(mysql: bool, ts: List<Token>) {
    match ts
    case Nil => true
    case Cons(t, rest) => SteadyToken(mysql, t, Print(rest, ";")) && Steady(mysql, rest)
  }

  lemma SteadyTokenOk(mysql: bool, t: Token, last: char, content: bool, after: string)
    requires SteadyToken(mysql, t, after)
    ensures TokenOk(mysql, t, ";", last, content, after)
  {
    if t.Char? || t.End? {
      var text := PrintToken(t, ";") + after;
      assert text[1..] == after;
      NotCommand(mysql, last, content, text);
      CommentOpens(mysql, text);
      DollarOpens(text);
    } else if t.LineComment? {
      assert (t.text + after)[2] == t.text[2];
    }
  }

  lemma {:induction false} SteadyIsWellFormed(mysql: bool, ts: List<Token>, last: char, content: bool)
    requires Steady(mysql, ts)
    ensures WellFormed(mysql, ts, ";", last, content)
  {
    match ts
    case Nil =>
    case Cons(t, rest) =>
      var after := Print(rest, ";");
      SteadyTokenOk(mysql, t, last, content, after);
      SteadyIsWellFormed(mysql, rest, LastAfter(t, ";", last, after), ContentAfter(mysql, t, content));
  }

  /** ts is tokens that are copied as they are and print text, and then k. */
  predicate Adds(ts: List<Token>, text: string, k: List<Token>)
    decreases ts, 0
  {
    if text == "" then ts == k
    else ts.Cons? && (ts.head.Char? || ts.head.Quote?) && AddsTail(ts.tail, PrintToken(ts.head, ";"), text, k)
  }

  predicate AddsTail(ts: List<Token>, w: string, text: string, k: List<Token>)
    decreases ts, 1
  {
    w <= text && Adds(ts, text[|w|..], k)
  }

  lemma Glue(raw: string, w: string, text: string, b: string)
    requires w <= text
    ensures w + (text[|w|..] + b) == text + b && raw + w + text[|w|..] == raw + text
    ensures w <= text + b && (text + b)[|w|..] == text[|w|..] + b
  {
  }

  lemma {:induction false} AddsBoth(ts: List<Token>, a: string, m: List<Token>, b: string, k: List<Token>)
    requires Adds(ts, a, m) && Adds(m, b, k)
    ensures Adds(ts, a + b, k)
    decreases ts
  {
    if a == "" {
      assert a + b == b;
    } else {
      var w := PrintToken(ts.head, ";");
      AddsBoth(ts.tail, a[|w|..], m, b, k);
      Glue("", w, a, b);
      assert AddsTail(ts.tail, w, a + b, k);
    }
  }

  lemma {:induction false} AddsPrints(ts: List<Token>, text: string, k: List<Token>)
    requires Adds(ts, text, k)
    ensures Print(ts, ";") == text + Print(k, ";")
    decreases ts
  {
    if text == "" {
      assert text + Print(k, ";") == Print(k, ";");
    } else {
      var w := PrintToken(ts.head, ";");
      AddsPrints(ts.tail, text[|w|..], k);
      Glue("", w, text, Print(k, ";"));
    }
  }

  lemma {:induction false} AddsMeans(mysql: bool, ts: List<Token>, text: string, k: List<Token>, raw: string)
    requires Adds(ts, text, k)
    ensures Meaning(mysql, ts, raw) == Meaning(mysql, k, raw + text)
    decreases ts
  {
    if text == "" {
      assert raw + text == raw;
    } else {
      var w := PrintToken(ts.head, ";");
      AddsMeans(mysql, ts.tail, text[|w|..], k, raw + w);
      Glue(raw, w, text, "");
    }
  }

  lemma {:induction false} AddsFits(mysql: bool, ts: List<Token>, text: string, k: List<Token>, raw: string, max: nat)
    requires Adds(ts, text, k) && |raw| + |text| <= max && Fits(mysql, k, raw + text, max)
    ensures Fits(mysql, ts, raw, max)
    decreases ts
  {
    if text == "" {
      assert raw + text == raw;
    } else {
      var w := PrintToken(ts.head, ";");
      Glue(raw, w, text, "");
      AddsFits(mysql, ts.tail, text[|w|..], k, raw + w, max);
    }
  }

  /** Steady tokens that print text in front of k. */
  predicate Prints(mysql: bool, ts: List<Token>, text: string, k: List<Token>) {
    Steady(mysql, ts) && Adds(ts, text, k)
  }

  // ------------------------------------------------------------ tokens of each piece of a statement

  function CharsThen(text: string, k: List<Token>): List<Token> {
    if text == "" then k else Cons(Char(text[0]), CharsThen(text[1..], k))
  }

  lemma {:induction false} PlainAdds(mysql: bool, text: string, k: List<Token>)
    requires Steady(mysql, k) && AllInert(text)
    ensures Prints(mysql, CharsThen(text, k), text, k)
  {
    if text != "" {
      PlainAdds(mysql, text[1..], k);
    }
  }

  lemma {:induction false} NumberAdds(mysql: bool, text: string, k: List<Token>)
    requires Steady(mysql, k) && NumberText(text)
    ensures Prints(mysql, CharsThen(text, k), text, k)
  {
    var tail := text[1..];
    if tail == "" {
      assert CharsThen(tail, k) == k;
    } else {
      assert tail[|tail| - 1] == text[|text| - 1];
      NumberAdds(mysql, tail, k);
      AddsPrints(CharsThen(tail, k), tail, k);
      assert Print(CharsThen(tail, k), ";")[0] == text[1];
    }
  }

  /** The text behind does not start with a quote. */
  predicate NoQuote(k: List<Token>) {
    var text := Print(k, ";");
    text == [] || (text[0] != '\'' && text[0] != '"' && text[0] != '`')
  }

  lemma QuotedAdds(mysql: bool, q: char, units: seq<Unit>, text: string, k: List<Token>)
    requires QuoteChar(mysql, q) && text == [q] + PrintUnits(units, q) + [q] && Steady(mysql, k) && NoQuote(k)
    requires forall i :: 0 <= i < |units| ==> UnitOk(units[i], q, Backslashes(mysql, q))
    ensures Prints(mysql, Cons(Quote(q, units), k), text, k)
  {
    assert text[|text|..] == "";
  }

  function StringUnits(mysql: bool, s: string): (us: seq<Unit>)
    ensures forall i :: 0 <= i < |us| ==> UnitOk(us[i], '\'', mysql)
    ensures PrintUnits(us, '\'') == Escape(mysql, s)
  {
    if s == [] then []
    else
      var c := s[0];
      var u := if c == '\'' then Doubled
               else if mysql && c == '\\' then Escaped('\\')
               else if mysql && c == '\0' then Escaped('0')
               else if mysql && c == '\U{1A}' then Escaped('Z')
               else Plain(c);
      [u] + StringUnits(mysql, s[1..])
  }

  function IdentUnits(q: char, s: string): (us: seq<Unit>)
    ensures forall i :: 0 <= i < |us| ==> UnitOk(us[i], q, false)
    ensures PrintUnits(us, q) == DoubleQuotes(q, s)
  {
    if s == [] then [] else [if s[0] == q then Doubled else Plain(s[0])] + IdentUnits(q, s[1..])
  }

  function StringThen(mysql: bool, s: string, k: List<Token>): List<Token> {
    Cons(Quote('\'', StringUnits(mysql, s)), k)
  }

  lemma StringAdds(mysql: bool, s: string, k: List<Token>)
    requires Steady(mysql, k) && NoQuote(k)
    ensures Prints(mysql, StringThen(mysql, s, k), QuoteString(mysql, s), k)
  {
    QuotedAdds(mysql, '\'', StringUnits(mysql, s), QuoteString(mysql, s), k);
  }

  function IdentThen(mysql: bool, name: string, k: List<Token>): List<Token> {
    Cons(Quote(IdentQuote(mysql), IdentUnits(IdentQuote(mysql), name)), k)
  }

  lemma IdentAdds(mysql: bool, name: string, k: List<Token>)
    requires Steady(mysql, k) && NoQuote(k)
    ensures Prints(mysql, IdentThen(mysql, name, k), QuoteIdent(mysql, name), k)
  {
    var q := IdentQuote(mysql);
    QuotedAdds(mysql, q, IdentUnits(q, name), QuoteIdent(mysql, name), k);
  }

  /** Plain text and then k starts with that text's first byte. */
  lemma PlainLeads(text: string, k: List<Token>)
    requires text != "" && AllInert(text)
    ensures NoQuote(CharsThen(text, k))
  {
    assert Print(CharsThen(text, k), ";")[0] == text[0];
  }

  // ------------------------------------------------------------ literals and rows

  lemma {:induction false} NothingToEscape(mysql: bool, s: string)
    requires forall i :: 0 <= i < |s| ==> '0' <= s[i] <= '9' || 'a' <= s[i] <= 'z'
    ensures Escape(mysql, s) == s
  {
    if s != [] {
      NothingToEscape(mysql, s[1..]);
      assert [s[0]] + s[1..] == s;
    }
  }

  lemma IntIsNumber(mysql: bool, i: int)
    ensures NumberText(Literal(mysql, Int(i)))
  {
    var text := Literal(mysql, Int(i));
    forall k | 0 <= k < |text|
      ensures (text[k] == '-' <==> i < 0 && k == 0) && (text[k] == '-' || Inert(text[k]))
    {
      var d := Decimal(if i < 0 then -i else i);
      assert text[k] == if i < 0 then (if k == 0 then '-' else d[k - 1]) else d[k];
    }
  }

  function LiteralThen(mysql: bool, v: Value, k: List<Token>): List<Token> {
    match v
    case Binary(bytes) =>
      if mysql then CharsThen("X", StringThen(mysql, Hex(bytes), k))
      else StringThen(mysql, "\\x" + Hex(bytes), CharsThen("::bytea", k))
    case Text(s) => StringThen(mysql, s, k)
    case _ => CharsThen(Literal(mysql, v), k)
  }

  lemma LiteralAdds(mysql: bool, v: Value, k: List<Token>)
    requires ValueOk(v) && Steady(mysql, k) && NoQuote(k)
    ensures Prints(mysql, LiteralThen(mysql, v, k), Literal(mysql, v), k)
  {
    match v
    case Int(i) =>
      IntIsNumber(mysql, i);
      NumberAdds(mysql, Literal(mysql, v), k);
    case Float(text) => NumberAdds(mysql, text, k);
    case Binary(bytes) =>
      if mysql {
        BlobAdds(bytes, k);
      } else {
        ByteaAdds(bytes, k);
      }
    case Text(s) => StringAdds(mysql, s, k);
    case _ =>
      Word(Literal(mysql, v));
      PlainAdds(mysql, Literal(mysql, v), k);
  }

  lemma BlobAdds(bytes: seq<Byte>, k: List<Token>)
    requires Steady(true, k) && NoQuote(k)
    ensures Prints(true, LiteralThen(true, Binary(bytes), k), Literal(true, Binary(bytes)), k)
  {
    var h := Hex(bytes);
    var m := StringThen(true, h, k);
    StringAdds(true, h, k);
    PlainAdds(true, "X", m);
    AddsBoth(CharsThen("X", m), "X", m, QuoteString(true, h), k);
    BlobQuotes(h);
  }

  lemma BlobQuotes(h: string)
    requires forall i :: 0 <= i < |h| ==> '0' <= h[i] <= '9' || 'a' <= h[i] <= 'f'
    ensures "X" + QuoteString(true, h) == "X'" + h + "'"
  {
    NothingToEscape(true, h);
    assert "X" + ("'" + h + "'") == "X'" + h + "'";
  }

  lemma ByteaAdds(bytes: seq<Byte>, k: List<Token>)
    requires Steady(false, k) && NoQuote(k)
    ensures Prints(false, LiteralThen(false, Binary(bytes), k), Literal(false, Binary(bytes)), k)
  {
    Word("::bytea");
    QuotedThenWord("\\x" + Hex(bytes), "::bytea", k);
    ByteaQuotes(Hex(bytes));
  }

  lemma QuotedThenWord(v: string, w: string, k: List<Token>)
    requires w != "" && AllInert(w) && Steady(false, k)
    ensures Prints(false, StringThen(false, v, CharsThen(w, k)), QuoteString(false, v) + w, k)
  {
    PlainAdds(false, w, k);
    PlainLeads(w, k);
    StringAdds(false, v, CharsThen(w, k));
    AddsBoth(StringThen(false, v, CharsThen(w, k)), QuoteString(false, v), CharsThen(w, k), w, k);
  }

  lemma ByteaQuotes(h: string)
    requires forall i :: 0 <= i < |h| ==> '0' <= h[i] <= '9' || 'a' <= h[i] <= 'f'
    ensures QuoteString(false, "\\x" + h) + "::bytea" == "'\\x" + h + "'::bytea"
  {
    QuotedPair("\\x", h, "::bytea");
    assert "'" + "\\x" == "'\\x" && "'" + "::bytea" == "'::bytea";
  }

  lemma QuotedPair(a: string, h: string, w: string)
    requires forall i :: 0 <= i < |a| ==> a[i] != '\''
    requires forall i :: 0 <= i < |h| ==> h[i] != '\''
    ensures QuoteString(false, a + h) + w == ("'" + a) + h + ("'" + w)
  {
    NoQuoteToEscape(a + h);
    Regroup("'", a, h, w);
  }

  lemma {:induction false} NoQuoteToEscape(s: string)
    requires forall i :: 0 <= i < |s| ==> s[i] != '\''
    ensures Escape(false, s) == s
  {
    if s != [] {
      NoQuoteToEscape(s[1..]);
      assert [s[0]] + s[1..] == s;
    }
  }

  lemma Regroup(q: string, a: string, h: string, w: string)
    ensures (q + (a + h) + q) + w == (q + a) + h + (q + w)
  {
  }

  predicate RowOk(row: seq<Value>) {
    forall i :: 0 <= i < |row| ==> ValueOk(row[i])
  }

  predicate RowsOk(rows: seq<seq<Value>>) {
    forall i :: 0 <= i < |rows| ==> RowOk(rows[i])
  }

  function ValuesThen(mysql: bool, row: seq<Value>, k: List<Token>): List<Token> {
    if row == [] then k
    else if |row| == 1 then LiteralThen(mysql, row[0], k)
    else LiteralThen(mysql, row[0], CharsThen(", ", ValuesThen(mysql, row[1..], k)))
  }

  lemma {:induction false} ValuesAdd(mysql: bool, row: seq<Value>, k: List<Token>)
    requires RowOk(row) && Steady(mysql, k) && NoQuote(k)
    ensures Prints(mysql, ValuesThen(mysql, row, k), Join(Literals(mysql, row), ", "), k)
    decreases |row|
  {
    if |row| == 1 {
      LiteralAdds(mysql, row[0], k);
      assert Literals(mysql, row) == [Literal(mysql, row[0])];
    } else if |row| > 1 {
      ValuesAdd(mysql, row[1..], k);
      var m, rest := ValuesThen(mysql, row[1..], k), Join(Literals(mysql, row[1..]), ", ");
      AddsPrints(m, rest, k);
      var sep := CharsThen(", ", m);
      PlainAdds(mysql, ", ", m);
      PlainLeads(", ", m);
      LiteralAdds(mysql, row[0], sep);
      AddsSep(LiteralThen(mysql, row[0], sep), Literal(mysql, row[0]), ", ", m, rest, k);
      assert Literals(mysql, row)[1..] == Literals(mysql, row[1..]);
    }
  }

  lemma AddsSep(ts: List<Token>, a: string, sep: string, m: List<Token>, b: string, k: List<Token>)
    requires Adds(ts, a, CharsThen(sep, m)) && Adds(CharsThen(sep, m), sep, m) && Adds(m, b, k)
    ensures Adds(ts, a + sep + b, k)
  {
    AddsBoth(ts, a, CharsThen(sep, m), sep, m);
    AddsBoth(ts, a + sep, m, b, k);
  }

  function RowThen(mysql: bool, row: seq<Value>, k: List<Token>): List<Token> {
    CharsThen("(", ValuesThen(mysql, row, CharsThen(")", k)))
  }

  lemma RowAdds(mysql: bool, row: seq<Value>, k: List<Token>)
    requires RowOk(row) && Steady(mysql, k)
    ensures Prints(mysql, RowThen(mysql, row, k), RowText(mysql, row), k)
  {
    var close := CharsThen(")", k);
    PlainAdds(mysql, ")", k);
    PlainLeads(")", k);
    ValuesAdd(mysql, row, close);
    var m, list := ValuesThen(mysql, row, close), Join(Literals(mysql, row), ", ");
    AddsPrints(m, list, close);
    PlainAdds(mysql, "(", m);
    AddsBoth(CharsThen("(", m), "(", m, list, close);
    AddsBoth(CharsThen("(", m), "(" + list, close, ")", k);
  }

  function RowsThen(mysql: bool, rows: seq<seq<Value>>, k: List<Token>): List<Token> {
    if rows == [] then k
    else if |rows| == 1 then RowThen(mysql, rows[0], k)
    else RowThen(mysql, rows[0], CharsThen(",\n", RowsThen(mysql, rows[1..], k)))
  }

  lemma {:induction false} RowsAdd(mysql: bool, rows: seq<seq<Value>>, k: List<Token>)
    requires RowsOk(rows) && Steady(mysql, k)
    ensures Prints(mysql, RowsThen(mysql, rows, k), Join(RowTexts(mysql, rows), ",\n"), k)
    decreases |rows|
  {
    if |rows| == 1 {
      RowAdds(mysql, rows[0], k);
      assert RowTexts(mysql, rows) == [RowText(mysql, rows[0])];
    } else if |rows| > 1 {
      RowsAdd(mysql, rows[1..], k);
      var m, rest := RowsThen(mysql, rows[1..], k), Join(RowTexts(mysql, rows[1..]), ",\n");
      AddsPrints(m, rest, k);
      PlainAdds(mysql, ",\n", m);
      PlainLeads(",\n", m);
      RowAdds(mysql, rows[0], CharsThen(",\n", m));
      AddsSep(RowsThen(mysql, rows, k), RowText(mysql, rows[0]), ",\n", m, rest, k);
      assert RowTexts(mysql, rows)[1..] == RowTexts(mysql, rows[1..]);
    }
  }

  function IdentsThen(mysql: bool, names: seq<string>, k: List<Token>): List<Token> {
    if names == [] then k
    else if |names| == 1 then IdentThen(mysql, names[0], k)
    else IdentThen(mysql, names[0], CharsThen(", ", IdentsThen(mysql, names[1..], k)))
  }

  lemma {:induction false} IdentsAdd(mysql: bool, names: seq<string>, k: List<Token>)
    requires Steady(mysql, k) && NoQuote(k)
    ensures Prints(mysql, IdentsThen(mysql, names, k), Join(Idents(mysql, names), ", "), k)
    decreases |names|
  {
    if |names| == 1 {
      IdentAdds(mysql, names[0], k);
      assert Idents(mysql, names) == [QuoteIdent(mysql, names[0])];
    } else if |names| > 1 {
      IdentsAdd(mysql, names[1..], k);
      var m, rest := IdentsThen(mysql, names[1..], k), Join(Idents(mysql, names[1..]), ", ");
      AddsPrints(m, rest, k);
      PlainAdds(mysql, ", ", m);
      PlainLeads(", ", m);
      IdentAdds(mysql, names[0], CharsThen(", ", m));
      AddsSep(IdentsThen(mysql, names, k), QuoteIdent(mysql, names[0]), ", ", m, rest, k);
      assert Idents(mysql, names)[1..] == Idents(mysql, names[1..]);
    }
  }

  // ------------------------------------------------------------ statements

  function HeadThen(mysql: bool, table: string, columns: seq<string>, k: List<Token>): List<Token> {
    CharsThen(INSERT_INTO, IdentThen(mysql, table, CharsThen(OPEN_LIST,
      IdentsThen(mysql, columns, CharsThen(VALUES, k)))))
  }

  // None of the fixed parts contains a byte the scanner could stumble over.
  lemma InsertIntoIsPlain() ensures AllInert(INSERT_INTO) { Word(INSERT_INTO); }
  lemma OpenListIsPlain() ensures AllInert(OPEN_LIST) { Word(OPEN_LIST); }
  lemma ValuesIsPlain() ensures AllInert(VALUES) { Word(VALUES); }
  lemma CommaIsPlain() ensures AllInert(COMMA) { Word(COMMA); }
  lemma SetvalBytes() ensures forall i :: 0 <= i < |SETVAL| ==> Inert(SETVAL[i]) {}
  lemma SetvalIsPlain() ensures AllInert(SETVAL) { SetvalBytes(); Word(SETVAL); }
  lemma CoalesceBytes() ensures forall i :: 0 <= i < |COALESCE_MAX| ==> Inert(COALESCE_MAX[i]) {}
  lemma CoalesceIsPlain() ensures AllInert(COALESCE_MAX) { CoalesceBytes(); Word(COALESCE_MAX); }
  lemma AndMaxIsPlain() ensures AllInert(AND_MAX) { Word(AND_MAX); }
  lemma FromTableBytes() ensures forall i :: 0 <= i < |FROM_TABLE| ==> Inert(FROM_TABLE[i]) {}
  lemma FromTableIsPlain() ensures AllInert(FROM_TABLE) { FromTableBytes(); Word(FROM_TABLE); }

  lemma HeadAdds(mysql: bool, table: string, columns: seq<string>, k: List<Token>)
    requires Steady(mysql, k)
    ensures Prints(mysql, HeadThen(mysql, table, columns, k), Head(mysql, table, columns), k)
  {
    InsertIntoIsPlain();
    OpenListIsPlain();
    ValuesIsPlain();
    HeadWords(mysql, table, columns, k, INSERT_INTO, OPEN_LIST, VALUES);
  }

  lemma HeadWords(mysql: bool, table: string, columns: seq<string>, k: List<Token>, u: string, v: string, w: string)
    requires Steady(mysql, k) && AllInert(u) && AllInert(v) && AllInert(w) && v != "" && w != ""
    ensures Prints(mysql, CharsThen(u, IdentThen(mysql, table, CharsThen(v, IdentsThen(mysql, columns, CharsThen(w, k))))),
                   u + (QuoteIdent(mysql, table) + (v + (Join(Idents(mysql, columns), ", ") + w))), k)
  {
    var close, list := CharsThen(w, k), Join(Idents(mysql, columns), ", ");
    PlainAdds(mysql, w, k);
    PlainLeads(w, k);
    var ids := IdentsThen(mysql, columns, close);
    IdentsAdd(mysql, columns, close);
    AddsBoth(ids, list, close, w, k);
    PlainAdds(mysql, v, ids);
    PlainLeads(v, ids);
    var open := CharsThen(v, ids);
    AddsBoth(open, v, ids, list + w, k);
    IdentAdds(mysql, table, open);
    var name := IdentThen(mysql, table, open);
    AddsBoth(name, QuoteIdent(mysql, table), open, v + (list + w), k);
    PlainAdds(mysql, u, name);
    AddsBoth(CharsThen(u, name), u, name, QuoteIdent(mysql, table) + (v + (list + w)), k);
  }

  /** A statement as it is written: its text, the semicolon and a newline, and then k. */
  function EndThen(k: List<Token>): List<Token> {
    Cons(End, Cons(Char('\n'), k))
  }

  lemma EndLeads(mysql: bool, k: List<Token>)
    requires Steady(mysql, k)
    ensures Steady(mysql, EndThen(k)) && NoQuote(EndThen(k)) && Print(EndThen(k), ";") == ";\n" + Print(k, ";")
  {
    NewlineLeads(mysql, k);
    SemicolonLeads(mysql, Cons(Char('\n'), k));
    Assoc(";", "\n", Print(k, ";"));
  }

  lemma NewlineLeads(mysql: bool, k: List<Token>)
    requires Steady(mysql, k)
    ensures var nl := Cons(Char('\n'), k); Steady(mysql, nl) && Print(nl, ";") == "\n" + Print(k, ";")
  {
  }

  lemma SemicolonLeads(mysql: bool, k: List<Token>)
    requires Steady(mysql, k)
    ensures var end := Cons(End, k); Steady(mysql, end) && NoQuote(end) && Print(end, ";") == ";" + Print(k, ";")
  {
  }

  function InsertThen(mysql: bool, table: string, columns: seq<string>, batch: seq<seq<Value>>, k: List<Token>): List<Token> {
    HeadThen(mysql, table, columns, RowsThen(mysql, batch, k))
  }

  lemma InsertAdds(mysql: bool, table: string, columns: seq<string>, batch: seq<seq<Value>>, k: List<Token>)
    requires RowsOk(batch) && Steady(mysql, k)
    ensures Prints(mysql, InsertThen(mysql, table, columns, batch, k), Insert(mysql, Head(mysql, table, columns), batch), k)
  {
    RowsAdd(mysql, batch, k);
    var m := RowsThen(mysql, batch, k);
    HeadAdds(mysql, table, columns, m);
    AddsBoth(HeadThen(mysql, table, columns, m), Head(mysql, table, columns), m, Join(RowTexts(mysql, batch), ",\n"), k);
  }

  function SetValThen(table: string, col: string, k: List<Token>): List<Token> {
    SetValFront(QuoteIdent(false, table), col, MaxThen(table, col, k))
  }

  function SetValFront(qt: string, col: string, m: List<Token>): List<Token> {
    CharsThen(SETVAL, StringThen(false, qt, CharsThen(COMMA, StringThen(false, col, CharsThen(COALESCE_MAX, m)))))
  }

  function MaxThen(table: string, col: string, k: List<Token>): List<Token> {
    IdentThen(false, col, CharsThen(AND_MAX,
      IdentThen(false, col, CharsThen(FROM_TABLE, IdentThen(false, table, k)))))
  }

  /** A quoted piece, plain text, and what follows. */
  lemma IdentSep(name: string, sep: string, m: List<Token>, text: string, k: List<Token>)
    requires sep != "" && AllInert(sep) && Prints(false, m, text, k)
    ensures Prints(false, IdentThen(false, name, CharsThen(sep, m)), QuoteIdent(false, name) + (sep + text), k)
  {
    var s := CharsThen(sep, m);
    PlainAdds(false, sep, m);
    PlainLeads(sep, m);
    AddsBoth(s, sep, m, text, k);
    IdentAdds(false, name, s);
    AddsBoth(IdentThen(false, name, s), QuoteIdent(false, name), s, sep + text, k);
  }

  lemma StringSep(v: string, sep: string, m: List<Token>, text: string, k: List<Token>)
    requires sep != "" && AllInert(sep) && Prints(false, m, text, k)
    ensures Prints(false, StringThen(false, v, CharsThen(sep, m)), QuoteString(false, v) + (sep + text), k)
  {
    var s := CharsThen(sep, m);
    PlainAdds(false, sep, m);
    PlainLeads(sep, m);
    AddsBoth(s, sep, m, text, k);
    StringAdds(false, v, s);
    AddsBoth(StringThen(false, v, s), QuoteString(false, v), s, sep + text, k);
  }

  lemma MaxAdds(table: string, col: string, k: List<Token>)
    requires Steady(false, k) && NoQuote(k)
    ensures Prints(false, MaxThen(table, col, k), MaxText(table, col), k)
  {
    AndMaxIsPlain();
    FromTableIsPlain();
    MaxWords(table, col, k, AND_MAX, FROM_TABLE);
  }

  lemma MaxWords(table: string, col: string, k: List<Token>, u: string, v: string)
    requires Steady(false, k) && NoQuote(k) && AllInert(u) && AllInert(v) && u != "" && v != ""
    ensures Prints(false, IdentThen(false, col, CharsThen(u, IdentThen(false, col, CharsThen(v, IdentThen(false, table, k))))),
                   QuoteIdent(false, col) + (u + (QuoteIdent(false, col) + (v + QuoteIdent(false, table)))), k)
  {
    IdentAdds(false, table, k);
    var t := IdentThen(false, table, k);
    IdentSep(col, v, t, QuoteIdent(false, table), k);
    IdentSep(col, u, IdentThen(false, col, CharsThen(v, t)), QuoteIdent(false, col) + (v + QuoteIdent(false, table)), k);
  }

  lemma SetValAdds(table: string, col: string, k: List<Token>)
    requires Steady(false, k) && NoQuote(k)
    ensures Prints(false, SetValThen(table, col, k), SetVal(table, col), k)
  {
    MaxAdds(table, col, k);
    SetValFrontAdds(QuoteIdent(false, table), col, MaxThen(table, col, k), MaxText(table, col), k);
  }

  lemma SetValFrontAdds(qt: string, col: string, m: List<Token>, max: string, k: List<Token>)
    requires Prints(false, m, max, k)
    ensures Prints(false, SetValFront(qt, col, m), SetValText(qt, col, max), k)
  {
    SetvalIsPlain();
    CoalesceIsPlain();
    CommaIsPlain();
    SetValWords(qt, col, m, max, k, SETVAL, COMMA, COALESCE_MAX);
  }

  lemma SetValWords(qt: string, col: string, m: List<Token>, max: string, k: List<Token>, u: string, v: string, w: string)
    requires Prints(false, m, max, k) && AllInert(u) && AllInert(v) && AllInert(w) && v != "" && w != ""
    ensures Prints(false, CharsThen(u, StringThen(false, qt, CharsThen(v, StringThen(false, col, CharsThen(w, m))))),
                   u + (QuoteString(false, qt) + (v + (QuoteString(false, col) + (w + max)))), k)
  {
    StringSep(col, w, m, max, k);
    var n := StringThen(false, col, CharsThen(w, m));
    StringSep(qt, v, n, QuoteString(false, col) + (w + max), k);
    var o := StringThen(false, qt, CharsThen(v, n));
    PlainAdds(false, u, o);
    AddsBoth(CharsThen(u, o), u, o, QuoteString(false, qt) + (v + (QuoteString(false, col) + (w + max))), k);
  }

  // ------------------------------------------------------------ statements begin and end with something solid

  predicate SolidStatement(st: string) {
    st != [] && Solid(st[0]) && Solid(st[|st| - 1])
  }

  lemma EndOf(a: string, b: string)
    requires b != []
    ensures a + b != [] && (a + b)[|a + b| - 1] == b[|b| - 1]
    ensures a != [] ==> (a + b)[0] == a[0]
  {
  }

  lemma {:induction false} RowsEnd(mysql: bool, rows: seq<seq<Value>>)
    requires rows != []
    ensures var text := Join(RowTexts(mysql, rows), ",\n"); text != [] && text[|text| - 1] == ')'
    decreases |rows|
  {
    assert RowTexts(mysql, rows)[1..] == RowTexts(mysql, rows[1..]);
    if |rows| > 1 {
      RowsEnd(mysql, rows[1..]);
      EndOf(RowText(mysql, rows[0]) + ",\n", Join(RowTexts(mysql, rows[1..]), ",\n"));
    }
  }

  lemma InsertIsSolid(mysql: bool, table: string, columns: seq<string>, batch: seq<seq<Value>>)
    requires batch != []
    ensures SolidStatement(Insert(mysql, Head(mysql, table, columns), batch))
  {
    RowsEnd(mysql, batch);
    var head := Head(mysql, table, columns);
    assert head[0] == 'I';
    EndOf(head, Join(RowTexts(mysql, batch), ",\n"));
  }

  lemma SetValIsSolid(table: string, col: string)
    ensures SolidStatement(SetVal(table, col))
  {
    var qc, qt, t := QuoteIdent(false, col), QuoteIdent(false, table), MaxText(table, col);
    var u := qc + (FROM_TABLE + qt);
    EndOf(FROM_TABLE, qt);
    EndOf(qc, FROM_TABLE + qt);
    EndOf(AND_MAX, u);
    EndOf(qc, AND_MAX + u);
    SetValEnd(QuoteString(false, qt), QuoteString(false, col), t);
  }

  lemma SetValEnd(a: string, b: string, t: string)
    requires t != [] && t[|t| - 1] == '"'
    ensures SolidStatement(SETVAL + (a + (COMMA + (b + (COALESCE_MAX + t)))))
  {
    var v := b + (COALESCE_MAX + t);
    EndOf(COALESCE_MAX, t);
    EndOf(b, COALESCE_MAX + t);
    EndOf(COMMA, v);
    EndOf(a, COMMA + v);
    EndOf(SETVAL, a + (COMMA + v));
  }

  // ------------------------------------------------------------ reading a dump back

  /** ts is a printed statement in front of its end and k: it means that statement and then what k means. */
  lemma StatementMeans(mysql: bool, ts: List<Token>, st: string, k: List<Token>, max: nat)
    requires Prints(mysql, ts, st, EndThen(k)) && Steady(mysql, k) && SolidStatement(st)
    requires |st| + 1 <= max && Fits(mysql, k, "\n", max)
    ensures Print(ts, ";") == st + ";\n" + Print(k, ";")
    ensures Meaning(mysql, ts, "\n") == [st] + Meaning(mysql, k, "\n") && Fits(mysql, ts, "\n", max)
  {
    EndLeads(mysql, k);
    AddsPrints(ts, st, EndThen(k));
    Assoc(st, ";\n", Print(k, ";"));
    AddsMeans(mysql, ts, st, EndThen(k), "\n");
    EndMeans(mysql, st, k, max);
    AddsFits(mysql, ts, st, EndThen(k), "\n", max);
  }

  lemma EndMeans(mysql: bool, st: string, k: List<Token>, max: nat)
    requires SolidStatement(st) && |st| + 1 <= max && Fits(mysql, k, "\n", max)
    ensures Meaning(mysql, EndThen(k), "\n" + st) == [st] + Meaning(mysql, k, "\n")
    ensures Fits(mysql, EndThen(k), "\n" + st, max)
  {
    SolidEnds(st);
    var nl := Cons(Char('\n'), k);
    assert "" + "\n" == "\n";
    assert Meaning(mysql, nl, "") == Meaning(mysql, k, "\n");
    assert Fits(mysql, nl, "", max);
  }

  /** ts prints the written statements in front of k and means them. */
  ghost predicate Writes(mysql: bool, ts: List<Token>, stmts: seq<string>, k: List<Token>, max: nat) {
    && Steady(mysql, ts) && Print(ts, ";") == Written(stmts) + Print(k, ";")
    && Meaning(mysql, ts, "\n") == stmts + Meaning(mysql, k, "\n") && Fits(mysql, ts, "\n", max)
  }

  lemma WritesNothing(mysql: bool, k: List<Token>, max: nat)
    requires Steady(mysql, k) && Fits(mysql, k, "\n", max)
    ensures Writes(mysql, k, [], k, max)
  {
    assert Written([]) + Print(k, ";") == Print(k, ";");
    assert [] + Meaning(mysql, k, "\n") == Meaning(mysql, k, "\n");
  }

  lemma WritesOneMore(mysql: bool, ts: List<Token>, st: string, m: List<Token>, stmts: seq<string>, k: List<Token>, max: nat)
    requires Prints(mysql, ts, st, EndThen(m)) && SolidStatement(st) && |st| + 1 <= max && Writes(mysql, m, stmts, k, max)
    ensures Writes(mysql, ts, [st] + stmts, k, max)
  {
    StatementMeans(mysql, ts, st, m, max);
    FirstWritten(st, stmts);
    Assoc(st + ";\n", Written(stmts), Print(k, ";"));
    Assoc([st], stmts, Meaning(mysql, k, "\n"));
  }

  function InsertsThen(mysql: bool, table: string, columns: seq<string>, batches: seq<seq<seq<Value>>>, k: List<Token>): List<Token> {
    if batches == [] then k
    else InsertThen(mysql, table, columns, batches[0], EndThen(InsertsThen(mysql, table, columns, batches[1..], k)))
  }

  predicate Short(stmts: seq<string>, max: nat) {
    forall i :: 0 <= i < |stmts| ==> |stmts[i]| + 1 <= max
  }

  lemma {:induction false} InsertsWrite(mysql: bool, table: string, columns: seq<string>, batches: seq<seq<seq<Value>>>,
                                        k: List<Token>, max: nat)
    requires BatchesOk(batches)
    requires Short(Inserts(mysql, Head(mysql, table, columns), batches), max)
    requires Steady(mysql, k) && Fits(mysql, k, "\n", max)
    ensures Writes(mysql, InsertsThen(mysql, table, columns, batches, k), Inserts(mysql, Head(mysql, table, columns), batches), k, max)
    decreases |batches|
  {
    if batches == [] {
      WritesNothing(mysql, k, max);
    } else {
      var stmts := Inserts(mysql, Head(mysql, table, columns), batches);
      assert stmts[1..] == Inserts(mysql, Head(mysql, table, columns), batches[1..]);
      assert Short(stmts[1..], max) && |stmts[0]| + 1 <= max;
      InsertsWrite(mysql, table, columns, batches[1..], k, max);
      var m := InsertsThen(mysql, table, columns, batches[1..], k);
      EndLeads(mysql, m);
      InsertAdds(mysql, table, columns, batches[0], EndThen(m));
      InsertIsSolid(mysql, table, columns, batches[0]);
      WritesOneMore(mysql, InsertThen(mysql, table, columns, batches[0], EndThen(m)), stmts[0], m, stmts[1..], k, max);
    }
  }

  function SetValsThen(table: string, cols: seq<string>, k: List<Token>): List<Token> {
    if cols == [] then k else SetValThen(table, cols[0], EndThen(SetValsThen(table, cols[1..], k)))
  }

  lemma {:induction false} SetValsWrite(table: string, cols: seq<string>, k: List<Token>, max: nat)
    requires Short(SetVals(table, cols), max) && Steady(false, k) && Fits(false, k, "\n", max)
    ensures Writes(false, SetValsThen(table, cols, k), SetVals(table, cols), k, max)
    decreases |cols|
  {
    if cols == [] {
      WritesNothing(false, k, max);
    } else {
      var stmts := SetVals(table, cols);
      assert stmts[1..] == SetVals(table, cols[1..]);
      assert Short(stmts[1..], max) && |stmts[0]| + 1 <= max;
      SetValsWrite(table, cols[1..], k, max);
      var m := SetValsThen(table, cols[1..], k);
      EndLeads(false, m);
      SetValAdds(table, cols[0], EndThen(m));
      SetValIsSolid(table, cols[0]);
      WritesOneMore(false, SetValThen(table, cols[0], EndThen(m)), stmts[0], m, stmts[1..], k, max);
    }
  }

  lemma WritesBoth(mysql: bool, ts: List<Token>, a: seq<string>, m: List<Token>, b: seq<string>, k: List<Token>, max: nat)
    requires Writes(mysql, ts, a, m, max) && Writes(mysql, m, b, k, max)
    ensures Writes(mysql, ts, a + b, k, max)
  {
    WrittenSum(a, b);
    Assoc(Written(a), Written(b), Print(k, ";"));
    Assoc(a, b, Meaning(mysql, k, "\n"));
  }

  /** The empty line at the end of a dump. */
  const BLANK_LINE: List<Token> := Cons(Char('\n'), Nil)

  lemma BlankLine(mysql: bool, max: nat)
    requires max >= 2
    ensures Steady(mysql, BLANK_LINE) && Print(BLANK_LINE, ";") == "\n"
    ensures Meaning(mysql, BLANK_LINE, "\n") == [] && Fits(mysql, BLANK_LINE, "\n", max)
  {
    assert Print(Nil, ";") == "";
    TrimNewline("\n");
    TrimNewline("");
    assert "\n" + "" == "\n";
    assert TrimSpace("\n" + "\n") == "";
  }

  function DumpThen(mysql: bool, table: string, columns: seq<string>, rows: seq<seq<Value>>, serials: seq<string>): List<Token> {
    InsertsThen(mysql, table, columns, Batches(mysql, rows, [], 0),
                if mysql then BLANK_LINE else SetValsThen(table, serials, BLANK_LINE))
  }

  predicate BatchOk(batch: seq<seq<Value>>) {
    batch != [] && RowsOk(batch)
  }

  predicate BatchesOk(batches: seq<seq<seq<Value>>>) {
    batches == [] || (BatchOk(batches[0]) && BatchesOk(batches[1..]))
  }

  lemma {:induction false} BatchesAreOk(mysql: bool, rows: seq<seq<Value>>, batch: seq<seq<Value>>, size: nat)
    requires RowsOk(rows) && RowsOk(batch)
    ensures BatchesOk(Batches(mysql, rows, batch, size))
    decreases |rows|
  {
    if rows == [] {
      assert [batch][1..] == [];
    } else {
      var b, n := batch + [rows[0]], size + |RowText(mysql, rows[0])|;
      assert RowsOk(b) && RowsOk(rows[1..]);
      if |b| >= BATCH_ROWS || n >= BATCH_BYTES {
        BatchesAreOk(mysql, rows[1..], [], 0);
        assert ([b] + Batches(mysql, rows[1..], [], 0))[1..] == Batches(mysql, rows[1..], [], 0);
      } else {
        BatchesAreOk(mysql, rows[1..], b, n);
      }
    }
  }

  lemma DumpWrites(mysql: bool, table: string, columns: seq<string>, rows: seq<seq<Value>>, serials: seq<string>, max: nat)
    requires RowsOk(rows) && max >= 2 && Short(DumpStatements(mysql, table, columns, rows, serials), max)
    ensures Writes(mysql, DumpThen(mysql, table, columns, rows, serials),
                   DumpStatements(mysql, table, columns, rows, serials), BLANK_LINE, max)
  {
    BlankLine(mysql, max);
    var a := Inserts(mysql, Head(mysql, table, columns), Batches(mysql, rows, [], 0));
    var b := if mysql then [] else SetVals(table, serials);
    ShortParts(a, b, max);
    var m := if mysql then BLANK_LINE else SetValsThen(table, serials, BLANK_LINE);
    if mysql {
      WritesNothing(mysql, BLANK_LINE, max);
    } else {
      SetValsWrite(table, serials, BLANK_LINE, max);
    }
    BatchesAreOk(mysql, rows, [], 0);
    InsertsWrite(mysql, table, columns, Batches(mysql, rows, [], 0), m, max);
    WritesBoth(mysql, DumpThen(mysql, table, columns, rows, serials), a, m, b, BLANK_LINE, max);
  }

  lemma ShortParts(a: seq<string>, b: seq<string>, max: nat)
    requires Short(a + b, max)
    ensures Short(a, max) && Short(b, max)
  {
    assert forall i :: 0 <= i < |a| ==> a[i] == (a + b)[i];
    assert forall i :: 0 <= i < |b| ==> b[i] == (a + b)[|a| + i];
  }

  lemma {:induction false} NoNewline(q: char, s: string)
    requires '\n' !in s && q != '\n'
    ensures '\n' !in DoubleQuotes(q, s)
  {
    if s != [] {
      assert s[0] in s && forall c :: c in s[1..] ==> c in s;
      NoNewline(q, s[1..]);
    }
  }

  lemma IntroIsOneLine(mysql: bool, table: string)
    requires '\n' !in table
    ensures var intro := "-- Data of " + QuoteIdent(mysql, table); '\n' !in intro && "-- " <= intro
  {
    NoNewline(IdentQuote(mysql), table);
    var name := QuoteIdent(mysql, table);
    assert '\n' !in name && '\n' !in "-- Data of ";
    assert ("-- Data of " + name)[..3] == "-- ";
  }

  /** The comment line in front of the statements is dropped; only its newline stays. */
  lemma IntroMeans(mysql: bool, intro: string, ts: List<Token>, max: nat)
    requires '\n' !in intro && "-- " <= intro && Steady(mysql, ts) && Fits(mysql, ts, "\n", max)
    ensures var all := Cons(LineComment(intro), Cons(Char('\n'), ts));
            && Steady(mysql, all) && Print(all, ";") == intro + ("\n" + Print(ts, ";"))
            && Meaning(mysql, all, "") == Meaning(mysql, ts, "\n") && Fits(mysql, all, "", max)
  {
    var nl := Cons(Char('\n'), ts);
    assert Print(nl, ";") == "\n" + Print(ts, ";");
    assert "" + "" == "" && "" + "\n" == "\n";
    assert Meaning(mysql, nl, "") == Meaning(mysql, ts, "\n") && Fits(mysql, nl, "", max);
  }

  /** Scanning a table's dump gives back exactly its statements, in order. */
  lemma DumpReadsBack(mysql: bool, max: nat, table: string, columns: seq<string>, rows: seq<seq<Value>>, serials: seq<string>)
    requires '\n' !in table && RowsOk(rows) && max >= 2
    requires Short(DumpStatements(mysql, table, columns, rows, serials), max)
    ensures var stmts := DumpStatements(mysql, table, columns, rows, serials);
            Run(Config(mysql, max, false), Start(DumpText(mysql, table, stmts))) == Script(stmts, AtEof)
  {
    var stmts := DumpStatements(mysql, table, columns, rows, serials);
    DumpWrites(mysql, table, columns, rows, serials, max);
    BlankLine(mysql, max);
    var ts, intro := DumpThen(mysql, table, columns, rows, serials), "-- Data of " + QuoteIdent(mysql, table);
    IntroIsOneLine(mysql, table);
    IntroMeans(mysql, intro, ts, max);
    var all := Cons(LineComment(intro), Cons(Char('\n'), ts));
    DumpParts(intro, Written(stmts));
    assert stmts + [] == stmts;
    ReadTokens(mysql, max, all, stmts);
  }

  lemma DumpParts(intro: string, body: string)
    ensures intro + ("\n" + (body + "\n")) == intro + "\n" + body + "\n"
  {
  }

  lemma ReadTokens(mysql: bool, max: nat, ts: List<Token>, stmts: seq<string>)
    requires Steady(mysql, ts) && Meaning(mysql, ts, "") == stmts && Fits(mysql, ts, "", max)
    ensures Run(Config(mysql, max, false), Start(Print(ts, ";"))) == Script(stmts, AtEof)
  {
    SteadyIsWellFormed(mysql, ts, '\0', false);
    ScanPrinted(Config(mysql, max, false), Start(Print(ts, ";")), ts);
  }
}
