/** LIKE escaping and the compiler from row filters to a parameterised WHERE clause. */
module RowFilter {
  import opened Text
  import opened SqlExport
  import opened SqlReader

  const MAX_FILTERS := 10

  // ---------------------------------------------------------------- LIKE

  /** LIKE with backslash as the escape byte; same is how the collation compares two bytes. */
  predicate Like(same: (char, char) -> bool, p: string, s: string)
    decreases |p| + |s|
  {
    if p == [] then s == []
    else if p[0] == '%' then Like(same, p[1..], s) || (s != [] && Like(same, p, s[1..]))
    else if p[0] == '_' then s != [] && Like(same, p[1..], s[1..])
    else if p[0] == '\\' && |p| > 1 then s != [] && same(p[1], s[0]) && Like(same, p[2..], s[1..])
    else s != [] && same(p[0], s[0]) && Like(same, p[1..], s[1..])
  }

  function EscapeLike(s: string): string {
    if s == [] then ""
    else (if s[0] in "\\%_" then ['\\', s[0]] else [s[0]]) + EscapeLike(s[1..])
  }

  function ContainsPattern(v: string): string {
    "%" + EscapeLike(v) + "%"
  }

  predicate StartsLike(same: (char, char) -> bool, v: string, s: string) {
    |v| <= |s| && forall i :: 0 <= i < |v| ==> same(v[i], s[i])
  }

  /** v occurs in s. */
  ghost predicate Contains(same: (char, char) -> bool, v: string, s: string) {
    exists i :: 0 <= i <= |s| && StartsLike(same, v, s[i..])
  }

  lemma {:induction false} EscapedMatches(same: (char, char) -> bool, v: string, rest: string, s: string)
    ensures Like(same, EscapeLike(v) + rest, s) <==>
            StartsLike(same, v, s) && Like(same, rest, s[|v|..])
  {
    if v == [] {
      assert EscapeLike(v) + rest == rest && s[0..] == s;
    } else {
      var unit := if v[0] in "\\%_" then ['\\', v[0]] else [v[0]];
      var tail := EscapeLike(v[1..]) + rest;
      assert EscapeLike(v) + rest == unit + tail;
      assert (unit + tail)[|unit|..] == tail && (unit + tail)[0] == unit[0];
      assert |unit| == 2 ==> (unit + tail)[1] == v[0];
      if s != [] {
        EscapedMatches(same, v[1..], rest, s[1..]);
        StartsFront(same, v, s);
        assert |v| <= |s| ==> s[1..][|v| - 1..] == s[|v|..];
      }
    }
  }

  lemma StartsFront(same: (char, char) -> bool, v: string, s: string)
    requires v != [] && s != []
    ensures StartsLike(same, v, s) <==> same(v[0], s[0]) && StartsLike(same, v[1..], s[1..])
  {
    if same(v[0], s[0]) && StartsLike(same, v[1..], s[1..]) {
      forall i | 0 <= i < |v| ensures same(v[i], s[i]) {
        assert i > 0 ==> v[i] == v[1..][i - 1] && s[i] == s[1..][i - 1];
      }
    }
  }

  lemma {:induction false} PercentMatchesAll(same: (char, char) -> bool, s: string)
    ensures Like(same, "%", s)
  {
    assert "%"[1..] == [];
    if s != [] {
      PercentMatchesAll(same, s[1..]);
    }
  }

  /** The compiled pattern matches exactly the strings that contain the value. */
  lemma {:induction false} ContainsIff(same: (char, char) -> bool, v: string, s: string)
    ensures Like(same, ContainsPattern(v), s) <==> Contains(same, v, s)
  {
    var p := ContainsPattern(v);
    assert p[1..] == EscapeLike(v) + "%";
    EscapedMatches(same, v, "%", s);
    if |v| <= |s| {
      PercentMatchesAll(same, s[|v|..]);
    }
    assert s[0..] == s;
    if s != [] {
      ContainsIff(same, v, s[1..]);
      ContainsFront(same, v, s);
    }
  }

  lemma ContainsFront(same: (char, char) -> bool, v: string, s: string)
    requires s != []
    ensures Contains(same, v, s) <==> StartsLike(same, v, s) || Contains(same, v, s[1..])
  {
    assert s[0..] == s;
    if Contains(same, v, s) && !StartsLike(same, v, s) {
      var i :| 0 <= i <= |s| && StartsLike(same, v, s[i..]);
      assert s[1..][i - 1..] == s[i..];
    }
    if Contains(same, v, s[1..]) {
      var i :| 0 <= i <= |s| - 1 && StartsLike(same, v, s[1..][i..]);
      assert s[1..][i..] == s[i + 1..];
    }
  }

  // ---------------------------------------------------------------- filters and their meaning

  datatype Filter = Filter(column: string, op: string, value: string)

  datatype Rel = Eq | Ne | Lt | Gt | Le | Ge | LikeRel | NotLikeRel

  /** What an operator asks for, after trimming and upper-casing. */
  datatype Oper = IsNull | IsNotNull | Test(rel: Rel) | ContainsOp | Unsupported

  /** Upper case as far as it can produce ASCII: U+0131 and U+017F become I and S. */
  function Upper(s: string): string {
    if s == [] then ""
    else if |s| > 1 && s[..2] == "\U{C4}\U{B1}" then "I" + Upper(s[2..])
    else if |s| > 1 && s[..2] == "\U{C5}\U{BF}" then "S" + Upper(s[2..])
    else [if 'a' <= s[0] <= 'z' then s[0] - 32 as char else s[0]] + Upper(s[1..])
  }

  const OPERATORS: seq<(string, Oper)> := [
    ("IS NULL", IsNull), ("IS NOT NULL", IsNotNull),
    ("=", Test(Eq)), ("!=", Test(Ne)), ("<", Test(Lt)), (">", Test(Gt)), ("<=", Test(Le)), (">=", Test(Ge)),
    ("LIKE", Test(LikeRel)), ("NOT LIKE", Test(NotLikeRel)), ("CONTAINS", ContainsOp)]

  function OperIn(table: seq<(string, Oper)>, word: string): Oper {
    if table == [] then Unsupported
    else if table[0].0 == word then table[0].1
    else OperIn(table[1..], word)
  }

  function ReadOper(op: string): Oper {
    OperIn(OPERATORS, Upper(TrimSpace(op)))
  }

  /** How operators are read: ReadOper, kept as a parameter of everything that does not look inside. */
  type Operators = string -> Oper

  /** How the server compares: a collation for LIKE, and the six comparisons on cell and argument. */
  datatype Server = Server(same: (char, char) -> bool, compare: (Rel, string, string) -> bool)

  /** A row gives each column its text, or nothing for NULL. */
  type Row = string -> Option<string>

  predicate Relates(server: Server, rel: Rel, cell: string, arg: string) {
    match rel
    case LikeRel => Like(server.same, arg, cell)
    case NotLikeRel => !Like(server.same, arg, cell)
    case _ => server.compare(rel, cell, arg)
  }

  /** What the user asked for. */
  ghost predicate Wanted(ops: Operators, server: Server, f: Filter, row: Row) {
    var cell := row(f.column);
    match ops(f.op)
    case IsNull => cell.None?
    case IsNotNull => cell.Some?
    case Test(rel) => cell.Some? && Relates(server, rel, cell.value, f.value)
    case ContainsOp => cell.Some? && Contains(server.same, f.value, cell.value)
    case Unsupported => false
  }

  // ---------------------------------------------------------------- conditions and their text

  /** One condition of the clause; arg is the 1-based number of the bound parameter. */
  datatype Cond =
    | Null(col: string)
    | NotNull(col: string)
    | Compare(col: string, cast: bool, rel: Rel, arg: nat)

  predicate Holds(server: Server, c: Cond, args: seq<string>, row: Row) {
    var cell := row(c.col);
    match c
    case Null(_) => cell.None?
    case NotNull(_) => cell.Some?
    case Compare(_, _, rel, arg) =>
      cell.Some? && 1 <= arg <= |args| && Relates(server, rel, cell.value, args[arg - 1])
  }

  function RelText(rel: Rel): string {
    match rel
    case Eq => "="
    case Ne => "!="
    case Lt => "<"
    case Gt => ">"
    case Le => "<="
    case Ge => ">="
    case LikeRel => "LIKE"
    case NotLikeRel => "NOT LIKE"
  }

  function Placeholder(mysql: bool, n: nat): string {
    if mysql then "?" else "$" + Decimal(n)
  }

  function Operand(mysql: bool, col: string, cast: bool): string {
    if cast then "CAST(" + QuoteIdent(mysql, col) + " AS TEXT)" else QuoteIdent(mysql, col)
  }

  function Print(mysql: bool, c: Cond): string {
    match c
    case Null(col) => QuoteIdent(mysql, col) + " IS NULL"
    case NotNull(col) => QuoteIdent(mysql, col) + " IS NOT NULL"
    case Compare(col, cast, rel, arg) =>
      Operand(mysql, col, cast) + " " + RelText(rel) + " " + Placeholder(mysql, arg)
  }

  // ---------------------------------------------------------------- reading the text back

  function ReadOperand(mysql: bool, s: string): Parsed<(string, bool)> {
    match Strip(s, "CAST(")
    case None =>
      (match ReadIdent(mysql, s)
       case Failed => Failed
       case Parsed(name, rest) => Parsed((name, false), rest))
    case Some(inner) =>
      (match ReadIdent(mysql, inner)
       case Failed => Failed
       case Parsed(name, rest) =>
         (match Strip(rest, " AS TEXT)")
          case None => Failed
          case Some(after) => Parsed((name, true), after)))
  }

  const RELS: seq<Rel> := [Eq, Ne, Lt, Gt, Le, Ge, LikeRel, NotLikeRel]

  /** The first relation of the list that s starts with, between blanks. */
  function ReadRel(rels: seq<Rel>, s: string): Parsed<Rel> {
    if rels == [] then Failed
    else
      match Strip(s, " " + RelText(rels[0]) + " ")
      case Some(rest) => Parsed(rels[0], rest)
      case None => ReadRel(rels[1..], s)
  }

  /** A placeholder: in MySQL the next question mark, in PostgreSQL its own number. */
  function ReadPlaceholder(mysql: bool, s: string, next: nat): Parsed<nat> {
    if mysql then
      match Strip(s, "?")
      case None => Failed
      case Some(rest) => Parsed(next, rest)
    else
      match Strip(s, "$")
      case None => Failed
      case Some(rest) => ReadDigits(rest, 0)
  }

  function ReadCond(mysql: bool, s: string, next: nat): Parsed<Cond> {
    match ReadOperand(mysql, s)
    case Failed => Failed
    case Parsed((col, cast), rest) =>
      var isNull, notNull := Strip(rest, " IS NULL"), Strip(rest, " IS NOT NULL");
      if !cast && isNull.Some? then Parsed(Cond.Null(col), isNull.value)
      else if !cast && notNull.Some? then Parsed(NotNull(col), notNull.value)
      else
        match ReadRel(RELS, rest)
        case Failed => Failed
        case Parsed(rel, after) =>
          (match ReadPlaceholder(mysql, after, next)
           case Failed => Failed
           case Parsed(arg, end) => Parsed(Compare(col, cast, rel, arg), end))
  }

  function NextArg(c: Cond, next: nat): nat {
    if c.Compare? then next + 1 else next
  }

  /** Conditions joined by AND, up to the end of the text. */
  function ReadConds(mysql: bool, s: string, next: nat): Option<seq<Cond>>
    decreases |s|
  {
    match ReadCond(mysql, s, next)
    case Failed => None
    case Parsed(c, rest) =>
      if rest == [] then Some([c])
      else
        match Strip(rest, " AND ")
        case None => None
        case Some(more) =>
          if |more| >= |s| then None
          else
            match ReadConds(mysql, more, NextArg(c, next))
            case None => None
            case Some(cs) => Some([c] + cs)
  }

  /** The conditions of a WHERE clause as the server reads them; no text is no condition. */
  function ReadWhere(mysql: bool, s: string): Option<seq<Cond>> {
    if s == [] then Some([])
    else
      match Strip(s, " WHERE ")
      case None => None
      case Some(rest) => ReadConds(mysql, rest, 1)
  }

  lemma OperandReads(mysql: bool, col: string, cast: bool, rest: string)
    requires rest != [] && rest[0] == ' '
    ensures ReadOperand(mysql, Operand(mysql, col, cast) + rest) == Parsed((col, cast), rest)
  {
    var name := QuoteIdent(mysql, col);
    if cast {
      var close := " AS TEXT)";
      Assoc(close, rest, []);
      assert Operand(mysql, col, cast) + rest == "CAST(" + (name + (close + rest));
      StripWord("CAST(", name + (close + rest));
      IdentReads(mysql, col, close + rest);
      StripWord(close, rest);
    } else {
      IdentReads(mysql, col, rest);
      StripNot(name + rest, "CAST(", 0);
    }
  }

  lemma RelReads(rel: Rel, rest: string)
    ensures ReadRel(RELS, " " + RelText(rel) + " " + rest) == Parsed(rel, rest)
  {
    var word := " " + RelText(rel) + " ";
    StripWord(word, rest);
    RelScan(RELS, rel, rest);
  }

  /** No relation's text, blanks included, starts another's. */
  lemma RelsDiffer(a: Rel, b: Rel, rest: string)
    requires a != b
    ensures Strip(" " + RelText(a) + " " + rest, " " + RelText(b) + " ") == None
  {
    var s, word := " " + RelText(a) + " " + rest, " " + RelText(b) + " ";
    assert s[1] == RelText(a)[0] && word[1] == RelText(b)[0];
    assert s[2] == (if |RelText(a)| > 1 then RelText(a)[1] else ' ');
    assert word[2] == (if |RelText(b)| > 1 then RelText(b)[1] else ' ');
    StripNot(s, word, if RelText(a)[0] != RelText(b)[0] then 1 else 2);
  }

  lemma {:induction false} RelScan(rels: seq<Rel>, rel: Rel, rest: string)
    requires rel in rels
    ensures ReadRel(rels, " " + RelText(rel) + " " + rest) == Parsed(rel, rest)
  {
    if rels[0] == rel {
      StripWord(" " + RelText(rel) + " ", rest);
    } else {
      RelsDiffer(rel, rels[0], rest);
      RelScan(rels[1..], rel, rest);
    }
  }

  lemma PlaceholderReads(mysql: bool, n: nat, rest: string)
    requires rest == [] || rest[0] == ' '
    ensures ReadPlaceholder(mysql, Placeholder(mysql, n) + rest, n) == Parsed(n, rest)
  {
    if mysql {
      StripWord("?", rest);
    } else {
      Assoc("$", Decimal(n), rest);
      StripWord("$", Decimal(n) + rest);
      DigitsRead(n, rest);
    }
  }

  /** A printed condition reads back as itself, whatever bytes the column name has. */
  lemma CondReads(mysql: bool, c: Cond, next: nat, rest: string)
    requires rest == [] || rest[0] == ' '
    requires c.Compare? ==> c.arg == next
    ensures ReadCond(mysql, Print(mysql, c) + rest, next) == Parsed(c, rest)
  {
    match c
    case Null(col) =>
      NullReads(mysql, col, " IS NULL", rest);
    case NotNull(col) =>
      NullReads(mysql, col, " IS NOT NULL", rest);
      assert (" IS NOT NULL" + rest)[5] == 'O' && " IS NULL"[5] == 'U';
      StripNot(" IS NOT NULL" + rest, " IS NULL", 5);
    case Compare(col, cast, rel, arg) =>
      CompareReads(mysql, c, rest);
  }

  lemma CompareReads(mysql: bool, c: Cond, rest: string)
    requires rest == [] || rest[0] == ' '
    requires c.Compare?
    ensures ReadCond(mysql, Print(mysql, c) + rest, c.arg) == Parsed(c, rest)
  {
    var place := Placeholder(mysql, c.arg) + rest;
    var tail := " " + RelText(c.rel) + " " + place;
    Glue(Operand(mysql, c.col, c.cast), RelText(c.rel), Placeholder(mysql, c.arg), rest);
    OperandReads(mysql, c.col, c.cast, tail);
    RelReads(c.rel, place);
    PlaceholderReads(mysql, c.arg, rest);
    RelIsNotNull(c.rel, place);
  }

  lemma Glue(a: string, b: string, c: string, rest: string)
    ensures a + " " + b + " " + c + rest == a + (" " + b + " " + (c + rest))
  {
  }

  lemma NullReads(mysql: bool, col: string, word: string, rest: string)
    requires word != [] && word[0] == ' '
    ensures ReadOperand(mysql, QuoteIdent(mysql, col) + word + rest) == Parsed((col, false), word + rest)
    ensures Strip(word + rest, word) == Some(rest)
  {
    assert QuoteIdent(mysql, col) + word + rest == QuoteIdent(mysql, col) + (word + rest);
    OperandReads(mysql, col, false, word + rest);
    StripWord(word, rest);
  }

  lemma RelIsNotNull(rel: Rel, rest: string)
    ensures Strip(" " + RelText(rel) + " " + rest, " IS NULL").None?
    ensures Strip(" " + RelText(rel) + " " + rest, " IS NOT NULL").None?
  {
    var s := " " + RelText(rel) + " " + rest;
    assert s[1] == RelText(rel)[0];
    StripNot(s, " IS NULL", 1);
    StripNot(s, " IS NOT NULL", 1);
  }

  function Texts(mysql: bool, conds: seq<Cond>): (r: seq<string>)
    ensures |r| == |conds|
  {
    if conds == [] then [] else [Print(mysql, conds[0])] + Texts(mysql, conds[1..])
  }

  /** The tests are numbered one after the other from next. */
  predicate Numbered(conds: seq<Cond>, next: nat) {
    conds == [] ||
    ((conds[0].Compare? ==> conds[0].arg == next) && Numbered(conds[1..], NextArg(conds[0], next)))
  }

  lemma {:induction false} CondsRead(mysql: bool, conds: seq<Cond>, next: nat)
    requires conds != [] && Numbered(conds, next)
    ensures ReadConds(mysql, Join(Texts(mysql, conds), " AND "), next) == Some(conds)
  {
    var c, texts, and := conds[0], Texts(mysql, conds), " AND ";
    assert texts[0] == Print(mysql, c) && texts[1..] == Texts(mysql, conds[1..]);
    if |conds| == 1 {
      CondReads(mysql, c, next, []);
      assert Print(mysql, c) + [] == Print(mysql, c);
      assert conds == [c];
    } else {
      var more := Join(texts[1..], and);
      CondsRead(mysql, conds[1..], NextArg(c, next));
      Assoc(texts[0], and, more);
      CondReads(mysql, c, next, and + more);
      StripWord(and, more);
      assert [c] + conds[1..] == conds;
    }
  }

  lemma WhereReads(mysql: bool, conds: seq<Cond>)
    requires conds != [] && Numbered(conds, 1)
    ensures ReadWhere(mysql, " WHERE " + Join(Texts(mysql, conds), " AND ")) == Some(conds)
  {
    CondsRead(mysql, conds, 1);
    StripWord(" WHERE ", Join(Texts(mysql, conds), " AND "));
  }

  // ---------------------------------------------------------------- the compiler

  datatype FilterError = TooMany | UnknownColumn(column: string) | BadOperator(op: string)

  datatype Clause = Clause(text: string, args: seq<string>) | Refused(error: FilterError)

  /** What is wrong with a filter, if anything: the column is looked at before the operator. */
  function Fault(ops: Operators, cols: set<string>, f: Filter): Option<FilterError> {
    if f.column !in cols then Some(UnknownColumn(f.column))
    else if ops(f.op).Unsupported? then Some(BadOperator(f.op))
    else None
  }

  /** Whether the condition, with these arguments, is true of exactly the rows the filter wants. */
  ghost predicate Means(ops: Operators, c: Cond, args: seq<string>, f: Filter) {
    forall server: Server, row: Row :: Agrees(ops, server, c, args, f, row)
  }

  ghost predicate Agrees(ops: Operators, server: Server, c: Cond, args: seq<string>, f: Filter, row: Row) {
    Holds(server, c, args, row) <==> Wanted(ops, server, f, row)
  }

  lemma NullMeans(ops: Operators, f: Filter, c: Cond, args: seq<string>)
    requires c.col == f.column
    requires (ops(f.op).IsNull? && c.Null?) || (ops(f.op).IsNotNull? && c.NotNull?)
    ensures Means(ops, c, args, f)
  {
  }

  lemma TestMeans(ops: Operators, f: Filter, c: Cond, args: seq<string>)
    requires c.Compare? && c.col == f.column && 1 <= c.arg <= |args|
    requires ops(f.op) == Test(c.rel) && args[c.arg - 1] == f.value
    ensures Means(ops, c, args, f)
  {
  }

  lemma ContainsMeans(ops: Operators, f: Filter, c: Cond, args: seq<string>)
    requires c.Compare? && c.col == f.column && 1 <= c.arg <= |args|
    requires ops(f.op).ContainsOp? && c.rel == LikeRel && args[c.arg - 1] == ContainsPattern(f.value)
    ensures Means(ops, c, args, f)
  {
    forall server: Server, row: Row
      ensures Agrees(ops, server, c, args, f, row)
    {
      if row(f.column).Some? {
        ContainsIff(server.same, f.value, row(f.column).value);
      }
    }
  }

  /** More arguments do not change a condition that has its own. */
  lemma MeansMore(ops: Operators, c: Cond, args: seq<string>, f: Filter, arg: string)
    requires Means(ops, c, args, f) && (c.Compare? ==> c.arg <= |args|)
    ensures Means(ops, c, args + [arg], f)
  {
    forall server: Server, row: Row
      ensures Agrees(ops, server, c, args + [arg], f, row)
    {
      assert Agrees(ops, server, c, args, f, row);
      assert Holds(server, c, args, row) <==> Holds(server, c, args + [arg], row);
    }
  }

  lemma {:induction false} NumberedLast(conds: seq<Cond>, c: Cond, next: nat, last: nat)
    requires Numbered(conds, next) && last == next + Tests(conds)
    requires c.Compare? ==> c.arg == last
    ensures Numbered(conds + [c], next) && Tests(conds + [c]) == Tests(conds) + Tests([c])
  {
    if conds == [] {
      assert conds + [c] == [c] && [c][1..] == [];
    } else {
      assert (conds + [c])[1..] == conds[1..] + [c];
      NumberedLast(conds[1..], c, NextArg(conds[0], next), last);
    }
  }

  function Tests(conds: seq<Cond>): nat {
    if conds == [] then 0 else (if conds[0].Compare? then 1 else 0) + Tests(conds[1..])
  }

  lemma {:induction false} TextsLast(mysql: bool, conds: seq<Cond>, c: Cond)
    ensures Texts(mysql, conds + [c]) == Texts(mysql, conds) + [Print(mysql, c)]
  {
    if conds == [] {
      assert conds + [c] == [c] && [c][1..] == [];
    } else {
      assert (conds + [c])[1..] == conds[1..] + [c];
      TextsLast(mysql, conds[1..], c);
    }
  }

  /** The conditions read from the clause select, together, exactly the rows every filter wants. */
  ghost predicate Selects(ops: Operators, conds: seq<Cond>, args: seq<string>, filters: seq<Filter>) {
    |conds| == |filters| && forall i :: 0 <= i < |conds| ==> Means(ops, conds[i], args, filters[i])
  }

  /** The two refusals of the loop. */
  method CheckFilter(ops: Operators, cols: set<string>, f: Filter) returns (fault: Option<FilterError>)
    ensures fault == Fault(ops, cols, f)
  {
    if f.column !in cols {
      return Some(UnknownColumn(f.column));
    }
    if ops(f.op).Unsupported? {
      return Some(BadOperator(f.op));
    }
    return None;
  }

  /** One turn of the loop: the text of the filter's condition and the arguments after it. */
  method CompileFilter(ops: Operators, mysql: bool, ghost cols: set<string>, f: Filter, ghost done: seq<Filter>,
                       ghost parts: seq<string>, args: seq<string>, ghost conds: seq<Cond>)
    returns (part: string, more: seq<string>, ghost c: Cond)
    requires Fault(ops, cols, f).None? && Compiled(ops, mysql, parts, args, conds, done)
    ensures Compiled(ops, mysql, parts + [part], more, conds + [c], done + [f])
  {
    more := args;
    match ops(f.op) {
      case IsNull =>
        part := QuoteIdent(mysql, f.column) + " IS NULL";
        c := Cond.Null(f.column);
        AddNull(ops, conds, args, done, f, c);
      case IsNotNull =>
        part := QuoteIdent(mysql, f.column) + " IS NOT NULL";
        c := NotNull(f.column);
        AddNull(ops, conds, args, done, f, c);
      case Test(rel) =>
        var cast := !mysql && (rel.LikeRel? || rel.NotLikeRel?);
        more := args + [f.value];
        part := Operand(mysql, f.column, cast) + " " + RelText(rel) + " " + Placeholder(mysql, |more|);
        c := Compare(f.column, cast, rel, |more|);
        AddTest(ops, conds, more, done, f, c);
      case ContainsOp =>
        more := args + [ContainsPattern(f.value)];
        part := Operand(mysql, f.column, !mysql) + " " + RelText(LikeRel) + " " + Placeholder(mysql, |more|);
        c := Compare(f.column, !mysql, LikeRel, |more|);
        AddTest(ops, conds, more, done, f, c);
    }
    NumberedLast(conds, c, 1, 1 + Tests(conds));
    TextsLast(mysql, conds, c);
    assert [c][1..] == [];
  }

  /** Why the list is refused: the fault of its first faulty filter. */
  function FirstFault(ops: Operators, cols: set<string>, filters: seq<Filter>): Option<FilterError> {
    if filters == [] then None
    else
      var before := FirstFault(ops, cols, filters[..|filters| - 1]);
      if before.Some? then before else Fault(ops, cols, filters[|filters| - 1])
  }

  lemma {:induction false} NoFault(ops: Operators, cols: set<string>, filters: seq<Filter>)
    ensures FirstFault(ops, cols, filters).None? <==>
            forall i :: 0 <= i < |filters| ==> Fault(ops, cols, filters[i]).None?
  {
    if filters != [] {
      NoFault(ops, cols, filters[..|filters| - 1]);
    }
  }

  lemma {:induction false} FaultStays(ops: Operators, cols: set<string>, filters: seq<Filter>, i: nat)
    requires i <= |filters| && FirstFault(ops, cols, filters[..i]).Some?
    ensures FirstFault(ops, cols, filters) == FirstFault(ops, cols, filters[..i])
  {
    if i < |filters| {
      var before := filters[..|filters| - 1];
      assert before[..i] == filters[..i];
      FaultStays(ops, cols, before, i);
    } else {
      assert filters[..i] == filters;
    }
  }

  /** The loop over the filters. */
  method CompileFilters(ops: Operators, mysql: bool, cols: set<string>, filters: seq<Filter>)
    returns (fault: Option<FilterError>, parts: seq<string>, args: seq<string>, ghost conds: seq<Cond>)
    ensures fault == FirstFault(ops, cols, filters)
    ensures fault.None? ==> Compiled(ops, mysql, parts, args, conds, filters)
  {
    parts, args, conds, fault := [], [], [], None;
    ghost var done: seq<Filter> := [];
    for i := 0 to |filters|
      invariant done == filters[..i] && fault.None? && FirstFault(ops, cols, done).None?
      invariant Compiled(ops, mysql, parts, args, conds, done)
    {
      fault := CheckFilter(ops, cols, filters[i]);
      NextFault(ops, cols, filters, i);
      if fault.Some? {
        return;
      }
      ghost var c;
      var part;
      part, args, c := CompileFilter(ops, mysql, cols, filters[i], done, parts, args, conds);
      parts, conds, done := parts + [part], conds + [c], done + [filters[i]];
    }
    assert done == filters;
  }

  /** What the loop has built for the filters done. */
  ghost predicate Compiled(ops: Operators, mysql: bool, parts: seq<string>, args: seq<string>, conds: seq<Cond>, done: seq<Filter>) {
    && Selects(ops, conds, args, done) && parts == Texts(mysql, conds)
    && Numbered(conds, 1) && |args| == Tests(conds)
  }

  lemma NextFault(ops: Operators, cols: set<string>, filters: seq<Filter>, i: nat)
    requires i < |filters| && FirstFault(ops, cols, filters[..i]).None?
    ensures var fault := Fault(ops, cols, filters[i]);
            && FirstFault(ops, cols, filters[..i] + [filters[i]]) == fault
            && (fault.Some? ==> FirstFault(ops, cols, filters) == fault)
  {
    var upto := filters[..i + 1];
    assert upto[..i] == filters[..i] && upto == filters[..i] + [filters[i]];
    if Fault(ops, cols, filters[i]).Some? {
      FaultStays(ops, cols, filters, i + 1);
    }
  }

  /**
   * A refused list has too many filters or a faulty one, and the first fault is reported.
   * Otherwise the server, reading the text back, keeps exactly the rows every filter wants.
   */
  method BuildWhere(mysql: bool, cols: set<string>, filters: seq<Filter>) returns (r: Clause)
    ensures |filters| > MAX_FILTERS ==> r == Refused(TooMany)
    ensures |filters| <= MAX_FILTERS ==>
              match FirstFault(ReadOper, cols, filters)
              case None => r.Clause?
              case Some(fault) => r == Refused(fault)
    ensures r.Clause? ==> var read := ReadWhere(mysql, r.text);
              && read.Some? && Selects(ReadOper, read.value, r.args, filters)
              && |r.args| == Tests(read.value) && Numbered(read.value, 1)
  {
    if |filters| > MAX_FILTERS {
      return Refused(TooMany);
    }
    var fault, parts, args, conds := CompileFilters(ReadOper, mysql, cols, filters);
    if fault.Some? {
      return Refused(fault.value);
    }
    if |parts| == 0 {
      assert conds == [];
      return Clause("", []);
    }
    WhereReads(mysql, conds);
    return Clause(" WHERE " + Join(parts, " AND "), args);
  }

  lemma AddNull(ops: Operators, conds: seq<Cond>, args: seq<string>, done: seq<Filter>, f: Filter, c: Cond)
    requires Selects(ops, conds, args, done) && c.col == f.column
    requires (ops(f.op).IsNull? && c.Null?) || (ops(f.op).IsNotNull? && c.NotNull?)
    ensures Selects(ops, conds + [c], args, done + [f])
  {
    NullMeans(ops, f, c, args);
  }

  lemma AddTest(ops: Operators, conds: seq<Cond>, args: seq<string>, done: seq<Filter>, f: Filter, c: Cond)
    requires args != [] && Numbered(conds, 1) && |args| == Tests(conds) + 1
    requires Selects(ops, conds, args[..|args| - 1], done)
    requires c.Compare? && c.col == f.column && c.arg == |args|
    requires var arg := args[|args| - 1];
             (ops(f.op) == Test(c.rel) && arg == f.value) ||
             (ops(f.op) == ContainsOp && c.rel == LikeRel && arg == ContainsPattern(f.value))
    ensures Selects(ops, conds + [c], args, done + [f])
  {
    var before := args[..|args| - 1];
    forall i | 0 <= i < |conds| ensures Means(ops, conds[i], args, done[i]) {
      ArgInRange(conds, 1, i);
      MeansMore(ops, conds[i], before, done[i], args[|args| - 1]);
      assert before + [args[|args| - 1]] == args;
    }
    if ops(f.op).ContainsOp? {
      ContainsMeans(ops, f, c, args);
    } else {
      TestMeans(ops, f, c, args);
    }
  }

  lemma {:induction false} ArgInRange(conds: seq<Cond>, next: nat, i: nat)
    requires Numbered(conds, next) && i < |conds|
    ensures conds[i].Compare? ==> next <= conds[i].arg < next + Tests(conds)
  {
    if i > 0 {
      ArgInRange(conds[1..], NextArg(conds[0], next), i - 1);
    }
  }
}
