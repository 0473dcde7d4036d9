/** The statement size limit: exactly which scripts it lets through. */
module SqlLimit {
  import opened Text
  import opened SqlScan
  import opened SqlTokens
  import SqlPrefix
  import opened SqlExport

  // ------------------------------------------------------------ the same scanner under a smaller limit

  function Under(cfg: Config, m: nat): Config {
    cfg.(max := m)
  }

  lemma {:induction false} QuotedLimit(cfg: Config, m: nat, s: Scan, q: char, bs: bool)
    requires m <= cfg.max
    ensures Quoted(Under(cfg, m), s, q, bs) == Quoted(cfg, s, q, bs) || |Quoted(Under(cfg, m), s, q, bs).buf| > m
    decreases |s.rest|
  {
    if |s.buf| <= m {
      var on := QuotedOn(cfg, s, q, bs);
      assert QuotedOn(Under(cfg, m), s, q, bs) == on;
      if on.Some? {
        QuotedLimit(cfg, m, on.value, q, bs);
      }
    }
  }

  lemma {:induction false} BodyLimit(cfg: Config, m: nat, s: Scan, start: nat, tag: string)
    requires m <= cfg.max
    ensures var t := DollarBody(Under(cfg, m), s, start, tag);
            t == DollarBody(cfg, s, start, tag) || |t.buf| > m
    decreases |s.rest|
  {
    if s.rest != [] {
      BodyLimit(cfg, m, Put(Read(s), [s.rest[0]]), start, tag);
    }
  }

  lemma DollarLimit(cfg: Config, m: nat, s: Scan)
    requires m <= cfg.max && DollarOpener(s.rest)
    ensures var t := SqlScan.Dollar(Under(cfg, m), s); t == SqlScan.Dollar(cfg, s) || |t.buf| > m
  {
    var k := IdentRun(Peek(s.rest, 66));
    var tag := "$" + s.rest[..k] + "$";
    var s1 := Put(s.(rest := s.rest[k + 1..]), tag);
    BodyLimit(cfg, m, s1, |s1.buf|, tag);
  }

  lemma {:induction false} BlockLimit(cfg: Config, m: nat, s: Scan, prev: char, keep: bool)
    ensures Block(Under(cfg, m), s, prev, keep) == Block(cfg, s, prev, keep)
    decreases |s.rest|
  {
    if s.rest != [] {
      BlockLimit(cfg, m, if keep then Put(Read(s), [s.rest[0]]) else Read(s), s.rest[0], keep);
    }
  }

  lemma CommentLimit(cfg: Config, m: nat, s: Scan)
    requires s.rest != []
    ensures SqlScan.BlockComment(Under(cfg, m), s) == SqlScan.BlockComment(cfg, s)
  {
    var s1 := Read(s);
    var keep := cfg.mysql && s1.rest != [] && s1.rest[0] == '!';
    BlockLimit(cfg, m, if keep then Put(s1, "/*") else s1, '\0', keep);
  }

  /** A step does not depend on the limit, unless it runs over the smaller one. */
  lemma StepLimit(cfg: Config, m: nat, s: Scan)
    requires m <= cfg.max && s.rest != []
    ensures var e := Step(Under(cfg, m), s); e == Step(cfg, s) || (e.Go? && |e.s.buf| > m)
  {
    var c, r := s.rest[0], Read(s);
    match TurnAt(cfg.mysql, s.last, s.content, s.delim, s.rest)
    case OnQuote => QuotedLimit(cfg, m, Put(r, [c]), c, cfg.mysql && c != '`');
    case OnBlockComment => CommentLimit(cfg, m, r);
    case OnDollar => DollarLimit(cfg, m, r);
    case _ =>
  }

  /** Scanning the text never holds more than m bytes of a statement. */
  predicate Within(cfg: Config, s: Scan, m: nat)
    decreases |s.rest|
  {
    |s.buf| <= m && (s.rest == [] || Within(cfg, SqlPrefix.Onward(Step(cfg, s)), m))
  }

  /** A script read to its end under a limit stays within it under any larger limit. */
  lemma {:induction false} ReadIsWithin(cfg: Config, m: nat, s: Scan)
    requires m <= cfg.max && Run(Under(cfg, m), s).end == AtEof
    ensures Within(cfg, s, m)
    decreases |s.rest|
  {
    if s.rest != [] {
      StepLimit(cfg, m, s);
      var e := Step(Under(cfg, m), s);
      OnwardEnds(Under(cfg, m), s);
      TooLongEnds(Under(cfg, m), SqlPrefix.Onward(e));
      ReadIsWithin(cfg, m, SqlPrefix.Onward(e));
    }
  }

  lemma OnwardEnds(cfg: Config, s: Scan)
    requires s.rest != [] && Run(cfg, s).end == AtEof
    ensures |s.buf| <= cfg.max && Run(cfg, SqlPrefix.Onward(Step(cfg, s))).end == AtEof
  {
    var e := Step(cfg, s);
    if e.Go? {
      StepRuns(cfg, s, e.s);
    } else {
      StatementRuns(cfg, s, e.s);
    }
  }

  lemma TooLongEnds(cfg: Config, s: Scan)
    ensures Run(cfg, s).end == AtEof ==> |s.buf| <= cfg.max
  {
  }

  // ------------------------------------------------------------ printed token lists

  function Longest(mysql: bool, ts: List<Token>, raw: string): (m: nat)
    ensures Fits(mysql, ts, raw, m)
  {
    match ts
    case Nil => |raw|
    case Cons(t, rest) =>
      var m := Longest(mysql, rest, if t.End? then "" else raw + Kept(mysql, t));
      FitsMore(mysql, rest, if t.End? then "" else raw + Kept(mysql, t), m, if m < |raw| then |raw| else m);
      if m < |raw| then |raw| else m
  }

  lemma {:induction false} FitsMore(mysql: bool, ts: List<Token>, raw: string, m: nat, n: nat)
    requires Fits(mysql, ts, raw, m) && m <= n
    ensures Fits(mysql, ts, raw, n)
    decreases ts
  {
    match ts
    case Nil =>
    case Cons(t, rest) => FitsMore(mysql, rest, if t.End? then "" else raw + Kept(mysql, t), m, n);
  }

  /** The scanner's state matches the token list still to be read, which fits under the scanner's own limit. */
  ghost predicate Reads(cfg: Config, s: Scan, ts: List<Token>) {
    && s.delim != [] && s.rest == Print(ts, s.delim)
    && WellFormed(cfg.mysql, ts, s.delim, s.last, s.content) && Fits(cfg.mysql, ts, s.buf, cfg.max)
  }

  lemma ReadsToken(cfg: Config, s: Scan, t: Token, rest: List<Token>, m: nat)
    requires Reads(cfg, s, Cons(t, rest)) && Within(cfg, s, m) && !t.End?
    ensures var u := After(cfg.mysql, s, t, Print(rest, DelimAfter(t, s.delim)));
            |s.buf| <= m && Reads(cfg, u, rest) && Within(cfg, u, m) && u.buf == s.buf + Kept(cfg.mysql, t)
  {
    TokenFits(cfg.mysql, t, rest, s.buf, cfg.max);
    TokenWithin(cfg, s, t, Print(rest, DelimAfter(t, s.delim)), m);
  }

  lemma ReadsEnd(cfg: Config, s: Scan, rest: List<Token>, m: nat)
    requires Reads(cfg, s, Cons(End, rest)) && Within(cfg, s, m)
    ensures var u := Fresh(s.(rest := Print(rest, s.delim), last := s.delim[0]));
            |s.buf| <= m && Reads(cfg, u, rest) && Within(cfg, u, m) && u.buf == ""
  {
    EndWithin(cfg, s, Print(rest, s.delim), m);
  }

  lemma {:induction false} WithinFits(cfg: Config, s: Scan, ts: List<Token>, m: nat)
    requires Reads(cfg, s, ts) && Within(cfg, s, m)
    ensures Fits(cfg.mysql, ts, s.buf, m)
    decreases ts
  {
    match ts
    case Nil =>
    case Cons(End, rest) =>
      ReadsEnd(cfg, s, rest, m);
      WithinFits(cfg, Fresh(s.(rest := Print(rest, s.delim), last := s.delim[0])), rest, m);
    case Cons(t, rest) =>
      ReadsToken(cfg, s, t, rest, m);
      WithinFits(cfg, After(cfg.mysql, s, t, Print(rest, DelimAfter(t, s.delim))), rest, m);
  }

  lemma TokenWithin(cfg: Config, s: Scan, t: Token, follow: string, m: nat)
    requires s.rest == PrintToken(t, s.delim) + follow && s.delim != [] && !t.End?
    requires TokenOk(cfg.mysql, t, s.delim, s.last, s.content, follow)
    requires |s.buf| + |Kept(cfg.mysql, t)| <= cfg.max && Within(cfg, s, m)
    ensures |s.buf| <= m && Within(cfg, After(cfg.mysql, s, t, follow), m)
  {
    TokenReads(cfg, s, t, follow);
  }

  lemma EndWithin(cfg: Config, s: Scan, follow: string, m: nat)
    requires s.rest == s.delim + follow && s.delim != [] && Within(cfg, s, m)
    requires TokenOk(cfg.mysql, End, s.delim, s.last, s.content, follow)
    ensures |s.buf| <= m && Within(cfg, Fresh(s.(rest := follow, last := s.delim[0])), m)
  {
    EndReads(cfg, s, follow);
  }

  /** A printed token list is read to its end exactly when no statement's raw text is over the limit. */
  lemma ReadIffFits(cfg: Config, s: Scan, ts: List<Token>)
    requires !cfg.fails && !s.rerr && s.delim != [] && s.rest == Print(ts, s.delim)
    requires WellFormed(cfg.mysql, ts, s.delim, s.last, s.content)
    ensures Fits(cfg.mysql, ts, s.buf, cfg.max) ==> Run(cfg, s) == Script(Meaning(cfg.mysql, ts, s.buf), AtEof)
    ensures Run(cfg, s).end == AtEof ==> Fits(cfg.mysql, ts, s.buf, cfg.max)
  {
    if Fits(cfg.mysql, ts, s.buf, cfg.max) {
      ScanPrinted(cfg, s, ts);
    } else if Run(cfg, s).end == AtEof {
      var n := Longest(cfg.mysql, ts, s.buf);
      var big := if n < cfg.max then cfg.max else n;
      FitsMore(cfg.mysql, ts, s.buf, n, big);
      var wide := cfg.(max := big);
      assert Under(wide, cfg.max) == cfg;
      ReadIsWithin(wide, cfg.max, s);
      WithinFits(wide, s, ts, cfg.max);
    }
  }

  // ------------------------------------------------------------ dumps

  lemma {:induction false} AddsNeeds(mysql: bool, ts: List<Token>, text: string, k: List<Token>, raw: string, max: nat)
    requires Adds(ts, text, k) && Fits(mysql, ts, raw, max)
    ensures Fits(mysql, k, raw + text, max)
    decreases ts
  {
    if text == "" {
      assert raw + text == raw;
    } else {
      var w := PrintToken(ts.head, ";");
      Glue(raw, w, text, "");
      AddsNeeds(mysql, ts.tail, text[|w|..], k, raw + w, max);
    }
  }

  /** A statement of a dump is scanned behind one kept line break. */
  lemma StatementNeeds(mysql: bool, ts: List<Token>, st: string, k: List<Token>, max: nat)
    requires Adds(ts, st, EndThen(k)) && Fits(mysql, ts, "\n", max)
    ensures |st| + 1 <= max && Fits(mysql, k, "\n", max)
  {
    AddsNeeds(mysql, ts, st, EndThen(k), "\n", max);
    EndNeeds(mysql, "\n" + st, k, max);
  }

  lemma EndNeeds(mysql: bool, raw: string, k: List<Token>, max: nat)
    requires Fits(mysql, EndThen(k), raw, max)
    ensures |raw| <= max && Fits(mysql, k, "\n", max)
  {
    assert Fits(mysql, Cons(Char('\n'), k), "", max);
    assert "" + "\n" == "\n";
  }

  lemma ShortCons(st: string, stmts: seq<string>, max: nat)
    requires |st| + 1 <= max && Short(stmts, max)
    ensures Short([st] + stmts, max)
  {
  }

  lemma {:induction false} InsertsNeed(mysql: bool, table: string, columns: seq<string>, batches: seq<seq<seq<Value>>>,
                                       k: List<Token>, max: nat)
    requires BatchesOk(batches) && Steady(mysql, k)
    requires Fits(mysql, InsertsThen(mysql, table, columns, batches, k), "\n", max)
    ensures Steady(mysql, InsertsThen(mysql, table, columns, batches, k))
    ensures Short(Inserts(mysql, Head(mysql, table, columns), batches), max) && Fits(mysql, k, "\n", max)
    decreases |batches|
  {
    if batches != [] {
      var m := InsertsThen(mysql, table, columns, batches[1..], k);
      InsertsSteady(mysql, table, columns, batches[1..], k);
      EndLeads(mysql, m);
      InsertAdds(mysql, table, columns, batches[0], EndThen(m));
      var st := Insert(mysql, Head(mysql, table, columns), batches[0]);
      StatementNeeds(mysql, InsertThen(mysql, table, columns, batches[0], EndThen(m)), st, m, max);
      InsertsNeed(mysql, table, columns, batches[1..], k, max);
      ShortCons(st, Inserts(mysql, Head(mysql, table, columns), batches[1..]), max);
    }
  }

  lemma {:induction false} InsertsSteady(mysql: bool, table: string, columns: seq<string>, batches: seq<seq<seq<Value>>>, k: List<Token>)
    requires BatchesOk(batches) && Steady(mysql, k)
    ensures Steady(mysql, InsertsThen(mysql, table, columns, batches, k))
    decreases |batches|
  {
    if batches != [] {
      var m := InsertsThen(mysql, table, columns, batches[1..], k);
      InsertsSteady(mysql, table, columns, batches[1..], k);
      EndLeads(mysql, m);
      InsertAdds(mysql, table, columns, batches[0], EndThen(m));
    }
  }

  lemma {:induction false} SetValsNeed(table: string, cols: seq<string>, k: List<Token>, max: nat)
    requires Steady(false, k) && Fits(false, SetValsThen(table, cols, k), "\n", max)
    ensures Short(SetVals(table, cols), max) && Fits(false, k, "\n", max)
    decreases |cols|
  {
    if cols != [] {
      var m := SetValsThen(table, cols[1..], k);
      SetValsSteady(table, cols[1..], k);
      EndLeads(false, m);
      SetValAdds(table, cols[0], EndThen(m));
      var st := SetVal(table, cols[0]);
      StatementNeeds(false, SetValThen(table, cols[0], EndThen(m)), st, m, max);
      SetValsNeed(table, cols[1..], k, max);
      ShortCons(st, SetVals(table, cols[1..]), max);
    }
  }

  lemma {:induction false} SetValsSteady(table: string, cols: seq<string>, k: List<Token>)
    requires Steady(false, k)
    ensures Steady(false, SetValsThen(table, cols, k))
    decreases |cols|
  {
    if cols != [] {
      var m := SetValsThen(table, cols[1..], k);
      SetValsSteady(table, cols[1..], k);
      EndLeads(false, m);
      SetValAdds(table, cols[0], EndThen(m));
    }
  }

  lemma BlankNeeds(mysql: bool, max: nat)
    ensures Fits(mysql, BLANK_LINE, "\n", max) ==> max >= 2
    ensures Steady(mysql, BLANK_LINE)
  {
    BlankLine(mysql, 2);
    assert Kept(mysql, Char('\n')) == "\n" && |"\n" + "\n"| == 2;
    assert Fits(mysql, BLANK_LINE, "\n", max) ==> Fits(mysql, Nil, "\n" + "\n", max);
  }

  lemma ShortBoth(a: seq<string>, b: seq<string>, max: nat)
    requires Short(a, max) && Short(b, max)
    ensures Short(a + b, max)
  {
  }

  /** The tokens of a dump fit under a limit only if every statement and its line break do. */
  lemma DumpNeeds(mysql: bool, table: string, columns: seq<string>, rows: seq<seq<Value>>, serials: seq<string>, max: nat)
    requires RowsOk(rows) && Fits(mysql, DumpThen(mysql, table, columns, rows, serials), "\n", max)
    ensures max >= 2 && Short(DumpStatements(mysql, table, columns, rows, serials), max)
  {
    BlankNeeds(mysql, max);
    BatchesAreOk(mysql, rows, [], 0);
    var a := Inserts(mysql, Head(mysql, table, columns), Batches(mysql, rows, [], 0));
    var b := if mysql then [] else SetVals(table, serials);
    if mysql {
      InsertsNeed(mysql, table, columns, Batches(mysql, rows, [], 0), BLANK_LINE, max);
    } else {
      SetValsSteady(table, serials, BLANK_LINE);
      InsertsNeed(mysql, table, columns, Batches(mysql, rows, [], 0), SetValsThen(table, serials, BLANK_LINE), max);
      SetValsNeed(table, serials, BLANK_LINE, max);
    }
    ShortBoth(a, b, max);
  }

  lemma IntroNeeds(mysql: bool, intro: string, ts: List<Token>, max: nat)
    requires Fits(mysql, Cons(LineComment(intro), Cons(Char('\n'), ts)), "", max)
    ensures Fits(mysql, ts, "\n", max)
  {
    assert "" + "" == "" && "" + "\n" == "\n";
    assert Fits(mysql, Cons(Char('\n'), ts), "", max);
  }

  /** The tokens of a whole dump. */
  function DumpTokens(mysql: bool, table: string, columns: seq<string>, rows: seq<seq<Value>>, serials: seq<string>): List<Token> {
    Cons(LineComment("-- Data of " + QuoteIdent(mysql, table)), Cons(Char('\n'), DumpThen(mysql, table, columns, rows, serials)))
  }

  /** What a dump prints, however long its statements are. */
  lemma DumpPrints(mysql: bool, table: string, columns: seq<string>, rows: seq<seq<Value>>, serials: seq<string>)
    requires '\n' !in table && RowsOk(rows)
    ensures var ts, stmts := DumpTokens(mysql, table, columns, rows, serials), DumpStatements(mysql, table, columns, rows, serials);
            Steady(mysql, ts) && Print(ts, ";") == DumpText(mysql, table, stmts)
  {
    var stmts := DumpStatements(mysql, table, columns, rows, serials);
    var n := LongestOf(stmts);
    DumpWrites(mysql, table, columns, rows, serials, n);
    var body, intro := DumpThen(mysql, table, columns, rows, serials), "-- Data of " + QuoteIdent(mysql, table);
    IntroIsOneLine(mysql, table);
    IntroMeans(mysql, intro, body, n);
    BlankLine(mysql, n);
    DumpParts(intro, Written(stmts));
  }

  function LongestOf(stmts: seq<string>): (n: nat)
    ensures n >= 2 && Short(stmts, n)
  {
    if stmts == [] then 2
    else
      var n := LongestOf(stmts[1..]);
      assert forall i :: 1 <= i < |stmts| ==> stmts[i] == stmts[1..][i - 1];
      if n < |stmts[0]| + 1 then |stmts[0]| + 1 else n
  }

  /**
   * Scanning a table's dump gives back exactly its statements, in order, precisely when every
   * statement leaves room for one byte under the limit (and the limit is at least two bytes).
   */
  lemma DumpReadsBackIff(mysql: bool, max: nat, table: string, columns: seq<string>, rows: seq<seq<Value>>, serials: seq<string>)
    requires '\n' !in table && RowsOk(rows)
    ensures var stmts := DumpStatements(mysql, table, columns, rows, serials);
            Run(Config(mysql, max, false), Start(DumpText(mysql, table, stmts))) == Script(stmts, AtEof)
            <==> max >= 2 && Short(stmts, max)
  {
    var stmts := DumpStatements(mysql, table, columns, rows, serials);
    if max >= 2 && Short(stmts, max) {
      DumpReadsBack(mysql, max, table, columns, rows, serials);
    } else if Run(Config(mysql, max, false), Start(DumpText(mysql, table, stmts))).end == AtEof {
      DumpReadNeeds(mysql, max, table, columns, rows, serials);
    }
  }

  lemma DumpReadNeeds(mysql: bool, max: nat, table: string, columns: seq<string>, rows: seq<seq<Value>>, serials: seq<string>)
    requires '\n' !in table && RowsOk(rows)
    requires Run(Config(mysql, max, false), Start(DumpText(mysql, table, DumpStatements(mysql, table, columns, rows, serials)))).end == AtEof
    ensures max >= 2 && Short(DumpStatements(mysql, table, columns, rows, serials), max)
  {
    var ts := DumpTokens(mysql, table, columns, rows, serials);
    DumpPrints(mysql, table, columns, rows, serials);
    SteadyIsWellFormed(mysql, ts, '\0', false);
    ReadIffFits(Config(mysql, max, false), Start(Print(ts, ";")), ts);
    IntroNeeds(mysql, ts.head.text, ts.tail.tail, max);
    DumpNeeds(mysql, table, columns, rows, serials, max);
  }

  lemma {:induction false} WrittenHolds(stmts: seq<string>)
    ensures Short(stmts, |Written(stmts)| + 1)
  {
    if stmts != [] {
      WrittenHolds(stmts[1..]);
      FirstWritten(stmts[0], stmts[1..]);
      assert stmts == [stmts[0]] + stmts[1..];
      var n := |Written(stmts)| + 1;
      forall i | 0 <= i < |stmts| ensures |stmts[i]| + 1 <= n {
        assert i > 0 ==> stmts[i] == stmts[1..][i - 1];
      }
    }
  }

  /** Split in memory, where the limit is the length of the text plus one, every dump is read back. */
  lemma SplitDump(mysql: bool, max: nat, table: string, columns: seq<string>, rows: seq<seq<Value>>, serials: seq<string>)
    requires '\n' !in table && RowsOk(rows)
    requires max == |DumpText(mysql, table, DumpStatements(mysql, table, columns, rows, serials))| + 1
    ensures var stmts := DumpStatements(mysql, table, columns, rows, serials);
            Run(Config(mysql, max, false), Start(DumpText(mysql, table, stmts))) == Script(stmts, AtEof)
  {
    TextHolds(mysql, table, DumpStatements(mysql, table, columns, rows, serials));
    DumpReadsBack(mysql, max, table, columns, rows, serials);
  }

  lemma TextHolds(mysql: bool, table: string, stmts: seq<string>)
    ensures |DumpText(mysql, table, stmts)| >= 1 && Short(stmts, |DumpText(mysql, table, stmts)| + 1)
  {
    WrittenHolds(stmts);
  }

  // ---------------------------------------------------------------- a table name with a line break

  lemma {:induction false} DoubledSum(q: char, a: string, b: string)
    ensures DoubleQuotes(q, a + b) == DoubleQuotes(q, a) + DoubleQuotes(q, b)
  {
    if a == [] {
      assert a + b == b;
    } else {
      assert (a + b)[1..] == a[1..] + b;
      DoubledSum(q, a[1..], b);
      Assoc(if a[0] == q then [q, q] else [a[0]], DoubleQuotes(q, a[1..]), DoubleQuotes(q, b));
    }
  }

  /** What is left of the dump of an empty table behind the first line of its name. */
  const BREAK_END := "\n\n"

  lemma BrokenIntro(mysql: bool, a: string)
    ensures DumpText(mysql, a + "\n", []) ==
            ("-- Data of " + ([IdentQuote(mysql)] + DoubleQuotes(IdentQuote(mysql), a)))
            + ("\n" + ([IdentQuote(mysql)] + BREAK_END))
  {
    var q := IdentQuote(mysql);
    DoubledSum(q, a, "\n");
    assert DoubleQuotes(q, "\n") == "\n" by { assert "\n"[1..] == ""; }
    IntroParts("-- Data of ", [q], DoubleQuotes(q, a), "\n");
  }

  lemma IntroParts(a: string, q: string, name: string, nl: string)
    ensures ((a + (q + (name + nl) + q) + nl) + "") + nl == (a + (q + name)) + (nl + (q + (nl + nl)))
  {
  }

  lemma FirstLineOk(mysql: bool, a: string, after: string)
    requires '\n' !in a && "\n" <= after
    ensures SteadyToken(mysql, LineComment("-- Data of " + ([IdentQuote(mysql)] + DoubleQuotes(IdentQuote(mysql), a))), after)
  {
    var q := IdentQuote(mysql);
    NoNewline(q, a);
    var line := "-- Data of " + ([q] + DoubleQuotes(q, a));
    assert line[..3] == "-- ";
  }

  /** A lone quote opens a name that never ends. */
  lemma LoneQuote(cfg: Config, s: Scan, q: char)
    requires q == IdentQuote(cfg.mysql) && !cfg.fails && cfg.max >= 10
    requires s.rest == [q] + BREAK_END && s.buf == "\n" && s.delim == ";" && !s.rerr
    ensures Run(cfg, s) == Script([[q]], AtEof)
  {
    NotCommand(cfg.mysql, s.last, s.content, s.rest);
    ReadFirst(s, q, BREAK_END);
    var r := Put(s.(rest := BREAK_END, last := q), [q]);
    NewlinesQuoted(cfg, r, q);
    var t := Quoted(cfg, r, q, false);
    StepRuns(cfg, s, t);
    ScanEnd(cfg, t);
    TrimLone(q);
  }

  lemma NewlinesQuoted(cfg: Config, r: Scan, q: char)
    requires q != '\n' && !cfg.fails && r.rest == BREAK_END && |r.buf| + 2 <= cfg.max
    ensures var t := Quoted(cfg, r, q, false); t.rest == [] && t.buf == r.buf + BREAK_END && t.rerr == r.rerr
  {
    var r1 := Put(r.(rest := "\n", last := '\n'), "\n");
    NewlineQuoted(cfg, r, q, "\n");
    NewlineQuoted(cfg, r1, q, "");
    Assoc(r.buf, "\n", "\n");
  }

  lemma NewlineQuoted(cfg: Config, r: Scan, q: char, more: string)
    requires q != '\n' && r.rest == ['\n'] + more && |r.buf| <= cfg.max
    ensures Quoted(cfg, r, q, false) == Quoted(cfg, Put(r.(rest := more, last := '\n'), "\n"), q, false)
  {
    ReadFirst(r, '\n', more);
  }

  lemma TrimLone(q: char)
    requires Solid(q)
    ensures Statement("\n" + [q] + BREAK_END) == [[q]]
  {
    var s := "\n" + [q] + BREAK_END;
    assert s == "\n" + ([q] + BREAK_END);
    TrimNewline([q] + BREAK_END);
    SolidStart([q] + BREAK_END);
    SolidEnd([q]);
    TrimLast([q]);
    TrimLast([q] + "\n");
    Assoc([q], "\n", "\n");
    assert BREAK_END == "\n" + "\n";
  }

  lemma TrimLast(s: string)
    ensures TrimRight(s + "\n") == TrimRight(s)
  {
    assert (s + "\n")[..|s|] == s && SpaceEnd(s + "\n") == 1;
  }

  /**
   * A table whose name ends in a line break: the comment line of its dump ends early, and even of an
   * empty table, whose dump has no statement, a statement is read back.
   */
  lemma LineBreakBreaks(mysql: bool, max: nat, a: string)
    requires '\n' !in a && max >= 10
    ensures DumpStatements(mysql, a + "\n", [], [], []) == []
    ensures Run(Config(mysql, max, false), Start(DumpText(mysql, a + "\n", []))) == Script([[IdentQuote(mysql)]], AtEof)
  {
    var q, cfg := IdentQuote(mysql), Config(mysql, max, false);
    var line, follow := "-- Data of " + ([q] + DoubleQuotes(q, a)), "\n" + ([q] + BREAK_END);
    BrokenIntro(mysql, a);
    FirstLineOk(mysql, a, follow);
    LineReads(cfg, line, follow);
    var last := SkipLast(line);
    NewlineReads(cfg, last, [q] + BREAK_END);
    LoneQuote(cfg, Scan([q] + BREAK_END, '\n', ";", "\n", false, false), q);
  }

  function SkipLast(line: string): char {
    LastAfter(LineComment(line), ";", '\0', "")
  }

  lemma LineReads(cfg: Config, line: string, follow: string)
    requires SteadyToken(cfg.mysql, LineComment(line), follow)
    ensures Run(cfg, Start(line + follow)) == Run(cfg, Scan(follow, SkipLast(line), ";", "", false, false))
  {
    var s := Start(line + follow);
    SteadyTokenOk(cfg.mysql, LineComment(line), s.last, s.content, follow);
    TokenReads(cfg, s, LineComment(line), follow);
    StepRuns(cfg, s, After(cfg.mysql, s, LineComment(line), follow));
  }

  lemma NewlineReads(cfg: Config, last: char, follow: string)
    requires cfg.max >= 10
    ensures Run(cfg, Scan("\n" + follow, last, ";", "", false, false)) ==
            Run(cfg, Scan(follow, '\n', ";", "\n", false, false))
  {
    var s := Scan("\n" + follow, last, ";", "", false, false);
    SteadyTokenOk(cfg.mysql, Char('\n'), last, false, follow);
    TokenReads(cfg, s, Char('\n'), follow);
    AfterNewline(cfg.mysql, s, follow);
    StepRuns(cfg, s, Scan(follow, '\n', ";", "\n", false, false));
  }

  lemma AfterNewline(mysql: bool, s: Scan, follow: string)
    requires s.delim == ";" && s.buf == "" && !s.content && !s.rerr
    ensures After(mysql, s, Char('\n'), follow) == Scan(follow, '\n', ";", "\n", false, false)
  {
    assert "" + ['\n'] == "\n";
    assert !HasInk(['\n']) by { assert ['\n'][1..] == []; }
  }
}
