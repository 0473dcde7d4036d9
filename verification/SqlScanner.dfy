/** The specification of the statement scanner: one step at a time over the text still to be read. */
module SqlScan {
  import opened Text

  /** Capacity of the buffered reader: a peek never sees further than this. */
  const BUFFER := 262144

  /** mysql: dialect; max: longest statement; fails: reading past the end is an error, not end of input. */
  datatype Config = Config(mysql: bool, max: nat, fails: bool)

  /** The text still to be read and everything the scanner remembers about what it read. */
  datatype Scan = Scan(rest: string, last: char, delim: string, buf: string, content: bool, rerr: bool)

  function Start(text: string): Scan {
    Scan(text, '\0', ";", "", false, false)
  }

  function Peek(text: string, n: nat): (p: string)
    ensures p <= text
  {
    var k := if n < BUFFER then n else BUFFER;
    if |text| < k then text else text[..k]
  }

  predicate Blank(c: char) {
    c in " \t\n\r"
  }

  /** s holds something other than blanks. */
  predicate HasInk(s: string) {
    s != [] && (!Blank(s[0]) || HasInk(s[1..]))
  }

  function Put(s: Scan, text: string): Scan {
    s.(buf := s.buf + text, content := s.content || HasInk(text))
  }

  /** Reads the next byte. */
  function Read(s: Scan): Scan
    requires s.rest != []
  {
    s.(rest := s.rest[1..], last := s.rest[0])
  }

  function ReadPastEnd(cfg: Config, s: Scan): Scan {
    s.(rerr := s.rerr || cfg.fails)
  }

  predicate IsIdent(c: char) {
    c == '_' || 'a' <= c <= 'z' || 'A' <= c <= 'Z' || '0' <= c <= '9'
  }

  /** One turn inside a quoted string: the state to go on from, None where the string ends. */
  function QuotedOn(cfg: Config, s: Scan, q: char, backslash: bool): (t: Option<Scan>)
    ensures t.Some? ==> |t.value.rest| < |s.rest|
  {
    if s.rest == [] || |s.buf| > cfg.max then None
    else
      var c, t := s.rest[0], Put(Read(s), [s.rest[0]]);
      if backslash && c == '\\' then (if t.rest == [] then None else Some(Put(Read(t), [t.rest[0]])))
      else if c != q then Some(t)
      else if t.rest != [] && t.rest[0] == q then Some(Put(Read(t), [q]))
      else None
  }

  /** The state a turn ends the string in: at its quote, the end of the text or the size limit. */
  function QuotedEnd(cfg: Config, s: Scan, q: char, backslash: bool): (t: Scan)
    ensures |t.rest| <= |s.rest|
  {
    if s.rest == [] then ReadPastEnd(cfg, s)
    else if |s.buf| > cfg.max then Read(s)
    else if backslash && s.rest[0] == '\\' then ReadPastEnd(cfg, Put(Read(s), [s.rest[0]]))
    else Put(Read(s), [s.rest[0]])
  }

  /** The rest of a quoted string, the opening quote already copied. */
  function Quoted(cfg: Config, s: Scan, q: char, backslash: bool): (t: Scan)
    ensures |t.rest| <= |s.rest|
    decreases |s.rest|
  {
    var on := QuotedOn(cfg, s, q, backslash);
    if on.Some? then Quoted(cfg, on.value, q, backslash) else QuotedEnd(cfg, s, q, backslash)
  }

  /** Drops a line comment up to, not including, its newline. */
  function SkipLine(s: Scan): (t: Scan)
    ensures |t.rest| <= |s.rest|
    decreases |s.rest|
  {
    if s.rest == [] || s.rest[0] == '\n' then s else SkipLine(Read(s))
  }

  /** The rest of a block comment; its text is copied only when keep holds. */
  function Block(cfg: Config, s: Scan, prev: char, keep: bool): (t: Scan)
    ensures |t.rest| <= |s.rest|
    decreases |s.rest|
  {
    if s.rest == [] then ReadPastEnd(cfg, s)
    else
      var b := s.rest[0];
      var s1 := if keep then Put(Read(s), [b]) else Read(s);
      if prev == '*' && b == '/' then s1 else Block(cfg, s1, b, keep)
  }

  function BlockComment(cfg: Config, s: Scan): (t: Scan)
    requires s.rest != []
    ensures |t.rest| <= |s.rest|
  {
    var s1 := Read(s);
    var keep := cfg.mysql && s1.rest != [] && s1.rest[0] == '!';
    var s2 := Block(cfg, if keep then Put(s1, "/*") else s1, '\0', keep);
    if keep then s2 else s2.(buf := s2.buf + " ")
  }

  predicate DashComment(mysql: bool, text: string) {
    var pk := Peek(text, 2);
    |pk| > 0 && pk[0] == '-' &&
    (!mysql || |pk| < 2 || pk[1] == ' ' || pk[1] == '\t' || pk[1] == '\n' || pk[1] == '\r')
  }

  /** Length of the run of identifier bytes at the start of s. */
  function IdentRun(s: string): (k: nat)
    ensures k <= |s|
    ensures forall i :: 0 <= i < k ==> IsIdent(s[i])
    ensures k < |s| ==> !IsIdent(s[k])
  {
    if s == [] || !IsIdent(s[0]) then 0 else 1 + IdentRun(s[1..])
  }

  /** Whether the text after a "$" completes a dollar-quote opener. */
  predicate DollarOpener(text: string) {
    var pk := Peek(text, 66);
    var k := IdentRun(pk);
    k < |pk| && pk[k] == '$' && !(k > 0 && '0' <= pk[0] <= '9')
  }

  /** The rest of a dollar-quoted body; start is the buffer length after the opener. */
  function DollarBody(cfg: Config, s: Scan, start: nat, tag: string): (t: Scan)
    ensures |t.rest| <= |s.rest|
    decreases |s.rest|
  {
    if s.rest == [] then ReadPastEnd(cfg, s)
    else
      var b, s1 := s.rest[0], Put(Read(s), [s.rest[0]]);
      if b == '$' && |s1.buf| - start >= |tag| && |tag| <= |s1.buf| && s1.buf[|s1.buf| - |tag|..] == tag then s1
      else if |s1.buf| > cfg.max then s1
      else DollarBody(cfg, s1, start, tag)
  }

  function Dollar(cfg: Config, s: Scan): (t: Scan)
    requires DollarOpener(s.rest)
    ensures |t.rest| <= |s.rest|
  {
    var k := IdentRun(Peek(s.rest, 66));
    var tag := "$" + s.rest[..k] + "$";
    var s1 := Put(s.(rest := s.rest[k + 1..]), tag);
    DollarBody(cfg, s1, |s1.buf|, tag)
  }

  /** Position of the first newline, or the length of the text. */
  function LineEnd(s: string): (n: nat)
    ensures n <= |s|
    ensures forall i :: 0 <= i < n ==> s[i] != '\n'
    ensures n < |s| ==> s[n] == '\n'
  {
    if s == [] || s[0] == '\n' then 0 else 1 + LineEnd(s[1..])
  }

  const KEYWORD := "delimiter "

  predicate StartsKeyword(text: string) {
    |text| >= 10 && EqualFold(text[..10], KEYWORD)
  }

  lemma KeywordIsOneLine(text: string)
    requires StartsKeyword(text)
    ensures LineEnd(text) >= 10
  {
    forall i | 0 <= i < 10
      ensures text[i] != '\n'
    {
      assert Lower(text[..10][i]) == KEYWORD[i];
    }
  }

  predicate IsCommand(mysql: bool, last: char, content: bool, text: string) {
    mysql && (last == '\0' || last == '\n') && !content && StartsKeyword(text)
  }

  /** A DELIMITER line: everything up to its newline; an empty argument changes nothing. */
  function Command(s: Scan): (t: Scan)
    requires StartsKeyword(s.rest)
    ensures |t.rest| < |s.rest|
  {
    var n := LineEnd(s.rest);
    KeywordIsOneLine(s.rest);
    var arg := TrimSpace(s.rest[10..n]);
    Scan(s.rest[n..], if n < |s.rest| then '\0' else s.rest[0], if arg != "" then arg else s.delim,
         s.buf, s.content, s.rerr)
  }

  predicate AtDelimiter(c: char, r: string, delim: string) {
    delim != [] && [c] + Peek(r, |delim| - 1) == delim
  }

  /** What starts at the byte about to be read. */
  datatype Turn = OnCommand | OnQuote | OnLineComment | OnBlockComment | OnDollar | OnDelimiter | OnByte

  function TurnAt(mysql: bool, last: char, content: bool, delim: string, text: string): Turn
    requires text != []
  {
    var c, r := text[0], text[1..];
    if IsCommand(mysql, last, content, text) then OnCommand
    else if c == '\'' || c == '"' || (c == '`' && mysql) then OnQuote
    else PlainTurn(mysql, delim, c, r)
  }

  /** The same for a byte c that starts neither a command nor a quote, with r after it. */
  function PlainTurn(mysql: bool, delim: string, c: char, r: string): (t: Turn)
    ensures t != OnCommand && t != OnQuote
  {
    if (c == '-' && DashComment(mysql, r)) || (c == '#' && mysql) then OnLineComment
    else if c == '/' && r != [] && r[0] == '*' then OnBlockComment
    else if c == '$' && !mysql && DollarOpener(r) then OnDollar
    else if AtDelimiter(c, r, delim) then OnDelimiter
    else OnByte
  }

  /** What one turn of the scanning loop did: went on, or saw the delimiter. */
  datatype Event = Go(s: Scan) | Split(s: Scan)

  function Step(cfg: Config, s: Scan): (e: Event)
    requires s.rest != []
    ensures |e.s.rest| < |s.rest|
  {
    var c, r := s.rest[0], Read(s);
    match TurnAt(cfg.mysql, s.last, s.content, s.delim, s.rest)
    case OnCommand => Go(Command(s))
    case OnQuote => Go(Quoted(cfg, Put(r, [c]), c, cfg.mysql && c != '`'))
    case turn => PlainStep(cfg, turn, c, r)
  }

  /** The step for a byte c that starts neither a command nor a quote, just read. */
  function PlainStep(cfg: Config, turn: Turn, c: char, r: Scan): (e: Event)
    requires turn == PlainTurn(cfg.mysql, r.delim, c, r.rest)
    ensures |e.s.rest| <= |r.rest|
  {
    match turn
    case OnLineComment => Go(SkipLine(r))
    case OnBlockComment => Go(BlockComment(cfg, r))
    case OnDollar => Go(Dollar(cfg, r))
    case OnDelimiter => Split(r.(rest := r.rest[|r.delim| - 1..]))
    case OnByte => Go(Put(r, [c]))
  }

  datatype Outcome = Stmt(text: string, s: Scan) | Eof(s: Scan) | Broken(s: Scan) | TooLong(s: Scan)

  function Fresh(s: Scan): Scan {
    s.(buf := "", content := false)
  }

  /** The scanning loop from the middle of a statement. */
  function Next(cfg: Config, s: Scan): (o: Outcome)
    ensures |o.s.rest| <= |s.rest|
    ensures o.Stmt? ==> o.s.buf == "" && !o.s.content && (|o.s.rest| < |s.rest| || s.buf != "")
    decreases |s.rest|
  {
    if s.rerr then Broken(s)
    else if |s.buf| > cfg.max then TooLong(s)
    else if s.rest == [] then
      if cfg.fails then Broken(s.(rerr := true))
      else if TrimSpace(s.buf) != "" then Stmt(TrimSpace(s.buf), Fresh(s))
      else Eof(Fresh(s))
    else
      match Step(cfg, s)
      case Go(t) => Next(cfg, t)
      case Split(t) =>
        if TrimSpace(t.buf) != "" then Stmt(TrimSpace(t.buf), Fresh(t)) else Next(cfg, Fresh(t))
  }

  datatype Ending = AtEof | AtError | AtLimit

  /** Every statement returned by calling Next until it stops, and why it stopped. */
  datatype Script = Script(stmts: seq<string>, end: Ending)

  function Run(cfg: Config, s: Scan): Script
    decreases |s.rest|, |s.buf|
  {
    match Next(cfg, s)
    case Stmt(t, s') => var r := Run(cfg, s'); Script([t] + r.stmts, r.end)
    case Eof(_) => Script([], AtEof)
    case Broken(_) => Script([], AtError)
    case TooLong(_) => Script([], AtLimit)
  }
}
