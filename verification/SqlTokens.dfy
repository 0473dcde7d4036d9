/** A lexical grammar of SQL scripts, and the proof that the scanner reads back what it prints. */
module SqlTokens {
  import opened Text
  import opened SqlScan

  /** One unit of a quoted string: an ordinary byte, a doubled quote, or a backslash pair. */
  datatype Unit = Plain(c: char) | Doubled | Escaped(c: char)

  datatype Token =
    | Char(c: char)
    | Quote(q: char, units: seq<Unit>)
    | LineComment(text: string)
    | BlockComment(text: string)
    | Dollar(tag: string, body: string)
    | End
    | Command(word: string, arg: string)

  function PrintUnit(u: Unit, q: char): string {
    match u
    case Plain(c) => [c]
    case Doubled => [q, q]
    case Escaped(c) => ['\\', c]
  }

  function PrintUnits(us: seq<Unit>, q: char): string {
    if us == [] then "" else PrintUnit(us[0], q) + PrintUnits(us[1..], q)
  }

  function PrintToken(t: Token, delim: string): string {
    match t
    case Char(c) => [c]
    case Quote(q, body) => [q] + PrintUnits(body, q) + [q]
    case LineComment(text) => text
    case BlockComment(text) => "/*" + text + "*/"
    case Dollar(tag, body) => DollarTag(tag) + body + DollarTag(tag)
    case End => delim
    case Command(word, arg) => word + arg
  }

  function DollarTag(tag: string): string {
    "$" + tag + "$"
  }

  /** The delimiter in force after a token. */
  function DelimAfter(t: Token, delim: string): string {
    if t.Command? && TrimSpace(t.arg) != "" then TrimSpace(t.arg) else delim
  }

  function Print(ts: List<Token>, delim: string): string {
    match ts
    case Nil => ""
    case Cons(t, rest) => PrintToken(t, delim) + Print(rest, DelimAfter(t, delim))
  }

  /** What a token contributes to the text of its statement. */
  function Kept(mysql: bool, t: Token): string {
    match t
    case LineComment(_) => ""
    case BlockComment(text) => if mysql && "!" <= text then "/*" + text + "*/" else " "
    case End => ""
    case Command(_, _) => ""
    case _ => PrintToken(t, "")
  }

  function Statement(raw: string): seq<string> {
    if TrimSpace(raw) != "" then [TrimSpace(raw)] else []
  }

  /** The statements a token list stands for: its End tokens split it, empty statements vanish. */
  function Meaning(mysql: bool, ts: List<Token>, raw: string): seq<string> {
    match ts
    case Nil => Statement(raw)
    case Cons(t, rest) =>
      if t.End? then Statement(raw) + Meaning(mysql, rest, "") else Meaning(mysql, rest, raw + Kept(mysql, t))
  }

  // ------------------------------------------------------------ well-formedness

  predicate QuoteChar(mysql: bool, c: char) {
    c == '\'' || c == '"' || (mysql && c == '`')
  }

  predicate Backslashes(mysql: bool, q: char) {
    mysql && q != '`'
  }

  predicate OpensLineComment(mysql: bool, text: string) {
    || ("--" <= text && (!mysql || |text| == 2 || Blank(text[2])))
    || (mysql && "#" <= text)
  }

  predicate IsTag(tag: string) {
    |tag| <= 64 + 1 && (forall i :: 0 <= i < |tag| ==> IsIdent(tag[i])) && (tag != [] ==> !('0' <= tag[0] <= '9'))
  }

  ghost predicate OpensDollar(mysql: bool, text: string) {
    !mysql && exists tag :: IsTag(tag) && DollarTag(tag) <= text
  }

  /** Something other than an ordinary byte or the delimiter starts here. */
  ghost predicate OpensToken(mysql: bool, last: char, content: bool, text: string) {
    || IsCommand(mysql, last, content, text)
    || (text != [] && QuoteChar(mysql, text[0]))
    || OpensLineComment(mysql, text)
    || "/*" <= text
    || OpensDollar(mysql, text)
  }

  predicate UnitOk(u: Unit, q: char, backslash: bool) {
    match u
    case Plain(c) => c != q && !(backslash && c == '\\')
    case Doubled => true
    case Escaped(_) => backslash
  }

  predicate EndsLine(follow: string) {
    follow == [] || follow[0] == '\n'
  }

  /** part first occurs in body + part at its very end. */
  predicate ClosesAtEnd(body: string, part: string) {
    forall i :: 0 <= i < |body| ==> !OccursAt(part, body + part, i)
  }

  predicate OccursAt(part: string, s: string, i: nat) {
    i <= |s| && part <= s[i..]
  }

  /** The token may stand where the scanner has just read last, with follow after it. */
  ghost predicate TokenOk(mysql: bool, t: Token, delim: string, last: char, content: bool, follow: string) {
    match t
    case Char(c) =>
      !OpensToken(mysql, last, content, [c] + follow) && !(delim <= [c] + follow && |delim| <= BUFFER + 1)
    case Quote(q, body) =>
      && QuoteChar(mysql, q)
      && (forall i :: 0 <= i < |body| ==> UnitOk(body[i], q, Backslashes(mysql, q)))
      && !([q] <= follow)
    case LineComment(text) =>
      '\n' !in text && ("--" <= text || "#" <= text) && OpensLineComment(mysql, text + follow) && EndsLine(follow)
    case BlockComment(text) => ClosesAtEnd(text, "*/")
    case Dollar(tag, body) => !mysql && IsTag(tag) && ClosesAtEnd(body, DollarTag(tag))
    case End => !OpensToken(mysql, last, content, delim + follow) && |delim| <= BUFFER + 1
    case Command(word, arg) =>
      IsCommand(mysql, last, content, word) && |word| == 10 && '\n' !in arg && EndsLine(follow)
  }

  function LastAfter(t: Token, delim: string, last: char, follow: string): char {
    match t
    case Char(c) => c
    case Quote(q, _) => q
    case LineComment(text) => if text != [] then text[|text| - 1] else last
    case BlockComment(_) => '/'
    case Dollar(_, _) => '$'
    case End => if delim != [] then delim[0] else last
    case Command(word, _) => if follow != [] then '\0' else if word != [] then word[0] else last
  }

  function ContentAfter(mysql: bool, t: Token, content: bool): bool {
    !t.End? && (content || HasInk(Kept(mysql, t)))
  }

  /** Every token may stand where it is. */
  ghost predicate WellFormed(mysql: bool, ts: List<Token>, delim: string, last: char, content: bool) {
    match ts
    case Nil => true
    case Cons(t, rest) =>
      var d := DelimAfter(t, delim);
      var follow := Print(rest, d);
      && TokenOk(mysql, t, delim, last, content, follow)
      && WellFormed(mysql, rest, d, LastAfter(t, delim, last, follow), ContentAfter(mysql, t, content))
  }

  /** No statement's raw text, comments reduced, is longer than max. */
  predicate Fits(mysql: bool, ts: List<Token>, raw: string, max: nat) {
    |raw| <= max &&
    match ts
    case Nil => true
    case Cons(t, rest) => Fits(mysql, rest, if t.End? then "" else raw + Kept(mysql, t), max)
  }

  // ------------------------------------------------------------ one token

  lemma {:induction false} QuotedReads(cfg: Config, s: Scan, q: char, us: seq<Unit>, follow: string)
    requires forall i :: 0 <= i < |us| ==> UnitOk(us[i], q, Backslashes(cfg.mysql, q))
    requires !([q] <= follow)
    requires s.rest == PrintUnits(us, q) + [q] + follow
    requires |s.buf| + |PrintUnits(us, q)| + 1 <= cfg.max
    requires Backslashes(cfg.mysql, q) ==> q != '\\'
    ensures Quoted(cfg, s, q, Backslashes(cfg.mysql, q)) ==
            Put(s.(rest := follow, last := q), PrintUnits(us, q) + [q])
    decreases |us|
  {
    var bs, text := Backslashes(cfg.mysql, q), PrintUnits(us, q) + [q];
    if us == [] {
      assert s.rest == [q] + follow && text == [q];
      QuoteCloses(cfg, s, q, follow);
    } else {
      var w, rest := PrintUnit(us[0], q), PrintUnits(us[1..], q) + [q];
      assert text == w + rest;
      assert s.rest == w + (rest + follow);
      var s' := Put(s.(rest := rest + follow, last := w[|w| - 1]), w);
      UnitReads(cfg, s, q, us[0], rest + follow);
      assert s'.rest == PrintUnits(us[1..], q) + [q] + follow;
      QuotedReads(cfg, s', q, us[1..], follow);
      calc {
        Quoted(cfg, s, q, bs);
        Quoted(cfg, s', q, bs);
        Put(s'.(rest := follow, last := q), rest);
        { PutPut(s.(rest := follow, last := q), w, rest); }
        Put(s.(rest := follow, last := q), text);
      }
    }
  }

  lemma QuoteCloses(cfg: Config, s: Scan, q: char, follow: string)
    requires s.rest == [q] + follow && !([q] <= follow) && |s.buf| <= cfg.max
    requires Backslashes(cfg.mysql, q) ==> q != '\\'
    ensures Quoted(cfg, s, q, Backslashes(cfg.mysql, q)) == Put(s.(rest := follow, last := q), [q])
  {
    assert Read(s).rest == follow;
  }

  lemma UnitReads(cfg: Config, s: Scan, q: char, u: Unit, tail: string)
    requires UnitOk(u, q, Backslashes(cfg.mysql, q))
    requires s.rest == PrintUnit(u, q) + tail
    requires |s.buf| <= cfg.max
    requires Backslashes(cfg.mysql, q) ==> q != '\\'
    requires tail != []
    ensures var w := PrintUnit(u, q);
            Quoted(cfg, s, q, Backslashes(cfg.mysql, q)) ==
            Quoted(cfg, Put(s.(rest := tail, last := w[|w| - 1]), w), q, Backslashes(cfg.mysql, q))
  {
    var w := PrintUnit(u, q);
    assert s.rest[0] == w[0] && Read(s).rest == w[1..] + tail;
    match u
    case Plain(c) =>
      assert Read(s).rest == tail;
    case Doubled =>
      assert Read(Read(s)).rest == tail;
      PutPut(s, [q], [q]);
      assert [q] + [q] == w;
    case Escaped(c) =>
      assert Read(Read(s)).rest == tail;
      PutPut(s, ['\\'], [c]);
      assert ['\\'] + [c] == w;
  }

  lemma PutPut(s: Scan, a: string, b: string)
    ensures Put(Put(s, a), b) == Put(s, a + b)
  {
    assert s.buf + a + b == s.buf + (a + b);
    InkOfSum(a, b);
  }

  lemma {:induction false} InkOfSum(a: string, b: string)
    ensures HasInk(a + b) == (HasInk(a) || HasInk(b))
  {
    if a == [] {
      assert a + b == b;
    } else {
      assert (a + b)[1..] == a[1..] + b;
      InkOfSum(a[1..], b);
    }
  }

  lemma {:induction false} SkipLineReads(s: Scan, text: string, follow: string)
    requires s.rest == text + follow && '\n' !in text && EndsLine(follow)
    ensures SkipLine(s) == s.(rest := follow, last := if text == [] then s.last else text[|text| - 1])
    decreases |text|
  {
    if text != [] {
      assert s.rest[0] == text[0];
      assert Read(s).rest == text[1..] + follow;
      SkipLineReads(Read(s), text[1..], follow);
    } else {
      assert s.rest == follow;
    }
  }

  /** done is what was already read of the comment body, todo what is left of it. */
  lemma {:induction false} BlockReads(cfg: Config, s: Scan, done: string, todo: string, keep: bool, follow: string)
    requires ClosesAtEnd(done + todo, "*/")
    requires s.rest == todo + "*/" + follow
    ensures Block(cfg, s, if done == [] then '\0' else done[|done| - 1], keep) ==
            var t := s.(rest := follow, last := '/'); if keep then Put(t, todo + "*/") else t
    decreases |todo|
  {
    var prev := if done == [] then '\0' else done[|done| - 1];
    if todo == [] {
      assert s.rest == "*/" + follow && todo + "*/" == "*/";
      BlockCloses(cfg, s, prev, keep, follow);
    } else {
      var b := todo[0];
      assert s.rest[0] == b && Read(s).rest == todo[1..] + "*/" + follow;
      if done != [] {
        var all := done + todo + "*/";
        assert all[|done| - 1..][..2] == [prev, b] && !OccursAt("*/", all, |done| - 1);
      }
      var s1 := if keep then Put(Read(s), [b]) else Read(s);
      assert (done + [b]) + todo[1..] == done + todo;
      BlockReads(cfg, s1, done + [b], todo[1..], keep, follow);
      PutPut(s.(rest := follow, last := '/'), [b], todo[1..] + "*/");
      assert [b] + (todo[1..] + "*/") == todo + "*/";
    }
  }

  lemma BlockCloses(cfg: Config, s: Scan, prev: char, keep: bool, follow: string)
    requires s.rest == "*/" + follow
    ensures Block(cfg, s, prev, keep) ==
            var t := s.(rest := follow, last := '/'); if keep then Put(t, "*/") else t
  {
    var s1 := if keep then Put(Read(s), "*") else Read(s);
    assert s1.rest == "/" + follow && s1.rest[0] == '/';
    assert Read(s1).rest == follow;
    PutPut(s.(rest := follow, last := '/'), "*", "/");
    assert "*" + "/" == "*/";
  }

  /** The text read since start ends with the tag. */
  predicate TagRead(buf: string, start: nat, tag: string) {
    |buf| - start >= |tag| && |tag| <= |buf| && buf[|buf| - |tag|..] == tag
  }

  lemma DollarTurn(cfg: Config, s: Scan, start: nat, tag: string, c: char, rest: string)
    requires s.rest == [c] + rest
    ensures var s1 := Put(s.(rest := rest, last := c), [c]);
            DollarBody(cfg, s, start, tag) ==
            if (c == '$' && TagRead(s1.buf, start, tag)) || |s1.buf| > cfg.max then s1 else DollarBody(cfg, s1, start, tag)
  {
    assert s.rest[0] == c && s.rest[1..] == rest;
  }

  lemma Onto(buf: string, start: nat, done: string, c: char)
    requires start <= |buf| && buf[start..] == done
    ensures (buf + [c])[start..] == done + [c]
  {
  }

  lemma TagIsRead(buf: string, start: nat, body: string, tag: string)
    requires start <= |buf| && buf[start..] == body + tag
    ensures TagRead(buf, start, tag)
  {
    assert buf[|buf| - |tag|..] == buf[start..][|body|..];
  }

  lemma LastByte(body: string, tag: string, done: string, c: char)
    requires tag != [] && tag[|tag| - 1] == '$' && body + tag == done + [c]
    ensures c == '$'
  {
    assert (body + tag)[|body + tag| - 1] == '$' && (done + [c])[|done|] == c;
  }

  /** done is what was already read of the body and closing tag together, todo what is left of it. */
  lemma {:induction false} DollarReads(cfg: Config, s: Scan, start: nat, tag: string, body: string, done: string, todo: string, follow: string)
    requires tag != [] && tag[|tag| - 1] == '$' && ClosesAtEnd(body, tag)
    requires body + tag == done + todo && todo != []
    requires s.rest == todo + follow
    requires start <= |s.buf| && s.buf[start..] == done
    requires |s.buf| + |todo| <= cfg.max
    ensures DollarBody(cfg, s, start, tag) == Put(s.(rest := follow, last := '$'), todo)
    decreases |todo|
  {
    var c, more := todo[0], todo[1..];
    assert todo == [c] + more;
    Assoc([c], more, follow);
    Assoc(done, [c], more);
    DollarTurn(cfg, s, start, tag, c, more + follow);
    var s1 := Put(s.(rest := more + follow, last := c), [c]);
    Onto(s.buf, start, done, c);
    if more == [] {
      LastByte(body, tag, done, c);
      TagIsRead(s1.buf, start, body, tag);
      assert more + follow == follow;
    } else {
      NotYet(body, tag, done + [c], more, s1.buf, start);
      DollarReads(cfg, s1, start, tag, body, done + [c], more, follow);
      PutPut(s.(rest := follow, last := '$'), [c], more);
    }
  }

  /** A strict prefix of body + tag does not end with the tag. */
  lemma NotYet(body: string, tag: string, read: string, more: string, buf: string, start: nat)
    requires ClosesAtEnd(body, tag) && body + tag == read + more && more != []
    requires start <= |buf| && buf[start..] == read
    ensures !TagRead(buf, start, tag)
  {
    if |tag| <= |read| {
      var i := |read| - |tag|;
      assert (read + more)[i..][..|tag|] == read[i..] == buf[|buf| - |tag|..];
      assert !OccursAt(tag, body + tag, i);
    }
  }

  lemma IdentRunIs(s: string, k: nat)
    requires k < |s| && (forall i :: 0 <= i < k ==> IsIdent(s[i])) && !IsIdent(s[k])
    ensures IdentRun(s) == k
  {
  }

  /** Peeking 66 bytes decides exactly whether a dollar quote opens here. */
  lemma DollarOpens(text: string)
    ensures (text != [] && text[0] == '$' && DollarOpener(text[1..])) <==> OpensDollar(false, text)
  {
    if text != [] && text[0] == '$' && DollarOpener(text[1..]) {
      OpenerHasTag(text);
    }
    if OpensDollar(false, text) {
      var tag :| IsTag(tag) && DollarTag(tag) <= text;
      DollarOpenerIs(tag, text[|tag| + 2..]);
      TagPrefix(tag, text);
    }
  }

  lemma OpenerHasTag(text: string)
    requires text != [] && text[0] == '$' && DollarOpener(text[1..])
    ensures OpensDollar(false, text)
  {
    var pk := Peek(text[1..], 66);
    var tag := pk[..IdentRun(pk)];
    assert DollarTag(tag) <= text;
  }

  lemma TagPrefix(tag: string, text: string)
    requires DollarTag(tag) <= text
    ensures text[0] == '$' && |tag| + 2 <= |text| && text[1..] == tag + "$" + text[|tag| + 2..]
  {
  }

  lemma DollarOpenerIs(tag: string, follow: string)
    requires IsTag(tag)
    ensures var text := tag + "$" + follow;
            DollarOpener(text) && IdentRun(Peek(text, 66)) == |tag| && text[..|tag|] == tag
  {
    var text := tag + "$" + follow;
    var pk := Peek(text, 66);
    assert |pk| >= |tag| + 1;
    assert forall i :: 0 <= i < |tag| ==> pk[i] == tag[i];
    assert pk[|tag|] == '$';
    IdentRunIs(pk, |tag|);
  }

  lemma CommentOpens(mysql: bool, text: string)
    ensures OpensLineComment(mysql, text) <==>
            text != [] && ((text[0] == '-' && DashComment(mysql, text[1..])) || (text[0] == '#' && mysql))
  {
    if text != [] {
      var pk := Peek(text[1..], 2);
      assert |text| >= 2 ==> pk[0] == text[1];
      assert |text| >= 3 ==> pk[1] == text[2];
      assert "--" <= text <==> |text| >= 2 && text[0] == '-' && text[1] == '-';
    }
  }

  lemma DelimiterAt(text: string, delim: string)
    requires delim != [] && text != []
    ensures AtDelimiter(text[0], text[1..], delim) <==> delim <= text && |delim| <= BUFFER + 1
  {
    var p := Peek(text[1..], |delim| - 1);
    if AtDelimiter(text[0], text[1..], delim) {
      assert [text[0]] + p <= text;
      assert |p| == |delim| - 1 <= BUFFER;
    }
    if delim <= text && |delim| <= BUFFER + 1 {
      assert p == text[1..][..|delim| - 1];
      assert delim == text[..|delim|];
      assert [text[0]] + p == delim;
    }
  }

  function TurnOf(t: Token): Turn {
    match t
    case Char(_) => OnByte
    case Quote(_, _) => OnQuote
    case LineComment(_) => OnLineComment
    case BlockComment(_) => OnBlockComment
    case Dollar(_, _) => OnDollar
    case End => OnDelimiter
    case Command(_, _) => OnCommand
  }

  /** What the lexical grammar says starts at text. */
  ghost function Grammar(mysql: bool, last: char, content: bool, delim: string, text: string): Turn
    requires text != []
  {
    if IsCommand(mysql, last, content, text) then OnCommand
    else if QuoteChar(mysql, text[0]) then OnQuote
    else if OpensLineComment(mysql, text) then OnLineComment
    else if "/*" <= text then OnBlockComment
    else if OpensDollar(mysql, text) then OnDollar
    else if delim <= text && |delim| <= BUFFER + 1 then OnDelimiter
    else OnByte
  }

  /** The scanner's bounded peeks decide the grammar exactly. */
  lemma PeeksDecide(mysql: bool, last: char, content: bool, delim: string, text: string)
    requires text != [] && delim != []
    ensures TurnAt(mysql, last, content, delim, text) == Grammar(mysql, last, content, delim, text)
  {
    CommentOpens(mysql, text);
    DollarOpens(text);
    DelimiterAt(text, delim);
    assert "/*" <= text <==> |text| > 1 && text[0] == '/' && text[1] == '*';
  }

  lemma TokenRecognised(mysql: bool, t: Token, delim: string, last: char, content: bool, follow: string)
    requires delim != [] && TokenOk(mysql, t, delim, last, content, follow)
    ensures var text := PrintToken(t, delim) + follow;
            text != [] && TurnAt(mysql, last, content, delim, text) == TurnOf(t)
  {
    var text := PrintToken(t, delim) + follow;
    TokenInGrammar(mysql, t, delim, last, content, follow);
    PeeksDecide(mysql, last, content, delim, text);
  }

  lemma TokenInGrammar(mysql: bool, t: Token, delim: string, last: char, content: bool, follow: string)
    requires delim != [] && TokenOk(mysql, t, delim, last, content, follow)
    ensures var text := PrintToken(t, delim) + follow;
            text != [] && Grammar(mysql, last, content, delim, text) == TurnOf(t)
  {
    var text := PrintToken(t, delim) + follow;
    TokenIsCommand(mysql, t, delim, last, content, follow);
    if !t.Char? && !t.End? && !t.Command? {
      BracketInGrammar(mysql, t, delim, last, content, follow);
    }
  }

  lemma BracketInGrammar(mysql: bool, t: Token, delim: string, last: char, content: bool, follow: string)
    requires t.Quote? || t.LineComment? || t.BlockComment? || t.Dollar?
    requires TokenOk(mysql, t, delim, last, content, follow)
    requires !IsCommand(mysql, last, content, PrintToken(t, delim) + follow)
    ensures var text := PrintToken(t, delim) + follow;
            text != [] && Grammar(mysql, last, content, delim, text) == TurnOf(t)
  {
    var text, shown := PrintToken(t, delim) + follow, PrintToken(t, delim);
    assert text[0] == shown[0];
    if t.BlockComment? {
      assert text == "/*" + (t.text + "*/" + follow);
    }
    if t.Dollar? {
      DollarOpensGrammar(t.tag, t.body + DollarTag(t.tag) + follow);
      assert text == DollarTag(t.tag) + (t.body + DollarTag(t.tag) + follow);
    }
  }

  lemma TokenIsCommand(mysql: bool, t: Token, delim: string, last: char, content: bool, follow: string)
    requires delim != [] && TokenOk(mysql, t, delim, last, content, follow)
    ensures IsCommand(mysql, last, content, PrintToken(t, delim) + follow) <==> t.Command?
  {
    var text := PrintToken(t, delim) + follow;
    if t.Command? {
      assert text[..10] == t.word;
    } else if !t.Char? && !t.End? {
      assert text[0] == PrintToken(t, delim)[0];
      NotCommand(mysql, last, content, text);
    }
  }

  lemma DollarOpensGrammar(tag: string, tail: string)
    requires IsTag(tag)
    ensures OpensDollar(false, DollarTag(tag) + tail)
  {
    assert DollarTag(tag) <= DollarTag(tag) + tail;
  }

  /** The state after a token other than End. */
  function After(mysql: bool, s: Scan, t: Token, follow: string): Scan {
    Put(s.(rest := follow, last := LastAfter(t, s.delim, s.last, follow), delim := DelimAfter(t, s.delim)),
        Kept(mysql, t))
  }

  /** Every token but End is read in one step, and leaves exactly its kept text behind. */
  lemma TokenReads(cfg: Config, s: Scan, t: Token, follow: string)
    requires s.rest == PrintToken(t, s.delim) + follow && s.delim != [] && !t.End?
    requires TokenOk(cfg.mysql, t, s.delim, s.last, s.content, follow)
    requires |s.buf| + |Kept(cfg.mysql, t)| <= cfg.max
    ensures s.rest != [] && Step(cfg, s) == Go(After(cfg.mysql, s, t, follow))
  {
    TokenRecognised(cfg.mysql, t, s.delim, s.last, s.content, follow);
    if t.Quote? {
      QuoteReads(cfg, s, t.q, t.units, follow);
    } else if t.Command? {
      CommandReads(s, cfg.mysql, t.word, t.arg, follow);
    } else {
      PlainReads(cfg, s, t, follow);
    }
  }

  lemma PlainReads(cfg: Config, s: Scan, t: Token, follow: string)
    requires s.rest == PrintToken(t, s.delim) + follow && s.rest != [] && !t.End? && !t.Quote? && !t.Command?
    requires TokenOk(cfg.mysql, t, s.delim, s.last, s.content, follow)
    requires TurnAt(cfg.mysql, s.last, s.content, s.delim, s.rest) == TurnOf(t)
    requires |s.buf| + |Kept(cfg.mysql, t)| <= cfg.max
    ensures PlainStep(cfg, TurnOf(t), s.rest[0], Read(s)) == Go(After(cfg.mysql, s, t, follow))
  {
    match t
    case Char(c) =>
      assert Read(s).rest == follow;
    case LineComment(text) =>
      LineCommentReads(s, text, follow);
    case BlockComment(text) =>
      BlockCommentReads(cfg, s, text, follow);
    case Dollar(tag, body) =>
      DollarTokenReads(cfg, s, tag, body, follow);
  }

  lemma QuoteReads(cfg: Config, s: Scan, q: char, body: seq<Unit>, follow: string)
    requires s.rest == PrintToken(Quote(q, body), s.delim) + follow
    requires TokenOk(cfg.mysql, Quote(q, body), s.delim, s.last, s.content, follow)
    requires |s.buf| + |Kept(cfg.mysql, Quote(q, body))| <= cfg.max
    ensures s.rest[0] == q
    ensures Quoted(cfg, Put(Read(s), [q]), q, Backslashes(cfg.mysql, q)) == After(cfg.mysql, s, Quote(q, body), follow)
  {
    var text := PrintUnits(body, q) + [q];
    QuoteText(q, PrintUnits(body, q), follow);
    ReadFirst(s, q, text + follow);
    QuoteBodyReads(cfg, s, q, body, follow);
  }

  lemma QuoteText(q: char, units: string, follow: string)
    ensures [q] + units + [q] + follow == [q] + ((units + [q]) + follow)
    ensures [q] + units + [q] == [q] + (units + [q])
  {
  }

  lemma ReadFirst(s: Scan, c: char, more: string)
    requires s.rest == [c] + more
    ensures s.rest[0] == c && Read(s) == s.(rest := more, last := c)
  {
  }

  lemma QuoteBodyReads(cfg: Config, s: Scan, q: char, body: seq<Unit>, follow: string)
    requires forall i :: 0 <= i < |body| ==> UnitOk(body[i], q, Backslashes(cfg.mysql, q))
    requires !([q] <= follow) && (Backslashes(cfg.mysql, q) ==> q != '\\')
    requires |s.buf| + |PrintUnits(body, q)| + 2 <= cfg.max
    ensures var text := PrintUnits(body, q) + [q];
            Quoted(cfg, Put(s.(rest := text + follow, last := q), [q]), q, Backslashes(cfg.mysql, q)) ==
            Put(s.(rest := follow, last := q), [q] + text)
  {
    var text := PrintUnits(body, q) + [q];
    QuotedReads(cfg, Put(s.(rest := text + follow, last := q), [q]), q, body, follow);
    PutPut(s.(rest := follow, last := q), [q], text);
  }

  lemma NotCommand(mysql: bool, last: char, content: bool, text: string)
    requires text == [] || Lower(text[0]) != 'd'
    ensures !IsCommand(mysql, last, content, text)
  {
    if |text| >= 10 {
      assert text[..10][0] == text[0] && KEYWORD[0] == 'd';
    }
  }

  lemma LineCommentReads(s: Scan, text: string, follow: string)
    requires s.rest == text + follow && text != [] && '\n' !in text && EndsLine(follow)
    ensures SkipLine(Read(s)) == Put(s.(rest := follow, last := text[|text| - 1]), "")
  {
    assert s.rest[0] == text[0] && Read(s).rest == text[1..] + follow;
    SkipLineReads(Read(s), text[1..], follow);
    assert s.buf + "" == s.buf;
  }

  lemma BlockCommentReads(cfg: Config, s: Scan, text: string, follow: string)
    requires s.rest == "/*" + text + "*/" + follow && ClosesAtEnd(text, "*/")
    ensures Read(s).rest != []
    ensures SqlScan.BlockComment(cfg, Read(s)) ==
            Put(s.(rest := follow, last := '/'), Kept(cfg.mysql, BlockComment(text)))
  {
    SlashText(text, follow);
    ReadFirst(s, '/', "*" + (text + "*/" + follow));
    var r := s.(rest := "*" + (text + "*/" + follow), last := '/');
    ReadFirst(r, '*', text + "*/" + follow);
    CommentBodyReads(cfg, s.(rest := text + "*/" + follow, last := '*'), text, follow);
  }

  lemma SlashText(text: string, follow: string)
    ensures "/*" + text + "*/" + follow == ['/'] + (['*'] + (text + "*/" + follow))
  {
  }

  /** A comment from behind its opening on: copied when it is executable, else one blank. */
  lemma CommentBodyReads(cfg: Config, s: Scan, text: string, follow: string)
    requires s.rest == text + "*/" + follow && ClosesAtEnd(text, "*/")
    ensures var keep := cfg.mysql && s.rest != [] && s.rest[0] == '!';
            var end := Block(cfg, if keep then Put(s, "/*") else s, '\0', keep);
            (if keep then end else end.(buf := end.buf + " ")) ==
            Put(s.(rest := follow, last := '/'), Kept(cfg.mysql, BlockComment(text)))
  {
    var keep := cfg.mysql && "!" <= text;
    BangText(text, follow);
    assert [] + text == text;
    if keep {
      BlockReads(cfg, Put(s, "/*"), [], text, keep, follow);
      PutPut(s.(rest := follow, last := '/'), "/*", text + "*/");
      Assoc("/*", text, "*/");
    } else {
      BlockReads(cfg, s, [], text, keep, follow);
      assert !HasInk(" ");
    }
  }

  lemma BangText(text: string, follow: string)
    ensures "!" <= text <==> (text + "*/" + follow)[0] == '!'
  {
  }

  lemma DollarTokenReads(cfg: Config, s: Scan, tag: string, body: string, follow: string)
    requires s.rest == DollarTag(tag) + body + DollarTag(tag) + follow
    requires IsTag(tag) && ClosesAtEnd(body, DollarTag(tag))
    requires |s.buf| + |DollarTag(tag) + body + DollarTag(tag)| <= cfg.max
    ensures DollarOpener(Read(s).rest)
    ensures SqlScan.Dollar(cfg, Read(s)) ==
            Put(s.(rest := follow, last := '$'), DollarTag(tag) + body + DollarTag(tag))
  {
    var tail := body + DollarTag(tag) + follow;
    assert s.rest == DollarTag(tag) + tail;
    assert s.rest[0] == '$' && Read(s).rest == tag + "$" + tail;
    DollarOpenerIs(tag, tail);
    assert Read(s).rest[|tag| + 1..] == tail;
    DollarBodyReads(cfg, s, Read(s), tag, body, follow);
  }

  lemma DollarBodyReads(cfg: Config, s: Scan, r: Scan, tag: string, body: string, follow: string)
    requires IsTag(tag) && ClosesAtEnd(body, DollarTag(tag)) && DollarOpener(r.rest)
    requires r == s.(rest := r.rest, last := '$') && |tag| < |r.rest| && r.rest[..|tag|] == tag
    requires IdentRun(Peek(r.rest, 66)) == |tag| && r.rest[|tag| + 1..] == body + DollarTag(tag) + follow
    requires |s.buf| + |DollarTag(tag) + body + DollarTag(tag)| <= cfg.max
    ensures SqlScan.Dollar(cfg, r) == Put(s.(rest := follow, last := '$'), DollarTag(tag) + body + DollarTag(tag))
  {
    var dt := DollarTag(tag);
    var r1 := Put(r.(rest := body + dt + follow), dt);
    assert SqlScan.Dollar(cfg, r) == DollarBody(cfg, r1, |r1.buf|, dt);
    DollarRestReads(cfg, r1, dt, body, follow);
    PutPut(s.(rest := follow, last := '$'), dt, body + dt);
    Assoc(dt, body, dt);
  }

  lemma DollarRestReads(cfg: Config, r: Scan, dt: string, body: string, follow: string)
    requires dt != [] && dt[|dt| - 1] == '$' && ClosesAtEnd(body, dt)
    requires r.rest == body + dt + follow && |r.buf| + |body + dt| <= cfg.max
    ensures DollarBody(cfg, r, |r.buf|, dt) == Put(r.(rest := follow, last := '$'), body + dt)
  {
    assert r.buf[|r.buf|..] == [];
    assert [] + (body + dt) == body + dt;
    DollarReads(cfg, r, |r.buf|, dt, body, [], body + dt, follow);
  }

  lemma {:induction false} LineEndIs(s: string, n: nat)
    requires n <= |s| && (forall i :: 0 <= i < n ==> s[i] != '\n') && (n < |s| ==> s[n] == '\n')
    ensures LineEnd(s) == n
  {
  }

  lemma CommandReads(s: Scan, mysql: bool, word: string, arg: string, follow: string)
    requires s.rest == word + arg + follow
    requires TokenOk(mysql, Command(word, arg), s.delim, s.last, s.content, follow)
    ensures s.rest[..10] == word
    ensures SqlScan.Command(s) == Put(s.(rest := follow, last := if follow != [] then '\0' else word[0],
                                         delim := DelimAfter(Command(word, arg), s.delim)), "")
  {
    var n := |word + arg|;
    forall i | 0 <= i < n
      ensures s.rest[i] != '\n'
    {
      KeywordIsOneLine(word);
    }
    LineEndIs(s.rest, n);
    assert s.rest[10..n] == arg && s.rest[n..] == follow && s.rest[0] == word[0];
    assert s.buf + "" == s.buf;
  }

  /** The delimiter in force is read as a split. */
  lemma EndReads(cfg: Config, s: Scan, follow: string)
    requires s.rest == s.delim + follow && s.delim != []
    requires TokenOk(cfg.mysql, End, s.delim, s.last, s.content, follow)
    ensures Step(cfg, s) == Split(s.(rest := follow, last := s.delim[0]))
  {
    TokenRecognised(cfg.mysql, End, s.delim, s.last, s.content, follow);
    assert s.rest[1..][|s.delim| - 1..] == follow;
  }

  // ------------------------------------------------------------ whole scripts

  lemma StatementRuns(cfg: Config, s: Scan, t: Scan)
    requires !s.rerr && |s.buf| <= cfg.max && s.rest != [] && Step(cfg, s) == Split(t)
    ensures Run(cfg, s) == var r := Run(cfg, Fresh(t)); Script(Statement(t.buf) + r.stmts, r.end)
  {
    if TrimSpace(t.buf) == "" {
      assert [] + Run(cfg, Fresh(t)).stmts == Run(cfg, Fresh(t)).stmts;
    }
  }

  lemma StepRuns(cfg: Config, s: Scan, t: Scan)
    requires !s.rerr && |s.buf| <= cfg.max && s.rest != [] && Step(cfg, s) == Go(t)
    ensures Run(cfg, s) == Run(cfg, t)
  {
  }

  /** Reading a printed token list gives back exactly the statements it means. */
  lemma {:induction false} ScanPrinted(cfg: Config, s: Scan, ts: List<Token>)
    requires !cfg.fails && !s.rerr && s.delim != []
    requires s.rest == Print(ts, s.delim)
    requires WellFormed(cfg.mysql, ts, s.delim, s.last, s.content)
    requires Fits(cfg.mysql, ts, s.buf, cfg.max)
    ensures Run(cfg, s) == Script(Meaning(cfg.mysql, ts, s.buf), AtEof)
    decreases ts
  {
    match ts
    case Nil =>
      ScanEnd(cfg, s);
    case Cons(t, rest) =>
      var follow := Print(rest, DelimAfter(t, s.delim));
      if t.End? {
        EndReads(cfg, s, follow);
        var s' := s.(rest := follow, last := s.delim[0]);
        StatementRuns(cfg, s, s');
        ScanPrinted(cfg, Fresh(s'), rest);
      } else {
        TokenFits(cfg.mysql, t, rest, s.buf, cfg.max);
        TokenReads(cfg, s, t, follow);
        var s' := After(cfg.mysql, s, t, follow);
        StepRuns(cfg, s, s');
        ScanPrinted(cfg, s', rest);
      }
  }

  lemma TokenFits(mysql: bool, t: Token, rest: List<Token>, raw: string, max: nat)
    requires !t.End? && Fits(mysql, Cons(t, rest), raw, max)
    ensures |raw| + |Kept(mysql, t)| <= max
  {
    assert |raw + Kept(mysql, t)| <= max;
  }

  lemma ScanEnd(cfg: Config, s: Scan)
    requires !cfg.fails && !s.rerr && s.rest == [] && |s.buf| <= cfg.max
    ensures Run(cfg, s) == Script(Statement(s.buf), AtEof)
  {
    if TrimSpace(s.buf) != "" {
      assert Next(cfg, s) == Stmt(TrimSpace(s.buf), Fresh(s));
      assert Next(cfg, Fresh(s)) == Eof(Fresh(s));
    }
  }
}
