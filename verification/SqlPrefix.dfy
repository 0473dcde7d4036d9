/** A stream that breaks part-way: what was returned before the error is a prefix of the whole script. */
module SqlPrefix {
  import opened Text
  import opened SqlScan
  import SqlTokens

  /** The same scanner with x still to come after what s holds. */
  function More(s: Scan, x: string): Scan {
    s.(rest := s.rest + x)
  }

  predicate OccursIn(part: string, text: string) {
    part <= text || (text != [] && OccursIn(part, text[1..]))
  }

  predicate Suffix(tail: string, text: string) {
    tail == text || (text != [] && Suffix(tail, text[1..]))
  }

  predicate FoldsAt(part: string, word: string, j: nat) {
    j + |part| <= |word| && EqualFold(part, word[j..j + |part|])
  }

  /** part is a stretch of the keyword DELIMITER that does not start it, up to case. */
  predicate InnerStretch(part: string) {
    exists j | 1 <= j < 10 :: FoldsAt(part, KEYWORD, j)
  }

  /** A delimiter that a cut-off comment opener or keyword cannot be mistaken for. */
  predicate SafeDelimiter(mysql: bool, delim: string) {
    && delim != [] && !Blank(delim[0])
    && if mysql then delim != "/" && delim != "-" && !InnerStretch(delim) else delim == ";"
  }

  /** The state the loop goes on with. */
  function Onward(e: Event): Scan {
    match e
    case Go(t) => t
    case Split(t) => Fresh(t)
  }

  /** Every delimiter in force while the text is scanned is safe. */
  predicate AllSafe(cfg: Config, s: Scan)
    decreases |s.rest|
  {
    SafeDelimiter(cfg.mysql, s.delim) && (s.rest == [] || |s.buf| > cfg.max || AllSafe(cfg, Onward(Step(cfg, s))))
  }

  // ------------------------------------------------------------ dead ends

  /** Once no command can follow and the delimiter no longer occurs, a broken stream returns nothing. */
  lemma {:induction false} NeverSplits(cfg: Config, s: Scan)
    requires cfg.fails && (s.content || |s.rest| < 10) && s.delim != [] && !OccursIn(s.delim, s.rest)
    ensures !Next(cfg, s).Stmt?
    decreases |s.rest|
  {
    if !s.rerr && |s.buf| <= cfg.max && s.rest != [] {
      StepKeeps(cfg, s);
      var e := Step(cfg, s);
      if e.Split? {
        SplitAtDelimiter(cfg, s);
        assert false;
      }
      SuffixOccurs(s.delim, s.rest, e.s.rest);
      NeverSplits(cfg, e.s);
    }
  }

  lemma {:induction false} SuffixOccurs(part: string, text: string, tail: string)
    requires Suffix(tail, text)
    ensures OccursIn(part, tail) ==> OccursIn(part, text)
  {
    if tail != text {
      SuffixOccurs(part, text[1..], tail);
    }
  }

  lemma SplitAtDelimiter(cfg: Config, s: Scan)
    requires s.rest != [] && Step(cfg, s).Split?
    ensures s.delim != [] && s.delim <= s.rest && |s.delim| <= BUFFER + 1
  {
    assert [s.rest[0]] + Peek(s.rest[1..], |s.delim| - 1) <= s.rest;
  }

  /** t reads on from s within the same statement. */
  predicate Keeps(s: Scan, t: Scan) {
    Suffix(t.rest, s.rest) && t.delim == s.delim && (s.content ==> t.content)
  }

  /** Apart from a DELIMITER line, a step only consumes: the delimiter stays and so does any content. */
  lemma StepKeeps(cfg: Config, s: Scan)
    requires s.rest != [] && !IsCommand(cfg.mysql, s.last, s.content, s.rest)
    ensures Keeps(s, Step(cfg, s).s)
  {
    var c, r := s.rest[0], Read(s);
    if TurnAt(cfg.mysql, s.last, s.content, s.delim, s.rest) == OnQuote {
      QuotedKeeps(cfg, Put(r, [c]), c, cfg.mysql && c != '`');
    } else {
      PlainKeeps(cfg, c, r);
    }
  }

  lemma PlainKeeps(cfg: Config, c: char, r: Scan)
    ensures Keeps(r, PlainStep(cfg, PlainTurn(cfg.mysql, r.delim, c, r.rest), c, r).s)
  {
    match PlainTurn(cfg.mysql, r.delim, c, r.rest)
    case OnLineComment => SkipKeeps(r);
    case OnBlockComment => BlockKeeps(cfg, r);
    case OnDollar => DollarKeeps(cfg, r);
    case OnDelimiter => SuffixDrop(r.rest, |r.delim| - 1);
    case OnByte =>
  }

  lemma {:induction false} SuffixDrop(text: string, n: nat)
    requires n <= |text|
    ensures Suffix(text[n..], text)
  {
    if n > 0 {
      SuffixDrop(text[1..], n - 1);
      assert text[1..][n - 1..] == text[n..];
    }
  }

  lemma {:induction false} SuffixTrans(a: string, b: string, c: string)
    requires Suffix(a, b) && Suffix(b, c)
    ensures Suffix(a, c)
  {
    if b != c {
      SuffixTrans(a, b, c[1..]);
    }
  }

  lemma {:induction false} QuotedKeeps(cfg: Config, s: Scan, q: char, bs: bool)
    ensures Keeps(s, Quoted(cfg, s, q, bs))
    decreases |s.rest|
  {
    if s.rest != [] && |s.buf| <= cfg.max {
      var c, s1 := s.rest[0], Put(Read(s), [s.rest[0]]);
      if bs && c == '\\' {
        if s1.rest != [] {
          QuotedKeeps(cfg, Put(Read(s1), [s1.rest[0]]), q, bs);
        }
      } else if c != q {
        QuotedKeeps(cfg, s1, q, bs);
      } else if s1.rest != [] && s1.rest[0] == q {
        QuotedKeeps(cfg, Put(Read(s1), [q]), q, bs);
      }
    }
  }

  lemma {:induction false} SkipKeeps(s: Scan)
    ensures Keeps(s, SkipLine(s))
    decreases |s.rest|
  {
    if s.rest != [] && s.rest[0] != '\n' {
      SkipKeeps(Read(s));
    }
  }

  lemma BlockKeeps(cfg: Config, s: Scan)
    requires s.rest != []
    ensures Keeps(s, BlockComment(cfg, s))
  {
    var s1 := Read(s);
    var keep := cfg.mysql && s1.rest != [] && s1.rest[0] == '!';
    BlockLoopKeeps(cfg, if keep then Put(s1, "/*") else s1, '\0', keep);
  }

  lemma {:induction false} BlockLoopKeeps(cfg: Config, s: Scan, prev: char, keep: bool)
    ensures Keeps(s, Block(cfg, s, prev, keep))
    decreases |s.rest|
  {
    if s.rest != [] && !(prev == '*' && s.rest[0] == '/') {
      BlockLoopKeeps(cfg, if keep then Put(Read(s), [s.rest[0]]) else Read(s), s.rest[0], keep);
    }
  }

  lemma DollarKeeps(cfg: Config, s: Scan)
    requires DollarOpener(s.rest)
    ensures Keeps(s, Dollar(cfg, s))
  {
    var k := IdentRun(Peek(s.rest, 66));
    var tag := "$" + s.rest[..k] + "$";
    var s1 := Put(s.(rest := s.rest[k + 1..]), tag);
    SuffixDrop(s.rest, k + 1);
    DollarLoopKeeps(cfg, s1, |s1.buf|, tag);
    SuffixTrans(Dollar(cfg, s).rest, s1.rest, s.rest);
  }

  lemma {:induction false} DollarLoopKeeps(cfg: Config, s: Scan, start: nat, tag: string)
    ensures Keeps(s, DollarBody(cfg, s, start, tag))
    decreases |s.rest|
  {
    if s.rest != [] {
      DollarLoopKeeps(cfg, Put(Read(s), [s.rest[0]]), start, tag);
    }
  }

  // ------------------------------------------------------------ steps that do not see the break

  function Whole(cfg: Config): Config {
    cfg.(fails := false)
  }

  lemma QuotedOnMore(cfg: Config, s: Scan, q: char, bs: bool, x: string)
    requires s.rest != []
    ensures QuotedOn(cfg, s, q, bs).Some? ==>
              QuotedOn(Whole(cfg), More(s, x), q, bs) == Some(More(QuotedOn(cfg, s, q, bs).value, x))
    ensures QuotedOn(cfg, s, q, bs).None? && QuotedEnd(cfg, s, q, bs).rest != [] ==>
              && QuotedOn(Whole(cfg), More(s, x), q, bs).None?
              && QuotedEnd(Whole(cfg), More(s, x), q, bs) == More(QuotedEnd(cfg, s, q, bs), x)
  {
    ReadMore(s, x);
    var t := Put(Read(s), [s.rest[0]]);
    if t.rest != [] {
      ReadMore(t, x);
    }
  }

  lemma {:induction false} QuotedMore(cfg: Config, s: Scan, q: char, bs: bool, x: string)
    requires Quoted(cfg, s, q, bs).rest != []
    ensures Quoted(Whole(cfg), More(s, x), q, bs) == More(Quoted(cfg, s, q, bs), x)
    decreases |s.rest|
  {
    if s.rest != [] {
      QuotedOnMore(cfg, s, q, bs, x);
      if QuotedOn(cfg, s, q, bs).Some? {
        QuotedMore(cfg, QuotedOn(cfg, s, q, bs).value, q, bs, x);
      }
    }
  }

  lemma ReadMore(s: Scan, x: string)
    requires s.rest != []
    ensures More(s, x).rest != [] && More(s, x).rest[0] == s.rest[0] && Read(More(s, x)) == More(Read(s), x)
  {
    assert (s.rest + x)[1..] == s.rest[1..] + x;
  }

  lemma {:induction false} SkipMore(s: Scan, x: string)
    requires SkipLine(s).rest != []
    ensures SkipLine(More(s, x)) == More(SkipLine(s), x)
    decreases |s.rest|
  {
    if s.rest != [] && s.rest[0] != '\n' {
      assert Read(More(s, x)) == More(Read(s), x);
      SkipMore(Read(s), x);
    }
  }

  lemma {:induction false} BlockLoopMore(cfg: Config, s: Scan, prev: char, keep: bool, x: string)
    requires Block(cfg, s, prev, keep).rest != []
    ensures Block(Whole(cfg), More(s, x), prev, keep) == More(Block(cfg, s, prev, keep), x)
    decreases |s.rest|
  {
    if s.rest != [] {
      assert Read(More(s, x)) == More(Read(s), x);
      if !(prev == '*' && s.rest[0] == '/') {
        BlockLoopMore(cfg, if keep then Put(Read(s), [s.rest[0]]) else Read(s), s.rest[0], keep, x);
      }
    }
  }

  lemma BlockMore(cfg: Config, s: Scan, x: string)
    requires s.rest != [] && BlockComment(cfg, s).rest != []
    ensures BlockComment(Whole(cfg), More(s, x)) == More(BlockComment(cfg, s), x)
  {
    var s1 := Read(s);
    assert Read(More(s, x)) == More(s1, x);
    var keep := cfg.mysql && s1.rest != [] && s1.rest[0] == '!';
    assert s1.rest != [];
    BlockLoopMore(cfg, if keep then Put(s1, "/*") else s1, '\0', keep, x);
  }

  lemma {:induction false} DollarLoopMore(cfg: Config, s: Scan, start: nat, tag: string, x: string)
    requires DollarBody(cfg, s, start, tag).rest != []
    ensures DollarBody(Whole(cfg), More(s, x), start, tag) == More(DollarBody(cfg, s, start, tag), x)
    decreases |s.rest|
  {
    if s.rest != [] {
      assert Read(More(s, x)) == More(Read(s), x);
      var s1 := Put(Read(s), [s.rest[0]]);
      if !(s.rest[0] == '$' && |s1.buf| - start >= |tag| && |tag| <= |s1.buf| && s1.buf[|s1.buf| - |tag|..] == tag)
         && |s1.buf| <= cfg.max {
        DollarLoopMore(cfg, s1, start, tag, x);
      }
    }
  }

  lemma {:induction false} IdentRunMore(p: string, y: string)
    requires IdentRun(p) < |p|
    ensures IdentRun(p + y) == IdentRun(p)
  {
    if p != [] && IsIdent(p[0]) {
      assert (p + y)[1..] == p[1..] + y;
      IdentRunMore(p[1..], y);
    }
  }

  lemma PeekMore(r: string, n: nat, x: string)
    ensures Peek(r, n) <= Peek(r + x, n)
  {
  }

  lemma OpenerMore(r: string, x: string)
    requires DollarOpener(r)
    ensures DollarOpener(r + x) && IdentRun(Peek(r + x, 66)) == IdentRun(Peek(r, 66))
  {
    var p, p' := Peek(r, 66), Peek(r + x, 66);
    PeekMore(r, 66, x);
    assert p' == p + p'[|p|..];
    IdentRunMore(p, p'[|p|..]);
  }

  lemma DollarMore(cfg: Config, s: Scan, x: string)
    requires DollarOpener(s.rest) && Dollar(cfg, s).rest != []
    ensures DollarOpener(s.rest + x) && Dollar(Whole(cfg), More(s, x)) == More(Dollar(cfg, s), x)
  {
    OpenerMore(s.rest, x);
    var k := IdentRun(Peek(s.rest, 66));
    SliceMore(s.rest, k, x);
    DollarFrom(cfg, s, k);
    DollarFrom(Whole(cfg), More(s, x), k);
    var tag := "$" + s.rest[..k] + "$";
    var s1 := Put(s.(rest := s.rest[k + 1..]), tag);
    DollarLoopMore(cfg, s1, |s1.buf|, tag, x);
  }

  lemma SliceMore(r: string, k: nat, x: string)
    requires k < |r|
    ensures (r + x)[..k] == r[..k] && (r + x)[k + 1..] == r[k + 1..] + x
  {
  }

  lemma DollarFrom(cfg: Config, s: Scan, k: nat)
    requires DollarOpener(s.rest) && IdentRun(Peek(s.rest, 66)) == k && k < |s.rest|
    ensures var tag := "$" + s.rest[..k] + "$";
            var s1 := Put(s.(rest := s.rest[k + 1..]), tag);
            Dollar(cfg, s) == DollarBody(cfg, s1, |s1.buf|, tag)
  {
  }

  lemma {:induction false} LineEndMore(s: string, x: string)
    requires LineEnd(s) < |s|
    ensures LineEnd(s + x) == LineEnd(s)
  {
    if s != [] && s[0] != '\n' {
      assert (s + x)[1..] == s[1..] + x;
      LineEndMore(s[1..], x);
    }
  }

  lemma CommandMore(s: Scan, x: string)
    requires StartsKeyword(s.rest) && Command(s).rest != []
    ensures StartsKeyword(s.rest + x) && Command(More(s, x)) == More(Command(s), x)
  {
    var n := LineEnd(s.rest);
    KeywordIsOneLine(s.rest);
    LineEndMore(s.rest, x);
    assert (s.rest + x)[..10] == s.rest[..10];
    assert (s.rest + x)[10..n] == s.rest[10..n] && (s.rest + x)[n..] == s.rest[n..] + x;
  }

  // ------------------------------------------------------------ a step with the rest of the text behind it

  function MoreEvent(e: Event, x: string): Event {
    match e
    case Go(t) => Go(More(t, x))
    case Split(t) => Split(More(t, x))
  }

  /** Without content the buffer holds nothing but blanks. */
  predicate Inked(s: Scan) {
    s.content || !HasInk(s.buf)
  }

  /** Either the step is the same with x behind the text, or the broken stream returns nothing more. */
  predicate SameOrDead(cfg: Config, s: Scan, x: string)
    requires s.rest != []
  {
    Step(Whole(cfg), More(s, x)) == MoreEvent(Step(cfg, s), x) || !Next(cfg, s).Stmt?
  }

  lemma StepMore(cfg: Config, s: Scan, x: string)
    requires cfg.fails && s.rest != [] && SafeDelimiter(cfg.mysql, s.delim) && Inked(s)
    ensures SameOrDead(cfg, s, x)
  {
    KeywordMore(s.rest, x);
    ReadMore(s, x);
    if Step(cfg, s).Go? && Step(cfg, s).s.rest == [] {
      EndIsDead(cfg, s);
    } else if IsCommand(cfg.mysql, s.last, s.content, s.rest) {
      CommandMore(s, x);
    } else if IsCommand(cfg.mysql, s.last, s.content, s.rest + x) {
      KeywordCut(cfg, s, x);
    } else {
      OtherMore(cfg, s, x);
    }
  }

  /** At the end of the broken text there is an error or the limit, never a statement. */
  lemma EndIsDead(cfg: Config, s: Scan)
    requires cfg.fails && s.rest != [] && Step(cfg, s).Go? && Step(cfg, s).s.rest == []
    ensures !Next(cfg, s).Stmt?
  {
    var t := Step(cfg, s).s;
    assert !Next(cfg, t).Stmt?;
  }

  lemma OtherMore(cfg: Config, s: Scan, x: string)
    requires cfg.fails && s.rest != [] && SafeDelimiter(cfg.mysql, s.delim)
    requires !IsCommand(cfg.mysql, s.last, s.content, s.rest) && !IsCommand(cfg.mysql, s.last, s.content, s.rest + x)
    requires Step(cfg, s).Go? ==> Step(cfg, s).s.rest != []
    ensures SameOrDead(cfg, s, x)
  {
    ReadMore(s, x);
    var c, r := s.rest[0], Read(s);
    if c == '\'' || c == '"' || (c == '`' && cfg.mysql) {
      QuotedMore(cfg, Put(r, [c]), c, cfg.mysql && c != '`', x);
    } else {
      StepIsPlain(cfg, s);
      StepIsPlain(Whole(cfg), More(s, x));
      if PlainTurn(cfg.mysql, r.delim, c, r.rest) == OnByte {
        ByteMore(cfg, c, r, x);
      } else {
        TokenMore(cfg, c, r, x);
      }
    }
  }

  lemma StepIsPlain(cfg: Config, s: Scan)
    requires s.rest != [] && !IsCommand(cfg.mysql, s.last, s.content, s.rest)
    requires s.rest[0] != '\'' && s.rest[0] != '"' && !(s.rest[0] == '`' && cfg.mysql)
    ensures var c, r := s.rest[0], Read(s);
            Step(cfg, s) == PlainStep(cfg, PlainTurn(cfg.mysql, r.delim, c, r.rest), c, r)
  {
  }

  lemma KeywordMore(text: string, x: string)
    ensures |text| >= 10 ==> StartsKeyword(text + x) == StartsKeyword(text)
  {
    if |text| >= 10 {
      assert (text + x)[..10] == text[..10];
    }
  }

  /** text reads on in the keyword from position j. */
  ghost predicate Follows(text: string, j: nat) {
    j + |text| <= 10 && forall i :: 0 <= i < |text| ==> Lower(text[i]) == KEYWORD[j + i]
  }

  lemma CutKeyword(text: string, x: string)
    requires !StartsKeyword(text) && StartsKeyword(text + x)
    ensures |text| < 10 && Follows(text, 0)
  {
    KeywordMore(text, x);
    forall i | 0 <= i < |text| ensures Lower(text[i]) == KEYWORD[i] {
      assert (text + x)[..10][i] == text[i];
    }
  }

  /** The break fell inside a DELIMITER keyword: what is left of it holds no delimiter but at its start. */
  lemma KeywordCut(cfg: Config, s: Scan, x: string)
    requires cfg.fails && cfg.mysql && s.rest != [] && SafeDelimiter(true, s.delim)
    requires !s.content && Inked(s) && !StartsKeyword(s.rest) && StartsKeyword(s.rest + x)
    ensures !Next(cfg, s).Stmt?
  {
    CutKeyword(s.rest, x);
    StepInKeyword(cfg, s);
    var e := Step(cfg, s);
    var t := Onward(e);
    NotInside(s.delim, t.rest, |s.rest| - |t.rest|);
    NeverSplits(cfg, t);
    if e.Split? {
      NoInkTrims(s.buf);
    }
  }

  lemma StepInKeyword(cfg: Config, s: Scan)
    requires cfg.mysql && s.rest != [] && s.delim != [] && |s.rest| < 10 && Follows(s.rest, 0)
    ensures var e := Step(cfg, s);
            var t := Onward(e);
            && |t.rest| < |s.rest| && Follows(t.rest, |s.rest| - |t.rest|) && t.delim == s.delim
            && (e.Split? ==> e.s.buf == s.buf)
  {
    PlainInKeyword(cfg, s);
    var n := if Step(cfg, s).Split? then |s.delim| else 1;
    FollowsOn(s.rest, 0, n);
  }

  lemma PlainInKeyword(cfg: Config, s: Scan)
    requires cfg.mysql && s.rest != [] && s.delim != [] && |s.rest| < 10 && Follows(s.rest, 0)
    ensures var e, r := Step(cfg, s), Read(s);
            if e.Split? then |s.delim| <= |s.rest| && e == Split(r.(rest := s.rest[|s.delim|..]))
            else e == Go(Put(r, [s.rest[0]]))
  {
    assert Lower(s.rest[0]) == KEYWORD[0] == 'd';
    StepIsPlain(cfg, s);
    if Step(cfg, s).Split? {
      SplitAtDelimiter(cfg, s);
      DropBoth(s.rest, |s.delim|);
    }
  }

  lemma DropBoth(text: string, n: nat)
    requires 1 <= n <= |text|
    ensures text[1..][n - 1..] == text[n..]
  {
  }

  lemma FollowsOn(text: string, j: nat, n: nat)
    requires Follows(text, j) && n <= |text|
    ensures Follows(text[n..], j + n)
  {
    forall i | 0 <= i < |text[n..]| ensures Lower(text[n..][i]) == KEYWORD[j + n + i] {
      assert text[n..][i] == text[n + i];
    }
  }

  lemma PrefixFolds(delim: string, tail: string, j: nat)
    requires 1 <= j < 10 && Follows(tail, j) && delim <= tail
    ensures InnerStretch(delim)
  {
    forall i | 0 <= i < |delim| ensures Lower(delim[i]) == KEYWORD[j..j + |delim|][i] {
      assert delim[i] == tail[i];
    }
    assert FoldsAt(delim, KEYWORD, j);
  }

  lemma {:induction false} NotInside(delim: string, tail: string, j: nat)
    requires delim != [] && !InnerStretch(delim) && 1 <= j && Follows(tail, j)
    ensures !OccursIn(delim, tail)
    decreases |tail|
  {
    if tail != [] {
      if delim <= tail {
        PrefixFolds(delim, tail, j);
      }
      FollowsOn(tail, j, 1);
      NotInside(delim, tail[1..], j + 1);
    }
  }

  lemma {:induction false} NoInkTrims(s: string)
    requires !HasInk(s)
    ensures TrimSpace(s) == ""
  {
    if s != [] {
      assert SpaceAt(s) == 1;
      NoInkTrims(s[1..]);
    }
  }

  lemma ByteMore(cfg: Config, c: char, r: Scan, x: string)
    requires cfg.fails && SafeDelimiter(cfg.mysql, r.delim) && r.rest != []
    requires PlainTurn(cfg.mysql, r.delim, c, r.rest) == OnByte
    ensures PlainTurn(cfg.mysql, r.delim, c, r.rest + x) == OnByte || !Next(cfg, Put(r, [c])).Stmt?
  {
    TurnMore(cfg.mysql, r.delim, c, r.rest, x);
    var turn' := PlainTurn(cfg.mysql, r.delim, c, r.rest + x);
    if turn' == OnDollar {
      IdentsOnly(r.rest);
      NeverSplits(cfg, Put(r, [c]));
    } else if turn' == OnDelimiter {
      TooShort(r.delim, r.rest);
      NeverSplits(cfg, Put(r, [c]));
    }
  }

  lemma TokenMore(cfg: Config, c: char, r: Scan, x: string)
    requires cfg.fails && SafeDelimiter(cfg.mysql, r.delim)
    requires var turn := PlainTurn(cfg.mysql, r.delim, c, r.rest);
             turn != OnByte && (turn != OnDelimiter ==> PlainStep(cfg, turn, c, r).s.rest != [])
    ensures var turn := PlainTurn(cfg.mysql, r.delim, c, r.rest);
            && PlainTurn(cfg.mysql, r.delim, c, r.rest + x) == turn
            && PlainStep(Whole(cfg), turn, c, More(r, x)) == MoreEvent(PlainStep(cfg, turn, c, r), x)
  {
    TurnMore(cfg.mysql, r.delim, c, r.rest, x);
    SkipShort(r);
    match PlainTurn(cfg.mysql, r.delim, c, r.rest)
    case OnLineComment =>
      SkipMore(r, x);
    case OnBlockComment =>
      BlockMore(cfg, r, x);
    case OnDollar =>
      DollarMore(cfg, r, x);
    case OnDelimiter =>
      var n := |r.delim| - 1;
      assert (r.rest + x)[n..] == r.rest[n..] + x;
  }

  lemma SkipShort(r: Scan)
    ensures r.rest == "-" ==> SkipLine(r).rest == []
  {
    if r.rest == "-" {
      assert SkipLine(Read(r)) == Read(r);
    }
  }

  lemma {:induction false} IdentsOnly(text: string)
    requires forall i :: 0 <= i < |text| ==> IsIdent(text[i])
    ensures !OccursIn(";", text)
  {
    if text != [] {
      assert text[0] != ';';
      IdentsOnly(text[1..]);
    }
  }

  lemma {:induction false} TooShort(part: string, text: string)
    requires |text| < |part|
    ensures !OccursIn(part, text)
  {
    if text != [] {
      TooShort(part, text[1..]);
    }
  }

  lemma DashMore(mysql: bool, r: string, x: string)
    ensures DashComment(mysql, r) ==> DashComment(mysql, r + x) || r == "-"
    ensures DashComment(mysql, r + x) ==> DashComment(mysql, r) || r == []
  {
    PeekMore(r, 2, x);
  }

  lemma DollarOpenMore(r: string, x: string)
    ensures DollarOpener(r) ==> DollarOpener(r + x)
    ensures DollarOpener(r + x) ==> DollarOpener(r) || forall i :: 0 <= i < |r| ==> IsIdent(r[i])
  {
    PeekMore(r, 66, x);
    var p, p' := Peek(r, 66), Peek(r + x, 66);
    assert p' == p + p'[|p|..];
    if IdentRun(p) < |p| {
      IdentRunMore(p, p'[|p|..]);
    } else {
      AllIdents(r, x);
    }
  }

  /** Identifier bytes to the end of the peek: an opener can only lie behind the break. */
  lemma AllIdents(r: string, x: string)
    requires IdentRun(Peek(r, 66)) == |Peek(r, 66)|
    ensures |r| < 66 ==> forall i :: 0 <= i < |r| ==> IsIdent(r[i])
    ensures |r| >= 66 ==> !DollarOpener(r + x)
  {
    PeekEnough(r, 66, x);
  }

  lemma DelimiterMore(c: char, r: string, delim: string, x: string)
    ensures AtDelimiter(c, r, delim) ==> AtDelimiter(c, r + x, delim)
    ensures AtDelimiter(c, r + x, delim) ==> AtDelimiter(c, r, delim) || (c == delim[0] && |r| + 1 < |delim|)
  {
    if delim != [] {
      var n := |delim| - 1;
      PeekMore(r, n, x);
      if AtDelimiter(c, r, delim) {
        assert |Peek(r + x, n)| <= n && |Peek(r, n)| == n;
      } else if AtDelimiter(c, r + x, delim) {
        assert ([c] + Peek(r + x, n))[0] == c;
        PeekEnough(r, n, x);
      }
    }
  }

  lemma PeekEnough(r: string, n: nat, x: string)
    ensures |r| >= n ==> Peek(r + x, n) == Peek(r, n)
  {
  }

  /** How the text after the break can change what a byte starts. */
  lemma TurnMore(mysql: bool, delim: string, c: char, r: string, x: string)
    requires delim != "/" && delim != "-" && (!mysql ==> delim == ";")
    ensures var t, t' := PlainTurn(mysql, delim, c, r), PlainTurn(mysql, delim, c, r + x);
            match t {
              case OnLineComment => t' == OnLineComment || r == "-"
              case OnByte =>
                || t' == OnByte || r == []
                || (t' == OnDollar && delim == ";" && c == '$' && forall i :: 0 <= i < |r| ==> IsIdent(r[i]))
                || (t' == OnDelimiter && c == delim[0] && |r| + 1 < |delim|)
              case _ => t' == t
            }
  {
    DashMore(mysql, r, x);
    DollarOpenMore(r, x);
    DelimiterMore(c, r, delim, x);
    assert r != [] ==> (r + x)[0] == r[0];
    OneByteDelimiter(c, r, delim);
  }

  lemma OneByteDelimiter(c: char, r: string, delim: string)
    ensures AtDelimiter(c, r, delim) && r == [] ==> delim == [c]
  {
  }

  // ------------------------------------------------------------ the whole run

  /** A step keeps the buffer free of anything but blanks as long as there is no content. */
  lemma StepInked(cfg: Config, s: Scan)
    requires s.rest != [] && Inked(s)
    ensures Inked(Onward(Step(cfg, s)))
  {
    var c, r := s.rest[0], Read(s);
    match TurnAt(cfg.mysql, s.last, s.content, s.delim, s.rest)
    case OnCommand =>
    case OnQuote =>
      QuotedKeeps(cfg, Put(r, [c]), c, cfg.mysql && c != '`');
    case OnLineComment =>
      SkipBuf(r);
    case OnBlockComment =>
      BlockInked(cfg, r);
    case OnDollar =>
      DollarInks(cfg, r);
    case OnDelimiter =>
    case OnByte =>
      SqlTokens.InkOfSum(r.buf, [c]);
  }

  lemma {:induction false} SkipBuf(s: Scan)
    ensures SkipLine(s).buf == s.buf && SkipLine(s).content == s.content
    decreases |s.rest|
  {
    if s.rest != [] && s.rest[0] != '\n' {
      SkipBuf(Read(s));
    }
  }

  lemma {:induction false} BlockBuf(cfg: Config, s: Scan, prev: char)
    ensures Block(cfg, s, prev, false).buf == s.buf && Block(cfg, s, prev, false).content == s.content
    decreases |s.rest|
  {
    if s.rest != [] && !(prev == '*' && s.rest[0] == '/') {
      BlockBuf(cfg, Read(s), s.rest[0]);
    }
  }

  lemma BlockInked(cfg: Config, s: Scan)
    requires s.rest != [] && Inked(s)
    ensures Inked(BlockComment(cfg, s))
  {
    var s1 := Read(s);
    if cfg.mysql && s1.rest != [] && s1.rest[0] == '!' {
      BlockLoopKeeps(cfg, Put(s1, "/*"), '\0', true);
    } else {
      BlockBuf(cfg, s1, '\0');
      SqlTokens.InkOfSum(s.buf, " ");
      assert !HasInk(" ");
    }
  }

  lemma DollarInks(cfg: Config, s: Scan)
    requires DollarOpener(s.rest)
    ensures Dollar(cfg, s).content
  {
    var k := IdentRun(Peek(s.rest, 66));
    var tag := "$" + s.rest[..k] + "$";
    var s1 := Put(s.(rest := s.rest[k + 1..]), tag);
    assert tag[0] == '$' && HasInk(tag);
    DollarLoopKeeps(cfg, s1, |s1.buf|, tag);
  }

  /** A statement the broken stream returns is also returned by the whole one, which then goes on from there. */
  lemma {:induction false} NextMore(cfg: Config, s: Scan, x: string)
    requires cfg.fails && AllSafe(Whole(cfg), More(s, x)) && Inked(s) && Next(cfg, s).Stmt?
    ensures var o := Next(cfg, s);
            && Next(Whole(cfg), More(s, x)) == Stmt(o.text, More(o.s, x))
            && AllSafe(Whole(cfg), More(o.s, x)) && Inked(o.s)
    decreases |s.rest|
  {
    StepMore(cfg, s, x);
    StepInked(cfg, s);
    var e := Step(cfg, s);
    assert Onward(MoreEvent(e, x)) == More(Onward(e), x);
    if e.Go? || TrimSpace(e.s.buf) == "" {
      NextMore(cfg, Onward(e), x);
    }
  }

  /** What a broken stream returned before its error is a prefix of the statements of the unbroken text. */
  lemma {:induction false} BrokenStreamIsPrefix(cfg: Config, s: Scan, x: string)
    requires cfg.fails && AllSafe(Whole(cfg), More(s, x)) && Inked(s)
    ensures Run(cfg, s).stmts <= Run(Whole(cfg), More(s, x)).stmts
    ensures Run(cfg, s).end != AtEof
    decreases |s.rest|, |s.buf|
  {
    if Next(cfg, s).Stmt? {
      NextMore(cfg, s, x);
      BrokenStreamIsPrefix(cfg, Next(cfg, s).s, x);
    } else {
      NeverEof(cfg, s);
    }
  }

  lemma {:induction false} NeverEof(cfg: Config, s: Scan)
    requires cfg.fails
    ensures !Next(cfg, s).Eof?
    decreases |s.rest|
  {
    if s.rest != [] {
      var e := Step(cfg, s);
      NeverEof(cfg, e.s);
      NeverEof(cfg, Fresh(e.s));
    }
  }

  /** A MySQL script during whose scanning only safe delimiters are in force. */
  lemma BrokenScript(mysql: bool, max: nat, text: string, x: string)
    requires mysql ==> AllSafe(Config(mysql, max, false), Start(text + x))
    ensures var broken, whole := Run(Config(mysql, max, true), Start(text)), Run(Config(mysql, max, false), Start(text + x));
            broken.stmts <= whole.stmts && broken.end != AtEof
  {
    if !mysql {
      PostgresIsSafe(Config(mysql, max, false), Start(text + x));
    }
    BrokenStreamIsPrefix(Config(mysql, max, true), Start(text), x);
  }

  /** In PostgreSQL the delimiter is always the semicolon. */
  lemma {:induction false} PostgresIsSafe(cfg: Config, s: Scan)
    requires !cfg.mysql && s.delim == ";"
    ensures AllSafe(cfg, s)
    decreases |s.rest|
  {
    if s.rest != [] && |s.buf| <= cfg.max {
      StepKeeps(cfg, s);
      PostgresIsSafe(cfg, Onward(Step(cfg, s)));
    }
  }
}
