/** Which delimiters a broken stream can be trusted with: exactly the safe ones. */
module SqlDelimiter {
  import opened Text
  import opened SqlScan
  import opened SqlPrefix
  import SqlTokens

  const COMMAND := "DELIMITER "

  /** A script that sets the delimiter and goes on with text. */
  function Under(delim: string, text: string): string {
    COMMAND + delim + ("\n" + text)
  }

  /** The scanner after that first line. */
  function Begun(delim: string, text: string): Scan {
    Scan("\n" + text, '\0', delim, "", false, false)
  }

  /** A delimiter that a DELIMITER line can set. */
  predicate Settable(delim: string) {
    delim != "" && TrimSpace(delim) == delim && '\n' !in delim
  }

  /** The delimiter stays in force while the text is scanned. */
  predicate InForce(cfg: Config, s: Scan, delim: string)
    decreases |s.rest|
  {
    s.delim == delim && (s.rest == [] || |s.buf| > cfg.max || InForce(cfg, Onward(Step(cfg, s)), delim))
  }

  /** What a script cut anywhere returns is a prefix of what it returns whole, as long as delim is in force. */
  ghost predicate Keeps(delim: string, max: nat, text: string, x: string) {
    InForce(Config(true, max, false), Begun(delim, text + x), delim) ==>
      Run(Config(true, max, true), Start(Under(delim, text))).stmts <=
      Run(Config(true, max, false), Start(Under(delim, text + x))).stmts
  }

  ghost predicate Reliable(delim: string) {
    forall max: nat, text: string, x: string :: Keeps(delim, max, text, x)
  }

  /** A broken stream can be trusted with a delimiter exactly when the delimiter is safe. */
  lemma DelimiterIff(delim: string)
    requires Settable(delim)
    ensures Reliable(delim) <==> SafeDelimiter(true, delim)
  {
    if SafeDelimiter(true, delim) {
      forall max: nat, text: string, x: string ensures Keeps(delim, max, text, x) {
        SafeKeeps(delim, max, text, x);
      }
    } else {
      var max, text, x := Unreliable(delim);
    }
  }

  // ------------------------------------------------------------ safe delimiters

  lemma FirstLine(cfg: Config, delim: string, text: string)
    requires cfg.mysql && Settable(delim)
    ensures Run(cfg, Start(Under(delim, text))) == Run(cfg, Begun(delim, text))
  {
    var s, t := Start(Under(delim, text)), SqlTokens.Command(COMMAND, delim);
    CommandWord();
    SqlTokens.TokenReads(cfg, s, t, "\n" + text);
    assert SqlTokens.After(true, s, t, "\n" + text) == Begun(delim, text);
    SqlTokens.StepRuns(cfg, s, Begun(delim, text));
  }

  lemma CommandWord()
    ensures IsCommand(true, '\0', false, COMMAND) && |COMMAND| == 10
  {
    assert COMMAND[..10] == COMMAND;
  }

  lemma {:induction false} InForceIsSafe(cfg: Config, s: Scan, delim: string)
    requires cfg.mysql && SafeDelimiter(true, delim) && InForce(cfg, s, delim)
    ensures AllSafe(cfg, s)
    decreases |s.rest|
  {
    if s.rest != [] && |s.buf| <= cfg.max {
      InForceIsSafe(cfg, Onward(Step(cfg, s)), delim);
    }
  }

  lemma SafeKeeps(delim: string, max: nat, text: string, x: string)
    requires Settable(delim) && SafeDelimiter(true, delim)
    ensures Keeps(delim, max, text, x)
  {
    var whole := Config(true, max, false);
    if InForce(whole, Begun(delim, text + x), delim) {
      InForceIsSafe(whole, Begun(delim, text + x), delim);
      FirstLine(Config(true, max, true), delim, text);
      FirstLine(whole, delim, text + x);
      Assoc("\n", text, x);
      assert More(Begun(delim, text), x) == Begun(delim, text + x);
      BrokenStreamIsPrefix(Config(true, max, true), Begun(delim, text), x);
    }
  }

  // ------------------------------------------------------------ bytes that stand for themselves

  predicate Ordinary(c: char) {
    c == '\n' || 'a' <= c <= 'z' || 'A' <= c <= 'Z'
  }

  /** The state after a byte that stands for itself. */
  function Past(s: Scan, c: char, follow: string): Scan {
    Put(s.(rest := follow, last := c), [c])
  }

  lemma ByteReads(cfg: Config, s: Scan, c: char, follow: string)
    requires s.rest == [c] + follow && Ordinary(c) && !AtDelimiter(c, follow, s.delim)
    requires !IsCommand(cfg.mysql, s.last, s.content, s.rest)
    ensures Step(cfg, s) == Go(Past(s, c, follow))
  {
    assert s.rest[1..] == follow;
  }

  lemma OtherByte(c: char, follow: string, delim: string)
    requires delim != [] && c != delim[0]
    ensures !AtDelimiter(c, follow, delim)
  {
    assert ([c] + Peek(follow, |delim| - 1))[0] == c;
  }

  lemma ByteRuns(cfg: Config, s: Scan, c: char, follow: string)
    requires s.rest == [c] + follow && Ordinary(c) && !AtDelimiter(c, follow, s.delim)
    requires !IsCommand(cfg.mysql, s.last, s.content, s.rest) && !s.rerr && |s.buf| <= cfg.max
    ensures Run(cfg, s) == Run(cfg, Past(s, c, follow))
  {
    ByteReads(cfg, s, c, follow);
    SqlTokens.StepRuns(cfg, s, Past(s, c, follow));
  }

  /** The delimiter at the very end of a broken text returns what was read before it, and then nothing. */
  lemma EndRuns(cfg: Config, s: Scan)
    requires cfg.fails && s.delim != [] && s.rest == s.delim && |s.delim| <= BUFFER + 1 && !s.rerr && |s.buf| <= cfg.max
    requires Step(cfg, s) == Split(s.(rest := [], last := s.delim[0]))
    ensures Run(cfg, s).stmts == SqlTokens.Statement(s.buf)
  {
    var t := s.(rest := [], last := s.delim[0]);
    SqlTokens.StatementRuns(cfg, s, t);
    assert Run(cfg, Fresh(t)).stmts == [];
    assert SqlTokens.Statement(s.buf) + [] == SqlTokens.Statement(s.buf);
  }

  // ------------------------------------------------------------ unsafe delimiters

  /** Every unsafe delimiter has a script and a place to cut it that return too much. */
  lemma Unreliable(delim: string) returns (max: nat, text: string, x: string)
    requires Settable(delim) && !SafeDelimiter(true, delim)
    ensures !Keeps(delim, max, text, x)
  {
    max := 100;
    TrimStarts(delim);
    if delim == "/" {
      text, x := SlashBreaks('/', 'x', max);
    } else if delim == "-" {
      text, x := DashBreaks('-', 'x', max);
    } else {
      text, x := StretchBreaks(delim, max);
    }
  }

  /** The scripts below name no command once their first line is read. */
  predicate NoCommand(text: string) {
    forall i :: 0 <= i < |text| ==> Lower(text[i]) != 'd'
  }

  lemma {:induction false} SuffixNoCommand(tail: string, text: string)
    requires Suffix(tail, text) && NoCommand(text)
    ensures NoCommand(tail)
  {
    if tail != text {
      SuffixNoCommand(tail, text[1..]);
    }
  }

  lemma {:induction false} NoCommandInForce(cfg: Config, s: Scan)
    requires NoCommand(s.rest)
    ensures InForce(cfg, s, s.delim)
    decreases |s.rest|
  {
    if s.rest != [] && |s.buf| <= cfg.max {
      SqlTokens.NotCommand(cfg.mysql, s.last, s.content, s.rest);
      StepKeeps(cfg, s);
      SuffixNoCommand(Onward(Step(cfg, s)).rest, s.rest);
      NoCommandInForce(cfg, Onward(Step(cfg, s)));
    }
  }

  /** A letter that starts no command. */
  predicate Letter(a: char) {
    'e' <= a <= 'z'
  }

  /** The scanner behind a line break and a letter. */
  function Mid(c: char, a: char, follow: string): Scan {
    Scan(follow, a, [c], ['\n', a], true, false)
  }

  lemma LineAndLetter(cfg: Config, c: char, a: char, follow: string)
    requires cfg.mysql && cfg.max >= 1 && Letter(a) && (c == '/' || c == '-')
    ensures Run(cfg, Begun([c], [a] + follow)) == Run(cfg, Mid(c, a, follow))
  {
    var s := Begun([c], [a] + follow);
    OtherByte('\n', [a] + follow, [c]);
    SqlTokens.NotCommand(true, s.last, s.content, s.rest);
    ByteRuns(cfg, s, '\n', [a] + follow);
    var t := Past(s, '\n', [a] + follow);
    AfterLine(s, [a] + follow);
    OtherByte(a, follow, [c]);
    SqlTokens.NotCommand(true, t.last, t.content, t.rest);
    ByteRuns(cfg, t, a, follow);
    AfterLetter(t, a, follow);
  }

  lemma AfterLine(s: Scan, follow: string)
    requires s.buf == "" && !s.content
    ensures var t := Past(s, '\n', follow); t == s.(rest := follow, last := '\n', buf := ['\n'])
  {
    assert "" + ['\n'] == ['\n'];
  }

  lemma AfterLetter(t: Scan, a: char, follow: string)
    requires t.buf == ['\n'] && Letter(a)
    ensures Past(t, a, follow) == t.(rest := follow, last := a, buf := ['\n', a], content := true)
  {
    assert ['\n'] + [a] == ['\n', a];
  }

  lemma OneByteSplits(cfg: Config, c: char, a: char)
    requires cfg.mysql && (c == '/' || c == '-')
    ensures Step(cfg, Mid(c, a, [c])) == Split(Mid(c, a, [c]).(rest := [], last := c))
  {
    assert [c] + Peek([], 0) == [c];
  }

  /** Cut behind a byte that is the delimiter but in the whole text opens a comment. */
  lemma CutReturns(cfg: Config, c: char, a: char)
    requires cfg.mysql && cfg.fails && cfg.max >= 2 && Letter(a) && (c == '/' || c == '-')
    ensures Run(cfg, Begun([c], [a] + [c])).stmts == [[a]]
  {
    LineAndLetter(cfg, c, a, [c]);
    OneByteSplits(cfg, c, a);
    EndRuns(cfg, Mid(c, a, [c]));
    SolidEnds([a]);
    assert "\n" + [a] == ['\n', a];
  }

  /** A last letter and the end of the whole text. */
  lemma LastLetter(cfg: Config, s: Scan, a: char)
    requires cfg.mysql && !cfg.fails && |s.buf| < cfg.max && Letter(a) && (s.delim == "/" || s.delim == "-")
    requires s.rest == [a] && !s.rerr
    ensures Run(cfg, s).stmts == SqlTokens.Statement(s.buf + [a])
  {
    OtherByte(a, [], s.delim);
    SqlTokens.NotCommand(true, s.last, s.content, s.rest);
    assert s.rest == [a] + [];
    ByteRuns(cfg, s, a, []);
    SqlTokens.ScanEnd(cfg, Past(s, a, []));
  }

  /** Two letters with one byte between them are one statement. */
  lemma TwoLetters(a: char, m: char)
    requires Letter(a)
    ensures SqlTokens.Statement(['\n', a, m] + [a]) == [[a, m, a]]
  {
    SolidEnds([a, m, a]);
    assert ['\n', a, m] + [a] == "\n" + [a, m, a];
  }

  /** The whole script returns one statement that goes on behind the comment. */
  ghost predicate GoesOn(max: nat, c: char, a: char, x: string, m: char) {
    Run(Config(true, max, false), Begun([c], [a] + ([c] + x))).stmts == [[a, m, a]]
  }

  lemma CutStatements(max: nat, c: char, a: char)
    requires max >= 10 && Letter(a) && (c == '/' || c == '-')
    ensures Run(Config(true, max, true), Start(Under([c], [a] + [c]))).stmts == [[a]]
  {
    SolidEnds([c]);
    FirstLine(Config(true, max, true), [c], [a] + [c]);
    CutReturns(Config(true, max, true), c, a);
  }

  lemma WholeStatements(max: nat, c: char, a: char, x: string, m: char)
    requires (c == '/' || c == '-') && GoesOn(max, c, a, x, m)
    ensures Run(Config(true, max, false), Start(Under([c], [a] + [c] + x))).stmts == [[a, m, a]]
  {
    SolidEnds([c]);
    Assoc([a], [c], x);
    FirstLine(Config(true, max, false), [c], [a] + [c] + x);
  }

  /** A script and its cut that return different first statements. */
  lemma Breaks(delim: string, max: nat, text: string, x: string, b: seq<string>, w: seq<string>)
    requires InForce(Config(true, max, false), Begun(delim, text + x), delim)
    requires Run(Config(true, max, true), Start(Under(delim, text))).stmts == b
    requires Run(Config(true, max, false), Start(Under(delim, text + x))).stmts == w
    requires !(b <= w)
    ensures !Keeps(delim, max, text, x)
  {
  }

  lemma CommentInForce(max: nat, c: char, a: char, x: string)
    requires Letter(a) && (c == '/' || c == '-') && NoCommand(x)
    ensures InForce(Config(true, max, false), Begun([c], [a] + [c] + x), [c])
  {
    NoCommandInForce(Config(true, max, false), Begun([c], [a] + [c] + x));
  }

  lemma CommentBreaks(max: nat, c: char, a: char, x: string, m: char)
    requires max >= 10 && Letter(a) && (c == '/' || c == '-') && NoCommand(x) && GoesOn(max, c, a, x, m)
    ensures !Keeps([c], max, [a] + [c], x)
  {
    CutStatements(max, c, a);
    WholeStatements(max, c, a, x, m);
    CommentInForce(max, c, a, x);
    OneIsNotThree(a, m);
    Breaks([c], max, [a] + [c], x, [[a]], [[a, m, a]]);
  }

  lemma OneIsNotThree(a: char, m: char)
    ensures !([[a]] <= [[a, m, a]])
  {
    assert [[a]][0] == [a] && [[a, m, a]][0] == [a, m, a] && |[a]| != |[a, m, a]|;
  }

  lemma SlashComment(cfg: Config, a: char)
    requires cfg.mysql
    ensures Step(cfg, Mid('/', a, "/**/" + [a])) == Go(Scan([a], '/', "/", ['\n', a, ' '], true, false))
  {
    var s := Mid('/', a, "/**/" + [a]);
    assert s.rest == "/*" + "" + "*/" + [a];
    SqlTokens.BlockCommentReads(cfg, s, "", [a]);
    assert ['\n', a] + " " == ['\n', a, ' '];
  }

  lemma SlashRest(cfg: Config, a: char)
    requires cfg.mysql && !cfg.fails && cfg.max >= 10 && Letter(a)
    ensures Run(cfg, Mid('/', a, "/**/" + [a])).stmts == [[a, ' ', a]]
  {
    var t := Scan([a], '/', "/", ['\n', a, ' '], true, false);
    SlashComment(cfg, a);
    SqlTokens.StepRuns(cfg, Mid('/', a, "/**/" + [a]), t);
    LastLetter(cfg, t, a);
    TwoLetters(a, ' ');
  }

  /** With delimiter "/", a script cut inside a comment opener returns too much. */
  lemma SlashBreaks(c: char, a: char, max: nat) returns (text: string, x: string)
    requires c == '/' && Letter(a) && max >= 10
    ensures !Keeps([c], max, text, x)
  {
    text, x := [a] + [c], "**/" + [a];
    SlashGoesOn(max, c, a, x);
    CommentBreaks(max, c, a, x, ' ');
  }

  lemma SlashGoesOn(max: nat, c: char, a: char, x: string)
    requires c == '/' && Letter(a) && max >= 10 && x == "**/" + [a]
    ensures GoesOn(max, c, a, x, ' ')
  {
    assert [c] + x == "/**/" + [a];
    LineAndLetter(Config(true, max, false), c, a, [c] + x);
    SlashRest(Config(true, max, false), a);
  }

  lemma DashComment(cfg: Config, a: char)
    requires cfg.mysql
    ensures Step(cfg, Mid('-', a, "-- " + ("\n" + [a]))) == Go(Scan("\n" + [a], ' ', "-", ['\n', a], true, false))
  {
    var s, follow := Mid('-', a, "-- " + ("\n" + [a])), "\n" + [a];
    assert s.rest[0] == '-' && s.rest[1..] == "- " + follow && ("- " + follow)[..2] == "- ";
    SqlTokens.LineCommentReads(s, "-- ", follow);
    assert ['\n', a] + "" == ['\n', a];
  }

  lemma DashRest(cfg: Config, a: char)
    requires cfg.mysql && !cfg.fails && cfg.max >= 10 && Letter(a)
    ensures Run(cfg, Mid('-', a, "-- " + ("\n" + [a]))).stmts == [[a, '\n', a]]
  {
    var t := Scan("\n" + [a], ' ', "-", ['\n', a], true, false);
    DashComment(cfg, a);
    SqlTokens.StepRuns(cfg, Mid('-', a, "-- " + ("\n" + [a])), t);
    LineThenLetter(cfg, t, a);
    TwoLetters(a, '\n');
  }

  lemma LineThenLetter(cfg: Config, t: Scan, a: char)
    requires cfg.mysql && !cfg.fails && cfg.max >= 10 && Letter(a) && t.rest == "\n" + [a] && t.delim == "-"
    requires t.buf == ['\n', a] && !t.rerr
    ensures Run(cfg, t).stmts == SqlTokens.Statement(['\n', a, '\n'] + [a])
  {
    OtherByte('\n', [a], "-");
    SqlTokens.NotCommand(true, t.last, t.content, t.rest);
    ByteRuns(cfg, t, '\n', [a]);
    var u := Past(t, '\n', [a]);
    assert u.buf == ['\n', a, '\n'];
    LastLetter(cfg, u, a);
  }

  /** With delimiter "-", a script cut between two dashes returns too much. */
  lemma DashBreaks(c: char, a: char, max: nat) returns (text: string, x: string)
    requires c == '-' && Letter(a) && max >= 10
    ensures !Keeps([c], max, text, x)
  {
    text, x := [a] + [c], "- " + ("\n" + [a]);
    DashGoesOn(max, c, a, x);
    CommentBreaks(max, c, a, x, '\n');
  }

  lemma DashGoesOn(max: nat, c: char, a: char, x: string)
    requires c == '-' && Letter(a) && max >= 10 && x == "- " + ("\n" + [a])
    ensures GoesOn(max, c, a, x, '\n')
  {
    assert [c] + x == "-- " + ("\n" + [a]);
    LineAndLetter(Config(true, max, false), c, a, [c] + x);
    DashRest(Config(true, max, false), a);
  }

  // ------------------------------------------------------------ stretches of the keyword

  /** The first place at which the delimiter is a stretch of the keyword. */
  ghost predicate FirstFold(delim: string, j: nat) {
    1 <= j < 10 && FoldsAt(delim, KEYWORD, j) && forall i :: 1 <= i < j ==> !FoldsAt(delim, KEYWORD, i)
  }

  lemma {:induction false} FirstFoldExists(delim: string, j: nat) returns (k: nat)
    requires 1 <= j < 10 && FoldsAt(delim, KEYWORD, j)
    ensures FirstFold(delim, k)
    decreases j
  {
    if i :| 1 <= i < j && FoldsAt(delim, KEYWORD, i) {
      k := FirstFoldExists(delim, i);
    } else {
      k := j;
    }
  }

  /** The keyword up to j and then the delimiter: a part of the keyword, up to case. */
  function Part(delim: string, j: nat): string
    requires j <= 10
  {
    KEYWORD[..j] + delim
  }

  lemma PartFollows(delim: string, j: nat)
    requires 1 <= j < 10 && FoldsAt(delim, KEYWORD, j)
    ensures Follows(Part(delim, j), 0)
  {
    var w := Part(delim, j);
    forall i | 0 <= i < |w| ensures Lower(w[i]) == KEYWORD[i] {
      KeywordLower(i);
      if i >= j {
        assert w[i] == delim[i - j] && KEYWORD[j..j + |delim|][i - j] == KEYWORD[i];
      }
    }
  }

  lemma KeywordLower(i: nat)
    requires i < 10
    ensures Lower(KEYWORD[i]) == KEYWORD[i] && (i < 9 ==> Ordinary(KEYWORD[i]) && Solid(KEYWORD[i]))
    ensures KEYWORD[i] == 'd' <==> i == 0
    ensures KEYWORD[i] == ' ' <==> i == 9
  {
  }

  lemma ShortPart(delim: string, j: nat)
    requires Settable(delim) && 1 <= j < 10 && FoldsAt(delim, KEYWORD, j)
    ensures |Part(delim, j)| < 10 && forall i :: 0 <= i < |delim| ==> Ordinary(delim[i]) && Solid(delim[i])
  {
    var n := |delim|;
    TrimEnds(delim);
    KeywordLower(j + n - 1);
    assert KEYWORD[j..j + n][n - 1] == KEYWORD[j + n - 1];
    assert !IsSpace(delim[n - 1]);
    forall i | 0 <= i < n ensures Ordinary(delim[i]) && Solid(delim[i]) {
      KeywordLower(j + i);
      assert KEYWORD[j..j + n][i] == KEYWORD[j + i];
      LetterOf(delim[i]);
    }
  }

  lemma LetterOf(c: char)
    requires 'a' <= Lower(c) <= 'z'
    ensures Ordinary(c) && Solid(c)
  {
  }

  /** Trimmed text does not end with ASCII white space. */
  lemma TrimEnds(s: string)
    requires s != "" && TrimSpace(s) == s
    ensures !IsSpace(s[|s| - 1])
  {
    TrimRightStops(TrimLeft(s));
  }

  lemma {:induction false} TrimRightStops(s: string)
    ensures SpaceEnd(TrimRight(s)) == 0
  {
    if SpaceEnd(s) != 0 {
      TrimRightStops(s[..|s| - SpaceEnd(s)]);
    }
  }

  /** In the part of the keyword the delimiter occurs only at its place. */
  lemma NotEarlier(delim: string, j: nat, i: nat)
    requires delim != "" && FirstFold(delim, j) && i < j
    ensures !(delim <= Part(delim, j)[i..])
  {
    FoldsFirst(delim, j);
    FoldsWhereItIs(delim, j, i);
    if FoldsAt(delim, KEYWORD, i) {
      FoldsFirst(delim, i);
    }
  }

  /** Where the delimiter occurs in the part of the keyword, it folds in the keyword. */
  lemma FoldsWhereItIs(delim: string, j: nat, i: nat)
    requires 1 <= j < 10 && FoldsAt(delim, KEYWORD, j) && i < j
    ensures delim <= Part(delim, j)[i..] ==> FoldsAt(delim, KEYWORD, i)
  {
    PartFollows(delim, j);
    var w := Part(delim, j);
    FollowsOn(w, 0, i);
    if delim <= w[i..] {
      forall k | 0 <= k < |delim| ensures Lower(delim[k]) == KEYWORD[i..i + |delim|][k] {
        assert delim[k] == w[i..][k];
      }
    }
  }

  lemma FoldsFirst(delim: string, j: nat)
    requires delim != "" && FoldsAt(delim, KEYWORD, j) && j < 10
    ensures Lower(delim[0]) == 'd' <==> j == 0
  {
    KeywordLower(j);
    assert KEYWORD[j..j + |delim|][0] == KEYWORD[j];
  }

  /** The state after i bytes of the part. */
  function At(delim: string, j: nat, i: nat): Scan
    requires i <= j < 10
  {
    var w := Part(delim, j);
    Scan(w[i..], if i == 0 then '\n' else w[i - 1], delim, "\n" + w[..i], i > 0, false)
  }

  lemma PartByte(cfg: Config, delim: string, j: nat, i: nat)
    requires cfg.mysql && Settable(delim) && FirstFold(delim, j) && i < j
    ensures Step(cfg, At(delim, j, i)) == Go(At(delim, j, i + 1))
  {
    var w, s := Part(delim, j), At(delim, j, i);
    KeywordLower(i);
    ShortPart(delim, j);
    NotEarlier(delim, j, i);
    OrdinaryStep(cfg, w, i, s, delim);
  }

  /** A byte of a short word that is neither a delimiter nor special is copied. */
  lemma OrdinaryStep(cfg: Config, w: string, i: nat, s: Scan, delim: string)
    requires i < |w| < 10 && Ordinary(w[i]) && Solid(w[i]) && delim != [] && !(delim <= w[i..])
    requires s == Scan(w[i..], if i == 0 then '\n' else w[i - 1], delim, "\n" + w[..i], i > 0, false)
    ensures Step(cfg, s) == Go(Scan(w[i + 1..], w[i], delim, "\n" + w[..i + 1], true, false))
  {
    var c := w[i];
    Pieces(w, i);
    NotAtDelimiter(c, w[i + 1..], delim);
    ByteReads(cfg, s, c, w[i + 1..]);
    assert HasInk([c]);
    Assoc("\n", w[..i], [c]);
  }

  lemma Pieces(w: string, i: nat)
    requires i < |w|
    ensures w[i..] == [w[i]] + w[i + 1..] && w[..i + 1] == w[..i] + [w[i]]
  {
  }

  lemma NotAtDelimiter(c: char, r: string, delim: string)
    requires delim != [] && !(delim <= [c] + r)
    ensures !AtDelimiter(c, r, delim)
  {
    assert [c] + Peek(r, |delim| - 1) <= [c] + r;
  }

  lemma PartEnd(cfg: Config, delim: string, j: nat)
    requires cfg.mysql && Settable(delim) && FirstFold(delim, j)
    ensures var s := At(delim, j, j);
            s.rest == delim && Step(cfg, s) == Split(s.(rest := [], last := delim[0]))
  {
    ShortPart(delim, j);
    assert Part(delim, j)[j..] == delim;
    WordSplits(cfg, At(delim, j, j));
  }

  lemma WordSplits(cfg: Config, s: Scan)
    requires s.delim != [] && |s.delim| < 10 && s.rest == s.delim && s.content && Ordinary(s.delim[0])
    ensures Step(cfg, s) == Split(s.(rest := [], last := s.delim[0]))
  {
    var d := s.delim;
    assert d[1..][|d| - 1..] == [] && Peek(d[1..], |d| - 1) == d[1..];
    assert [d[0]] + d[1..] == d;
  }

  lemma {:induction false} PartRuns(cfg: Config, delim: string, j: nat, i: nat)
    requires cfg.mysql && cfg.fails && cfg.max >= 20 && Settable(delim) && FirstFold(delim, j) && i <= j
    ensures Run(cfg, At(delim, j, i)).stmts == SqlTokens.Statement("\n" + KEYWORD[..j])
    decreases j - i
  {
    var s := At(delim, j, i);
    if i < j {
      PartByte(cfg, delim, j, i);
      SqlTokens.StepRuns(cfg, s, At(delim, j, i + 1));
      PartRuns(cfg, delim, j, i + 1);
    } else {
      PartEnd(cfg, delim, j);
      assert Part(delim, j)[..j] == KEYWORD[..j];
      EndRuns(cfg, s);
    }
  }

  /** The script cut behind the delimiter returns the start of the keyword. */
  lemma CutPart(max: nat, delim: string, j: nat)
    requires Settable(delim) && FirstFold(delim, j) && max >= 20
    ensures Run(Config(true, max, true), Start(Under(delim, Part(delim, j)))).stmts == [KEYWORD[..j]]
  {
    var cfg := Config(true, max, true);
    FirstLine(cfg, delim, Part(delim, j));
    PartStarts(cfg, delim, j);
    PartRuns(cfg, delim, j, 0);
    KeywordLower(0);
    KeywordLower(j - 1);
    SolidEnds(KEYWORD[..j]);
  }

  lemma PartStarts(cfg: Config, delim: string, j: nat)
    requires cfg.mysql && Settable(delim) && FirstFold(delim, j)
    ensures Run(cfg, Begun(delim, Part(delim, j))) == Run(cfg, At(delim, j, 0))
  {
    var w, s := Part(delim, j), Begun(delim, Part(delim, j));
    LineReads(cfg, delim, w);
    SqlTokens.StepRuns(cfg, s, At(delim, j, 0));
  }

  lemma LineReads(cfg: Config, delim: string, w: string)
    requires cfg.mysql && Settable(delim)
    ensures Step(cfg, Begun(delim, w)) == Go(Scan(w, '\n', delim, "\n", false, false))
  {
    var s := Begun(delim, w);
    TrimStarts(delim);
    OtherByte('\n', w, delim);
    SqlTokens.NotCommand(true, s.last, s.content, s.rest);
    ByteReads(cfg, s, '\n', w);
    AfterLine(s, w);
  }

  /** The whole script is two DELIMITER lines and returns nothing. */
  lemma WholePart(max: nat, delim: string, j: nat)
    requires Settable(delim) && FirstFold(delim, j) && max >= 20
    ensures var x := KEYWORD[|Part(delim, j)|..];
            && Run(Config(true, max, false), Start(Under(delim, Part(delim, j) + x))).stmts == []
            && InForce(Config(true, max, false), Begun(delim, Part(delim, j) + x), delim)
  {
    var cfg, w := Config(true, max, false), Part(delim, j) + KEYWORD[|Part(delim, j)|..];
    ShortPart(delim, j);
    WholeWord(delim, j);
    FirstLine(cfg, delim, w);
    LineReads(cfg, delim, w);
    var s := Scan(w, '\n', delim, "\n", false, false);
    SqlTokens.StepRuns(cfg, Begun(delim, w), s);
    SecondLine(cfg, s, w);
  }

  lemma WholeWord(delim: string, j: nat)
    requires 1 <= j < 10 && FoldsAt(delim, KEYWORD, j) && |Part(delim, j)| < 10
    ensures var w := Part(delim, j) + KEYWORD[|Part(delim, j)|..];
            |w| == 10 && EqualFold(w, KEYWORD)
  {
    PartFollows(delim, j);
    var n := |Part(delim, j)|;
    var w := Part(delim, j) + KEYWORD[n..];
    forall i | 0 <= i < 10 ensures Lower(w[i]) == KEYWORD[i] {
      KeywordLower(i);
      assert i >= n ==> w[i] == KEYWORD[i];
    }
  }

  lemma SecondLine(cfg: Config, s: Scan, w: string)
    requires cfg.mysql && !cfg.fails && cfg.max >= 20 && |w| == 10 && EqualFold(w, KEYWORD)
    requires s == Scan(w, '\n', s.delim, "\n", false, false) && s.delim != []
    ensures Run(cfg, s).stmts == [] && InForce(cfg, s, s.delim)
  {
    var t := SqlTokens.Command(w, "");
    assert w[..10] == w && w + "" + [] == w;
    SqlTokens.TokenReads(cfg, s, t, []);
    var u := SqlTokens.After(true, s, t, []);
    TrimmedIsTrim("");
    assert u == s.(rest := [], last := w[0]);
    SqlTokens.StepRuns(cfg, s, u);
    SqlTokens.ScanEnd(cfg, u);
    TrimNewline("");
  }

  /** With a delimiter that is a later stretch of the keyword, a script cut inside a DELIMITER line returns its start. */
  lemma StretchBreaks(delim: string, max: nat) returns (text: string, x: string)
    requires Settable(delim) && InnerStretch(delim) && max >= 20
    ensures !Keeps(delim, max, text, x)
  {
    var i :| 1 <= i < 10 && FoldsAt(delim, KEYWORD, i);
    var j := FirstFoldExists(delim, i);
    text := Part(delim, j);
    ShortPart(delim, j);
    x := KEYWORD[|text|..];
    CutPart(max, delim, j);
    WholePart(max, delim, j);
    Breaks(delim, max, text, x, [KEYWORD[..j]], []);
  }
}
