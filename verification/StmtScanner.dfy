/** The statement scanner as it runs: over a buffered reader fed by chunks of any size. */
module StmtScanner {
  import opened Text
  import opened SqlScan

  predicate NoneEmpty(chunks: seq<string>) {
    chunks == [] || (chunks[0] != [] && NoneEmpty(chunks[1..]))
  }

  /** A reader holding buf and these chunks delivers text. */
  predicate Delivers(buf: string, chunks: seq<string>, text: string) {
    |buf| <= BUFFER && NoneEmpty(chunks) && text == buf + Concat(chunks)
  }

  /** bufio.Reader: unread buffered bytes, and what the source will still deliver, one read at a time. */
  class Reader {
    var buf: string
    var chunks: seq<string>
    const fails: bool
    /** Everything not yet read, however it is going to be delivered. */
    ghost var rest: string

    ghost predicate Valid()
      reads this
    {
      Delivers(buf, chunks, rest)
    }

    constructor (chunks: seq<string>, fails: bool)
      requires NoneEmpty(chunks)
      ensures Valid() && rest == Concat(chunks) && this.fails == fails
    {
      buf := [];
      this.chunks := chunks;
      this.fails := fails;
      rest := Concat(chunks);
    }

    /** One read of the source into the free part of the buffer. */
    method Fill()
      requires Valid() && |buf| < BUFFER && chunks != []
      modifies this`buf, this`chunks
      ensures Valid() && |buf| > |old(buf)|
      ensures |Concat(chunks)| < |old(Concat(chunks))|
    {
      var c := chunks[0];
      var n := if |c| <= BUFFER - |buf| then |c| else BUFFER - |buf|;
      assert Concat(chunks) == c[..n] + (c[n..] + Concat(chunks[1..]));
      assert buf + Concat(chunks) == (buf + c[..n]) + (c[n..] + Concat(chunks[1..]));
      buf := buf + c[..n];
      if n == |c| {
        chunks := chunks[1..];
      } else {
        chunks := chunks[0 := c[n..]];
        assert chunks[1..] == old(chunks)[1..];
      }
    }

    method ReadByte() returns (c: char, ok: bool)
      requires Valid()
      modifies this
      ensures Valid() && ok == (old(rest) != [])
      ensures if ok then c == old(rest)[0] && rest == old(rest)[1..] else rest == []
    {
      if buf == [] && chunks != [] {
        Fill();
      }
      if buf == [] {
        return '\0', false;
      }
      assert rest[1..] == buf[1..] + Concat(chunks);
      c, ok := buf[0], true;
      buf, rest := buf[1..], rest[1..];
    }

    method PeekBytes(n: nat) returns (p: string)
      requires Valid()
      modifies this`buf, this`chunks
      ensures Valid() && p == Peek(rest, n)
    {
      while |buf| < n && |buf| < BUFFER && chunks != []
        invariant Valid()
        decreases |Concat(chunks)|
      {
        Fill();
      }
      p := if n <= |buf| then buf[..n] else buf;
    }

    method Discard(n: nat)
      requires Valid() && n <= |rest|
      modifies this
      ensures Valid() && rest == old(rest)[n..]
    {
      for i := 0 to n
        invariant Valid() && rest == old(rest)[i..]
      {
        var _, _ := ReadByte();
      }
    }

    /** Reads up to a newline, which is left unread; newline tells whether there was one. */
    method ReadLine() returns (line: string, newline: bool)
      requires Valid()
      modifies this
      ensures Valid() && var n := LineEnd(old(rest));
              line == old(rest)[..n] && rest == old(rest)[n..] && newline == (n < |old(rest)|)
    {
      line := [];
      ghost var all := rest;
      while true
        invariant Valid() && |line| <= LineEnd(all) && line == all[..|line|] && rest == all[|line|..]
        decreases |rest|
      {
        var p := PeekBytes(1);
        if p == [] {
          assert rest == [];
          return line, false;
        }
        assert p[0] == all[|line|];
        if p[0] == '\n' {
          return line, true;
        }
        var c, _ := ReadByte();
        line := line + [c];
      }
    }
  }

  datatype Result = Statement(text: string) | EndOfInput | ReadError | StatementTooLong

  function ResultOf(o: Outcome): Result {
    match o
    case Stmt(t, _) => Statement(t)
    case Eof(_) => EndOfInput
    case Broken(_) => ReadError
    case TooLong(_) => StatementTooLong
  }

  class Scanner {
    const r: Reader
    const mysql: bool
    const max: nat
    var last: char
    var delim: string
    var content: bool
    var rerr: bool

    ghost predicate Valid()
      reads this, r
    {
      r.Valid() && delim != [] && (rerr ==> r.fails && r.rest == [])
    }

    ghost function Cfg(): Config {
      Config(mysql, max, r.fails)
    }

    /** The scanner's state in the middle of a statement of which buf was copied. */
    ghost function At(buf: string): Scan
      reads this, r
    {
      Scan(r.rest, last, delim, buf, content, rerr)
    }

    constructor (r: Reader, mysql: bool, max: nat)
      requires r.Valid()
      ensures Valid() && this.r == r && this.mysql == mysql && this.max == max
      ensures At("") == Start(r.rest)
    {
      this.r, this.mysql, this.max := r, mysql, max;
      last, delim, content, rerr := '\0', ";", false, false;
    }

    method ReadOne() returns (c: char, ok: bool)
      requires Valid()
      modifies this, r
      ensures Valid() && ok == (old(r.rest) != [])
      ensures ok ==> c == old(r.rest)[0]
      ensures if ok then r.rest == old(r.rest)[1..] && last == c else r.rest == [] && last == old(last)
      ensures delim == old(delim) && content == old(content) && rerr == (old(rerr) || (!ok && r.fails))
    {
      c, ok := r.ReadByte();
      if ok {
        last := c;
      } else if r.fails {
        rerr := true;
      }
    }

    /** Appends to the statement being copied. */
    method Append(buf: string, b: string) returns (out: string)
      requires Valid()
      modifies this`content
      ensures out == buf + b && content == (old(content) || HasInk(b))
    {
      out := buf + b;
      for i := 0 to |b|
        invariant (content || HasInk(b[i..])) == (old(content) || HasInk(b))
      {
        assert b[i..][1..] == b[i + 1..];
        if !Blank(b[i]) {
          content := true;
        }
      }
    }

    method QuotedString(buf0: string, q: char, backslash: bool) returns (buf: string)
      requires Valid()
      modifies this, r
      ensures Valid() && At(buf) == Quoted(Cfg(), old(At(buf0)), q, backslash)
    {
      buf := buf0;
      ghost var goal := Quoted(Cfg(), At(buf), q, backslash);
      while true
        invariant Valid() && Quoted(Cfg(), At(buf), q, backslash) == goal
        decreases |r.rest|
      {
        var done;
        buf, done := QuotedTurn(buf, q, backslash);
        if done {
          return;
        }
      }
    }

    /** One turn of the loop: it ends the string, or the rest of the text decides as before. */
    method QuotedTurn(buf0: string, q: char, backslash: bool) returns (buf: string, done: bool)
      requires Valid()
      modifies this, r
      ensures Valid() && done == QuotedOn(Cfg(), old(At(buf0)), q, backslash).None?
      ensures At(buf) == if done then QuotedEnd(Cfg(), old(At(buf0)), q, backslash)
                         else QuotedOn(Cfg(), old(At(buf0)), q, backslash).value
    {
      var c, ok := ReadOne();
      if !ok || |buf0| > max {
        return buf0, true;
      }
      buf, done := QuotedByte(buf0, c, q, backslash);
    }

    /** Copies the next byte, if there is one. */
    method CopyNext(buf0: string) returns (buf: string, ok: bool)
      requires Valid()
      modifies this, r
      ensures Valid() && ok == (old(r.rest) != [])
      ensures var s := old(At(buf0)); At(buf) == if s.rest != [] then Put(Read(s), [s.rest[0]]) else ReadPastEnd(Cfg(), s)
    {
      var c;
      c, ok := ReadOne();
      buf := buf0;
      if ok {
        buf := Append(buf, [c]);
      }
    }

    /** What follows once the byte c was read: a backslash takes the next byte with it, a doubled quote its twin. */
    method QuotedByte(buf0: string, c: char, q: char, backslash: bool) returns (buf: string, done: bool)
      requires Valid()
      modifies this, r
      ensures Valid()
      ensures var t := Put(old(At(buf0)), [c]);
              if backslash && c == '\\' then
                done == (t.rest == []) && At(buf) == if done then ReadPastEnd(Cfg(), t) else Put(Read(t), [t.rest[0]])
              else
                && done == (c == q && !([q] <= t.rest))
                && At(buf) == if done || c != q then t else Put(Read(t), [q])
    {
      buf := Append(buf0, [c]);
      done := false;
      if backslash && c == '\\' {
        var ok;
        buf, ok := CopyNext(buf);
        done := !ok;
      } else if c == q {
        var nx := r.PeekBytes(1);
        if nx != [q] {
          return buf, true;
        }
        var copied, _ := CopyNext(buf);
        buf := copied;
      }
    }

    method DropLine(ghost buf: string)
      requires Valid()
      modifies this, r
      ensures Valid() && At(buf) == SkipLine(old(At(buf)))
    {
      ghost var goal := SkipLine(At(buf));
      while true
        invariant Valid() && SkipLine(At(buf)) == goal
        decreases |r.rest|
      {
        var nx := r.PeekBytes(1);
        if nx == [] || nx[0] == '\n' {
          return;
        }
        var _, _ := ReadOne();
      }
    }

    method CopyBlockComment(buf0: string) returns (buf: string)
      requires Valid() && r.rest != []
      modifies this, r
      ensures Valid() && At(buf) == BlockComment(Cfg(), old(At(buf0)))
    {
      buf := buf0;
      var _, _ := ReadOne();
      var nx := r.PeekBytes(1);
      var keep := mysql && nx == "!";
      if keep {
        buf := Append(buf, "/*");
      }
      buf := CopyToBlockEnd(buf, keep);
      if !keep {
        buf := buf + " ";
      }
    }

    method CopyToBlockEnd(buf0: string, keep: bool) returns (buf: string)
      requires Valid()
      modifies this, r
      ensures Valid() && At(buf) == Block(Cfg(), old(At(buf0)), '\0', keep)
    {
      buf := buf0;
      var prev := '\0';
      ghost var goal := Block(Cfg(), At(buf), prev, keep);
      while true
        invariant Valid() && Block(Cfg(), At(buf), prev, keep) == goal
        decreases |r.rest|
      {
        var done;
        buf, prev, done := BlockTurn(buf, prev, keep);
        if done {
          return;
        }
      }
    }

    /** One turn of the loop: b is the byte it read. */
    method BlockTurn(buf0: string, prev: char, keep: bool) returns (buf: string, b: char, done: bool)
      requires Valid()
      modifies this, r
      ensures Valid() && (!done ==> |r.rest| < old(|r.rest|))
      ensures (if done then At(buf) else Block(Cfg(), At(buf), b, keep)) == Block(Cfg(), old(At(buf0)), prev, keep)
    {
      buf := buf0;
      var ok;
      b, ok := ReadOne();
      if !ok {
        return buf, b, true;
      }
      if keep {
        buf := Append(buf, [b]);
      }
      return buf, b, prev == '*' && b == '/';
    }

    /** Whether the "-" just read starts a line comment. */
    method StartsDashComment() returns (yes: bool)
      requires Valid()
      modifies r`buf, r`chunks
      ensures Valid() && yes == DashComment(mysql, r.rest)
    {
      var pk := r.PeekBytes(2);
      if |pk| == 0 || pk[0] != '-' {
        return false;
      }
      return !mysql || |pk| < 2 || pk[1] == ' ' || pk[1] == '\t' || pk[1] == '\n' || pk[1] == '\r';
    }

    /** The tag of the dollar quote the "$" just read opens, if it opens one. */
    method OpenDollar() returns (yes: bool, tag: string)
      requires Valid()
      modifies r`buf, r`chunks
      ensures Valid() && yes == DollarOpener(r.rest)
      ensures yes ==> tag == "$" + r.rest[..IdentRun(Peek(r.rest, 66))] + "$"
    {
      var pk := r.PeekBytes(66);
      var k := 0;
      while k < |pk| && IsIdent(pk[k])
        invariant k <= |pk| && IdentRun(pk) == k + IdentRun(pk[k..])
      {
        k := k + 1;
      }
      if k >= |pk| || pk[k] != '$' || (k > 0 && '0' <= pk[0] <= '9') {
        return false, "";
      }
      return true, "$" + pk[..k] + "$";
    }

    method CopyDollar(buf0: string, tag: string) returns (buf: string)
      requires Valid() && DollarOpener(r.rest) && tag == "$" + r.rest[..IdentRun(Peek(r.rest, 66))] + "$"
      modifies this, r
      ensures Valid() && At(buf) == Dollar(Cfg(), old(At(buf0)))
    {
      r.Discard(|tag| - 1);
      buf := Append(buf0, tag);
      buf := CopyToTag(buf, tag);
    }

    method CopyToTag(buf0: string, tag: string) returns (buf: string)
      requires Valid() && |tag| <= |buf0|
      modifies this, r
      ensures Valid() && At(buf) == DollarBody(Cfg(), old(At(buf0)), |buf0|, tag)
    {
      buf := buf0;
      var start := |buf|;
      ghost var goal := DollarBody(Cfg(), At(buf), start, tag);
      while true
        invariant Valid() && |tag| <= |buf| && DollarBody(Cfg(), At(buf), start, tag) == goal
        decreases |r.rest|
      {
        var done;
        buf, done := TagTurn(buf, start, tag);
        if done {
          return;
        }
      }
    }

    /** One turn of the loop. */
    method TagTurn(buf0: string, start: nat, tag: string) returns (buf: string, done: bool)
      requires Valid() && |tag| <= |buf0|
      modifies this, r
      ensures Valid() && |tag| <= |buf| && (!done ==> |r.rest| < old(|r.rest|))
      ensures (if done then At(buf) else DollarBody(Cfg(), At(buf), start, tag)) ==
              DollarBody(Cfg(), old(At(buf0)), start, tag)
    {
      buf := buf0;
      var b, ok := ReadOne();
      if !ok {
        return buf, true;
      }
      buf := Append(buf, [b]);
      if b == '$' && |buf| - start >= |tag| && buf[|buf| - |tag|..] == tag {
        return buf, true;
      }
      return buf, |buf| > max;
    }

    /** The DELIMITER command whose first byte was just read. */
    method RunCommand(ghost before: Scan)
      requires Valid() && StartsKeyword(before.rest) && Read(before) == At(before.buf)
      modifies this, r
      ensures Valid() && At(before.buf) == Command(before)
    {
      var line, newline := r.ReadLine();
      CommandLine(before.rest);
      if newline {
        last := '\0';
      }
      var d := TrimSpace(line[9..]);
      if d != [] {
        delim := d;
      }
    }

    /** Whether the byte c just read starts a DELIMITER line. */
    method StartsCommand(c: char, lineStart: bool) returns (yes: bool)
      requires Valid()
      modifies r`buf, r`chunks
      ensures Valid() && yes == (mysql && lineStart && !content && StartsKeyword([c] + r.rest))
    {
      if !mysql || !lineStart || content {
        return false;
      }
      var p := r.PeekBytes(9);
      assert |p| == 9 ==> [c] + p == ([c] + r.rest)[..10];
      return |p| == 9 && EqualFold([c] + p, KEYWORD);
    }

    /** Whether the byte c just read starts the delimiter. */
    method StartsDelimiter(c: char) returns (yes: bool)
      requires Valid()
      modifies r`buf, r`chunks
      ensures Valid() && yes == AtDelimiter(c, r.rest, delim)
    {
      var d := r.PeekBytes(|delim| - 1);
      return [c] + d == delim;
    }

    /** One turn of the loop: the byte c was just read from the state before. */
    method TakeTurn(c: char, lineStart: bool, buf0: string, ghost before: Scan) returns (buf: string, split: bool)
      requires Valid() && before.rest != [] && before.buf == buf0 && c == before.rest[0] && Read(before) == At(buf0)
      requires lineStart == (before.last == '\0' || before.last == '\n')
      modifies this, r
      ensures Valid() && Step(Cfg(), before) == if split then Split(At(buf)) else Go(At(buf))
    {
      buf, split := buf0, false;
      assert before.rest == [c] + r.rest;
      var command := StartsCommand(c, lineStart);
      if command {
        RunCommand(before);
      } else if c == '\'' || c == '"' || (c == '`' && mysql) {
        buf := Append(buf, [c]);
        buf := QuotedString(buf, c, mysql && c != '`');
      } else {
        buf, split := TakePlainTurn(c, buf0);
      }
    }

    method TakePlainTurn(c: char, buf0: string) returns (buf: string, split: bool)
      requires Valid()
      modifies this, r
      ensures Valid()
      ensures PlainStep(Cfg(), PlainTurn(mysql, old(delim), c, old(r.rest)), c, old(At(buf0))) ==
              if split then Split(At(buf)) else Go(At(buf))
    {
      buf, split := buf0, false;
      var turn, tag := DecideTurn(c);
      match turn {
        case OnLineComment =>
          DropLine(buf);
        case OnBlockComment =>
          buf := CopyBlockComment(buf);
        case OnDollar =>
          buf := CopyDollar(buf, tag);
        case OnDelimiter =>
          split := true;
          r.Discard(|delim| - 1);
        case OnByte =>
          buf := Append(buf, [c]);
      }
    }

    /** What the byte c just read starts, when that is neither a command nor a quote. */
    method DecideTurn(c: char) returns (turn: Turn, tag: string)
      requires Valid()
      modifies r`buf, r`chunks
      ensures Valid() && turn == PlainTurn(mysql, delim, c, r.rest)
      ensures turn == OnDollar ==> DollarOpener(r.rest) && tag == "$" + r.rest[..IdentRun(Peek(r.rest, 66))] + "$"
    {
      tag := "";
      if c == '#' && mysql {
        return OnLineComment, tag;
      }
      if c == '-' {
        var dash := StartsDashComment();
        if dash {
          return OnLineComment, tag;
        }
      }
      if c == '/' {
        var nx := r.PeekBytes(1);
        if nx == "*" {
          return OnBlockComment, tag;
        }
      }
      if c == '$' && !mysql {
        var dollar, opener := OpenDollar();
        if dollar {
          return OnDollar, opener;
        }
      }
      var atDelim := StartsDelimiter(c);
      turn := if atDelim then OnDelimiter else OnByte;
    }

    /** The next statement: what the specification says for all that is still unread. */
    method NextStatement() returns (res: Result)
      requires Valid()
      modifies this, r
      ensures Valid()
      ensures var o := Next(Cfg(), old(At("")).(content := false)); res == ResultOf(o) && (res.Statement? ==> At("") == o.s)
    {
      var buf := "";
      content := false;
      ghost var s0 := At("");
      while true
        invariant Valid() && Next(Cfg(), At(buf)) == Next(Cfg(), s0)
        decreases |r.rest|
      {
        if rerr {
          return ReadError;
        }
        if |buf| > max {
          return StatementTooLong;
        }
        var lineStart := last == '\0' || last == '\n';
        ghost var before := At(buf);
        var c, ok := ReadOne();
        if !ok {
          if rerr {
            return ReadError;
          }
          var t := TrimSpace(buf);
          content := false;
          return if t != "" then Statement(t) else EndOfInput;
        }
        var split;
        buf, split := TakeTurn(c, lineStart, buf, before);
        if split {
          var t := TrimSpace(buf);
          content := false;
          if t != "" {
            return Statement(t);
          }
          buf := "";
        }
      }
    }

    /** The statements still to come, and how they end. */
    ghost function Left(): Script
      reads this, r
    {
      Run(Cfg(), At(""))
    }

    /** The next statement, as seen by a caller that takes them one after the other. */
    method Advance() returns (res: Result)
      requires Valid() && !content
      modifies this, r
      ensures Valid() && (res.Statement? ==> !content && |r.rest| < old(|r.rest|))
      ensures res.Statement? ==> old(Left()) == Script([res.text] + Left().stmts, Left().end)
      ensures !res.Statement? ==>
                && old(Left()).stmts == []
                && (res.EndOfInput? <==> old(Left()).end == AtEof) && (res.ReadError? <==> old(Left()).end == AtError)
    {
      assert At("") == At("").(content := false);
      res := NextStatement();
    }
  }

  lemma CommandLine(text: string)
    requires StartsKeyword(text)
    ensures var n := LineEnd(text[1..]);
            LineEnd(text) == 1 + n && n >= 9 && text[10..1 + n] == text[1..][..n][9..] && text[1 + n..] == text[1..][n..]
  {
    KeywordIsOneLine(text);
    var n := LineEnd(text[1..]);
    var a, b := text[10..1 + n], text[1..][..n][9..];
    assert |a| == |b| && forall i :: 0 <= i < |a| ==> a[i] == b[i];
  }

  /** Splitting a stream gives the statements of its bytes, whatever the chunks they arrive in. */
  method SplitStream(chunks: seq<string>, fails: bool, mysql: bool, max: nat) returns (out: seq<string>, end: Result)
    requires NoneEmpty(chunks)
    ensures var script := Run(Config(mysql, max, fails), Start(Concat(chunks)));
            out == script.stmts && !end.Statement? &&
            (end.EndOfInput? <==> script.end == AtEof) && (end.ReadError? <==> script.end == AtError)
  {
    var r := new Reader(chunks, fails);
    var sc := new Scanner(r, mysql, max);
    out := [];
    ghost var script := sc.Left();
    while true
      invariant sc.Valid() && fresh(sc) && fresh(sc.r) && !sc.content && Collected(script, out, sc.Left())
      decreases |sc.r.rest|
    {
      end := NextOf(sc, out, script);
      if !end.Statement? {
        return;
      }
      out := out + [end.text];
    }
  }

  /** out has been taken from the script, left is what remains. */
  ghost predicate Collected(script: Script, out: seq<string>, left: Script) {
    script.stmts == out + left.stmts && script.end == left.end
  }

  /** One turn of the loop. */
  method NextOf(sc: Scanner, ghost out: seq<string>, ghost script: Script) returns (res: Result)
    requires sc.Valid() && !sc.content && Collected(script, out, sc.Left())
    modifies sc, sc.r
    ensures res.Statement? ==>
              && sc.Valid() && !sc.content && |sc.r.rest| < old(|sc.r.rest|)
              && Collected(script, out + [res.text], sc.Left())
    ensures !res.Statement? ==>
              && out == script.stmts
              && (res.EndOfInput? <==> script.end == AtEof) && (res.ReadError? <==> script.end == AtError)
  {
    res := sc.Advance();
    if res.Statement? {
      Assoc(out, [res.text], sc.Left().stmts);
    }
  }
}
