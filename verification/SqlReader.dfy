/** How a server reads quoted text: string literals and identifiers up to their closing quote. */
module SqlReader {
  import opened Text
  import opened SqlExport

  function Strip(s: string, word: string): Option<string> {
    if word <= s then Some(s[|word|..]) else None
  }

  lemma StripWord(word: string, rest: string)
    ensures Strip(word + rest, word) == Some(rest)
  {
    assert (word + rest)[|word|..] == rest;
  }

  lemma StripNot(s: string, word: string, i: nat)
    requires i < |word| && (i >= |s| || s[i] != word[i])
    ensures Strip(s, word) == None
  {
  }

  /** What a backslash pair stands for in a MySQL string literal. */
  function Unescape(c: char): string {
    match c
    case '0' => "\0"
    case 'b' => "\U{08}"
    case 'n' => "\n"
    case 'r' => "\r"
    case 't' => "\t"
    case 'Z' => "\U{1A}"
    case '%' => "\\%"
    case '_' => "\\_"
    case _ => [c]
  }

  function Prepend(s: string, r: Parsed<string>): Parsed<string> {
    match r
    case Failed => Failed
    case Parsed(text, rest) => Parsed(s + text, rest)
  }

  /** The body of text quoted with q up to its closing quote; a doubled quote stands for one. */
  function ReadBody(q: char, backslash: bool, s: string): Parsed<string> {
    if s == [] then Failed
    else if s[0] == q then
      if |s| > 1 && s[1] == q then Prepend([q], ReadBody(q, backslash, s[2..])) else Parsed("", s[1..])
    else if backslash && s[0] == '\\' then
      if |s| == 1 then Failed else Prepend(Unescape(s[1]), ReadBody(q, backslash, s[2..]))
    else Prepend([s[0]], ReadBody(q, backslash, s[1..]))
  }

  function ReadString(mysql: bool, s: string): Parsed<string> {
    if "'" <= s then ReadBody('\'', mysql, s[1..]) else Failed
  }

  function ReadIdent(mysql: bool, s: string): Parsed<string> {
    if [IdentQuote(mysql)] <= s then ReadBody(IdentQuote(mysql), false, s[1..]) else Failed
  }

  lemma BodyEnds(q: char, backslash: bool, rest: string)
    requires rest == [] || rest[0] != q
    ensures ReadBody(q, backslash, [q] + rest) == Parsed("", rest)
  {
    assert ([q] + rest)[1..] == rest;
  }

  lemma EscapedByteReads(mysql: bool, c: char, tail: string)
    ensures ReadBody('\'', mysql, EscapeByte(mysql, c) + tail) == Prepend([c], ReadBody('\'', mysql, tail))
  {
    var e := EscapeByte(mysql, c);
    assert (e + tail)[|e|..] == tail;
    assert (e + tail)[0] == e[0] && (|e| == 2 ==> (e + tail)[1] == e[1]);
  }

  lemma {:induction false} EscapeReads(mysql: bool, s: string, rest: string)
    requires rest == [] || rest[0] != '\''
    ensures ReadBody('\'', mysql, Escape(mysql, s) + (['\''] + rest)) == Parsed(s, rest)
  {
    var end := ['\''] + rest;
    if s == [] {
      assert Escape(mysql, s) + end == end;
      BodyEnds('\'', mysql, rest);
    } else {
      EscapeReads(mysql, s[1..], rest);
      Assoc(EscapeByte(mysql, s[0]), Escape(mysql, s[1..]), end);
      EscapedByteReads(mysql, s[0], Escape(mysql, s[1..]) + end);
      assert [s[0]] + s[1..] == s;
    }
  }

  /** A string literal reads, by its dialect's rules, as the string it was made from. */
  lemma StringReads(mysql: bool, s: string, rest: string)
    requires rest == [] || rest[0] != '\''
    ensures ReadString(mysql, QuoteString(mysql, s) + rest) == Parsed(s, rest)
  {
    EscapeReads(mysql, s, rest);
    QuotedTail('\'', Escape(mysql, s), rest);
  }

  lemma QuotedTail(q: char, body: string, rest: string)
    ensures var s := [q] + body + [q] + rest; s[0] == q && s[1..] == body + ([q] + rest)
  {
  }

  lemma {:induction false} DoubledReads(q: char, name: string, rest: string)
    requires rest == [] || rest[0] != q
    ensures ReadBody(q, false, DoubleQuotes(q, name) + ([q] + rest)) == Parsed(name, rest)
  {
    var end := [q] + rest;
    if name == [] {
      assert DoubleQuotes(q, name) + end == end;
      BodyEnds(q, false, rest);
    } else {
      var unit, more := if name[0] == q then [q, q] else [name[0]], DoubleQuotes(q, name[1..]);
      DoubledReads(q, name[1..], rest);
      Assoc(unit, more, end);
      UnitFirst(q, name[0], more + end);
      assert [name[0]] + name[1..] == name;
    }
  }

  lemma UnitFirst(q: char, c: char, tail: string)
    ensures ReadBody(q, false, (if c == q then [q, q] else [c]) + tail) == Prepend([c], ReadBody(q, false, tail))
  {
    var unit := if c == q then [q, q] else [c];
    assert (unit + tail)[|unit|..] == tail && (unit + tail)[0] == c;
    assert |unit| == 2 ==> (unit + tail)[1] == q;
  }

  /** A quoted name reads as the name, whatever its bytes. */
  lemma IdentReads(mysql: bool, name: string, rest: string)
    requires rest == [] || rest[0] != IdentQuote(mysql)
    ensures ReadIdent(mysql, QuoteIdent(mysql, name) + rest) == Parsed(name, rest)
    ensures QuoteIdent(mysql, name)[0] == IdentQuote(mysql)
  {
    var q := IdentQuote(mysql);
    DoubledReads(q, name, rest);
    QuotedTail(q, DoubleQuotes(q, name), rest);
  }

  /** A literal that is the whole text. */
  lemma StringRoundTrip(mysql: bool, s: string)
    ensures ReadString(mysql, QuoteString(mysql, s)) == Parsed(s, "")
  {
    StringReads(mysql, s, "");
    assert QuoteString(mysql, s) + "" == QuoteString(mysql, s);
  }
}
