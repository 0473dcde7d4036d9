/** Rendering a column default for PostgreSQL and comparing it with what the catalog shows. */
module PgDefault {
  import opened Text
  import SqlExport
  import SqlReader

  // ---------------------------------------------------------------- defaults

  datatype Category = IntCat | NumCat | StrCat | BinCat | TimeCat | BoolCat | JsonCat

  datatype Default = NoDefault | NullDefault | NowDefault | ValueDefault(text: string)

  function LowerAll(s: string): (r: string)
    ensures |r| == |s| && forall i :: 0 <= i < |s| ==> r[i] == Lower(s[i])
  {
    if s == [] then "" else [Lower(s[0])] + LowerAll(s[1..])
  }

  predicate Digits(s: string) {
    s != [] && forall i :: 0 <= i < |s| ==> '0' <= s[i] <= '9'
  }

  /** Digits with an optional sign and an optional fraction. */
  predicate NumberLiteral(s: string) {
    var t := if s != [] && s[0] == '-' then s[1..] else s;
    Digits(t) || exists i :: 0 < i < |t| && t[i] == '.' && Digits(t[..i]) && Digits(t[i + 1..])
  }

  /** The text after DEFAULT; none if the default does not suit the column. */
  function DefaultText(d: Default, nullable: bool, cat: Category, stamp: bool): Option<string> {
    match d
    case NoDefault => Some("")
    case NullDefault => if nullable then Some("NULL") else None
    case NowDefault => if cat.TimeCat? && stamp then Some("CURRENT_TIMESTAMP") else None
    case ValueDefault(v) =>
      if cat.IntCat? || cat.NumCat? then (if NumberLiteral(v) then Some(v) else None)
      else if cat.BoolCat? then
        if LowerAll(v) == "1" || LowerAll(v) == "true" then Some("TRUE")
        else if LowerAll(v) == "0" || LowerAll(v) == "false" then Some("FALSE")
        else None
      else if |v| > 4096 then None
      else Some(SqlExport.QuoteString(false, v))
  }

  /** The clause of a column definition, with its leading blank; empty when there is no default. */
  function RenderDefault(d: Default, nullable: bool, cat: Category, stamp: bool): Option<string> {
    var text := DefaultText(d, nullable, cat, stamp);
    if text.None? || d.NoDefault? then text else Some(Clause(DEFAULT_WORD, text.value))
  }

  const DEFAULT_WORD := "DEFAULT"

  function Clause(word: string, text: string): string {
    " " + (word + (" " + text))
  }

  // ---------------------------------------------------------------- comparing with the catalog

  predicate CastLetter(c: char) {
    'a' <= c <= 'z' || c == '_' || c == ' '
  }

  predicate ArgumentByte(c: char) {
    '0' <= c <= '9' || c == ',' || c == ' '
  }

  /** How far the letters of a type name go. */
  function LettersEnd(s: string): (n: nat)
    ensures n <= |s|
  {
    if s != [] && CastLetter(s[0]) then 1 + LettersEnd(s[1..]) else 0
  }

  function ArgumentsEnd(s: string): (n: nat)
    ensures n <= |s|
  {
    if s != [] && ArgumentByte(s[0]) then 1 + ArgumentsEnd(s[1..]) else 0
  }

  /** Length of the cast s starts with, 0 if it starts with none. */
  function CastLength(s: string): (n: nat)
    ensures n <= |s|
  {
    if |s| < 2 || s[0] != ':' || s[1] != ':' then 0
    else
      var name := LettersEnd(s[2..]);
      if name == 0 then 0
      else
        var rest := s[2 + name..];
        if rest != [] && rest[0] == '(' then
          var args := ArgumentsEnd(rest[1..]);
          if 1 + args < |rest| && rest[1 + args] == ')' then 2 + name + args + 2 else 2 + name
        else 2 + name
  }

  /** s is one cast or several, to its end. */
  predicate AllCasts(s: string)
    decreases |s|
  {
    var n := CastLength(s);
    n > 0 && (n == |s| || AllCasts(s[n..]))
  }

  /** The text without the casts it ends with. */
  function WithoutCasts(s: string): (r: string)
    ensures r <= s
  {
    if s == [] || AllCasts(s) then "" else [s[0]] + WithoutCasts(s[1..])
  }

  function Canon(s: string): string {
    if s == "now()" || s == "current_timestamp" || s == "current_timestamp()" || s == "localtimestamp"
    then "current_timestamp" else s
  }

  /** The comparable form of a default expression. */
  function NormDefault(d: string): string {
    Canon(LowerAll(TrimSpace(WithoutCasts(TrimSpace(TrimPrefix(TrimSpace(d), DEFAULT_WORD))))))
  }

  // ---------------------------------------------------------------- what the comparison of defaults means

  lemma {:induction false} LettersEndIs(s: string)
    ensures forall i :: 0 <= i < LettersEnd(s) ==> CastLetter(s[i])
  {
    if s != [] && CastLetter(s[0]) {
      LettersEndIs(s[1..]);
    }
  }

  predicate CastEnd(c: char) {
    CastLetter(c) || c == ')'
  }

  lemma CastEnds(s: string)
    ensures CastLength(s) > 0 ==> CastEnd(s[CastLength(s) - 1])
  {
    if |s| >= 2 {
      LettersEndIs(s[2..]);
    }
  }

  /** Text whose last byte ends no cast has no casts to strip. */
  lemma {:induction false} AllCastsEnd(s: string)
    requires AllCasts(s)
    ensures s != [] && CastEnd(s[|s| - 1])
    decreases |s|
  {
    CastEnds(s);
    if CastLength(s) != |s| {
      AllCastsEnd(s[CastLength(s)..]);
    }
  }

  lemma {:induction false} NoCasts(s: string)
    requires s != [] && !CastEnd(s[|s| - 1])
    ensures WithoutCasts(s) == s
  {
    if AllCasts(s) {
      AllCastsEnd(s);
    } else if |s| > 1 {
      NoCasts(s[1..]);
      assert [s[0]] + s[1..] == s;
    } else {
      assert s == [s[0]] && WithoutCasts(s[1..]) == "";
    }
  }

  lemma TrimBlank(s: string)
    ensures TrimLeft(" " + s) == TrimLeft(s)
  {
    var t := " " + s;
    assert t[..1] == " " && t[1..] == s;
    assert SpaceAt(t) == 1;
  }

  /** Text that starts and ends with visible ASCII. */
  predicate Visible(s: string) {
    s != [] && Solid(s[0]) && Solid(s[|s| - 1])
  }

  lemma TrimVisible(s: string)
    requires Visible(s)
    ensures TrimSpace(s) == s && TrimSpace(" " + s) == s
  {
    SolidStart(s);
    SolidEnd(s);
    TrimBlank(s);
  }

  lemma TrimClause(word: string, x: string)
    requires word != [] && Solid(word[0]) && Visible(x)
    ensures TrimSpace(Clause(word, x)) == word + (" " + x)
    ensures TrimPrefix(word + (" " + x), word) == " " + x
    ensures TrimSpace(" " + x) == x && TrimSpace(x) == x
  {
    var t := word + (" " + x);
    assert t[0] == word[0] && t[|t| - 1] == x[|x| - 1];
    TrimVisible(t);
    TrimVisible(x);
    assert t[|word|..] == " " + x;
  }

  /** The comparable form of a rendered clause is its text in lower case. */
  lemma NormText(x: string)
    requires Visible(x) && !CastEnd(x[|x| - 1])
    ensures NormDefault(Clause(DEFAULT_WORD, x)) == Canon(LowerAll(x))
  {
    DefaultStarts();
    TrimClause(DEFAULT_WORD, x);
    NoCasts(x);
  }

  lemma DefaultStarts()
    ensures DEFAULT_WORD != [] && Solid(DEFAULT_WORD[0])
  {
  }

  lemma NormNothing()
    ensures NormDefault("") == ""
  {
    TrimmedIsTrim("");
  }

  /** Only words that start with one of three letters stand for the current time. */
  lemma CanonKeeps(s: string)
    requires s != [] && (|s| == 4 || (s[0] != 'n' && s[0] != 'c' && s[0] != 'l'))
    ensures Canon(s) == s
  {
  }

  predicate NumberByte(c: char) {
    c == '-' || c == '.' || '0' <= c <= '9'
  }

  lemma UnsignedBytes(t: string)
    requires Digits(t) || exists i :: 0 < i < |t| && t[i] == '.' && Digits(t[..i]) && Digits(t[i + 1..])
    ensures t != [] && '0' <= t[0] <= '9' && '0' <= t[|t| - 1] <= '9'
    ensures forall k :: 0 <= k < |t| ==> NumberByte(t[k])
  {
    if !Digits(t) {
      var i :| 0 < i < |t| && t[i] == '.' && Digits(t[..i]) && Digits(t[i + 1..]);
      PointBytes(t[..i], t[i + 1..]);
      assert t == t[..i] + ['.'] + t[i + 1..];
    }
  }

  lemma PointBytes(a: string, b: string)
    requires Digits(a) && Digits(b)
    ensures var t := a + ['.'] + b;
            && '0' <= t[0] <= '9' && '0' <= t[|t| - 1] <= '9'
            && forall k :: 0 <= k < |t| ==> NumberByte(t[k])
  {
  }

  lemma NumberBytes(v: string)
    requires NumberLiteral(v)
    ensures v != [] && NumberByte(v[0]) && v[0] != '.' && '0' <= v[|v| - 1] <= '9'
    ensures forall k :: 0 <= k < |v| ==> NumberByte(v[k])
  {
    if v[0] == '-' {
      UnsignedBytes(v[1..]);
      assert v == ['-'] + v[1..];
    } else {
      UnsignedBytes(v);
    }
  }

  lemma {:induction false} LowerNumber(v: string)
    requires forall k :: 0 <= k < |v| ==> NumberByte(v[k])
    ensures LowerAll(v) == v
  {
    if v != [] {
      LowerNumber(v[1..]);
      assert Lower(v[0]) == v[0] && [v[0]] + v[1..] == v;
    }
  }

  /** Starts and ends with a capital. */
  predicate UpperWord(s: string) {
    s != [] && 'A' <= s[0] <= 'Z' && 'A' <= s[|s| - 1] <= 'Z'
  }

  predicate FineText(x: string) {
    Visible(x) && !CastEnd(x[|x| - 1])
  }

  lemma UpperFine(s: string)
    requires UpperWord(s)
    ensures FineText(s)
  {
  }

  lemma WordsAreUpper()
    ensures UpperWord("NULL") && UpperWord("TRUE") && UpperWord("FALSE") && UpperWord("CURRENT_TIMESTAMP")
  {
  }

  /** Whatever is rendered has visible ends and ends with no cast. */
  lemma TextFine(d: Default, nullable: bool, cat: Category, stamp: bool)
    requires DefaultText(d, nullable, cat, stamp).Some? && !d.NoDefault?
    ensures FineText(DefaultText(d, nullable, cat, stamp).value)
  {
    WordsAreUpper();
    var text := DefaultText(d, nullable, cat, stamp).value;
    if UpperWord(text) {
      UpperFine(text);
    } else if cat.IntCat? || cat.NumCat? {
      NumberBytes(text);
    } else {
      assert text[0] == '\'' && text[|text| - 1] == '\'';
    }
  }

  predicate MeansTrue(v: string) {
    LowerAll(v) == "1" || LowerAll(v) == "true"
  }

  /** Two defaults for a column of this category that differ at most in the case of a text value. */
  predicate SameDefault(a: Default, b: Default, cat: Category) {
    if a.ValueDefault? && b.ValueDefault? then
      if cat.IntCat? || cat.NumCat? then a.text == b.text
      else if cat.BoolCat? then MeansTrue(a.text) == MeansTrue(b.text)
      else LowerAll(a.text) == LowerAll(b.text)
    else a == b
  }

  lemma {:induction false} LowerConcat(a: string, b: string)
    ensures LowerAll(a + b) == LowerAll(a) + LowerAll(b)
  {
    if a == [] {
      assert a + b == b;
    } else {
      assert (a + b)[1..] == a[1..] + b;
      LowerConcat(a[1..], b);
    }
  }

  lemma {:induction false} EscapeLower(v: string)
    ensures LowerAll(SqlExport.Escape(false, v)) == SqlExport.Escape(false, LowerAll(v))
  {
    if v != [] {
      var unit := SqlExport.EscapeByte(false, v[0]);
      EscapeLower(v[1..]);
      LowerConcat(unit, SqlExport.Escape(false, v[1..]));
      assert LowerAll(v)[1..] == LowerAll(v[1..]);
      assert LowerAll(unit) == SqlExport.EscapeByte(false, Lower(v[0]));
    }
  }

  lemma QuoteLower(v: string)
    ensures LowerAll(SqlExport.QuoteString(false, v)) == SqlExport.QuoteString(false, LowerAll(v))
  {
    var e := SqlExport.Escape(false, v);
    EscapeLower(v);
    LowerConcat("'" + e, "'");
    LowerConcat("'", e);
    assert LowerAll("'") == "'";
  }

  lemma QuotedSame(v: string, w: string)
    ensures LowerAll(SqlExport.QuoteString(false, v)) == LowerAll(SqlExport.QuoteString(false, w)) <==>
            LowerAll(v) == LowerAll(w)
  {
    QuoteLower(v);
    QuoteLower(w);
    SqlReader.StringRoundTrip(false, LowerAll(v));
    SqlReader.StringRoundTrip(false, LowerAll(w));
  }

  /** The kind of a rendered default, as the first byte of its comparable form shows it. */
  predicate Shows(d: Default, cat: Category, c: char) {
    match d
    case NoDefault => false
    case NullDefault => c == 'n'
    case NowDefault => c == 'c'
    case ValueDefault(v) =>
      if cat.IntCat? || cat.NumCat? then c == '-' || '0' <= c <= '9'
      else if cat.BoolCat? then c == (if MeansTrue(v) then 't' else 'f')
      else c == '\''
  }

  lemma TextShows(d: Default, nullable: bool, cat: Category, stamp: bool)
    requires DefaultText(d, nullable, cat, stamp).Some? && !d.NoDefault?
    ensures var text := DefaultText(d, nullable, cat, stamp).value;
            text != [] && Shows(d, cat, Lower(text[0])) && (d.NullDefault? ==> |text| == 4)
  {
    if d.ValueDefault? && (cat.IntCat? || cat.NumCat?) {
      NumberBytes(d.text);
    }
  }

  lemma KeyFirst(text: string)
    requires text != []
    ensures Canon(LowerAll(text)) != []
    ensures Lower(text[0]) == 'c' ==> Canon(LowerAll(text))[0] == 'c'
    ensures |text| == 4 || Lower(text[0]) !in "ncl" ==> Canon(LowerAll(text)) == LowerAll(text)
  {
    var s := LowerAll(text);
    if |text| == 4 || Lower(text[0]) !in "ncl" {
      assert s[0] != 'n' || |s| == 4;
      CanonKeeps(s);
    }
  }

  lemma KeyShows(d: Default, nullable: bool, cat: Category, stamp: bool)
    requires DefaultText(d, nullable, cat, stamp).Some? && !d.NoDefault?
    ensures var key := Canon(LowerAll(DefaultText(d, nullable, cat, stamp).value));
            key != [] && Shows(d, cat, key[0])
    ensures d.ValueDefault? ==>
            Canon(LowerAll(DefaultText(d, nullable, cat, stamp).value)) == LowerAll(DefaultText(d, nullable, cat, stamp).value)
  {
    TextShows(d, nullable, cat, stamp);
    KeyFirst(DefaultText(d, nullable, cat, stamp).value);
  }

  /** The comparable form of a rendered default: empty for none, else its text in lower case, its kind in the first byte. */
  lemma RenderedKey(d: Default, nullable: bool, cat: Category, stamp: bool) returns (key: string)
    requires RenderDefault(d, nullable, cat, stamp).Some?
    ensures key == NormDefault(RenderDefault(d, nullable, cat, stamp).value)
    ensures key == [] <==> d.NoDefault?
    ensures key != [] ==> Shows(d, cat, key[0])
    ensures d.ValueDefault? ==> key == LowerAll(DefaultText(d, nullable, cat, stamp).value)
  {
    key := NormDefault(RenderDefault(d, nullable, cat, stamp).value);
    if d.NoDefault? {
      NormNothing();
    } else {
      TextFine(d, nullable, cat, stamp);
      NormText(DefaultText(d, nullable, cat, stamp).value);
      KeyShows(d, nullable, cat, stamp);
    }
  }

  /** The planner takes two rendered defaults for equal exactly when they differ in case alone. */
  lemma DefaultsCompare(a: Default, b: Default, nullA: bool, nullB: bool, cat: Category, stamp: bool)
    requires RenderDefault(a, nullA, cat, stamp).Some? && RenderDefault(b, nullB, cat, stamp).Some?
    ensures NormDefault(RenderDefault(a, nullA, cat, stamp).value) == NormDefault(RenderDefault(b, nullB, cat, stamp).value)
            <==> SameDefault(a, b, cat)
  {
    var x := RenderedKey(a, nullA, cat, stamp);
    var y := RenderedKey(b, nullB, cat, stamp);
    if a.ValueDefault? && b.ValueDefault? {
      ValuesCompare(a, b, nullA, nullB, cat, stamp);
    }
  }

  lemma ValuesCompare(a: Default, b: Default, nullA: bool, nullB: bool, cat: Category, stamp: bool)
    requires DefaultText(a, nullA, cat, stamp).Some? && DefaultText(b, nullB, cat, stamp).Some?
    requires a.ValueDefault? && b.ValueDefault?
    ensures LowerAll(DefaultText(a, nullA, cat, stamp).value) == LowerAll(DefaultText(b, nullB, cat, stamp).value)
            <==> SameDefault(a, b, cat)
  {
    if cat.IntCat? || cat.NumCat? {
      NumberBytes(a.text);
      NumberBytes(b.text);
      LowerNumber(a.text);
      LowerNumber(b.text);
    } else if cat.BoolCat? {
      assert LowerAll("TRUE")[0] == 't' && LowerAll("FALSE")[0] == 'f';
    } else {
      QuotedSame(a.text, b.text);
    }
  }

  // ---------------------------------------------------------------- what the catalog shows

  /** A byte that can stand in a cast. */
  predicate CastByte(c: char) {
    c == ':' || c == '(' || c == ')' || CastLetter(c) || ArgumentByte(c)
  }

  lemma {:induction false} ArgumentsEndIs(s: string)
    ensures forall i :: 0 <= i < ArgumentsEnd(s) ==> ArgumentByte(s[i])
  {
    if s != [] && ArgumentByte(s[0]) {
      ArgumentsEndIs(s[1..]);
    }
  }

  lemma CastBytes(s: string)
    ensures forall i :: 0 <= i < CastLength(s) ==> CastByte(s[i])
    ensures CastLength(s) > 0 ==> s[0] == ':'
  {
    if CastLength(s) > 0 {
      var name := LettersEnd(s[2..]);
      LettersEndIs(s[2..]);
      var rest := s[2 + name..];
      if rest != [] {
        ArgumentsEndIs(rest[1..]);
      }
      forall i | 0 <= i < CastLength(s) ensures CastByte(s[i]) {
        if 2 <= i < 2 + name {
          assert s[i] == s[2..][i - 2];
        } else if i > 2 + name && i < CastLength(s) - 1 {
          assert s[i] == rest[1..][i - 3 - name];
        }
      }
    }
  }

  lemma {:induction false} AllCastBytes(s: string)
    requires AllCasts(s)
    ensures s[0] == ':' && forall i :: 0 <= i < |s| ==> CastByte(s[i])
    decreases |s|
  {
    var n := CastLength(s);
    CastBytes(s);
    if n != |s| {
      AllCastBytes(s[n..]);
      forall i | n <= i < |s| ensures CastByte(s[i]) {
        assert s[i] == s[n..][i - n];
      }
    }
  }

  /** Text no part of which can be taken for the start of the casts behind it. */
  predicate Closed(x: string) {
    x != [] && (':' !in x || !CastByte(x[|x| - 1]))
  }

  /** Casts as the catalog writes them behind a default, or none. */
  predicate Casts(c: string) {
    c == "" || (AllCasts(c) && c[|c| - 1] != ' ')
  }

  lemma NotCasts(x: string, c: string, i: nat)
    requires Closed(x) && i < |x|
    ensures !AllCasts(x[i..] + c)
  {
    var s := x[i..] + c;
    if AllCasts(s) {
      AllCastBytes(s);
      AtEnds(x, c, i);
    }
  }

  lemma AtEnds(x: string, c: string, i: nat)
    requires i < |x|
    ensures var s := x[i..] + c;
            s[0] == x[i] && x[i] in x && s[|x| - 1 - i] == x[|x| - 1] && |s| > |x| - 1 - i
  {
  }

  /** The casts behind a text are stripped, and nothing else. */
  lemma {:induction false} CastsStripped(x: string, c: string, i: nat)
    requires Closed(x) && (c == "" || AllCasts(c)) && i <= |x|
    ensures WithoutCasts(x[i..] + c) == x[i..]
    decreases |x| - i
  {
    var s := x[i..] + c;
    if i == |x| {
      assert s == c;
    } else {
      NotCasts(x, c, i);
      assert s[0] == x[i] && s[1..] == x[i + 1..] + c;
      CastsStripped(x, c, i + 1);
      assert [x[i]] + x[i + 1..] == x[i..];
    }
  }

  /** What the catalog shows of a text compares like the text itself, whatever casts it appends. */
  lemma NormShown(x: string, c: string)
    requires Visible(x) && x[0] != 'D' && Closed(x) && Casts(c)
    ensures NormDefault(x + c) == Canon(LowerAll(x))
  {
    var s := x + c;
    ShownVisible(x, c);
    TrimVisible(s);
    assert s[0] == x[0] && DEFAULT_WORD[0] == 'D';
    assert TrimPrefix(s, DEFAULT_WORD) == s;
    CastsStripped(x, c, 0);
    assert x[0..] == x;
    TrimVisible(x);
  }

  lemma ShownVisible(x: string, c: string)
    requires Visible(x) && Casts(c)
    ensures Visible(x + c)
  {
    if c != "" {
      AllCastBytes(c);
      CastByteSolid(c[|c| - 1]);
    }
  }

  lemma CastByteSolid(c: char)
    requires CastByte(c) && c != ' '
    ensures Solid(c)
  {
  }

  /**
   * The texts the server may show for a default it was given: the text itself, for words its
   * lower-case form, for the current time also now(), each with casts behind it.
   */
  ghost predicate ShownAs(d: Default, cat: Category, text: string, shown: string) {
    exists y, c :: Casts(c) && shown == y + c && Synonym(d, cat, text, y)
  }

  predicate Synonym(d: Default, cat: Category, text: string, y: string) {
    || y == text
    || (y == LowerAll(text) && (d.NullDefault? || d.NowDefault? || (d.ValueDefault? && cat.BoolCat?)))
    || (d.NowDefault? && (y == "now()" || y == "LOCALTIMESTAMP"))
  }

  /** Whatever the server shows of a rendered default compares equal to the rendered clause. */
  lemma ShownCompares(d: Default, nullable: bool, cat: Category, stamp: bool, shown: string)
    requires RenderDefault(d, nullable, cat, stamp).Some? && !d.NoDefault?
    requires ShownAs(d, cat, DefaultText(d, nullable, cat, stamp).value, shown)
    ensures NormDefault(shown) == NormDefault(RenderDefault(d, nullable, cat, stamp).value)
  {
    var text := DefaultText(d, nullable, cat, stamp).value;
    var y, c :| Casts(c) && shown == y + c && Synonym(d, cat, text, y);
    TextFine(d, nullable, cat, stamp);
    NormText(text);
    SynonymFine(d, nullable, cat, stamp, y);
    NormShown(y, c);
  }

  lemma SynonymFine(d: Default, nullable: bool, cat: Category, stamp: bool, y: string)
    requires DefaultText(d, nullable, cat, stamp).Some? && !d.NoDefault?
    requires Synonym(d, cat, DefaultText(d, nullable, cat, stamp).value, y)
    ensures Visible(y) && y[0] != 'D' && Closed(y)
    ensures Canon(LowerAll(y)) == Canon(LowerAll(DefaultText(d, nullable, cat, stamp).value))
  {
    var text := DefaultText(d, nullable, cat, stamp).value;
    TextClosed(d, nullable, cat, stamp);
    if y == LowerAll(text) && y != text {
      LowerStays(text);
      LowerTwice(text);
    } else if y != text {
      NowWord(y);
      NowText();
      NoColonClosed(y);
    }
  }

  predicate NoColon(x: string) {
    x != [] && forall i :: 0 <= i < |x| ==> x[i] != ':'
  }

  lemma NoColonClosed(x: string)
    requires NoColon(x)
    ensures Closed(x) && NoColon(LowerAll(x))
  {
  }

  lemma WordsNoColon()
    ensures NoColon("NULL") && NoColon("TRUE") && NoColon("FALSE") && NoColon("CURRENT_TIMESTAMP")
  {
  }

  lemma TextClosed(d: Default, nullable: bool, cat: Category, stamp: bool)
    requires DefaultText(d, nullable, cat, stamp).Some? && !d.NoDefault?
    ensures var text := DefaultText(d, nullable, cat, stamp).value;
            && Visible(text) && text[0] != 'D' && Closed(text)
            && (d.NullDefault? || d.NowDefault? || cat.BoolCat? ==> NoColon(text))
  {
    var text := DefaultText(d, nullable, cat, stamp).value;
    TextFine(d, nullable, cat, stamp);
    if d.ValueDefault? && (cat.IntCat? || cat.NumCat?) {
      NumberBytes(text);
      NoColonClosed(text);
    } else if d.ValueDefault? && !cat.BoolCat? {
      QuotedClosed(d.text);
    } else {
      WordsNoColon();
      NoColonClosed(text);
    }
  }

  lemma QuotedClosed(v: string)
    ensures var q := SqlExport.QuoteString(false, v); q[0] == '\'' && q[|q| - 1] == '\'' && Closed(q)
  {
  }

  lemma LowerStays(x: string)
    requires Visible(x) && x[0] != 'D' && NoColon(x)
    ensures Visible(LowerAll(x)) && LowerAll(x)[0] != 'D' && Closed(LowerAll(x))
  {
    NoColonClosed(x);
    NoColonClosed(LowerAll(x));
    SolidLower(x[0]);
    SolidLower(x[|x| - 1]);
  }

  lemma SolidLower(c: char)
    requires Solid(c)
    ensures Solid(Lower(c)) && Lower(c) != 'D'
  {
  }

  lemma LowerTwice(x: string)
    ensures LowerAll(LowerAll(x)) == LowerAll(x)
  {
    LowerIs(LowerAll(x), LowerAll(x));
  }

  lemma LowerIs(s: string, t: string)
    requires |s| == |t| && forall i :: 0 <= i < |s| ==> Lower(s[i]) == t[i]
    ensures LowerAll(s) == t
  {
  }

  lemma NowWord(y: string)
    requires y == "now()" || y == "LOCALTIMESTAMP"
    ensures Visible(y) && y[0] != 'D' && NoColon(y) && Canon(LowerAll(y)) == "current_timestamp"
  {
    NowEnds(y);
    NowCanon(y);
  }

  lemma NowEnds(y: string)
    requires y == "now()" || y == "LOCALTIMESTAMP"
    ensures Visible(y) && y[0] != 'D' && NoColon(y)
  {
  }

  lemma NowCanon(y: string)
    requires y == "now()" || y == "LOCALTIMESTAMP"
    ensures Canon(LowerAll(y)) == "current_timestamp"
  {
    if |y| == 5 {
      LowerIs(y, "now()");
    } else {
      LocalIs(y);
    }
  }

  lemma LocalIs(y: string)
    requires y == "LOCALTIMESTAMP"
    ensures LowerAll(y) == "localtimestamp"
  {
    LowerIs(y, "localtimestamp");
  }

  lemma NowText()
    ensures Canon(LowerAll("CURRENT_TIMESTAMP")) == "current_timestamp"
  {
    LowerIs("CURRENT_TIMESTAMP", "current_timestamp");
  }
}
