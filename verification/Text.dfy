/** Byte strings the way the panel's Go code sees them: one char stands for one byte. */
module Text {

  datatype Option<T> = None | Some(value: T)

  datatype List<T> = Nil | Cons(head: T, tail: List<T>)

  type Byte = b: int | 0 <= b < 256 witness 0

  /** The white-space code points whose UTF-8 encoding has one, two and three bytes. */
  predicate IsSpace(c: char) {
    c == ' ' || '\t' <= c <= '\r'
  }

  predicate IsSpaceOf2(a: char, b: char) {
    a == '\U{C2}' && (b == '\U{85}' || b == '\U{A0}')
  }

  predicate IsSpaceOf3(a: char, b: char, c: char) {
    || (a == '\U{E1}' && b == '\U{9A}' && c == '\U{80}')
    || (a == '\U{E3}' && b == '\U{80}' && c == '\U{80}')
    || (a == '\U{E2}' && b == '\U{81}' && c == '\U{9F}')
    || (a == '\U{E2}' && b == '\U{80}' &&
        ('\U{80}' <= c <= '\U{8A}' || c == '\U{A8}' || c == '\U{A9}' || c == '\U{AF}'))
  }

  /** Length of the white-space code point s starts with, 0 if there is none. */
  function SpaceAt(s: string): (n: nat)
    ensures n <= |s|
  {
    if |s| >= 1 && IsSpace(s[0]) then 1
    else if |s| >= 2 && IsSpaceOf2(s[0], s[1]) then 2
    else if |s| >= 3 && IsSpaceOf3(s[0], s[1], s[2]) then 3
    else 0
  }

  /** Length of the white-space code point s ends with, 0 if there is none. */
  function SpaceEnd(s: string): (n: nat)
    ensures n <= |s|
  {
    var n := |s|;
    if n >= 1 && IsSpace(s[n - 1]) then 1
    else if n >= 2 && IsSpaceOf2(s[n - 2], s[n - 1]) then 2
    else if n >= 3 && IsSpaceOf3(s[n - 3], s[n - 2], s[n - 1]) then 3
    else 0
  }

  function TrimLeft(s: string): string {
    if SpaceAt(s) == 0 then s else TrimLeft(s[SpaceAt(s)..])
  }

  function TrimRight(s: string): string {
    if SpaceEnd(s) == 0 then s else TrimRight(s[..|s| - SpaceEnd(s)])
  }

  function TrimSpace(s: string): string {
    TrimRight(TrimLeft(s))
  }

  /** Text with no white space on either side is its own trimming. */
  predicate Trimmed(s: string) {
    SpaceAt(s) == 0 && SpaceEnd(s) == 0
  }

  lemma TrimmedIsTrim(s: string)
    requires Trimmed(s)
    ensures TrimSpace(s) == s
  {
  }

  lemma {:induction false} TrimLeftStarts(s: string)
    ensures SpaceAt(TrimLeft(s)) == 0
  {
    if SpaceAt(s) != 0 {
      TrimLeftStarts(s[SpaceAt(s)..]);
    }
  }

  lemma {:induction false} TrimRightIsPrefix(s: string)
    ensures TrimRight(s) <= s
  {
    if SpaceEnd(s) != 0 {
      TrimRightIsPrefix(s[..|s| - SpaceEnd(s)]);
    }
  }

  /** Trimmed text does not begin with ASCII white space. */
  lemma TrimStarts(s: string)
    requires TrimSpace(s) != ""
    ensures !IsSpace(TrimSpace(s)[0])
  {
    TrimLeftStarts(s);
    TrimRightIsPrefix(TrimLeft(s));
  }

  function Lower(c: char): char {
    if 'A' <= c <= 'Z' then c + 32 as char else c
  }

  /** s is word, up to ASCII case; word is in lower case. */
  predicate EqualFold(s: string, word: string) {
    |s| == |word| && forall i :: 0 <= i < |s| ==> Lower(s[i]) == word[i]
  }

  /** The strings joined by a separator. */
  function Join(parts: seq<string>, sep: string): string {
    if |parts| == 0 then ""
    else if |parts| == 1 then parts[0]
    else parts[0] + sep + Join(parts[1..], sep)
  }

  function Concat<T>(parts: seq<seq<T>>): seq<T> {
    if |parts| == 0 then [] else parts[0] + Concat(parts[1..])
  }

  /** A number in decimal. */
  function Decimal(n: nat): (s: string)
    ensures s != [] && forall i :: 0 <= i < |s| ==> '0' <= s[i] <= '9'
  {
    if n < 10 then ['0' + n as char] else Decimal(n / 10) + ['0' + (n % 10) as char]
  }

  datatype Parsed<T> = Failed | Parsed(value: T, rest: string)

  /** Digits from the left, as far as they go. */
  function ReadDigits(s: string, n: nat): (r: Parsed<nat>)
    ensures r.Parsed?
  {
    if s != [] && '0' <= s[0] <= '9' then ReadDigits(s[1..], 10 * n + (s[0] - '0') as nat)
    else Parsed(n, s)
  }

  lemma {:induction false} DigitsRead(n: nat, rest: string)
    ensures ReadDigits(Decimal(n) + rest, 0) == ReadDigits(rest, n)
    decreases n
  {
    var digit := ['0' + (n % 10) as char];
    assert (digit + rest)[1..] == rest;
    if n >= 10 {
      Assoc(Decimal(n / 10), digit, rest);
      DigitsRead(n / 10, digit + rest);
    }
  }

  lemma DecimalIsUnique(m: nat, n: nat)
    requires Decimal(m) == Decimal(n)
    ensures m == n
  {
    DigitsRead(m, "");
    DigitsRead(n, "");
    assert Decimal(m) + "" == Decimal(n) + "";
  }

  function IntText(n: int): string {
    if n < 0 then "-" + Decimal(-n) else Decimal(n)
  }

  lemma IntTextIs(m: int, n: int)
    ensures ':' !in IntText(m) && ';' !in IntText(m) && '/' !in IntText(m)
    ensures IntText(m) == IntText(n) ==> m == n
  {
    var a, b := Decimal(if m < 0 then -m else m), Decimal(if n < 0 then -n else n);
    if IntText(m) == IntText(n) {
      assert a[0] != '-' && b[0] != '-';
      assert (m < 0) == (n < 0);
      assert m < 0 ==> IntText(m)[1..] == a && IntText(n)[1..] == b;
      DecimalIsUnique(if m < 0 then -m else m, if n < 0 then -n else n);
    }
  }

  function TrimPrefix(s: string, word: string): string {
    if word <= s then s[|word|..] else s
  }

  /** An ASCII byte that is not white space. */
  predicate Solid(c: char) {
    c < '\U{80}' && !IsSpace(c)
  }

  lemma SolidStart(s: string)
    requires s != [] && Solid(s[0])
    ensures SpaceAt(s) == 0
  {
  }

  lemma SolidEnd(s: string)
    requires s != [] && Solid(s[|s| - 1])
    ensures SpaceEnd(s) == 0
  {
  }

  lemma TrimNewline(s: string)
    ensures TrimLeft("\n" + s) == TrimLeft(s)
  {
    var t := "\n" + s;
    assert t[0] == '\n' && t[1..] == s;
  }

  lemma SolidEnds(s: string)
    requires s != [] && Solid(s[0]) && Solid(s[|s| - 1])
    ensures TrimSpace(s) == s && TrimSpace("\n" + s) == s
  {
    SolidStart(s);
    SolidEnd(s);
    TrimNewline(s);
  }

  lemma Assoc<T>(a: seq<T>, b: seq<T>, c: seq<T>)
    ensures a + (b + c) == (a + b) + c
  {
  }
}
