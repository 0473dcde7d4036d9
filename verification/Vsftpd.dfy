/** Rewriting the vsftpd configuration so that given directives hold, and the roll-back around it. */
module Vsftpd {
  import opened Text

  /** How vsftpd's configuration sees one line. */
  datatype Line = Blank | Other | Setting(key: string, value: string)

  /** Kept as a parameter of everything that does not look inside a line. */
  type Reader = string -> Line

  /** Position of the first '=' in t, |t| if there is none. */
  function EqualsAt(t: string): (i: nat)
    ensures i <= |t|
  {
    if t == [] || t[0] == '=' then 0 else 1 + EqualsAt(t[1..])
  }

  function ReadLine(line: string): Line {
    var t := TrimSpace(line);
    if t == "" then Blank
    else if t[0] == '#' then Other
    else
      var i := EqualsAt(t);
      if i == |t| then Other else Setting(TrimSpace(t[..i]), TrimSpace(t[i + 1..]))
  }

  // ---------------------------------------------------------------- lines of a file

  function SplitLines(s: string): (r: seq<string>)
    ensures r != []
  {
    if s == [] then [""]
    else
      var rest := SplitLines(s[1..]);
      if s[0] == '\n' then [""] + rest else [[s[0]] + rest[0]] + rest[1..]
  }

  predicate OneLine(s: string) {
    '\n' !in s
  }

  /** The bytes of a file with these lines, each ended by a line break. */
  function FileOf(lines: seq<string>): string {
    Join(lines, "\n") + "\n"
  }

  lemma {:induction false} SplitFirst(line: string, rest: string)
    requires OneLine(line)
    ensures SplitLines(line + "\n" + rest) == [line] + SplitLines(rest)
  {
    if line == [] {
      assert (line + "\n" + rest)[1..] == rest;
    } else {
      assert (line + "\n" + rest)[1..] == line[1..] + "\n" + rest;
      SplitFirst(line[1..], rest);
      assert [line[0]] + line[1..] == line;
    }
  }

  lemma {:induction false} SplitFile(lines: seq<string>)
    requires lines != [] && forall l :: l in lines ==> OneLine(l)
    ensures SplitLines(FileOf(lines)) == lines + [""]
  {
    assert lines[0] in lines;
    if |lines| == 1 {
      SplitFirst(lines[0], "");
      assert FileOf(lines) == lines[0] + "\n" + "";
      assert lines + [""] == [lines[0]] + [""];
    } else {
      SplitFile(lines[1..]);
      assert FileOf(lines) == lines[0] + "\n" + FileOf(lines[1..]);
      SplitFirst(lines[0], FileOf(lines[1..]));
      assert lines + [""] == [lines[0]] + (lines[1..] + [""]);
    }
  }

  lemma {:induction false} SplitOneLine(s: string)
    ensures forall l :: l in SplitLines(s) ==> OneLine(l)
  {
    if s != [] {
      SplitOneLine(s[1..]);
      var rest := SplitLines(s[1..]);
      assert rest[0] in rest;
    }
  }

  // ---------------------------------------------------------------- what a file says

  /** The values a key is given, in order. */
  function Active(read: Reader, lines: seq<string>, key: string): seq<string> {
    if lines == [] then []
    else
      var l := read(lines[0]);
      (if l.Setting? && l.key == key then [l.value] else []) + Active(read, lines[1..], key)
  }

  /** The lines that set none of these keys, in order. */
  function Rest(read: Reader, lines: seq<string>, keys: set<string>): seq<string> {
    if lines == [] then []
    else
      var l := read(lines[0]);
      (if l.Setting? && l.key in keys then [] else [lines[0]]) + Rest(read, lines[1..], keys)
  }

  function DropBlanks(read: Reader, lines: seq<string>): seq<string> {
    if lines != [] && read(lines[|lines| - 1]).Blank? then DropBlanks(read, lines[..|lines| - 1]) else lines
  }

  /** The file sets each wanted key once, to the wanted value. */
  ghost predicate Holds(read: Reader, lines: seq<string>, want: seq<(string, string)>) {
    forall kv :: kv in want ==> Active(read, lines, kv.0) == [kv.1]
  }

  lemma {:induction false} ActiveConcat(read: Reader, a: seq<string>, b: seq<string>, key: string)
    ensures Active(read, a + b, key) == Active(read, a, key) + Active(read, b, key)
  {
    if a == [] {
      assert a + b == b;
    } else {
      assert (a + b)[1..] == a[1..] + b;
      ActiveConcat(read, a[1..], b, key);
    }
  }

  lemma {:induction false} RestConcat(read: Reader, a: seq<string>, b: seq<string>, keys: set<string>)
    ensures Rest(read, a + b, keys) == Rest(read, a, keys) + Rest(read, b, keys)
  {
    if a == [] {
      assert a + b == b;
    } else {
      assert (a + b)[1..] == a[1..] + b;
      RestConcat(read, a[1..], b, keys);
    }
  }

  lemma {:induction false} DropKeepsActive(read: Reader, lines: seq<string>, key: string)
    ensures Active(read, DropBlanks(read, lines), key) == Active(read, lines, key)
  {
    if lines != [] && read(lines[|lines| - 1]).Blank? {
      var before, last := lines[..|lines| - 1], lines[|lines| - 1];
      DropKeepsActive(read, before, key);
      ActiveConcat(read, before, [last], key);
      assert before + [last] == lines;
    }
  }

  lemma {:induction false} DropKeepsRest(read: Reader, lines: seq<string>, keys: set<string>)
    ensures DropBlanks(read, Rest(read, DropBlanks(read, lines), keys)) == DropBlanks(read, Rest(read, lines, keys))
  {
    if lines != [] && read(lines[|lines| - 1]).Blank? {
      var before, last := lines[..|lines| - 1], lines[|lines| - 1];
      DropKeepsRest(read, before, keys);
      RestConcat(read, before, [last], keys);
      assert before + [last] == lines;
      assert [last][1..] == [];
      BlankLast(read, Rest(read, before, keys), last);
    }
  }

  lemma BlankLast(read: Reader, lines: seq<string>, last: string)
    requires read(last).Blank?
    ensures DropBlanks(read, lines + [last]) == DropBlanks(read, lines)
  {
    assert (lines + [last])[..|lines|] == lines;
  }

  // ---------------------------------------------------------------- the rewriting, as a function

  /** The lines after the loop: first settings corrected, later ones dropped, others kept. */
  function Kept(read: Reader, lines: seq<string>, want: map<string, string>, seen: set<string>): seq<string> {
    if lines == [] then []
    else
      var l, rest := read(lines[0]), lines[1..];
      if l.Setting? && l.key in want then
        if l.key in seen then Kept(read, rest, want, seen)
        else
          [if l.value != want[l.key] then l.key + "=" + want[l.key] else lines[0]]
          + Kept(read, rest, want, seen + {l.key})
      else [lines[0]] + Kept(read, rest, want, seen)
  }

  /** The loop saw a duplicate or a wrong value. */
  predicate Dirty(read: Reader, lines: seq<string>, want: map<string, string>, seen: set<string>) {
    if lines == [] then false
    else
      var l, rest := read(lines[0]), lines[1..];
      if l.Setting? && l.key in want then
        l.key in seen || l.value != want[l.key] || Dirty(read, rest, want, seen + {l.key})
      else Dirty(read, rest, want, seen)
  }

  function Seen(read: Reader, lines: seq<string>, want: map<string, string>): set<string> {
    if lines == [] then {}
    else
      var l := read(lines[0]);
      (if l.Setting? && l.key in want then {l.key} else {}) + Seen(read, lines[1..], want)
  }

  /** The directives whose key was not seen, as lines. */
  function Missing(want: seq<(string, string)>, seen: set<string>): seq<string> {
    if want == [] then []
    else (if want[0].0 in seen then [] else [want[0].0 + "=" + want[0].1]) + Missing(want[1..], seen)
  }

  function Wanted(want: seq<(string, string)>): (r: map<string, string>)
    ensures r.Keys == set kv | kv in want :: kv.0
  {
    if want == [] then map[]
    else
      assert want == want[..|want| - 1] + [want[|want| - 1]];
      Wanted(want[..|want| - 1])[want[|want| - 1].0 := want[|want| - 1].1]
  }

  function Rewritten(read: Reader, lines: seq<string>, want: seq<(string, string)>): seq<string> {
    DropBlanks(read, Kept(read, lines, Wanted(want), {})) + Missing(want, Seen(read, lines, Wanted(want)))
  }

  predicate Changed(read: Reader, lines: seq<string>, want: seq<(string, string)>) {
    Dirty(read, lines, Wanted(want), {}) || Missing(want, Seen(read, lines, Wanted(want))) != []
  }

  // ---------------------------------------------------------------- what the rewriting means

  ghost predicate Distinct(want: seq<(string, string)>) {
    forall i, j :: 0 <= i < j < |want| ==> want[i].0 != want[j].0
  }

  /** A directive, once written, is read as itself. */
  predicate Writes(read: Reader, key: string, value: string) {
    read(key + "=" + value) == Setting(key, value) && OneLine(key + "=" + value)
  }

  ghost predicate AllWrite(read: Reader, want: map<string, string>) {
    forall k :: k in want ==> Writes(read, k, want[k])
  }

  lemma {:induction false} WantedIs(want: seq<(string, string)>, kv: (string, string))
    requires Distinct(want) && kv in want
    ensures Wanted(want)[kv.0] == kv.1
  {
    var before, last := want[..|want| - 1], want[|want| - 1];
    if kv != last {
      assert kv in before;
      var i :| 0 <= i < |before| && before[i] == kv;
      assert want[i] == kv;
      WantedIs(before, kv);
    }
  }

  lemma {:induction false} SeenIff(read: Reader, lines: seq<string>, want: map<string, string>, k: string)
    ensures k in Seen(read, lines, want) <==> k in want && Active(read, lines, k) != []
  {
    if lines != [] {
      SeenIff(read, lines[1..], want, k);
    }
  }

  lemma {:induction false} KeptActive(read: Reader, lines: seq<string>, want: map<string, string>,
                                      seen: set<string>, k: string)
    requires AllWrite(read, want) && k in want
    ensures Active(read, Kept(read, lines, want, seen), k) ==
            if k in seen || k !in Seen(read, lines, want) then [] else [want[k]]
  {
    if lines != [] {
      var l, rest := read(lines[0]), lines[1..];
      if l.Setting? && l.key in want {
        assert Writes(read, l.key, want[l.key]);
        KeptActive(read, rest, want, if l.key in seen then seen else seen + {l.key}, k);
      } else {
        KeptActive(read, rest, want, seen, k);
      }
    }
  }

  lemma {:induction false} KeptRest(read: Reader, lines: seq<string>, want: map<string, string>, seen: set<string>)
    requires AllWrite(read, want)
    ensures Rest(read, Kept(read, lines, want, seen), want.Keys) == Rest(read, lines, want.Keys)
  {
    if lines != [] {
      var l, rest := read(lines[0]), lines[1..];
      if l.Setting? && l.key in want {
        assert Writes(read, l.key, want[l.key]);
        KeptRest(read, rest, want, if l.key in seen then seen else seen + {l.key});
      } else {
        KeptRest(read, rest, want, seen);
      }
    }
  }

  lemma {:induction false} KeptOneLine(read: Reader, lines: seq<string>, want: map<string, string>, seen: set<string>)
    requires AllWrite(read, want) && forall l :: l in lines ==> OneLine(l)
    ensures forall l :: l in Kept(read, lines, want, seen) ==> OneLine(l)
  {
    if lines != [] {
      var l, rest := read(lines[0]), lines[1..];
      assert OneLine(lines[0]);
      assert forall x :: x in rest ==> x in lines;
      if l.Setting? && l.key in want {
        assert Writes(read, l.key, want[l.key]);
        KeptOneLine(read, rest, want, if l.key in seen then seen else seen + {l.key});
      } else {
        KeptOneLine(read, rest, want, seen);
      }
    }
  }

  /** A key already seen is not set again, any other at most once and to its value. */
  ghost predicate CleanFor(read: Reader, lines: seq<string>, want: map<string, string>, seen: set<string>, k: string)
    requires k in want
  {
    var values := Active(read, lines, k);
    values == [] || (k !in seen && values == [want[k]])
  }

  lemma {:induction false} DirtyIff(read: Reader, lines: seq<string>, want: map<string, string>, seen: set<string>)
    ensures !Dirty(read, lines, want, seen) <==> forall k :: k in want ==> CleanFor(read, lines, want, seen, k)
  {
    if lines != [] {
      var l, rest := read(lines[0]), lines[1..];
      if l.Setting? && l.key in want {
        DirtyIff(read, rest, want, seen + {l.key});
        DirtyHead(read, lines, want, seen);
      } else {
        DirtyIff(read, rest, want, seen);
        forall k | k in want
          ensures CleanFor(read, lines, want, seen, k) <==> CleanFor(read, rest, want, seen, k)
        {
          assert Active(read, lines, k) == [] + Active(read, rest, k);
        }
      }
    }
  }

  lemma DirtyHead(read: Reader, lines: seq<string>, want: map<string, string>, seen: set<string>)
    requires lines != [] && read(lines[0]).Setting? && read(lines[0]).key in want
    ensures (forall k :: k in want ==> CleanFor(read, lines, want, seen, k)) <==>
            && read(lines[0]).key !in seen && read(lines[0]).value == want[read(lines[0]).key]
            && (forall k :: k in want ==> CleanFor(read, lines[1..], want, seen + {read(lines[0]).key}, k))
  {
    var l, rest := read(lines[0]), lines[1..];
    var ok := l.key !in seen && l.value == want[l.key];
    assert Active(read, lines, l.key) == [l.value] + Active(read, rest, l.key);
    OneValue(l.value, Active(read, rest, l.key), want[l.key]);
    assert CleanFor(read, lines, want, seen, l.key) <==> ok && CleanFor(read, rest, want, seen + {l.key}, l.key);
    forall k | k in want && k != l.key
      ensures CleanFor(read, lines, want, seen, k) <==> CleanFor(read, rest, want, seen + {l.key}, k)
    {
      assert Active(read, lines, k) == [] + Active(read, rest, k);
    }
  }

  lemma OneValue(v: string, more: seq<string>, w: string)
    ensures [v] + more == [w] <==> v == w && more == []
  {
    if [v] + more == [w] {
      assert ([v] + more)[0] == v && |[v] + more| == 1;
    }
  }

  lemma {:induction false} MissingIff(want: seq<(string, string)>, seen: set<string>)
    ensures Missing(want, seen) == [] <==> forall kv :: kv in want ==> kv.0 in seen
  {
    if want != [] {
      MissingIff(want[1..], seen);
      assert want == [want[0]] + want[1..];
    }
  }

  lemma {:induction false} MissingActive(read: Reader, want: seq<(string, string)>, seen: set<string>, kv: (string, string))
    requires Distinct(want) && forall w :: w in want ==> Writes(read, w.0, w.1)
    ensures (forall w :: w in want ==> w.0 != kv.0) ==> Active(read, Missing(want, seen), kv.0) == []
    ensures kv in want ==> Active(read, Missing(want, seen), kv.0) == if kv.0 in seen then [] else [kv.1]
  {
    if want != [] {
      var w, rest := want[0], want[1..];
      assert want == [w] + rest;
      assert Writes(read, w.0, w.1);
      MissingActive(read, rest, seen, kv);
      assert ([w.0 + "=" + w.1] + Missing(rest, seen))[1..] == Missing(rest, seen);
      assert Missing(want, seen) == if w.0 in seen then Missing(rest, seen) else [w.0 + "=" + w.1] + Missing(rest, seen);
      if w.0 == kv.0 {
        forall x | x in rest ensures x.0 != kv.0 {
          var i :| 0 <= i < |rest| && rest[i] == x;
          assert want[i + 1] == x;
        }
      }
    }
  }

  lemma {:induction false} MissingRest(read: Reader, want: seq<(string, string)>, seen: set<string>, keys: set<string>)
    requires forall w :: w in want ==> Writes(read, w.0, w.1) && w.0 in keys && OneLine(w.0 + "=" + w.1)
    ensures Rest(read, Missing(want, seen), keys) == []
    ensures forall l :: l in Missing(want, seen) ==> OneLine(l)
  {
    if want != [] {
      var w := want[0];
      assert w in want;
      assert forall x :: x in want[1..] ==> x in want;
      MissingRest(read, want[1..], seen, keys);
      var rest := Missing(want[1..], seen);
      assert ([w.0 + "=" + w.1] + rest)[1..] == rest;
      assert Missing(want, seen) == if w.0 in seen then rest else [w.0 + "=" + w.1] + rest;
    }
  }

  /** No change is reported exactly when every wanted directive already holds. */
  lemma NoChangeIff(read: Reader, lines: seq<string>, want: seq<(string, string)>)
    requires Distinct(want)
    ensures !Changed(read, lines, want) <==> Holds(read, lines, want)
  {
    var m := Wanted(want);
    DirtyIff(read, lines, m, {});
    MissingIff(want, Seen(read, lines, m));
    forall kv | kv in want
      ensures m[kv.0] == kv.1
      ensures kv.0 in Seen(read, lines, m) <==> Active(read, lines, kv.0) != []
    {
      WantedIs(want, kv);
      SeenIff(read, lines, m, kv.0);
    }
    if Holds(read, lines, want) {
      forall k | k in m ensures CleanFor(read, lines, m, {}, k) {
        var kv :| kv in want && kv.0 == k;
      }
    }
    if !Changed(read, lines, want) {
      forall kv | kv in want ensures Active(read, lines, kv.0) == [kv.1] {
        assert CleanFor(read, lines, m, {}, kv.0);
      }
    }
  }

  lemma RewrittenActive(read: Reader, lines: seq<string>, want: seq<(string, string)>, kv: (string, string))
    requires Distinct(want) && kv in want && forall w :: w in want ==> Writes(read, w.0, w.1)
    requires read("").Blank?
    ensures Active(read, Rewritten(read, lines, want) + [""], kv.0) == [kv.1]
  {
    var m := Wanted(want);
    var kept, missing := Kept(read, lines, m, {}), Missing(want, Seen(read, lines, m));
    AllWanted(read, want);
    WantedIs(want, kv);
    KeptActive(read, lines, m, {}, kv.0);
    DropKeepsActive(read, kept, kv.0);
    MissingActive(read, want, Seen(read, lines, m), kv);
    ActiveParts(read, DropBlanks(read, kept), missing, kv.0);
  }

  lemma ActiveParts(read: Reader, a: seq<string>, b: seq<string>, key: string)
    requires read("").Blank?
    ensures Active(read, a + b + [""], key) == Active(read, a, key) + Active(read, b, key)
  {
    ActiveConcat(read, a, b, key);
    ActiveConcat(read, a + b, [""], key);
    assert [""][1..] == [];
  }

  /** After the rewriting every wanted directive holds and the other lines are as they were. */
  lemma RewrittenHolds(read: Reader, lines: seq<string>, want: seq<(string, string)>)
    requires Distinct(want) && forall w :: w in want ==> Writes(read, w.0, w.1)
    requires read("").Blank?
    ensures var after := Rewritten(read, lines, want) + [""];
            var keys := Wanted(want).Keys;
            && Holds(read, after, want)
            && DropBlanks(read, Rest(read, after, keys)) == DropBlanks(read, Rest(read, lines, keys))
  {
    var m := Wanted(want);
    var kept, missing := Kept(read, lines, m, {}), Missing(want, Seen(read, lines, m));
    var after := Rewritten(read, lines, want) + [""];
    AllWanted(read, want);
    forall kv | kv in want ensures Active(read, after, kv.0) == [kv.1] {
      RewrittenActive(read, lines, want, kv);
    }
    KeptRest(read, lines, m, {});
    DropKeepsRest(read, kept, m.Keys);
    MissingRest(read, want, Seen(read, lines, m), m.Keys);
    RestConcat(read, DropBlanks(read, kept), missing, m.Keys);
    RestConcat(read, Rewritten(read, lines, want), [""], m.Keys);
    var rest := Rest(read, DropBlanks(read, kept), m.Keys);
    assert rest + [] == rest;
    assert [""][1..] == [];
    assert Rest(read, [""], m.Keys) == [""];
    BlankLast(read, rest, "");
  }

  lemma AllWanted(read: Reader, want: seq<(string, string)>)
    requires Distinct(want) && forall w :: w in want ==> Writes(read, w.0, w.1)
    ensures AllWrite(read, Wanted(want))
  {
    forall k | k in Wanted(want) ensures Writes(read, k, Wanted(want)[k]) {
      var kv :| kv in want && kv.0 == k;
      WantedIs(want, kv);
    }
  }

  // ---------------------------------------------------------------- lines as bytes

  /** A directive whose text cannot be taken apart differently. */
  predicate Proper(key: string, value: string) {
    && Trimmed(key) && Trimmed(value) && OneLine(key) && OneLine(value)
    && '=' !in key && !("#" <= key)
  }

  lemma HeadAround(key: string, rest: string)
    requires SpaceAt(key) == 0 && rest != [] && rest[0] == '='
    ensures SpaceAt(key + rest) == 0
  {
  }

  lemma TailAround(front: string, value: string)
    requires SpaceEnd(value) == 0 && front != [] && front[|front| - 1] == '='
    ensures SpaceEnd(front + value) == 0
  {
  }

  /** A trimmed key and a trimmed value around '=' are trimmed together. */
  lemma TrimAround(key: string, value: string)
    requires SpaceAt(key) == 0 && SpaceEnd(value) == 0
    ensures TrimSpace(key + "=" + value) == key + "=" + value
  {
    var t := key + "=" + value;
    HeadAround(key, "=" + value);
    TailAround(key + "=", value);
    assert t == key + ("=" + value);
    TrimmedIsTrim(t);
  }

  lemma {:induction false} EqualsFound(key: string, value: string)
    requires '=' !in key
    ensures EqualsAt(key + "=" + value) == |key|
  {
    var t := key + "=" + value;
    if key != [] {
      assert t[1..] == key[1..] + "=" + value;
      EqualsFound(key[1..], value);
    }
  }

  lemma ProperWrites(key: string, value: string)
    requires Proper(key, value)
    ensures Writes(ReadLine, key, value)
  {
    var t := key + "=" + value;
    TrimAround(key, value);
    EqualsFound(key, value);
    assert t[..|key|] == key && t[|key| + 1..] == value;
    TrimmedIsTrim(key);
    TrimmedIsTrim(value);
    assert t[0] == if key == [] then '=' else key[0];
  }

  /** Some wanted directive is written, so the file is never emptied. */
  lemma RewrittenNotEmpty(read: Reader, lines: seq<string>, want: seq<(string, string)>)
    requires Distinct(want) && forall w :: w in want ==> Writes(read, w.0, w.1)
    requires read("").Blank? && want != []
    ensures Rewritten(read, lines, want) != []
  {
    assert want[0] in want;
    RewrittenActive(read, lines, want, want[0]);
    BlankSetsNothing(read, want[0].0);
  }

  lemma BlankSetsNothing(read: Reader, key: string)
    requires read("").Blank?
    ensures Active(read, [] + [""], key) == []
  {
    assert [] + [""] == [""] && [""][1..] == [];
  }

  lemma NothingWanted(read: Reader, lines: seq<string>)
    ensures !Changed(read, lines, [])
  {
    NoChangeIff(read, lines, []);
  }

  lemma {:induction false} DropBlanksPrefix(read: Reader, lines: seq<string>)
    ensures DropBlanks(read, lines) <= lines
  {
    if lines != [] && read(lines[|lines| - 1]).Blank? {
      DropBlanksPrefix(read, lines[..|lines| - 1]);
    }
  }

  /**
   * The rewritten file, read again: every wanted directive holds once with its value, all
   * other lines are there in order up to trailing blanks, and another run changes nothing.
   */
  lemma FileHolds(content: string, want: seq<(string, string)>)
    requires Distinct(want) && forall w :: w in want ==> Proper(w.0, w.1)
    requires Changed(ReadLine, SplitLines(content), want)
    ensures var lines := SplitLines(content);
            var after := SplitLines(FileOf(Rewritten(ReadLine, lines, want)));
            var keys := set w | w in want :: w.0;
            && Holds(ReadLine, after, want)
            && DropBlanks(ReadLine, Rest(ReadLine, after, keys)) == DropBlanks(ReadLine, Rest(ReadLine, lines, keys))
            && !Changed(ReadLine, after, want)
  {
    forall w | w in want ensures Writes(ReadLine, w.0, w.1) {
      ProperWrites(w.0, w.1);
    }
    EmptyIsBlank();
    FileOfLines(ReadLine, SplitLines(content), content, want);
    RewrittenHolds(ReadLine, SplitLines(content), want);
    NoChangeIff(ReadLine, Rewritten(ReadLine, SplitLines(content), want) + [""], want);
  }

  lemma EmptyIsBlank()
    ensures ReadLine("").Blank?
  {
    TrimmedIsTrim("");
  }

  lemma FileOfLines(read: Reader, lines: seq<string>, content: string, want: seq<(string, string)>)
    requires Distinct(want) && forall w :: w in want ==> Writes(read, w.0, w.1)
    requires read("").Blank? && lines == SplitLines(content) && Changed(read, lines, want)
    ensures SplitLines(FileOf(Rewritten(read, lines, want))) == Rewritten(read, lines, want) + [""]
  {
    var m := Wanted(want);
    if want == [] {
      NothingWanted(read, lines);
    } else {
      RewrittenNotEmpty(read, lines, want);
    }
    SplitOneLine(content);
    AllWanted(read, want);
    KeptOneLine(read, lines, m, {});
    DropBlanksPrefix(read, Kept(read, lines, m, {}));
    MissingRest(read, want, Seen(read, lines, m), m.Keys);
    SplitFile(Rewritten(read, lines, want));
  }

  // ---------------------------------------------------------------- the file and its roll-back

  datatype Outcome = Rejected | Done(changed: bool)

  /** The configuration file and the one-time copy kept beside it. */
  class ConfigFile {
    var conf: Option<string>
    var copy: Option<string>

    constructor (conf: Option<string>, copy: Option<string>)
      ensures this.conf == conf && this.copy == copy
    {
      this.conf, this.copy := conf, copy;
    }

    method SetDirectives(want: seq<(string, string)>) returns (r: Outcome)
      modifies this
      ensures old(conf).None? ==> r == Rejected && conf == old(conf) && copy == old(copy)
      ensures old(conf).Some? ==>
        var lines := SplitLines(old(conf).value);
        && r == Done(Changed(ReadLine, lines, want))
        && (r.changed ==> conf == Some(FileOf(Rewritten(ReadLine, lines, want))))
        && (r.changed ==> copy == if old(copy).None? then old(conf) else old(copy))
        && (!r.changed ==> conf == old(conf) && copy == old(copy))
    {
      if conf.None? {
        return Rejected;
      }
      var lines := SplitLines(conf.value);
      var out, changed := RewriteLines(ReadLine, lines, want);
      if !changed {
        return Done(false);
      }
      if copy.None? {
        copy := conf;
      }
      conf := Some(FileOf(out));
      return Done(true);
    }

    /** A configuration vsftpd would not load is taken back, byte for byte. */
    method ApplyTls(cert: string, key: string, loads: string -> bool) returns (r: Outcome)
      modifies this
      ensures r == Rejected ==> conf == old(conf)
      ensures old(conf).Some? ==>
        var lines, want := SplitLines(old(conf).value), TlsDirectives(cert, key);
        var file := FileOf(Rewritten(ReadLine, lines, want));
        && (r == Done(false) <==> !Changed(ReadLine, lines, want))
        && (r == Done(false) ==> conf == old(conf) && copy == old(copy))
        && (r == Done(true) <==> Changed(ReadLine, lines, want) && loads(file))
        && (r == Done(true) ==> conf == Some(file))
    {
      var orig := conf;
      r := SetDirectives(TlsDirectives(cert, key));
      if r.Rejected? || !r.changed {
        return;
      }
      if !loads(conf.value) {
        conf := orig;
        return Rejected;
      }
    }
  }

  method RewriteLines(read: Reader, lines: seq<string>, want: seq<(string, string)>)
    returns (out: seq<string>, changed: bool)
    ensures out == Rewritten(read, lines, want)
    ensures changed == Changed(read, lines, want)
  {
    var wanted := map[];
    for i := 0 to |want|
      invariant wanted == Wanted(want[..i])
    {
      assert want[..i + 1][..i] == want[..i];
      wanted := wanted[want[i].0 := want[i].1];
    }
    assert want[..|want|] == want;
    var seen;
    out, changed, seen := RewriteLoop(read, lines, wanted);
    out := DropLoop(read, out);
    var added;
    out, added := AppendMissing(out, want, seen);
    changed := changed || added;
  }

  method DropLoop(read: Reader, lines: seq<string>) returns (out: seq<string>)
    ensures out == DropBlanks(read, lines)
  {
    out := lines;
    while out != [] && read(out[|out| - 1]).Blank?
      invariant DropBlanks(read, out) == DropBlanks(read, lines)
    {
      out := out[..|out| - 1];
    }
  }

  method AppendMissing(lines: seq<string>, want: seq<(string, string)>, seen: set<string>)
    returns (out: seq<string>, added: bool)
    ensures out == lines + Missing(want, seen)
    ensures added <==> Missing(want, seen) != []
  {
    out, added := lines, false;
    for i := 0 to |want|
      invariant out + Missing(want[i..], seen) == lines + Missing(want, seen)
      invariant (added || Missing(want[i..], seen) != []) == (Missing(want, seen) != [])
    {
      assert want[i..][0] == want[i] && want[i..][1..] == want[i + 1..];
      if want[i].0 !in seen {
        Assoc(out, [want[i].0 + "=" + want[i].1], Missing(want[i + 1..], seen));
        out := out + [want[i].0 + "=" + want[i].1];
        added := true;
      }
    }
  }

  method RewriteLoop(read: Reader, lines: seq<string>, wanted: map<string, string>)
    returns (out: seq<string>, changed: bool, seen: set<string>)
    ensures out == Kept(read, lines, wanted, {})
    ensures changed == Dirty(read, lines, wanted, {})
    ensures seen == Seen(read, lines, wanted)
  {
    out, changed, seen := [], false, {};
    for i := 0 to |lines|
      invariant out + Kept(read, lines[i..], wanted, seen) == Kept(read, lines, wanted, {})
      invariant (changed || Dirty(read, lines[i..], wanted, seen)) == Dirty(read, lines, wanted, {})
      invariant seen + Seen(read, lines[i..], wanted) == Seen(read, lines, wanted)
    {
      var l := read(lines[i]);
      assert lines[i..][0] == lines[i] && lines[i..][1..] == lines[i + 1..];
      if l.Setting? && l.key in wanted {
        if l.key in seen {
          changed := true;
        } else if l.value != wanted[l.key] {
          Assoc(out, [l.key + "=" + wanted[l.key]], Kept(read, lines[i + 1..], wanted, seen + {l.key}));
          seen, changed := seen + {l.key}, true;
          out := out + [l.key + "=" + wanted[l.key]];
        } else {
          Assoc(out, [lines[i]], Kept(read, lines[i + 1..], wanted, seen + {l.key}));
          seen := seen + {l.key};
          out := out + [lines[i]];
        }
      } else {
        Assoc(out, [lines[i]], Kept(read, lines[i + 1..], wanted, seen));
        out := out + [lines[i]];
      }
    }
  }

  function TlsDirectives(cert: string, key: string): seq<(string, string)> {
    [("ssl_enable", "YES"), ("rsa_cert_file", cert), ("rsa_private_key_file", key),
     ("force_local_logins_ssl", "YES"), ("force_local_data_ssl", "YES"), ("allow_anon_ssl", "NO"),
     ("ssl_sslv2", "NO"), ("ssl_sslv3", "NO"), ("ssl_tlsv1", "NO"), ("ssl_ciphers", "HIGH"),
     ("require_ssl_reuse", "NO"), ("max_login_fails", "3"), ("delay_failed_login", "3")]
  }

  /** Letters, digits and underscores. */
  predicate IsWord(s: string) {
    s != [] && forall i :: 0 <= i < |s| ==>
      'a' <= s[i] <= 'z' || 'A' <= s[i] <= 'Z' || '0' <= s[i] <= '9' || s[i] == '_'
  }

  lemma WordTrimmed(s: string)
    requires IsWord(s)
    ensures Trimmed(s) && OneLine(s)
  {
    assert Solid(s[0]) && Solid(s[|s| - 1]);
    SolidStart(s);
    SolidEnd(s);
  }

  /** The directives that force TLS meet what the rewriting needs, for any trimmed one-line paths. */
  lemma TlsProper(cert: string, key: string)
    requires Trimmed(cert) && OneLine(cert) && Trimmed(key) && OneLine(key)
    ensures Distinct(TlsDirectives(cert, key))
    ensures forall w :: w in TlsDirectives(cert, key) ==> Proper(w.0, w.1)
  {
    var want := TlsDirectives(cert, key);
    TlsDistinct(cert, key);
    TlsWords(cert, key);
    AllWordsProper(want, cert, key);
  }

  ghost predicate AllWords(want: seq<(string, string)>, cert: string, key: string) {
    forall i :: 0 <= i < |want| ==> WordPair(want[i], cert, key)
  }

  predicate WordPair(w: (string, string), cert: string, key: string) {
    IsWord(w.0) && (IsWord(w.1) || w.1 == cert || w.1 == key)
  }

  lemma AllWordsProper(want: seq<(string, string)>, cert: string, key: string)
    requires Trimmed(cert) && OneLine(cert) && Trimmed(key) && OneLine(key)
    requires AllWords(want, cert, key)
    ensures forall w :: w in want ==> Proper(w.0, w.1)
  {
    forall w | w in want ensures Proper(w.0, w.1) {
      assert WordPair(w, cert, key);
      WordTrimmed(w.0);
      if w.1 != cert && w.1 != key {
        WordTrimmed(w.1);
      }
    }
  }

  lemma TlsWords(cert: string, key: string)
    ensures AllWords(TlsDirectives(cert, key), cert, key)
  {
    ShortWords();
    MediumWords();
    LongWords();
    LongestWords();
  }

  lemma ShortWords()
    ensures IsWord("YES") && IsWord("NO") && IsWord("HIGH") && IsWord("3")
    ensures IsWord("ssl_sslv2") && IsWord("ssl_sslv3") && IsWord("ssl_tlsv1")
  {
  }

  lemma MediumWords()
    ensures IsWord("ssl_enable") && IsWord("ssl_ciphers") && IsWord("rsa_cert_file")
    ensures IsWord("allow_anon_ssl") && IsWord("max_login_fails")
  {
  }

  lemma LongWords()
    ensures IsWord("force_local_data_ssl") && IsWord("require_ssl_reuse") && IsWord("delay_failed_login")
  {
  }

  lemma LongestWords()
    ensures IsWord("rsa_private_key_file") && IsWord("force_local_logins_ssl")
  {
  }

  lemma TlsDistinct(cert: string, key: string)
    ensures Distinct(TlsDirectives(cert, key))
  {
    var want := TlsDirectives(cert, key);
    var lengths := [10, 13, 20, 22, 20, 14, 9, 9, 9, 11, 17, 15, 18];
    forall i | 0 <= i < |want| ensures |want[i].0| == lengths[i] {
    }
    assert want[2].0[0] == 'r' && want[4].0[0] == 'f';
    assert want[6].0[8] == '2' && want[7].0[8] == '3' && want[8].0[8] == '1';
  }
}
