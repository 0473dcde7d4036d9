/** Rooted slash-separated paths and their cleaning. */
module HtPath {
  import opened Text

  /** A path component that means itself. */
  predicate Proper(name: string) {
    name != "" && name != "." && name != ".." && '/' !in name
  }

  ghost predicate AllProper(names: seq<string>) {
    forall n :: n in names ==> Proper(n)
  }

  /** The absolute path of these components. */
  function Render(names: seq<string>): string {
    "/" + Join(names, "/")
  }

  /** A rooted path with no dot, dot-dot or empty inner component. */
  ghost predicate IsClean(p: string) {
    exists names :: AllProper(names) && p == Render(names)
  }

  function Push(names: seq<string>, name: string): seq<string> {
    if name == "" || name == "." then names
    else if name == ".." then (if names == [] then [] else names[..|names| - 1])
    else names + [name]
  }

  /** The components of a path: s is what is left to read, name the component being read. */
  function Components(s: string, name: string, names: seq<string>): seq<string>
    decreases |s|
  {
    if s == [] then Push(names, name)
    else if s[0] == '/' then Components(s[1..], "", Push(names, name))
    else Components(s[1..], name + [s[0]], names)
  }

  /** path.Clean of a path made absolute. */
  function CleanRooted(s: string): string {
    Render(Components(s, "", []))
  }

  lemma PushProper(names: seq<string>, name: string)
    requires AllProper(names) && '/' !in name
    ensures AllProper(Push(names, name))
  {
  }

  lemma {:induction false} ComponentsProper(s: string, name: string, names: seq<string>)
    requires AllProper(names) && '/' !in name
    ensures AllProper(Components(s, name, names))
    decreases |s|
  {
    PushProper(names, name);
    if s != [] {
      if s[0] == '/' {
        ComponentsProper(s[1..], "", Push(names, name));
      } else {
        ComponentsProper(s[1..], name + [s[0]], names);
      }
    }
  }

  /** Cleaning always yields a rooted clean path. */
  lemma CleanIsClean(s: string)
    ensures IsClean(CleanRooted(s))
  {
    ComponentsProper(s, "", []);
  }

  lemma {:induction false} ReadName(word: string, rest: string, name: string, names: seq<string>)
    requires '/' !in word
    ensures Components(word + rest, name, names) == Components(rest, name + word, names)
  {
    if word == [] {
      assert word + rest == rest && name + word == name;
    } else {
      assert (word + rest)[1..] == word[1..] + rest && (word + rest)[0] == word[0];
      ReadName(word[1..], rest, name + [word[0]], names);
      assert name + [word[0]] + word[1..] == name + word;
    }
  }

  lemma {:induction false} ComponentsOfJoin(names: seq<string>, done: seq<string>)
    requires names != [] && AllProper(names)
    ensures Components(Join(names, "/"), "", done) == done + names
  {
    var name, more := names[0], names[1..];
    assert Proper(name) && names == [name] + more;
    if more == [] {
      ReadName(name, "", "", done);
      assert name + "" == name && "" + name == name;
    } else {
      FirstRead(name, Join(more, "/"), done);
      ComponentsOfJoin(more, done + [name]);
      assert name + "/" + Join(more, "/") == name + ("/" + Join(more, "/"));
      assert (done + [name]) + more == done + names;
    }
  }

  lemma FirstRead(name: string, more: string, done: seq<string>)
    requires Proper(name)
    ensures Components(name + ("/" + more), "", done) == Components(more, "", done + [name])
  {
    ReadName(name, "/" + more, "", done);
    assert "" + name == name && ("/" + more)[1..] == more;
  }

  /** A clean path is its own cleaning, and reads back as its components. */
  lemma CleanRoundTrip(names: seq<string>)
    requires AllProper(names)
    ensures Components(Render(names), "", []) == names
    ensures CleanRooted(Render(names)) == Render(names)
  {
    var p := Render(names);
    assert p[0] == '/' && p[1..] == Join(names, "/");
    if names != [] {
      ComponentsOfJoin(names, []);
      assert [] + names == names;
    }
  }
}
