/** The directories of a request: the walk from its own up to the document root. */
module HtConfig {
  import opened Text
  import opened HtPath

  // ---------------------------------------------------------------- the walk

  /** The text before the last slash. */
  function BeforeSlash(s: string): (r: string)
    ensures |r| <= |s|
  {
    if s == [] then ""
    else if s[|s| - 1] == '/' then s[..|s| - 1]
    else BeforeSlash(s[..|s| - 1])
  }

  /** filepath.Dir of a clean absolute path. */
  function DirOf(s: string): string {
    if BeforeSlash(s) == "" then "/" else BeforeSlash(s)
  }

  /** The directories visited from d on. */
  function Walk(root: string, d: string): seq<string>
    decreases |d|
  {
    if d == root || d == "/" || |d| <= 1 then [d]
    else
      var next := DirOf(d);
      if |next| >= |d| || !(root <= d) then [d] else [d] + Walk(root, next)
  }

  /** The path of these components without the slash of the root itself. */
  function Base(names: seq<string>): string {
    if names == [] then "" else Base(names[..|names| - 1]) + "/" + names[|names| - 1]
  }

  lemma {:induction false} JoinLast(names: seq<string>, last: string)
    requires names != []
    ensures Join(names + [last], "/") == Join(names, "/") + "/" + last
  {
    var all := names + [last];
    assert all[0] == names[0];
    if |names| == 1 {
      assert all[1..] == [last] && names == [names[0]];
    } else {
      assert all[1..] == names[1..] + [last];
      JoinLast(names[1..], last);
    }
  }

  lemma {:induction false} RenderIsBase(names: seq<string>)
    ensures Render(names) == if names == [] then "/" else Base(names)
  {
    if |names| == 1 {
      assert names[..0] == [] && Base([]) == "";
    } else if |names| > 1 {
      var front, last := names[..|names| - 1], names[|names| - 1];
      RenderIsBase(front);
      JoinLast(front, last);
      assert front + [last] == names;
    }
  }

  lemma {:induction false} BeforeName(a: string, name: string)
    requires '/' !in name
    ensures BeforeSlash(a + "/" + name) == a
  {
    var s := a + "/" + name;
    if name == [] {
      assert s[..|s| - 1] == a;
    } else {
      assert s[|s| - 1] == name[|name| - 1];
      assert s[..|s| - 1] == a + "/" + name[..|name| - 1];
      BeforeName(a, name[..|name| - 1]);
    }
  }

  lemma BaseNonEmpty(names: seq<string>)
    requires names != [] && AllProper(names)
    ensures |Base(names)| >= 2 && |Base(names)| >= |Base(names[..|names| - 1])| + 2
  {
    assert Proper(names[|names| - 1]);
  }

  lemma DirOfRender(names: seq<string>)
    requires names != [] && AllProper(names)
    ensures DirOf(Render(names)) == Render(names[..|names| - 1])
    ensures |Render(names[..|names| - 1])| < |Render(names)| && |Render(names)| > 1
  {
    var front := names[..|names| - 1];
    assert Proper(names[|names| - 1]);
    RenderIsBase(names);
    RenderIsBase(front);
    BeforeName(Base(front), names[|names| - 1]);
    BaseNonEmpty(names);
    if front != [] {
      BaseNonEmpty(front);
    }
  }

  lemma {:induction false} RootIsPrefix(root: seq<string>, rel: seq<string>)
    requires AllProper(root + rel)
    ensures Render(root) <= Render(root + rel) && (rel != [] ==> |Render(root)| < |Render(root + rel)|)
  {
    if rel == [] {
      assert root + rel == root;
    } else {
      var all := root + rel;
      var front := all[..|all| - 1];
      assert front == root + rel[..|rel| - 1];
      RootIsPrefix(root, rel[..|rel| - 1]);
      RenderIsBase(all);
      RenderIsBase(front);
      DirOfRender(all);
    }
  }

  /** The directories from root + rel up to root. */
  function Chain(root: seq<string>, rel: seq<string>): (r: seq<string>)
    ensures |r| == |rel| + 1
  {
    [Render(root + rel)] + (if rel == [] then [] else Chain(root, rel[..|rel| - 1]))
  }

  lemma {:induction false} ChainAt(root: seq<string>, rel: seq<string>, k: nat)
    requires k <= |rel|
    ensures Chain(root, rel)[k] == Render(root + rel[..|rel| - k])
  {
    if k == 0 {
      assert rel[..|rel|] == rel;
    } else {
      ChainAt(root, rel[..|rel| - 1], k - 1);
      assert rel[..|rel| - 1][..|rel| - k] == rel[..|rel| - k];
    }
  }

  /** The walk visits exactly the directories from the request's up to the document root. */
  lemma {:induction false} WalkVisits(root: seq<string>, rel: seq<string>)
    requires AllProper(root) && AllProper(rel)
    ensures Walk(Render(root), Render(root + rel)) == Chain(root, rel)
  {
    var all := root + rel;
    RootIsPrefix(root, rel);
    if rel == [] {
      assert all == root;
    } else {
      var front := rel[..|rel| - 1];
      assert all[..|all| - 1] == root + front;
      DirOfRender(all);
      WalkVisits(root, front);
      RenderIsBase(all);
    }
  }

  /** The directory of a request: the components of its path but the last, under root. */
  function RequestNames(urlPath: string): seq<string> {
    var names := Components(urlPath, "", []);
    if names == [] then [] else names[..|names| - 1]
  }

  lemma RequestNamesProper(urlPath: string)
    ensures AllProper(RequestNames(urlPath))
  {
    ComponentsProper(urlPath, "", []);
  }
}
