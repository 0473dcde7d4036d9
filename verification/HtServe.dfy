/** How a request meets the .htaccess chain: the gate, the cached configuration, the engine. */
module HtServe {
  import opened Text
  import opened HtPath
  import opened HtConfig
  import opened HtSignature
  import opened HtCache
  import HtEngine

  // ---------------------------------------------------------------- the gate

  datatype Gate = Pass | Forbidden | NotFound

  /** The text between the slashes: s is what is left to read, seg the part being read. */
  function Segments(s: string, seg: string): (r: seq<string>)
    ensures |r| > 0
    decreases |s|
  {
    if s == [] then [seg]
    else if s[0] == '/' then [seg] + Segments(s[1..], "")
    else Segments(s[1..], seg + [s[0]])
  }

  predicate Visible(seg: string) {
    !("." <= seg) || seg == "." || seg == ".well-known"
  }

  /** The first segment the gate refuses, |segs| if there is none. */
  function FirstHidden(segs: seq<string>): (i: nat)
    ensures i <= |segs|
    ensures forall j :: 0 <= j < i ==> Visible(segs[j])
    ensures i < |segs| ==> !Visible(segs[i])
  {
    if segs == [] || !Visible(segs[0]) then 0 else 1 + FirstHidden(segs[1..])
  }

  function GateOf(path: string): Gate {
    var segs := Segments(path, "");
    var i := FirstHidden(segs);
    if i == |segs| then Pass else if ".ht" <= segs[i] then Forbidden else NotFound
  }

  method HtGate(path: string) returns (r: Gate)
    ensures r == GateOf(path)
  {
    var segs := Segments(path, "");
    for i := 0 to |segs|
      invariant forall j :: 0 <= j < i ==> Visible(segs[j])
    {
      if !("." <= segs[i]) || segs[i] == "." || segs[i] == "" {
        continue;
      }
      if segs[i] == ".well-known" {
        continue;
      }
      if ".ht" <= segs[i] {
        return Forbidden;
      }
      return NotFound;
    }
    return Pass;
  }

  lemma {:induction false} ComponentsAreSegments(s: string, name: string, names: seq<string>, n: string)
    requires n in Components(s, name, names)
    ensures n in names || n in Segments(s, name)
    decreases |s|
  {
    if s != [] {
      if s[0] == '/' {
        ComponentsAreSegments(s[1..], "", Push(names, name), n);
      } else {
        ComponentsAreSegments(s[1..], name + [s[0]], names, n);
      }
    }
  }

  lemma ReservedIsHidden(n: string)
    requires RESERVED <= n
    ensures !Visible(n)
  {
    assert n[0] == RESERVED[0] == '.' && n[1] == RESERVED[1] == 'h';
    assert |n| >= |RESERVED| > 1 && ".well-known"[1] == 'w';
  }

  /** No directory of a path that passes the gate is named like an entry of a signature. */
  lemma GateUnreserved(path: string)
    requires GateOf(path).Pass?
    ensures Unreserved(RequestNames(path))
  {
    var segs := Segments(path, "");
    forall n | n in RequestNames(path) ensures !(RESERVED <= n) {
      assert n in Components(path, "", []);
      ComponentsAreSegments(path, "", [], n);
      assert n in segs && Visible(n);
      if RESERVED <= n {
        ReservedIsHidden(n);
      }
    }
  }

  // ---------------------------------------------------------------- the engine on the merged files

  /** What the engine reads of a merged chain. */
  function ConfigOf(m: Merged): HtEngine.Config {
    HtEngine.Config(m.all.engine, m.all.base, m.dirUrl, m.all.rules, m.all.redirects, m.all.fileDenies, m.all.denyAll)
  }

  /** The engine's rules are those of the files on the walk, the deepest file's first. */
  lemma EngineRulesInOrder(content: Content, fs: FileSystem, root: string, dir: string)
    ensures ConfigOf(Fresh(content, fs, root, dir)).rules ==
            AllRules(FileSettings(content, Present(fs, Walk(root, dir))))
  {
    var list := Present(fs, Walk(root, dir));
    SameCount(content, list);
    RulesInOrder(FileSettings(content, list));
  }

  lemma {:induction false} SameCount(content: Content, list: seq<(string, Stat)>)
    ensures |FileNames(content, list)| == |FileSettings(content, list)|
  {
    if list != [] {
      SameCount(content, list[1..]);
    }
  }

  /** How the head of a request ends: refused, or the engine's verdict and the path served next. */
  datatype Reply = Refused(gate: Gate) | Answered(verdict: HtEngine.Verdict, path: string, cfg: Merged)

  /**
   * Behind the gate the engine always runs on a fresh parse of the files; so does the lookup for the
   * path served next, unless a rule rewrote it below directories that clash.
   */
  method Serve(cache: Cache, w: HtEngine.World, fs: FileSystem, ghost names: seq<string>, root: string,
               urlPath: string, query: string) returns (r: Reply)
    requires cache.Valid() && AllProper(names) && root == Render(names) && '\0' !in root
    modifies cache`entries
    ensures cache.Valid()
    ensures var path := CleanRooted(urlPath);
            if GateOf(path) != Pass then r == Refused(GateOf(path))
            else
              var cfg := ConfigOf(Fresh(cache.content, fs, root, Render(names + RequestNames(path))));
              && r.Answered? && r.verdict == HtEngine.Answer(w, Some(cfg), path, query)
              && IsClean(r.path) && (r.verdict.path == "" ==> r.path == path)
              && (r.verdict.path == "" || Distinguished(names, RequestNames(r.path)) ==>
                    r.cfg == Fresh(cache.content, fs, root, Render(names + RequestNames(r.path))))
  {
    var path := CleanRooted(urlPath);
    CleanIsClean(urlPath);
    var gate := HtGate(path);
    if gate != Pass {
      return Refused(gate);
    }
    GateUnreserved(path);
    var cfg := cache.ConfigFor(fs, names, root, path);
    var verdict, _ := HtEngine.Engine(w, Some(ConfigOf(cfg)), path, query);
    if verdict.path != "" {
      path := CleanRooted(verdict.path);
      CleanIsClean(verdict.path);
    }
    cfg := cache.ConfigFor(fs, names, root, path);
    r := Answered(verdict, path, cfg);
  }

  // ---------------------------------------------------------------- where the cache is stale

  lemma RequestUnder(rel: seq<string>)
    requires AllProper(rel)
    ensures RequestNames(Render(rel + ["x"])) == rel
  {
    var names := rel + ["x"];
    assert AllProper(names);
    CleanRoundTrip(names);
    assert names[..|names| - 1] == rel;
  }

  /** Two requests, the files changed in between but not their signature: the second is answered as the first. */
  method StaleAnswer(content: Content, one: FileSystem, two: FileSystem, names: seq<string>, rel: seq<string>)
    returns (got: Merged)
    requires AllProper(names) && AllProper(rel) && '\0' !in Render(names)
    requires var dirs := Walk(Render(names), Render(names + rel));
             Signature(Present(one, dirs)) == Signature(Present(two, dirs))
    ensures got == Fresh(content, one, Render(names), Render(names + rel))
  {
    var root, path := Render(names), Render(rel + ["x"]);
    RequestUnder(rel);
    var cache := new Cache(content);
    var first := cache.ConfigFor(one, names, root, path);
    got := cache.ConfigFor(two, names, root, path);
  }

  lemma FilesCounted(content: Content, root: string, list: seq<(string, Stat)>)
    requires forall f, st :: content(f, st).Some?
    ensures |Parse(content, root, list).files| == |list|
  {
    if list != [] {
      FilesCounted(content, root, list[1..]);
    }
  }

  /** Below clashing directories there are two such states, and what they say differs. */
  lemma ClashIsStale(content: Content, names: seq<string>, rel: seq<string>, q: nat, i: nat, s: Stat, t: Stat)
    returns (one: FileSystem, two: FileSystem)
    requires AllProper(names) && AllProper(rel) && ClashAt(names, rel, q, i, s)
    requires forall f, st :: content(f, st).Some?
    ensures var root, dir := Render(names), Render(names + rel);
            && Signature(Present(one, Walk(root, dir))) == Signature(Present(two, Walk(root, dir)))
            && Fresh(content, one, root, dir) != Fresh(content, two, root, dir)
  {
    var dirs := Walk(Render(names), Render(names + rel));
    one, two := SignatureClash(dirs, names, rel, q, i, s, t);
    FilesCounted(content, Render(names), Present(one, dirs));
    FilesCounted(content, Render(names), Present(two, dirs));
  }
}
