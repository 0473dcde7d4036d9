/** Parsing the .htaccess chain: the merge of its files and the cache checked by a signature. */
module HtCache {
  import opened Text
  import opened HtPath
  import opened HtConfig
  import opened HtSignature
  import HtEngine

  // ---------------------------------------------------------------- merging files

  /** What one file says, or several merged. */
  datatype Settings = Settings(
    engine: bool, base: string, rules: seq<HtEngine.Rule>, redirects: seq<HtEngine.Redirect>,
    index: seq<string>, errors: map<int, string>, denyAll: bool, fileDenies: seq<string>,
    phpExtensions: seq<string>, slashOff: bool, headers: seq<string>, requestHeaders: seq<string>, skipped: seq<string>)

  const NOTHING := Settings(false, "", [], [], [], map[], false, [], [], false, [], [], [])

  /** Adds what a shallower file says. */
  function Add(cfg: Settings, sub: Settings): Settings {
    Settings(
      cfg.engine || sub.engine,
      if sub.base != "" && cfg.base == "" then sub.base else cfg.base,
      cfg.rules + sub.rules,
      cfg.redirects + sub.redirects,
      if sub.index != [] && cfg.index == [] then sub.index else cfg.index,
      sub.errors + cfg.errors,
      cfg.denyAll || sub.denyAll,
      cfg.fileDenies + sub.fileDenies,
      cfg.phpExtensions + sub.phpExtensions,
      cfg.slashOff || sub.slashOff,
      cfg.headers + sub.headers,
      cfg.requestHeaders + sub.requestHeaders,
      cfg.skipped + sub.skipped)
  }

  /** The files of the chain merged, the deepest first. */
  function Merge(subs: seq<Settings>): Settings {
    if subs == [] then NOTHING else Add(Merge(subs[..|subs| - 1]), subs[|subs| - 1])
  }

  /** The first file, from the deepest, for which p holds; |subs| if there is none. */
  ghost function First(subs: seq<Settings>, p: Settings -> bool): (i: nat)
    ensures i <= |subs|
    ensures i < |subs| ==> p(subs[i])
    ensures forall j :: 0 <= j < i ==> !p(subs[j])
  {
    if subs == [] || p(subs[0]) then 0 else 1 + First(subs[1..], p)
  }

  lemma FirstLast(subs: seq<Settings>, p: Settings -> bool)
    requires subs != []
    ensures var front := subs[..|subs| - 1];
            First(subs, p) == if First(front, p) < |front| then First(front, p)
                              else if p(subs[|subs| - 1]) then |subs| - 1 else |subs|
  {
    var front, i, j := subs[..|subs| - 1], First(subs, p), First(subs[..|subs| - 1], p);
    if j < |front| {
      assert subs[j] == front[j];
      assert i < |front| ==> front[i] == subs[i];
    } else {
      assert forall k :: 0 <= k < |front| ==> subs[k] == front[k];
    }
  }

  function AllRules(subs: seq<Settings>): seq<HtEngine.Rule> {
    if subs == [] then [] else subs[0].rules + AllRules(subs[1..])
  }

  /** Rules run deepest first: the merged list is the files' lists one after the other. */
  lemma {:induction false} RulesInOrder(subs: seq<Settings>)
    ensures Merge(subs).rules == AllRules(subs)
  {
    if subs != [] {
      var front, last := subs[..|subs| - 1], subs[|subs| - 1];
      RulesInOrder(front);
      AllRulesLast(front, last);
      assert front + [last] == subs;
    }
  }

  lemma {:induction false} AllRulesLast(subs: seq<Settings>, last: Settings)
    ensures AllRules(subs + [last]) == AllRules(subs) + last.rules
  {
    if subs == [] {
      assert subs + [last] == [last] && [last][1..] == [];
      assert last.rules + [] == [] + last.rules;
    } else {
      assert (subs + [last])[1..] == subs[1..] + [last];
      AllRulesLast(subs[1..], last);
      Assoc(subs[0].rules, AllRules(subs[1..]), last.rules);
    }
  }

  /** The deepest file that names a base gives the base. */
  lemma {:induction false} DeepestBaseWins(subs: seq<Settings>)
    ensures var i := First(subs, (s: Settings) => s.base != "");
            Merge(subs).base == if i < |subs| then subs[i].base else ""
  {
    if subs != [] {
      DeepestBaseWins(subs[..|subs| - 1]);
      FirstLast(subs, (s: Settings) => s.base != "");
    }
  }

  lemma {:induction false} DeepestIndexWins(subs: seq<Settings>)
    ensures var i := First(subs, (s: Settings) => s.index != []);
            Merge(subs).index == if i < |subs| then subs[i].index else []
  {
    if subs != [] {
      DeepestIndexWins(subs[..|subs| - 1]);
      FirstLast(subs, (s: Settings) => s.index != []);
    }
  }

  /** For every status, the deepest file that has an error document for it gives the document. */
  lemma {:induction false} DeepestErrorWins(subs: seq<Settings>, code: int)
    ensures var i := First(subs, (s: Settings) => code in s.errors);
            && (code in Merge(subs).errors <==> i < |subs|)
            && (i < |subs| ==> Merge(subs).errors[code] == subs[i].errors[code])
  {
    if subs != [] {
      DeepestErrorWins(subs[..|subs| - 1], code);
      FirstLast(subs, (s: Settings) => code in s.errors);
    }
  }

  /** One turn of the merge. */
  method AddFile(cfg: Settings, sub: Settings) returns (r: Settings)
    ensures r == Add(cfg, sub)
  {
    var engine, base, index, denyAll, slashOff := cfg.engine, cfg.base, cfg.index, cfg.denyAll, cfg.slashOff;
    if sub.engine {
      engine := true;
    }
    if sub.base != "" && base == "" {
      base := sub.base;
    }
    if sub.index != [] && index == [] {
      index := sub.index;
    }
    if sub.denyAll {
      denyAll := true;
    }
    if sub.slashOff {
      slashOff := true;
    }
    r := Settings(engine, base, cfg.rules + sub.rules, cfg.redirects + sub.redirects, index, sub.errors + cfg.errors,
                  denyAll, cfg.fileDenies + sub.fileDenies, cfg.phpExtensions + sub.phpExtensions, slashOff,
                  cfg.headers + sub.headers, cfg.requestHeaders + sub.requestHeaders, cfg.skipped + sub.skipped);
  }

  /** The loop over the files of the chain. */
  method MergeFiles(subs: seq<Settings>) returns (cfg: Settings)
    ensures cfg == Merge(subs)
  {
    cfg := NOTHING;
    for i := 0 to |subs|
      invariant cfg == Merge(subs[..i])
    {
      assert subs[..i + 1][..i] == subs[..i];
      cfg := AddFile(cfg, subs[i]);
    }
    assert subs[..|subs|] == subs;
  }

  // ---------------------------------------------------------------- parsing and caching

  /** What a file with this name, size and time says, None for a directory: edits change size or time. */
  type Content = (string, Stat) -> Option<Settings>

  /** The merged view of a chain: its files, the deepest directory holding one, on disk and as a URL. */
  datatype Merged = Merged(files: seq<string>, dir: string, dirUrl: string, all: Settings)

  function FileNames(content: Content, list: seq<(string, Stat)>): seq<string> {
    if list == [] then []
    else (if content(list[0].0, list[0].1).Some? then [list[0].0] else []) + FileNames(content, list[1..])
  }

  function FileSettings(content: Content, list: seq<(string, Stat)>): seq<Settings> {
    if list == [] then []
    else
      var c := content(list[0].0, list[0].1);
      (if c.Some? then [c.value] else []) + FileSettings(content, list[1..])
  }

  function TrimSlashes(s: string): string
    decreases |s|
  {
    if s != [] && s[0] == '/' then TrimSlashes(s[1..])
    else if s != [] && s[|s| - 1] == '/' then TrimSlashes(s[..|s| - 1])
    else s
  }

  /** The URL of a directory below the document root. */
  function DirUrl(root: string, dir: string): string {
    "/" + TrimSlashes(TrimPrefix(dir, HtEngine.TrimSlash(root)))
  }

  function Parse(content: Content, root: string, list: seq<(string, Stat)>): Merged {
    var files := FileNames(content, list);
    if files == [] then Merged([], "", "", NOTHING)
    else
      var dir := DirOf(files[0]);
      Merged(files, dir, DirUrl(root, dir), Merge(FileSettings(content, list)))
  }

  /** What a fresh parse of the chain from dir up to root gives. */
  function Fresh(content: Content, fs: FileSystem, root: string, dir: string): Merged {
    Parse(content, root, Present(fs, Walk(root, dir)))
  }

  /** The signature loop of htFileSig. */
  method FileSig(fs: FileSystem, root: string, dir: string) returns (sig: string)
    ensures sig == Signature(Present(fs, Walk(root, dir)))
  {
    sig := "";
    var d := dir;
    while true
      invariant sig + Signature(Present(fs, Walk(root, d))) == Signature(Present(fs, Walk(root, dir)))
      decreases |d|
    {
      var f := FileIn(d);
      SigTurn(fs, root, d);
      if fs(f).Some? {
        Assoc(sig, EntryText((f, fs(f).value)), Signature(Present(fs, Walk(root, d)[1..])));
        sig := sig + EntryText((f, fs(f).value));
      }
      if d == root || d == "/" || |d| <= 1 {
        break;
      }
      var next := DirOf(d);
      if |next| >= |d| || !(root <= d) {
        break;
      }
      d := next;
    }
    assert sig + "" == sig;
  }

  lemma SigTurn(fs: FileSystem, root: string, d: string)
    ensures var f, rest := FileIn(d), Signature(Present(fs, Walk(root, d)[1..]));
            && Walk(root, d)[0] == d
            && Signature(Present(fs, Walk(root, d))) == (if fs(f).Some? then EntryText((f, fs(f).value)) + rest else rest)
  {
    var f, dirs := FileIn(d), Walk(root, d);
    var more := Present(fs, dirs[1..]);
    if fs(f).Some? {
      assert ([(f, fs(f).value)] + more)[1..] == more;
    } else {
      assert [] + more == more;
    }
  }

  /** The loop of htParseDir that collects the files, then the merge. */
  method ParseDir(content: Content, fs: FileSystem, root: string, dir: string) returns (cfg: Merged)
    ensures cfg == Fresh(content, fs, root, dir)
  {
    var files, subs := [], [];
    var d := dir;
    while true
      invariant files + FileNames(content, Present(fs, Walk(root, d))) == FileNames(content, Present(fs, Walk(root, dir)))
      invariant subs + FileSettings(content, Present(fs, Walk(root, d))) == FileSettings(content, Present(fs, Walk(root, dir)))
      decreases |d|
    {
      var f := FileIn(d);
      ParseTurn(content, fs, root, d);
      var st := fs(f);
      if st.Some? && content(f, st.value).Some? {
        Assoc(files, [f], FileNames(content, Present(fs, Walk(root, d)[1..])));
        Assoc(subs, [content(f, st.value).value], FileSettings(content, Present(fs, Walk(root, d)[1..])));
        files, subs := files + [f], subs + [content(f, st.value).value];
      }
      if d == root || d == "/" || |d| <= 1 {
        break;
      }
      var next := DirOf(d);
      if |next| >= |d| || !(root <= d) {
        break;
      }
      d := next;
    }
    assert files + [] == files && subs + [] == subs;
    if |files| == 0 {
      return Merged([], "", "", NOTHING);
    }
    var all := MergeFiles(subs);
    cfg := Merged(files, DirOf(files[0]), DirUrl(root, DirOf(files[0])), all);
  }

  lemma ParseTurn(content: Content, fs: FileSystem, root: string, d: string)
    ensures var f, dirs := FileIn(d), Walk(root, d);
            var list, rest := Present(fs, dirs), Present(fs, dirs[1..]);
            var here := fs(f).Some? && content(f, fs(f).value).Some?;
            && dirs[0] == d
            && FileNames(content, list) == (if here then [f] + FileNames(content, rest) else FileNames(content, rest))
            && FileSettings(content, list) ==
               (if here then [content(f, fs(f).value).value] + FileSettings(content, rest) else FileSettings(content, rest))
  {
    var f, dirs := FileIn(d), Walk(root, d);
    var more := Present(fs, dirs[1..]);
    if fs(f).Some? {
      assert ([(f, fs(f).value)] + more)[1..] == more;
    } else {
      assert [] + more == more;
    }
    assert [] + FileNames(content, more) == FileNames(content, more);
    assert [] + FileSettings(content, more) == FileSettings(content, more);
  }

  function Key(root: string, dir: string): string {
    root + ("\0" + dir)
  }

  lemma KeyDetermines(r: string, d: string, root: string, dir: string)
    requires '\0' !in r && '\0' !in root && Key(r, d) == Key(root, dir)
    ensures r == root && d == dir
  {
    CutAt(r, root, '\0', d, dir);
  }

  /** The entry was made from some state of the files of its chain. */
  ghost predicate Made(content: Content, root: string, dirs: seq<string>, sig: string, cfg: Merged) {
    exists fs: FileSystem :: sig == Signature(Present(fs, dirs)) && cfg == Parse(content, root, Present(fs, dirs))
  }

  lemma MadeIsFresh(content: Content, fs: FileSystem, dirs: seq<string>, names: seq<string>, rel: seq<string>,
                    sig: string, cfg: Merged)
    requires Made(content, Render(names), dirs, sig, cfg) && Walked(dirs, names, rel) && Distinguished(names, rel)
    requires sig == Signature(Present(fs, dirs))
    ensures cfg == Parse(content, Render(names), Present(fs, dirs))
  {
    var was: FileSystem :|
      sig == Signature(Present(was, dirs)) && cfg == Parse(content, Render(names), Present(was, dirs));
    NotConfused(fs, was, dirs, names, rel);
  }

  function Below(dir: string, name: string): string {
    if dir == "/" then "/" + name else dir + "/" + name
  }

  lemma RenderBelow(names: seq<string>, name: string)
    requires AllProper(names)
    ensures Render(names + [name]) == Below(Render(names), name)
  {
    RenderIsBase(names + [name]);
    RenderIsBase(names);
    assert (names + [name])[..|names|] == names;
    if names != [] {
      BaseNonEmpty(names);
    }
  }

  class Cache {
    const content: Content
    var entries: map<string, (string, Merged)>

    ghost predicate Valid() reads this {
      forall root, dir :: '\0' !in root && Key(root, dir) in entries ==>
        Made(content, root, Walk(root, dir), entries[Key(root, dir)].0, entries[Key(root, dir)].1)
    }

    constructor (content: Content)
      ensures Valid() && this.content == content && entries == map[]
    {
      this.content := content;
      entries := map[];
    }

    /**
     * An entry with the signature of the files as they are is answered, and otherwise what a fresh
     * parse gives is cached. Where signatures tell states apart, the answer is always fresh.
     */
    method ConfigFor(fs: FileSystem, ghost names: seq<string>, root: string, urlPath: string) returns (cfg: Merged)
      requires Valid() && AllProper(names) && root == Render(names) && '\0' !in root
      modifies this`entries
      ensures Valid()
      ensures var dir := Render(names + RequestNames(urlPath));
              var key, sig := Key(root, dir), Signature(Present(fs, Walk(root, dir)));
              if key in old(entries) && old(entries)[key].0 == sig
              then cfg == old(entries)[key].1 && entries == old(entries)
              else cfg == Fresh(content, fs, root, dir) && entries == old(entries)[key := (sig, cfg)]
      ensures Distinguished(names, RequestNames(urlPath)) ==>
                cfg == Fresh(content, fs, root, Render(names + RequestNames(urlPath)))
    {
      var dir := RequestDir(names, root, urlPath);
      var key := Key(root, dir);
      var sig := FileSig(fs, root, dir);
      ghost var rel := RequestNames(urlPath);
      RequestNamesProper(urlPath);
      if key in entries && entries[key].0 == sig {
        if Distinguished(names, rel) {
          MadeIsFresh(content, fs, Walk(root, dir), names, rel, sig, entries[key].1);
        }
        return entries[key].1;
      }
      cfg := ParseDir(content, fs, root, dir);
      entries := entries[key := (sig, cfg)];
      forall r, d | '\0' !in r && Key(r, d) in entries
        ensures Made(content, r, Walk(r, d), entries[Key(r, d)].0, entries[Key(r, d)].1)
      {
        if Key(r, d) == key {
          KeyDetermines(r, d, root, dir);
        }
      }
    }
  }

  method RequestDir(ghost names: seq<string>, root: string, urlPath: string) returns (dir: string)
    requires AllProper(names) && root == Render(names)
    ensures dir == Render(names + RequestNames(urlPath))
  {
    var rel := RequestNames(urlPath);
    RequestNamesProper(urlPath);
    dir := root;
    assert names + rel[..0] == names;
    for i := 0 to |rel|
      invariant dir == Render(names + rel[..i])
    {
      assert names + rel[..i + 1] == (names + rel[..i]) + [rel[i]];
      RenderBelow(names + rel[..i], rel[i]);
      dir := Below(dir, rel[i]);
    }
    assert rel[..|rel|] == rel;
  }
}
