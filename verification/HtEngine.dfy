/** The rewrite engine: redirects, then up to ten passes over the rules, on a mutable URL. */
module HtEngine {
  import opened Text
  import opened HtPath

  const MAX_PASSES := 10

  datatype Flags = Flags(noCase: bool, last: bool, end: bool, redirect: int, forbidden: bool, gone: bool, qsa: bool, qsd: bool)

  /** A condition; what it tests is the server's business. */
  datatype Cond = Cond(test: string, pattern: string, orNext: bool)

  datatype Rule = Rule(pattern: string, sub: string, flags: Flags, conds: seq<Cond>)

  /** pattern is set for RedirectMatch, and missing there if it does not compile. */
  datatype Redirect = Redirect(regex: bool, status: int, from: string, target: string, compiles: bool)

  datatype Config = Config(engine: bool, base: string, dirUrl: string, rules: seq<Rule>, redirects: seq<Redirect>,
                           fileDenies: seq<string>, denyAll: bool)

  /** The URL being rewritten and the groups of the last matching rule and condition. */
  datatype Url = Url(path: string, query: string, ruleRefs: seq<string>, subRefs: seq<string>)

  datatype Verdict = Verdict(path: string, query: string, redirect: string, status: int)

  const UNCHANGED := Verdict("", "", "", 0)

  /** Regular expressions, condition tests, variable expansion and file patterns, as the server answers them. */
  datatype World = World(
    search: (string, bool, string) -> Option<seq<string>>,
    holds: (Cond, Url) -> bool,
    groups: (Cond, Url) -> Option<seq<string>>,
    expand: (Url, string) -> string,
    denies: (string, string) -> bool)

  // ---------------------------------------------------------------- text helpers

  function TrimSlash(s: string): string {
    if s != [] && s[|s| - 1] == '/' then s[..|s| - 1] else s
  }

  predicate Absolute(s: string) {
    "http://" <= s || "https://" <= s || "//" <= s
  }

  /** Position of the first '?', |s| if there is none. */
  function QueryAt(s: string): (i: nat)
    ensures i <= |s|
  {
    if s == [] || s[0] == '?' then 0 else 1 + QueryAt(s[1..])
  }

  /** The path a per-directory pattern is matched against. */
  function Subject(dirUrl: string, path: string): string {
    var p := if dirUrl != "" && dirUrl != "/" && dirUrl + "/" <= path then TrimPrefix(path, dirUrl) else path;
    TrimPrefix(p, "/")
  }

  // ---------------------------------------------------------------- one rule

  function Note(w: World, c: Cond, u: Url): Url {
    var m := w.groups(c, u);
    if m.Some? then u.(subRefs := m.value) else u
  }

  /** The conditions from i on: a flagged one is paired with the next, which counts only if it fails. */
  function CondsFrom(w: World, conds: seq<Cond>, i: nat, u: Url): (bool, Url)
    decreases |conds| - i
  {
    if i >= |conds| then (true, u)
    else
      var c := conds[i];
      var pass := w.holds(c, u);
      var v := if pass then Note(w, c, u) else u;
      if c.orNext && i + 1 < |conds| then
        if pass then CondsFrom(w, conds, i + 2, v)
        else if w.holds(conds[i + 1], v) then CondsFrom(w, conds, i + 2, Note(w, conds[i + 1], v))
        else (false, v)
      else if pass then CondsFrom(w, conds, i + 1, v)
      else (false, v)
  }

  function NewQuery(flags: Flags, sub: string, query: string): string {
    var at := QueryAt(sub);
    var given := if at < |sub| then sub[at + 1..] else query;
    var joined := if flags.qsa && query != "" && given != query
                  then (if given == "" then query else given + "&" + query) else given;
    if flags.qsd then "" else joined
  }

  function NewPath(cfg: Config, sub: string): string {
    var given := sub[..QueryAt(sub)];
    var full := if "/" <= given || Absolute(given) then given
                else
                  var prefix := if cfg.base != "" then cfg.base else if cfg.dirUrl != "" then cfg.dirUrl else "/";
                  TrimSlash(prefix) + "/" + TrimPrefix(given, "/");
    CleanRooted(TrimPrefix(full, "/"))
  }

  /** What one rule did: the URL after it, its verdict, whether the pass ends, whether it matched. */
  datatype Step = Step(url: Url, verdict: Verdict, done: bool, matched: bool)

  /** The rule's pattern has matched and its groups are set. */
  function Fire(w: World, cfg: Config, rule: Rule, u: Url): Step {
    var f := rule.flags;
    if f.forbidden then Step(u, UNCHANGED.(status := 403), true, true)
    else if f.gone then Step(u, UNCHANGED.(status := 410), true, true)
    else
      var sub := w.expand(u, rule.sub);
      if f.redirect != 0 || Absolute(sub) then
        var status := if f.redirect == 0 then 302 else f.redirect;
        var target := if f.qsa && u.query != "" && '?' !in sub then sub + "?" + u.query else sub;
        Step(u, UNCHANGED.(redirect := target, status := status), true, true)
      else if sub == "-" then Step(u, UNCHANGED, f.last, true)
      else Step(u.(path := NewPath(cfg, sub), query := NewQuery(f, sub, u.query)), UNCHANGED, f.last || f.end, true)
  }

  function ApplyRule(w: World, cfg: Config, rule: Rule, u: Url): Step {
    var (pass, v) := CondsFrom(w, rule.conds, 0, u);
    if !pass then Step(v, UNCHANGED, false, false)
    else
      var m := w.search(rule.pattern, rule.flags.noCase, Subject(cfg.dirUrl, v.path));
      if m.None? then Step(v, UNCHANGED, false, false)
      else Fire(w, cfg, rule, v.(ruleRefs := m.value))
  }

  // ---------------------------------------------------------------- passes over the rules

  predicate Final(v: Verdict) {
    v.status == 403 || v.status == 410 || v.redirect != ""
  }

  /** The end of a pass: a final verdict, or whether to stop and whether anything matched. */
  datatype PassEnd = PassEnd(url: Url, verdict: Verdict, stop: bool, changed: bool, applied: nat)

  function PassFrom(w: World, cfg: Config, i: nat, u: Url, changed: bool, applied: nat): PassEnd
    requires i <= |cfg.rules|
    decreases |cfg.rules| - i
  {
    if i == |cfg.rules| then PassEnd(u, UNCHANGED, false, changed, applied)
    else
      var s := ApplyRule(w, cfg, cfg.rules[i], u);
      if Final(s.verdict) then PassEnd(s.url, s.verdict, true, true, applied + 1)
      else if s.done then PassEnd(s.url, UNCHANGED, true, changed || s.matched, applied + 1)
      else PassFrom(w, cfg, i + 1, s.url, changed || s.matched, applied + 1)
  }

  /** At most so many passes more. */
  function Passes(w: World, cfg: Config, left: nat, u: Url, applied: nat): PassEnd {
    if left == 0 then PassEnd(u, UNCHANGED, false, false, applied)
    else
      var p := PassFrom(w, cfg, 0, u, false, applied);
      if Final(p.verdict) || p.stop || !p.changed then p
      else Passes(w, cfg, left - 1, p.url, p.applied)
  }

  lemma PassesTurn(w: World, cfg: Config, left: nat, u: Url, applied: nat, p: PassEnd)
    requires left > 0 && p == PassFrom(w, cfg, 0, u, false, applied)
    ensures Passes(w, cfg, left, u, applied) ==
            if Final(p.verdict) || p.stop || !p.changed then p else Passes(w, cfg, left - 1, p.url, p.applied)
  {
  }

  /** The loop has ended like the specification: what it decided counts only if it is final. */
  ghost predicate Ends(p: PassEnd, u: Url, verdict: Verdict, applied: nat) {
    && applied == p.applied && u == p.url
    && Final(verdict) == Final(p.verdict) && (Final(verdict) ==> verdict == p.verdict)
  }

  /** The answer of the rewrite phase. */
  function Rewrite(w: World, cfg: Config, path: string, query: string): Verdict {
    var p := Passes(w, cfg, MAX_PASSES, Url(path, query, [], []), 0);
    if Final(p.verdict) then p.verdict
    else if p.url.path == path && p.url.query == query then UNCHANGED
    else UNCHANGED.(path := p.url.path, query := p.url.query)
  }

  lemma FireClean(w: World, cfg: Config, rule: Rule, u: Url)
    requires IsClean(u.path)
    ensures IsClean(Fire(w, cfg, rule, u).url.path)
    ensures var v := Fire(w, cfg, rule, u).verdict; v.path == "" && v.query == ""
  {
    var s := Fire(w, cfg, rule, u);
    if s.url.path != u.path {
      NewPathClean(cfg, w.expand(u, rule.sub));
    }
  }

  lemma NewPathClean(cfg: Config, sub: string)
    ensures IsClean(NewPath(cfg, sub))
  {
    var given := sub[..QueryAt(sub)];
    var prefix := if cfg.base != "" then cfg.base else if cfg.dirUrl != "" then cfg.dirUrl else "/";
    var full := if "/" <= given || Absolute(given) then given else TrimSlash(prefix) + "/" + TrimPrefix(given, "/");
    CleanIsClean(TrimPrefix(full, "/"));
  }

  lemma {:induction false} CondsKeepUrl(w: World, conds: seq<Cond>, i: nat, u: Url)
    ensures var v := CondsFrom(w, conds, i, u).1; v.path == u.path && v.query == u.query
    decreases |conds| - i
  {
    if i < |conds| {
      var c := conds[i];
      var pass := w.holds(c, u);
      var v := if pass then Note(w, c, u) else u;
      if c.orNext && i + 1 < |conds| {
        CondsKeepUrl(w, conds, i + 2, if pass then v else Note(w, conds[i + 1], v));
      } else {
        CondsKeepUrl(w, conds, i + 1, v);
      }
    }
  }

  lemma RuleClean(w: World, cfg: Config, rule: Rule, u: Url)
    requires IsClean(u.path)
    ensures var s := ApplyRule(w, cfg, rule, u);
            IsClean(s.url.path) && s.verdict.path == "" && s.verdict.query == ""
  {
    CondsKeepUrl(w, rule.conds, 0, u);
    var v := CondsFrom(w, rule.conds, 0, u).1;
    var m := w.search(rule.pattern, rule.flags.noCase, Subject(cfg.dirUrl, v.path));
    if m.Some? {
      FireClean(w, cfg, rule, v.(ruleRefs := m.value));
    }
  }

  lemma {:induction false} PassClean(w: World, cfg: Config, i: nat, u: Url, changed: bool, applied: nat)
    requires i <= |cfg.rules| && IsClean(u.path)
    ensures var p := PassFrom(w, cfg, i, u, changed, applied);
            && IsClean(p.url.path) && p.verdict.path == "" && p.verdict.query == ""
            && applied <= p.applied <= applied + |cfg.rules| - i
    decreases |cfg.rules| - i
  {
    if i < |cfg.rules| {
      RuleClean(w, cfg, cfg.rules[i], u);
      var s := ApplyRule(w, cfg, cfg.rules[i], u);
      if !Final(s.verdict) && !s.done {
        PassClean(w, cfg, i + 1, s.url, changed || s.matched, applied + 1);
      }
    }
  }

  /** No more than the passes times the number of rules are applied, and every URL on the way is clean. */
  lemma {:induction false} PassesClean(w: World, cfg: Config, left: nat, u: Url, applied: nat)
    requires IsClean(u.path)
    ensures var p := Passes(w, cfg, left, u, applied);
            && IsClean(p.url.path) && p.verdict.path == "" && p.verdict.query == ""
            && p.applied <= applied + left * |cfg.rules|
  {
    if left > 0 {
      PassClean(w, cfg, 0, u, false, applied);
      var p := PassFrom(w, cfg, 0, u, false, applied);
      var n := |cfg.rules|;
      assert left * n == (left - 1) * n + n && (left - 1) * n >= 0;
      if !Final(p.verdict) && !p.stop && p.changed {
        PassesClean(w, cfg, left - 1, p.url, p.applied);
      }
    }
  }

  /**
   * From a clean rooted path the phase hands back no path or a clean rooted one; it hands back
   * neither path nor query exactly when it redirects, refuses or ends where it began.
   */
  lemma RewriteClean(w: World, cfg: Config, path: string, query: string)
    requires IsClean(path)
    ensures var v := Rewrite(w, cfg, path, query);
            && (v.path != "" ==> IsClean(v.path) && !Final(v))
            && (v.path == "" ==> v.query == "")
    ensures var p := Passes(w, cfg, MAX_PASSES, Url(path, query, [], []), 0);
            && p.applied <= MAX_PASSES * |cfg.rules|
            && (!Final(p.verdict) ==>
                  (Rewrite(w, cfg, path, query) == UNCHANGED <==> p.url.path == path && p.url.query == query))
  {
    PassesClean(w, cfg, MAX_PASSES, Url(path, query, [], []), 0);
  }

  // ---------------------------------------------------------------- the whole engine

  /** Whether a redirect applies, with the groups of its pattern. */
  function RedirectHit(w: World, rd: Redirect, path: string): Option<seq<string>> {
    if rd.regex then (if rd.compiles then w.search(rd.from, false, path) else None)
    else if rd.from == "/" || path == rd.from || rd.from + "/" <= path then Some([])
    else None
  }

  function RedirectTo(w: World, rd: Redirect, refs: seq<string>, path: string, query: string): Verdict {
    if rd.status == 410 then UNCHANGED.(status := 410)
    else
      var target := w.expand(Url(path, query, refs, []), rd.target);
      var rest := if !rd.regex && rd.from != "/" && |path| > |rd.from| then TrimPrefix(path, rd.from) else "";
      UNCHANGED.(redirect := target + rest, status := rd.status)
  }

  /** The verdict of the first redirect that applies. */
  function FirstRedirect(w: World, rds: seq<Redirect>, path: string, query: string): Option<Verdict> {
    if rds == [] then None
    else
      var hit := RedirectHit(w, rds[0], path);
      if hit.Some? then Some(RedirectTo(w, rds[0], hit.value, path, query))
      else FirstRedirect(w, rds[1..], path, query)
  }

  predicate Denied(w: World, patterns: seq<string>, path: string) {
    exists i :: 0 <= i < |patterns| && w.denies(patterns[i], path)
  }

  function Answer(w: World, cfg: Option<Config>, path: string, query: string): Verdict {
    if cfg.None? then UNCHANGED
    else
      var c := cfg.value;
      if c.denyAll || Denied(w, c.fileDenies, path) then UNCHANGED.(status := 403)
      else
        var first := FirstRedirect(w, c.redirects, path, query);
        if first.Some? then first.value
        else if !c.engine then UNCHANGED
        else Rewrite(w, c, path, query)
  }

  /** Every path the engine hands back is rooted and clean. */
  lemma AnswerClean(w: World, cfg: Option<Config>, path: string, query: string)
    requires IsClean(path)
    ensures var v := Answer(w, cfg, path, query); v.path != "" ==> IsClean(v.path)
  {
    if cfg.Some? {
      RewriteClean(w, cfg.value, path, query);
      RedirectsHaveNoPath(w, cfg.value.redirects, path, query);
    }
  }

  lemma {:induction false} RedirectsHaveNoPath(w: World, rds: seq<Redirect>, path: string, query: string)
    ensures var r := FirstRedirect(w, rds, path, query); r.Some? ==> r.value.path == ""
  {
    if rds != [] {
      RedirectsHaveNoPath(w, rds[1..], path, query);
    }
  }

  class Context {
    var path: string
    var query: string
    var ruleRefs: seq<string>
    var subRefs: seq<string>

    ghost function Now(): Url reads this {
      Url(path, query, ruleRefs, subRefs)
    }

    constructor (path: string, query: string)
      ensures Now() == Url(path, query, [], [])
    {
      this.path, this.query, ruleRefs, subRefs := path, query, [], [];
    }

    method NoteGroups(w: World, c: Cond)
      modifies this`subRefs
      ensures Now() == Note(w, c, old(Now()))
    {
      var m := w.groups(c, Url(path, query, ruleRefs, subRefs));
      if m.Some? {
        subRefs := m.value;
      }
    }

    method CheckConds(w: World, conds: seq<Cond>) returns (ok: bool)
      modifies this`subRefs
      ensures (ok, Now()) == CondsFrom(w, conds, 0, old(Now()))
    {
      var i := 0;
      while i < |conds|
        invariant 0 <= i <= |conds| + 1
        invariant CondsFrom(w, conds, i, Now()) == CondsFrom(w, conds, 0, old(Now()))
        invariant path == old(path) && query == old(query) && ruleRefs == old(ruleRefs)
        decreases |conds| - i
      {
        var c := conds[i];
        var pass := w.holds(c, Url(path, query, ruleRefs, subRefs));
        if pass {
          NoteGroups(w, c);
        }
        if c.orNext && i + 1 < |conds| {
          if !pass {
            if w.holds(conds[i + 1], Url(path, query, ruleRefs, subRefs)) {
              pass := true;
              NoteGroups(w, conds[i + 1]);
            }
          }
          i := i + 1;
        }
        if !pass {
          return false;
        }
        i := i + 1;
      }
      return true;
    }

    method Apply(w: World, cfg: Config, rule: Rule) returns (verdict: Verdict, done: bool, matched: bool)
      modifies this
      ensures Step(Now(), verdict, done, matched) == ApplyRule(w, cfg, rule, old(Now()))
    {
      var ok := CheckConds(w, rule.conds);
      if !ok {
        return UNCHANGED, false, false;
      }
      var m := w.search(rule.pattern, rule.flags.noCase, Subject(cfg.dirUrl, path));
      if m.None? {
        return UNCHANGED, false, false;
      }
      ruleRefs := m.value;
      if rule.flags.forbidden {
        return UNCHANGED.(status := 403), true, true;
      }
      if rule.flags.gone {
        return UNCHANGED.(status := 410), true, true;
      }
      var sub := w.expand(Url(path, query, ruleRefs, subRefs), rule.sub);
      if rule.flags.redirect != 0 || Absolute(sub) {
        var status := if rule.flags.redirect == 0 then 302 else rule.flags.redirect;
        if rule.flags.qsa && query != "" && '?' !in sub {
          sub := sub + "?" + query;
        }
        return UNCHANGED.(redirect := sub, status := status), true, true;
      }
      if sub == "-" {
        return UNCHANGED, rule.flags.last, true;
      }
      path, query := NewPath(cfg, sub), NewQuery(rule.flags, sub, query);
      return UNCHANGED, rule.flags.last || rule.flags.end, true;
    }

    method OnePass(w: World, cfg: Config, count: nat)
      returns (verdict: Verdict, stop: bool, changed: bool, applied: nat)
      modifies this
      ensures var p := PassFrom(w, cfg, 0, old(Now()), false, count);
              && Ends(p, Now(), verdict, applied) && (!Final(verdict) ==> stop == p.stop && changed == p.changed)
    {
      changed, stop, applied := false, false, count;
      for i := 0 to |cfg.rules|
        invariant PassFrom(w, cfg, i, Now(), changed, applied) == PassFrom(w, cfg, 0, old(Now()), false, count)
        invariant !stop
      {
        var res, done, matched := Apply(w, cfg, cfg.rules[i]);
        applied := applied + 1;
        changed := changed || matched;
        if Final(res) {
          return res, true, changed, applied;
        }
        if done {
          return UNCHANGED, true, changed, applied;
        }
      }
      verdict := UNCHANGED;
    }

    /** One turn of the loop over the passes: it decides the whole, or the whole goes on with the next pass. */
    method NextPass(w: World, cfg: Config, ghost left: nat, count: nat, ghost whole: PassEnd)
      returns (verdict: Verdict, stop: bool, changed: bool, applied: nat)
      requires left > 0 && Passes(w, cfg, left, Now(), count) == whole
      modifies this
      ensures if Final(verdict) || stop || !changed then Ends(whole, Now(), verdict, applied)
              else Passes(w, cfg, left - 1, Now(), applied) == whole
    {
      ghost var p := PassFrom(w, cfg, 0, Now(), false, count);
      PassesTurn(w, cfg, left, Now(), count, p);
      verdict, stop, changed, applied := OnePass(w, cfg, count);
    }

    method AllPasses(w: World, cfg: Config, passes: nat) returns (verdict: Verdict, applied: nat)
      modifies this
      ensures Ends(Passes(w, cfg, passes, old(Now()), 0), Now(), verdict, applied)
    {
      applied := 0;
      ghost var whole := Passes(w, cfg, passes, Now(), 0);
      for pass := 0 to passes
        invariant Passes(w, cfg, passes - pass, Now(), applied) == whole
      {
        var stop, changed;
        verdict, stop, changed, applied := NextPass(w, cfg, passes - pass, applied, whole);
        if Final(verdict) || stop || !changed {
          return;
        }
      }
      verdict := UNCHANGED;
    }
  }

  method Engine(w: World, cfg: Option<Config>, path: string, query: string) returns (v: Verdict, applied: nat)
    ensures v == Answer(w, cfg, path, query)
    ensures IsClean(path) && cfg.Some? ==> applied <= MAX_PASSES * |cfg.value.rules|
    ensures IsClean(path) && v.path != "" ==> IsClean(v.path)
  {
    applied := 0;
    if IsClean(path) {
      AnswerClean(w, cfg, path, query);
    }
    if cfg.None? {
      return UNCHANGED, 0;
    }
    var c := cfg.value;
    if c.denyAll || Denied(w, c.fileDenies, path) {
      return UNCHANGED.(status := 403), 0;
    }
    for i := 0 to |c.redirects|
      invariant FirstRedirect(w, c.redirects, path, query) == FirstRedirect(w, c.redirects[i..], path, query)
    {
      assert c.redirects[i..][0] == c.redirects[i] && c.redirects[i..][1..] == c.redirects[i + 1..];
      var hit := RedirectHit(w, c.redirects[i], path);
      if hit.Some? {
        return RedirectTo(w, c.redirects[i], hit.value, path, query), 0;
      }
    }
    if !c.engine {
      return UNCHANGED, 0;
    }
    v, applied := RewritePhase(w, c, path, query);
    if IsClean(path) {
      RewriteClean(w, c, path, query);
    }
  }

  method RewritePhase(w: World, cfg: Config, path: string, query: string) returns (v: Verdict, applied: nat)
    ensures v == Rewrite(w, cfg, path, query)
    ensures applied == Passes(w, cfg, MAX_PASSES, Url(path, query, [], []), 0).applied
  {
    var ctx := new Context(path, query);
    var verdict;
    verdict, applied := ctx.AllPasses(w, cfg, MAX_PASSES);
    if Final(verdict) {
      return verdict, applied;
    }
    if ctx.path == path && ctx.query == query {
      return UNCHANGED, applied;
    }
    return UNCHANGED.(path := ctx.path, query := ctx.query), applied;
  }
}
