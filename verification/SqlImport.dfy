/** Importing a script: statements are run one at a time as the stream is scanned. */
module SqlImport {
  import opened Text
  import opened SqlScan
  import opened StmtScanner
  import SqlPrefix

  /** Runs a statement after those already run: the rows it affected, or None when it is refused. */
  type Runner = (seq<string>, string) -> Option<int>

  /** The server; the flag says whether it checks foreign keys. */
  type Server = (bool, seq<string>, string) -> Option<int>

  function RunnerOf(server: Server, checks: bool): Runner {
    (done: seq<string>, stmt: string) => server(checks, done, stmt)
  }

  /** What is reported: statements run, rows affected, the number of the failing one or 0, success. */
  datatype Outcome = Outcome(statements: nat, affected: nat, failedAt: nat, ok: bool)

  const FAILED := Outcome(0, 0, 0, false)

  /** How many statements of the script run before one is refused. */
  function Accepted(run: Runner, done: seq<string>, stmts: seq<string>): (n: nat)
    ensures n <= |stmts|
    decreases |stmts|
  {
    if stmts == [] || run(done, stmts[0]).None? then 0
    else 1 + Accepted(run, done + [stmts[0]], stmts[1..])
  }

  function Positive(rows: int): nat {
    if rows > 0 then rows else 0
  }

  /** The rows they affect. */
  function Affected(run: Runner, done: seq<string>, stmts: seq<string>): nat
    decreases |stmts|
  {
    if stmts == [] || run(done, stmts[0]).None? then 0
    else Positive(run(done, stmts[0]).value) + Affected(run, done + [stmts[0]], stmts[1..])
  }

  /** Every statement counted is accepted in its turn, and the next one, if any, is refused. */
  lemma {:induction false} AcceptedIsFirstRefusal(run: Runner, done: seq<string>, stmts: seq<string>, i: nat)
    requires i < |stmts|
    ensures i < Accepted(run, done, stmts) ==> run(done + stmts[..i], stmts[i]).Some?
    ensures i == Accepted(run, done, stmts) ==> run(done + stmts[..i], stmts[i]).None?
    decreases |stmts|
  {
    if i == 0 {
      assert done + stmts[..0] == done;
    } else if run(done, stmts[0]).Some? {
      AcceptedIsFirstRefusal(run, done + [stmts[0]], stmts[1..], i - 1);
      assert (done + [stmts[0]]) + stmts[1..][..i - 1] == done + stmts[..i];
    }
  }

  /** ran has been run, and what the scanner still gives is the rest of the script. */
  ghost predicate Progress(
    run: Runner, done: seq<string>, script: Script, ran: seq<string>, affected: nat, left: Script) {
    && script.stmts == ran + left.stmts && script.end == left.end
    && Accepted(run, done, script.stmts) == |ran| + Accepted(run, done + ran, left.stmts)
    && Affected(run, done, script.stmts) == affected + Affected(run, done + ran, left.stmts)
  }

  lemma ProgressBegins(run: Runner, done: seq<string>, script: Script)
    ensures Progress(run, done, script, [], 0, script)
  {
    assert [] + script.stmts == script.stmts && done + [] == done;
  }

  lemma ProgressOn(
    run: Runner, done: seq<string>, script: Script, ran: seq<string>, affected: nat, t: string, left: Script)
    requires Progress(run, done, script, ran, affected, Script([t] + left.stmts, left.end))
    requires run(done + ran, t).Some?
    ensures Progress(run, done, script, ran + [t], affected + Positive(run(done + ran, t).value), left)
  {
    Assoc(ran, [t], left.stmts);
    Assoc(done, ran, [t]);
    assert ([t] + left.stmts)[1..] == left.stmts;
  }

  lemma ProgressEnds(run: Runner, done: seq<string>, script: Script, ran: seq<string>, affected: nat, left: Script)
    requires Progress(run, done, script, ran, affected, left)
    requires left.stmts == [] || run(done + ran, left.stmts[0]).None?
    ensures Accepted(run, done, script.stmts) == |ran| && script.stmts[..|ran|] == ran
    ensures Affected(run, done, script.stmts) == affected
    ensures |ran| == |script.stmts| <==> left.stmts == []
  {
  }

  /** One turn of the loop: a statement that ran, or the end and whether it is that of the script. */
  datatype Turn = Ran(text: string, rows: int) | Ended(whole: bool)

  method NextTurn(run: Runner, done: seq<string>, ran: seq<string>, ghost affected: nat, sc: Scanner, ghost script: Script)
    returns (t: Turn)
    requires sc.Valid() && !sc.content && Progress(run, done, script, ran, affected, sc.Left())
    modifies sc, sc.r
    ensures t.Ran? ==>
              && sc.Valid() && !sc.content && |sc.r.rest| < old(|sc.r.rest|)
              && Progress(run, done, script, ran + [t.text], affected + Positive(t.rows), sc.Left())
    ensures t.Ended? ==> var n := Accepted(run, done, script.stmts);
              && ran == script.stmts[..n] && affected == Affected(run, done, script.stmts)
              && (t.whole <==> n == |script.stmts| && script.end == AtEof)
  {
    ghost var left := sc.Left();
    var res := sc.Advance();
    if !res.Statement? {
      ProgressEnds(run, done, script, ran, affected, left);
      return Ended(res.EndOfInput?);
    }
    var rows := run(done + ran, res.text);
    if rows.None? {
      ProgressEnds(run, done, script, ran, affected, left);
      return Ended(false);
    }
    ProgressOn(run, done, script, ran, affected, res.text, sc.Left());
    return Ran(res.text, rows.value);
  }

  /** The scanning loop: runs statements until one is refused or the stream ends. */
  method RunScript(run: Runner, done: seq<string>, chunks: seq<string>, fails: bool, mysql: bool, max: nat)
    returns (ran: seq<string>, affected: nat, whole: bool)
    requires NoneEmpty(chunks)
    ensures var script := Run(Config(mysql, max, fails), Start(Concat(chunks)));
            var n := Accepted(run, done, script.stmts);
            && ran == script.stmts[..n] && affected == Affected(run, done, script.stmts)
            && (whole <==> n == |script.stmts| && script.end == AtEof)
  {
    var reader := new Reader(chunks, fails);
    var sc := new Scanner(reader, mysql, max);
    ghost var script := sc.Left();
    ran, affected := [], 0;
    ProgressBegins(run, done, script);
    while true
      invariant sc.Valid() && fresh(sc) && fresh(sc.r) && !sc.content
      invariant Progress(run, done, script, ran, affected, sc.Left())
      decreases |sc.r.rest|
    {
      var t := NextTurn(run, done, ran, affected, sc, script);
      if t.Ended? {
        return ran, affected, t.whole;
      }
      ran, affected := ran + [t.text], affected + Positive(t.rows);
    }
  }

  /** What the database holds for good, and whether it checks foreign keys. */
  class Database {
    var applied: seq<string>
    var checks: bool

    constructor ()
      ensures applied == [] && checks
    {
      applied, checks := [], true;
    }

    /** SET FOREIGN_KEY_CHECKS; that it fails is ignored. */
    method SwitchChecks(on: bool, obeyed: bool)
      modifies this`checks
      ensures checks == if obeyed then on else old(checks)
    {
      if obeyed {
        checks := on;
      }
    }

    /**
     * PostgreSQL applies all statements or none; MySQL keeps those before a failure and has its
     * foreign key checks on again at every end.
     */
    method Import(server: Server, chunks: seq<string>, fails: bool, mysql: bool, max: nat,
                  begins: bool, commits: bool, switchesOff: bool, switchesOn: bool) returns (r: Outcome)
      requires NoneEmpty(chunks)
      modifies this
      ensures var script := Run(Config(mysql, max, fails), Start(Concat(chunks)));
              var run := RunnerOf(server, old(checks) && (!mysql || !switchesOff));
              var n, affected := Accepted(run, old(applied), script.stmts), Affected(run, old(applied), script.stmts);
              var whole := n == |script.stmts| && script.end == AtEof;
              && r == (if !mysql && !begins then FAILED
                       else if !whole then (if mysql then Outcome(n, affected, n + 1, false) else Outcome(0, 0, n + 1, false))
                       else if n == 0 then FAILED
                       else Outcome(n, affected, 0, mysql || commits))
              && applied == old(applied) + (if mysql || r.ok then script.stmts[..n] else [])
      ensures checks == if mysql && switchesOn then true else old(checks) && (!mysql || !switchesOff)
    {
      if !mysql && !begins {
        return FAILED;
      }
      if mysql {
        SwitchChecks(false, switchesOff);
      }
      var ran, affected, whole := RunScript(RunnerOf(server, checks), applied, chunks, fails, mysql, max);
      if mysql {
        applied := applied + ran;
        SwitchChecks(true, switchesOn);
      }
      if !whole {
        return if mysql then Outcome(|ran|, affected, |ran| + 1, false) else Outcome(0, 0, |ran| + 1, false);
      }
      if |ran| == 0 {
        return FAILED;
      }
      if !mysql {
        if !commits {
          return Outcome(|ran|, affected, 0, false);
        }
        applied := applied + ran;
      }
      return Outcome(|ran|, affected, 0, true);
    }
  }

  /** What a broken stream gets run is a prefix of the script it was cut from, and never counts as done. */
  lemma BrokenImportRunsAPrefix(run: Runner, before: seq<string>, mysql: bool, max: nat, text: string, x: string)
    requires mysql ==> SqlPrefix.AllSafe(Config(mysql, max, false), Start(text + x))
    ensures var broken := Run(Config(mysql, max, true), Start(text));
            var whole := Run(Config(mysql, max, false), Start(text + x));
            var n := Accepted(run, before, broken.stmts);
            broken.end != AtEof && n <= |whole.stmts| && broken.stmts[..n] == whole.stmts[..n]
            && n <= Accepted(run, before, whole.stmts)
  {
    SqlPrefix.BrokenScript(mysql, max, text, x);
    var broken := Run(Config(mysql, max, true), Start(text)).stmts;
    var whole := Run(Config(mysql, max, false), Start(text + x)).stmts;
    AcceptedMore(run, before, broken, whole);
  }

  lemma {:induction false} AcceptedMore(run: Runner, done: seq<string>, a: seq<string>, b: seq<string>)
    requires a <= b
    ensures Accepted(run, done, a) <= Accepted(run, done, b)
    decreases |a|
  {
    if a != [] && run(done, a[0]).Some? {
      AcceptedMore(run, done + [a[0]], a[1..], b[1..]);
    }
  }
}
