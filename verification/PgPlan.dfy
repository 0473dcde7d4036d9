/** The planner of PostgreSQL column changes, run on an abstract catalog. */
module PgPlan {
  import opened Text
  import opened PgDefault
  import opened PgType

  // ---------------------------------------------------------------- the plan

  /** A column as the catalog shows it; an empty comment is no comment. */
  datatype Column = Column(name: string, typ: string, nullable: bool, default: Option<string>, auto: bool, comment: string)

  /** The requested column, with its type rendered. */
  datatype Wanted = Wanted(name: string, typ: string, cat: Category, stamp: bool, nullable: bool,
                           default: Default, auto: bool, comment: string)

  /** The statements of a plan, without the table name and the quoting. */
  datatype Statement =
    | Rename(column: string, to: string)
    | SetType(column: string, typ: string)
    | SetNotNull(column: string)
    | DropNotNull(column: string)
    | SetDefault(column: string, clause: string)
    | DropDefault(column: string)
    | SetComment(column: string, comment: Option<string>)

  datatype PlanError = NoColumn | NameTaken | BadName | BadType | BadDefault | NotSerial | AutoIncrement | NothingToChange

  /** The rendered default clause of a request that passed its checks, or what is wrong with it. */
  datatype Checked = Good(value: string) | Bad(error: PlanError)

  datatype Plan = Statements(list: seq<Statement>) | Refused(error: PlanError)

  ghost predicate Distinct(cols: seq<Column>) {
    forall i, j :: 0 <= i < j < |cols| ==> cols[i].name != cols[j].name
  }

  /** Position of the named column, |cols| if there is none. */
  function Find(cols: seq<Column>, name: string): (i: nat)
    ensures i <= |cols|
    ensures i < |cols| ==> cols[i].name == name
    ensures forall j :: 0 <= j < i ==> cols[j].name != name
  {
    if cols == [] || cols[0].name == name then 0 else 1 + Find(cols[1..], name)
  }

  /** How the catalog writes down a type and a default it is given. */
  datatype Catalog = Catalog(typeText: string -> string, defaultText: string -> Option<string>)

  /** The column after a statement on it. */
  function Changed(cat: Catalog, c: Column, s: Statement): Column {
    match s
    case Rename(_, to) => c.(name := to)
    case SetType(_, typ) => c.(typ := cat.typeText(typ))
    case SetNotNull(_) => c.(nullable := false)
    case DropNotNull(_) => c.(nullable := true)
    case SetDefault(_, clause) => c.(default := cat.defaultText(clause))
    case DropDefault(_) => c.(default := None)
    case SetComment(_, comment) => c.(comment := if comment.Some? then comment.value else "")
  }

  /** Runs one statement; it fails on a column that is not there or a new name that is taken. */
  function Exec(cat: Catalog, cols: seq<Column>, s: Statement): Option<seq<Column>> {
    var i := Find(cols, s.column);
    if i == |cols| then None
    else if s.Rename? && Find(cols, s.to) < |cols| then None
    else Some(cols[i := Changed(cat, cols[i], s)])
  }

  function ExecAll(cat: Catalog, cols: seq<Column>, plan: seq<Statement>): Option<seq<Column>>
    decreases |plan|
  {
    if plan == [] then Some(cols)
    else
      match Exec(cat, cols, plan[0])
      case None => None
      case Some(next) => ExecAll(cat, next, plan[1..])
  }

  function DefaultOf(c: Column): string {
    if c.default.Some? then c.default.value else ""
  }

  function If(b: bool, s: Statement): seq<Statement> {
    if b then [s] else []
  }

  /** How types are compared and defaults made comparable; a parameter of what does not look inside. */
  datatype Ruler = Ruler(same: (string, string) -> bool, norm: string -> string)

  const POSTGRES := Ruler(SameType, NormDefault)

  function TypeStep(r: Ruler, cur: Column, want: Wanted): seq<Statement> {
    If(!want.auto && !r.same(cur.typ, want.typ), SetType(want.name, want.typ))
  }

  function NullStep(cur: Column, want: Wanted): seq<Statement> {
    If(!want.auto && want.nullable != cur.nullable, if want.nullable then DropNotNull(want.name) else SetNotNull(want.name))
  }

  function DefaultStep(r: Ruler, cur: Column, want: Wanted, clause: string): seq<Statement> {
    If(!want.auto && r.norm(clause) != r.norm(DefaultOf(cur)),
       if clause == "" then DropDefault(want.name) else SetDefault(want.name, clause))
  }

  function CommentStep(cur: Column, want: Wanted): seq<Statement> {
    If(want.comment != cur.comment, SetComment(want.name, if want.comment == "" then None else Some(want.comment)))
  }

  function RenameStep(cur: Column, want: Wanted): seq<Statement> {
    If(want.name != cur.name, Rename(cur.name, want.name))
  }

  function PlanList(r: Ruler, cur: Column, want: Wanted, clause: string): seq<Statement> {
    RenameStep(cur, want)
    + (TypeStep(r, cur, want) + (NullStep(cur, want) + (DefaultStep(r, cur, want, clause) + CommentStep(cur, want))))
  }

  /** What the planner answers. */
  function PlanOf(r: Ruler, cols: seq<Column>, name: string, want: Wanted, clause: Checked): Plan {
    var i := Find(cols, name);
    if i == |cols| then Refused(NoColumn)
    else if want.name != name && Find(cols, want.name) < |cols| then Refused(NameTaken)
    else if clause.Bad? then Refused(clause.error)
    else if want.auto != cols[i].auto then Refused(AutoIncrement)
    else if PlanList(r, cols[i], want, clause.value) == [] then Refused(NothingToChange)
    else Statements(PlanList(r, cols[i], want, clause.value))
  }

  lemma Nest(a: seq<Statement>, b: seq<Statement>, c: seq<Statement>, d: seq<Statement>, e: seq<Statement>)
    ensures (a + (b + (c + d))) + e == a + (b + (c + (d + e)))
  {
  }

  method FindColumn(cols: seq<Column>, name: string) returns (at: nat)
    requires Distinct(cols)
    ensures at == Find(cols, name)
  {
    at := |cols|;
    for i := 0 to |cols|
      invariant at == if Find(cols, name) < i then Find(cols, name) else |cols|
    {
      if cols[i].name == name {
        at := i;
      }
    }
  }

  method PlanModify(r: Ruler, cols: seq<Column>, name: string, want: Wanted, clause: Checked) returns (p: Plan)
    requires Distinct(cols)
    ensures p == PlanOf(r, cols, name, want, clause)
  {
    var i := FindColumn(cols, name);
    if i == |cols| {
      return Refused(NoColumn);
    }
    var taken := FindColumn(cols, want.name);
    if want.name != name && taken < |cols| {
      return Refused(NameTaken);
    }
    if clause.Bad? {
      return Refused(clause.error);
    }
    if want.auto != cols[i].auto {
      return Refused(AutoIncrement);
    }
    var out := BuildPlan(r, cols[i], want, clause.value);
    if |out| == 0 {
      return Refused(NothingToChange);
    }
    return Statements(out);
  }

  method BuildPlan(r: Ruler, cur: Column, want: Wanted, clause: string) returns (out: seq<Statement>)
    ensures out == PlanList(r, cur, want, clause)
  {
    out := [];
    if want.name != cur.name {
      out := out + [Rename(cur.name, want.name)];
    }
    assert out == RenameStep(cur, want);
    var middle := BuildMiddle(r, cur, want, clause);
    out := out + middle;
    if want.comment != cur.comment {
      out := out + [SetComment(want.name, if want.comment == "" then None else Some(want.comment))];
    }
    Nest(RenameStep(cur, want), TypeStep(r, cur, want), NullStep(cur, want), DefaultStep(r, cur, want, clause), CommentStep(cur, want));
  }

  /** Type, nullability and default, which stay as they are for an auto-increment column. */
  method BuildMiddle(r: Ruler, cur: Column, want: Wanted, clause: string) returns (out: seq<Statement>)
    ensures out == TypeStep(r, cur, want) + (NullStep(cur, want) + DefaultStep(r, cur, want, clause))
  {
    out := [];
    if want.auto {
      return;
    }
    if !r.same(cur.typ, want.typ) {
      out := out + [SetType(want.name, want.typ)];
    }
    if want.nullable != cur.nullable {
      out := out + [if want.nullable then DropNotNull(want.name) else SetNotNull(want.name)];
    }
    if r.norm(clause) != r.norm(DefaultOf(cur)) {
      if clause == "" {
        out := out + [DropDefault(want.name)];
      } else {
        out := out + [SetDefault(want.name, clause)];
      }
    }
  }

  // ---------------------------------------------------------------- running the plan

  /** The column after a list of statements on it. */
  function After(cat: Catalog, c: Column, plan: seq<Statement>): Column
    decreases |plan|
  {
    if plan == [] then c else After(cat, Changed(cat, c, plan[0]), plan[1..])
  }

  /** Each statement names the column as it is called by then, and no new name is taken. */
  ghost predicate Aims(cat: Catalog, cols: seq<Column>, c: Column, plan: seq<Statement>)
    decreases |plan|
  {
    plan == [] ||
    (&& plan[0].column == c.name
     && (plan[0].Rename? ==> forall k :: 0 <= k < |cols| ==> cols[k].name != plan[0].to)
     && Aims(cat, cols, Changed(cat, c, plan[0]), plan[1..]))
  }

  lemma FindAt(cols: seq<Column>, i: nat)
    requires Distinct(cols) && i < |cols|
    ensures Find(cols, cols[i].name) == i
  {
  }

  lemma ExecOne(cat: Catalog, cols: seq<Column>, i: nat, s: Statement)
    requires Distinct(cols) && i < |cols| && s.column == cols[i].name
    requires s.Rename? ==> forall k :: 0 <= k < |cols| ==> cols[k].name != s.to
    ensures Exec(cat, cols, s) == Some(cols[i := Changed(cat, cols[i], s)])
    ensures Distinct(cols[i := Changed(cat, cols[i], s)])
  {
    FindAt(cols, i);
  }

  lemma {:induction false} Focus(cat: Catalog, cols: seq<Column>, names: seq<Column>, i: nat, plan: seq<Statement>)
    requires Distinct(cols) && i < |cols| && |names| == |cols|
    requires forall k :: 0 <= k < |cols| && k != i ==> cols[k].name == names[k].name
    requires Aims(cat, names, cols[i], plan) && (plan != [] && plan[0].Rename? ==> cols[i].name == names[i].name)
    requires forall k :: 0 < k < |plan| ==> !plan[k].Rename?
    ensures ExecAll(cat, cols, plan) == Some(cols[i := After(cat, cols[i], plan)])
    decreases |plan|
  {
    if plan == [] {
      assert cols[i := cols[i]] == cols;
    } else {
      ExecOne(cat, cols, i, plan[0]);
      var next := cols[i := Changed(cat, cols[i], plan[0])];
      Focus(cat, next, names, i, plan[1..]);
      assert next[i := After(cat, next[i], plan[1..])] == cols[i := After(cat, cols[i], plan)];
    }
  }

  lemma AfterIf(cat: Catalog, c: Column, b: bool, s: Statement, rest: seq<Statement>)
    ensures After(cat, c, If(b, s) + rest) == After(cat, if b then Changed(cat, c, s) else c, rest)
  {
    if b {
      assert (If(b, s) + rest)[1..] == rest;
    } else {
      assert If(b, s) + rest == rest;
    }
  }

  lemma AimsIf(cat: Catalog, cols: seq<Column>, c: Column, b: bool, s: Statement, rest: seq<Statement>)
    requires b ==> s.column == c.name && (s.Rename? ==> forall k :: 0 <= k < |cols| ==> cols[k].name != s.to)
    requires Aims(cat, cols, if b then Changed(cat, c, s) else c, rest)
    ensures Aims(cat, cols, c, If(b, s) + rest)
  {
    if b {
      assert (If(b, s) + rest)[1..] == rest;
    } else {
      assert If(b, s) + rest == rest;
    }
  }

  /** The column the plan is meant to leave behind. */
  function Outcome(r: Ruler, cat: Catalog, cur: Column, want: Wanted, clause: string): Column {
    Column(want.name,
           if want.auto || r.same(cur.typ, want.typ) then cur.typ else cat.typeText(want.typ),
           if want.auto then cur.nullable else want.nullable,
           if want.auto || r.norm(clause) == r.norm(DefaultOf(cur)) then cur.default
           else if clause == "" then None else cat.defaultText(clause),
           cur.auto, want.comment)
  }

  lemma CommentEnd(cat: Catalog, cols: seq<Column>, cur: Column, c: Column, want: Wanted)
    requires c.name == want.name && c.comment == cur.comment
    ensures Aims(cat, cols, c, CommentStep(cur, want))
    ensures After(cat, c, CommentStep(cur, want)) == c.(comment := want.comment)
  {
    var b, s := want.comment != cur.comment, SetComment(want.name, if want.comment == "" then None else Some(want.comment));
    assert If(b, s) + [] == If(b, s);
    AfterIf(cat, c, b, s, []);
    AimsIf(cat, cols, c, b, s, []);
  }

  /** The last two statements, on a column that has its new name, type and nullability. */
  lemma EndOfPlan(r: Ruler, cat: Catalog, cols: seq<Column>, cur: Column, c: Column, want: Wanted, clause: string)
    requires c.name == want.name && c.default == cur.default && c.comment == cur.comment
    ensures var plan := DefaultStep(r, cur, want, clause) + CommentStep(cur, want);
            && Aims(cat, cols, c, plan)
            && After(cat, c, plan) == c.(default := Outcome(r, cat, cur, want, clause).default, comment := want.comment)
  {
    var b, s := !want.auto && r.norm(clause) != r.norm(DefaultOf(cur)),
                if clause == "" then DropDefault(want.name) else SetDefault(want.name, clause);
    var d := if b then Changed(cat, c, s) else c;
    CommentEnd(cat, cols, cur, d, want);
    AfterIf(cat, c, b, s, CommentStep(cur, want));
    AimsIf(cat, cols, c, b, s, CommentStep(cur, want));
  }

  lemma MiddleOfPlan(r: Ruler, cat: Catalog, cols: seq<Column>, cur: Column, c: Column, want: Wanted, clause: string)
    requires c == cur.(name := want.name)
    ensures var plan := TypeStep(r, cur, want) + (NullStep(cur, want) + (DefaultStep(r, cur, want, clause) + CommentStep(cur, want)));
            Aims(cat, cols, c, plan) && After(cat, c, plan) == Outcome(r, cat, cur, want, clause)
  {
    var b1, s1 := !want.auto && !r.same(cur.typ, want.typ), SetType(want.name, want.typ);
    var b2, s2 := !want.auto && want.nullable != cur.nullable,
                  if want.nullable then DropNotNull(want.name) else SetNotNull(want.name);
    var end := DefaultStep(r, cur, want, clause) + CommentStep(cur, want);
    var d := if b1 then Changed(cat, c, s1) else c;
    var e := if b2 then Changed(cat, d, s2) else d;
    EndOfPlan(r, cat, cols, cur, e, want, clause);
    AfterIf(cat, d, b2, s2, end);
    AimsIf(cat, cols, d, b2, s2, end);
    AfterIf(cat, c, b1, s1, If(b2, s2) + end);
    AimsIf(cat, cols, c, b1, s1, If(b2, s2) + end);
  }

  predicate NoRenames(plan: seq<Statement>) {
    forall k :: 0 <= k < |plan| ==> !plan[k].Rename?
  }

  lemma NoRenamesBoth(a: seq<Statement>, b: seq<Statement>)
    requires NoRenames(a) && NoRenames(b)
    ensures NoRenames(a + b)
  {
  }

  lemma RenameFirst(cur: Column, want: Wanted, rest: seq<Statement>)
    requires NoRenames(rest)
    ensures var plan := RenameStep(cur, want) + rest;
            && (forall k :: 0 < k < |plan| ==> !plan[k].Rename?)
            && (plan != [] && plan[0].Rename? ==> plan[0].column == cur.name)
  {
  }

  lemma OnlyFirstRenames(r: Ruler, cur: Column, want: Wanted, clause: string)
    ensures var plan := PlanList(r, cur, want, clause);
            && (forall k :: 0 < k < |plan| ==> !plan[k].Rename?)
            && (plan != [] && plan[0].Rename? ==> plan[0].column == cur.name)
  {
    var a, b, c, d := TypeStep(r, cur, want), NullStep(cur, want), DefaultStep(r, cur, want, clause), CommentStep(cur, want);
    NoRenamesBoth(c, d);
    NoRenamesBoth(b, c + d);
    NoRenamesBoth(a, b + (c + d));
    RenameFirst(cur, want, a + (b + (c + d)));
  }

  /**
   * Every plan runs: it finds every column it names, leaves the requested column in its place
   * and touches no other.
   */
  lemma PlanRuns(r: Ruler, cat: Catalog, cols: seq<Column>, name: string, want: Wanted, clause: Checked)
    requires Distinct(cols) && PlanOf(r, cols, name, want, clause).Statements?
    ensures var i := Find(cols, name);
            ExecAll(cat, cols, PlanOf(r, cols, name, want, clause).list) ==
            Some(cols[i := Outcome(r, cat, cols[i], want, clause.value)])
  {
    var i := Find(cols, name);
    var cur := cols[i];
    var c := cur.(name := want.name);
    var rest := TypeStep(r, cur, want) + (NullStep(cur, want) + (DefaultStep(r, cur, want, clause.value) + CommentStep(cur, want)));
    MiddleOfPlan(r, cat, cols, cur, c, want, clause.value);
    var b, s := want.name != cur.name, Rename(cur.name, want.name);
    AimsIf(cat, cols, cur, b, s, rest);
    AfterIf(cat, cur, b, s, rest);
    OnlyFirstRenames(r, cur, want, clause.value);
    Focus(cat, cols, cols, i, PlanList(r, cur, want, clause.value));
  }

  /** The column is as requested, up to how types and defaults are compared. */
  ghost predicate AsRequested(r: Ruler, c: Column, want: Wanted, clause: string) {
    && c.name == want.name && c.comment == want.comment
    && (!want.auto ==> r.same(c.typ, want.typ) && c.nullable == want.nullable && r.norm(DefaultOf(c)) == r.norm(clause))
  }

  /** There is nothing to change exactly when the column already is as requested. */
  lemma NothingIff(r: Ruler, cols: seq<Column>, name: string, want: Wanted, clause: Checked)
    requires Find(cols, name) < |cols| && clause.Good? && want.auto == cols[Find(cols, name)].auto
    ensures PlanOf(r, cols, name, want, clause) == Refused(NothingToChange) <==>
            AsRequested(r, cols[Find(cols, name)], want, clause.value)
  {
    var cur := cols[Find(cols, name)];
    var a, b, c, d, e := RenameStep(cur, want), TypeStep(r, cur, want), NullStep(cur, want),
                         DefaultStep(r, cur, want, clause.value), CommentStep(cur, want);
    assert a + (b + (c + (d + e))) == [] <==> |a| + |b| + |c| + |d| + |e| == 0;
  }

  /** Nothing is left to change in a catalog whose column at i is as requested, and only then. */
  lemma NothingLeft(r: Ruler, cols: seq<Column>, i: nat, want: Wanted, clause: Checked)
    requires Distinct(cols) && i < |cols| && clause.Good? && cols[i].name == want.name && cols[i].auto == want.auto
    ensures PlanOf(r, cols, want.name, want, clause) == Refused(NothingToChange) <==> AsRequested(r, cols[i], want, clause.value)
  {
    FindAt(cols, i);
    NothingIff(r, cols, want.name, want, clause);
  }

  lemma StillDistinct(cols: seq<Column>, name: string, c: Column)
    requires Distinct(cols) && Find(cols, name) < |cols|
    requires c.name == name || Find(cols, c.name) == |cols|
    ensures Distinct(cols[Find(cols, name) := c])
  {
  }

  /** Planning again after a plan was run finds nothing to change exactly when the column came out as requested. */
  lemma ReplanIff(r: Ruler, cat: Catalog, cols: seq<Column>, name: string, want: Wanted, clause: Checked)
    requires Distinct(cols) && PlanOf(r, cols, name, want, clause).Statements?
    ensures var after := ExecAll(cat, cols, PlanOf(r, cols, name, want, clause).list);
            && after.Some? && |after.value| == |cols|
            && after.value[Find(cols, name)] == Outcome(r, cat, cols[Find(cols, name)], want, clause.value)
            && (PlanOf(r, after.value, want.name, want, clause) == Refused(NothingToChange) <==>
                AsRequested(r, after.value[Find(cols, name)], want, clause.value))
  {
    PlanRuns(r, cat, cols, name, want, clause);
    var i := Find(cols, name);
    var c := Outcome(r, cat, cols[i], want, clause.value);
    StillDistinct(cols, name, c);
    NothingLeft(r, cols[i := c], i, want, clause);
  }

  // ---------------------------------------------------------------- PostgreSQL

  /** A column as the user asks for it. */
  datatype Request = Request(name: string, typ: string, length: string, nullable: bool,
                             default: Default, auto: bool, comment: string)

  /** The request with its type rendered, as far as it could be. */
  function WantedOf(q: Request): Wanted {
    var t := RenderType(q.typ, q.length);
    var typ, cat, stamp := if t.Some? then t.value.typ else "", if t.Some? then t.value.cat else StrCat, t.Some? && Stamp(t.value.base);
    Wanted(q.name, typ, cat, stamp, q.nullable, q.default, q.auto, q.comment)
  }

  /** The checks on a request, in their order: name, type, default, auto-increment. */
  function Check(q: Request): Checked {
    var t, want := RenderType(q.typ, q.length), WantedOf(q);
    if !NewName(q.name) then Bad(BadName)
    else if t.None? then Bad(BadType)
    else
      var clause := RenderDefault(want.default, want.nullable, want.cat, want.stamp);
      if clause.None? then Bad(BadDefault)
      else if q.auto && !Serial(t.value.base) then Bad(NotSerial)
      else Good(clause.value)
  }

  /** The planner as it is called: PostgreSQL's comparisons and a checked request. */
  method ModifyColumn(cols: seq<Column>, name: string, q: Request) returns (p: Plan)
    requires Distinct(cols)
    ensures p == PlanOf(POSTGRES, cols, name, WantedOf(q), Check(q))
  {
    p := PlanModify(POSTGRES, cols, name, WantedOf(q), Check(q));
  }

  /**
   * The server's catalog: a type is shown as it was rendered, and a default as its text or a synonym
   * with casts behind it; only of DEFAULT NULL may it show nothing.
   */
  ghost predicate Serves(cat: Catalog, q: Request) {
    var want := WantedOf(q);
    var text := DefaultText(want.default, want.nullable, want.cat, want.stamp);
    && cat.typeText(want.typ) == want.typ
    && (text.Some? && !q.default.NoDefault? ==>
          var shown := cat.defaultText(Clause(DEFAULT_WORD, text.value));
          if shown.None? then q.default.NullDefault? else ShownAs(want.default, want.cat, text.value, shown.value))
  }

  /** There is such a catalog for every request: one that shows defaults as they were written. */
  lemma ServingCatalog(q: Request) returns (cat: Catalog)
    requires Check(q).Good?
    ensures Serves(cat, q)
  {
    var want := WantedOf(q);
    var text := DefaultText(want.default, want.nullable, want.cat, want.stamp).value;
    cat := Catalog((t: string) => t, (c: string) => Some(text));
    ShownItself(want.default, want.cat, text);
  }

  lemma ShownItself(d: Default, cat: Category, text: string)
    ensures ShownAs(d, cat, text, text)
  {
    assert Casts("") && text == text + "" && Synonym(d, cat, text, text);
  }

  lemma ServesType(cat: Catalog, q: Request)
    requires Check(q).Good? && Serves(cat, q)
    ensures POSTGRES.same(cat.typeText(WantedOf(q).typ), WantedOf(q).typ)
  {
    RenderedIsSame(q.typ, q.length);
  }

  lemma ServesDefault(cat: Catalog, q: Request)
    requires Check(q).Good? && Serves(cat, q) && !q.default.NoDefault?
    ensures var shown := cat.defaultText(Check(q).value);
            if shown.None? then q.default.NullDefault? else POSTGRES.norm(shown.value) == POSTGRES.norm(Check(q).value)
  {
    var want := WantedOf(q);
    var text := DefaultText(want.default, want.nullable, want.cat, want.stamp);
    var shown := cat.defaultText(Clause(DEFAULT_WORD, text.value));
    if shown.Some? {
      ShownCompares(want.default, want.nullable, want.cat, want.stamp, shown.value);
    }
  }

  /** The text of a NULL default compares like "null", and a column without a default does not. */
  lemma NullCompares(q: Request)
    requires Check(q).Good? && q.default.NullDefault?
    ensures POSTGRES.norm(Check(q).value) != POSTGRES.norm("")
  {
    var want := WantedOf(q);
    var key := RenderedKey(want.default, want.nullable, want.cat, want.stamp);
    NormNothing();
  }

  /** A NULL default has to be set, and the server shows none for it. */
  ghost predicate Forgets(cat: Catalog, q: Request, cur: Column)
    requires Check(q).Good?
  {
    && !q.auto && q.default.NullDefault? && cat.defaultText(Check(q).value).None?
    && POSTGRES.norm(DefaultOf(cur)) != POSTGRES.norm(Check(q).value)
  }

  /** What a catalog shows after a default clause was set or dropped. */
  function ShownText(cat: Catalog, clause: string): string {
    if clause == "" || cat.defaultText(clause).None? then "" else cat.defaultText(clause).value
  }

  lemma OutcomeCompares(r: Ruler, cat: Catalog, cur: Column, want: Wanted, clause: string)
    requires r.same(cat.typeText(want.typ), want.typ)
    ensures AsRequested(r, Outcome(r, cat, cur, want, clause), want, clause) <==>
            || want.auto || r.norm(DefaultOf(cur)) == r.norm(clause) || r.norm(ShownText(cat, clause)) == r.norm(clause)
  {
  }

  lemma OutcomeIff(cat: Catalog, cur: Column, q: Request)
    requires Check(q).Good? && Serves(cat, q)
    ensures AsRequested(POSTGRES, Outcome(POSTGRES, cat, cur, WantedOf(q), Check(q).value), WantedOf(q), Check(q).value)
            <==> !Forgets(cat, q, cur)
  {
    ServesType(cat, q);
    OutcomeCompares(POSTGRES, cat, cur, WantedOf(q), Check(q).value);
    ShownIff(cat, q);
  }

  /** What the server shows compares equal to what was set, unless it forgot a NULL default. */
  lemma ShownIff(cat: Catalog, q: Request)
    requires Check(q).Good? && Serves(cat, q)
    ensures POSTGRES.norm(ShownText(cat, Check(q).value)) == POSTGRES.norm(Check(q).value) <==>
            !(q.default.NullDefault? && cat.defaultText(Check(q).value).None?)
  {
    ClauseEmpty(q);
    if !q.default.NoDefault? {
      ServesDefault(cat, q);
      if q.default.NullDefault? {
        NullCompares(q);
      }
      ShownCases(POSTGRES, cat, Check(q).value, q.default.NullDefault?);
    }
  }

  lemma ClauseEmpty(q: Request)
    requires Check(q).Good?
    ensures Check(q).value == "" <==> q.default.NoDefault?
  {
    var want := WantedOf(q);
    var text := DefaultText(want.default, want.nullable, want.cat, want.stamp);
    assert |Clause(DEFAULT_WORD, text.value)| > 0;
  }

  lemma ShownCases(r: Ruler, cat: Catalog, clause: string, isNull: bool)
    requires clause != "" && (isNull ==> r.norm(clause) != r.norm(""))
    requires if cat.defaultText(clause).None? then isNull else r.norm(cat.defaultText(clause).value) == r.norm(clause)
    ensures r.norm(ShownText(cat, clause)) == r.norm(clause) <==> !(isNull && cat.defaultText(clause).None?)
  {
  }

  /**
   * On a PostgreSQL catalog every plan leaves the column as requested and re-planning reports nothing to
   * change, except exactly when a NULL default had to be set and the server does not show it.
   */
  lemma PlanIsComplete(cat: Catalog, cols: seq<Column>, name: string, q: Request)
    requires Distinct(cols) && Check(q).Good? && Serves(cat, q)
    requires PlanOf(POSTGRES, cols, name, WantedOf(q), Check(q)).Statements?
    ensures var after := ExecAll(cat, cols, PlanOf(POSTGRES, cols, name, WantedOf(q), Check(q)).list);
            var i := Find(cols, name);
            && after.Some? && |after.value| == |cols|
            && (AsRequested(POSTGRES, after.value[i], WantedOf(q), Check(q).value) <==> !Forgets(cat, q, cols[i]))
            && (PlanOf(POSTGRES, after.value, q.name, WantedOf(q), Check(q)) == Refused(NothingToChange)
                <==> !Forgets(cat, q, cols[i]))
  {
    ReplanIff(POSTGRES, cat, cols, name, WantedOf(q), Check(q));
    OutcomeIff(cat, cols[Find(cols, name)], q);
  }

  /** A server that shows no default for DEFAULT NULL: the plan for one is the same after it was run. */
  lemma NullRepeats(cat: Catalog, cur: Column, q: Request)
    requires Check(q).Good? && q.default.NullDefault? && !q.auto && cur.default == None
    requires cat.defaultText(Check(q).value) == None
    ensures Forgets(cat, q, cur)
    ensures var c := Outcome(POSTGRES, cat, cur, WantedOf(q), Check(q).value);
            DefaultStep(POSTGRES, c, WantedOf(q), Check(q).value) == DefaultStep(POSTGRES, cur, WantedOf(q), Check(q).value) != []
  {
    NullCompares(q);
  }
}
