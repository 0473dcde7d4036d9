/** PostgreSQL column types: rendering a requested type and comparing it with the catalog's. */
module PgType {
  import opened Text
  import opened PgDefault

  /** Case folding as far as it can reach ASCII letters: U+017F and U+212A fold to s and k. */
  function Fold(s: string): string {
    if s == [] then ""
    else if |s| > 1 && s[..2] == "\U{C5}\U{BF}" then "s" + Fold(s[2..])
    else if |s| > 2 && s[..3] == "\U{E2}\U{84}\U{AA}" then "k" + Fold(s[3..])
    else [Lower(s[0])] + Fold(s[1..])
  }

  predicate PrecisionAt(s: string, i: nat) {
    i + 2 < |s| && s[i] == '(' && '0' <= s[i + 1] <= '9' && s[i + 2] == ')'
  }

  /** A catalog type without the precision of a time. */
  function WithoutPrecision(s: string): string {
    if "time" <= s && PrecisionAt(s, 4) then s[..4] + s[7..]
    else if "timestamp" <= s && PrecisionAt(s, 9) then s[..9] + s[12..]
    else s
  }

  predicate SameType(current: string, rendered: string) {
    Fold(WithoutPrecision(current)) == Fold(rendered)
  }

  // ---------------------------------------------------------------- rendering a requested type

  datatype LengthRule = NoLength | Size | Precision

  /** A type the schema editor offers for PostgreSQL. */
  datatype TypeSpec = TypeSpec(name: string, cat: Category, rule: LengthRule)

  const TYPES: seq<TypeSpec> := [
    TypeSpec("smallint", IntCat, NoLength), TypeSpec("integer", IntCat, NoLength), TypeSpec("bigint", IntCat, NoLength),
    TypeSpec("numeric", NumCat, Precision), TypeSpec("real", NumCat, NoLength), TypeSpec("double precision", NumCat, NoLength),
    TypeSpec("boolean", BoolCat, NoLength),
    TypeSpec("character", StrCat, Size), TypeSpec("character varying", StrCat, Size), TypeSpec("text", StrCat, NoLength),
    TypeSpec("bytea", BinCat, NoLength), TypeSpec("date", TimeCat, NoLength),
    TypeSpec("time without time zone", TimeCat, NoLength), TypeSpec("timestamp without time zone", TimeCat, NoLength),
    TypeSpec("timestamp with time zone", TimeCat, NoLength), TypeSpec("time with time zone", TimeCat, NoLength),
    TypeSpec("uuid", StrCat, NoLength), TypeSpec("json", JsonCat, NoLength), TypeSpec("jsonb", JsonCat, NoLength)]

  function SpecIn(table: seq<TypeSpec>, name: string): (r: Option<TypeSpec>)
    ensures r.Some? ==> r.value in table && r.value.name == name
  {
    if table == [] then None
    else if table[0].name == name then Some(table[0])
    else SpecIn(table[1..], name)
  }

  /** Lower case as far as it can produce ASCII: U+0130 and U+212A become i and k. */
  function LowerWord(s: string): string {
    if s == [] then ""
    else if |s| > 1 && s[..2] == "\U{C4}\U{B0}" then "i" + LowerWord(s[2..])
    else if |s| > 2 && s[..3] == "\U{E2}\U{84}\U{AA}" then "k" + LowerWord(s[3..])
    else [Lower(s[0])] + LowerWord(s[1..])
  }

  predicate SizeText(s: string) {
    Digits(s) && |s| <= 5 && 1 <= ReadDigits(s, 0).value <= 65535
  }

  /** One or two digits, or two such numbers around a comma. */
  predicate PrecisionText(s: string) {
    || (Digits(s) && |s| <= 2)
    || exists i :: 0 < i < |s| && s[i] == ',' && Digits(s[..i]) && i <= 2 && Digits(s[i + 1..]) && |s| - i - 1 <= 2
  }

  /** A rendered type; base is its name alone. */
  datatype Rendered = Rendered(base: string, typ: string, cat: Category)

  function RenderSpec(spec: TypeSpec, length: string): Option<Rendered> {
    if length == "" then Some(Rendered(spec.name, spec.name, spec.cat))
    else if spec.rule == NoLength then None
    else if (spec.rule == Size && !SizeText(length)) || (spec.rule == Precision && !PrecisionText(length)) then None
    else Some(Rendered(spec.name, spec.name + "(" + length + ")", spec.cat))
  }

  /** The type as SQL; none if it is not offered or the length does not suit it. */
  function RenderType(typ: string, length: string): Option<Rendered> {
    var spec := SpecIn(TYPES, LowerWord(TrimSpace(typ)));
    if spec.None? then None else RenderSpec(spec.value, TrimSpace(length))
  }

  /** Only timestamps can default to the current time. */
  predicate Stamp(base: string) {
    Occurs("stamp", base) || base == "datetime"
  }

  predicate Occurs(part: string, s: string) {
    part <= s || (s != [] && Occurs(part, s[1..]))
  }

  /** The types that can auto-increment. */
  predicate Serial(base: string) {
    base == "smallint" || base == "integer" || base == "bigint"
  }

  /** Number of code points of valid UTF-8 text. */
  function Runes(s: string): nat {
    if s == [] then 0 else Runes(s[1..]) + (if '\U{80}' <= s[0] <= '\U{BF}' then 0 else 1)
  }

  predicate NewName(name: string) {
    && 1 <= Runes(name) <= 64 && TrimSpace(name) == name
    && forall i :: 0 <= i < |name| ==> name[i] >= ' ' && name[i] != '\U{7F}' && name[i] != '`' && name[i] != '"'
  }

  // ---------------------------------------------------------------- the catalog shows a rendered type as it is

  /** A name that no precision follows: only the time types could have one, and they take no length. */
  predicate Precise(spec: TypeSpec) {
    spec.name != [] && (spec.name[0] == 't' ==> spec.rule == NoLength && !PrecisionAt(spec.name, 4) && !PrecisionAt(spec.name, 9))
  }

  lemma TypesPrecise()
    ensures forall i :: 0 <= i < |TYPES| ==> Precise(TYPES[i])
  {
    FirstPrecise();
    TimePrecise();
  }

  lemma FirstPrecise()
    ensures forall i :: 0 <= i < 12 || 16 <= i < |TYPES| ==> Precise(TYPES[i])
  {
  }

  lemma TimePrecise()
    ensures forall i :: 12 <= i < 16 ==> Precise(TYPES[i])
  {
  }

  lemma RenderedStays(spec: TypeSpec, length: string)
    requires Precise(spec) && RenderSpec(spec, length).Some?
    ensures WithoutPrecision(RenderSpec(spec, length).value.typ) == RenderSpec(spec, length).value.typ
  {
    var typ := RenderSpec(spec, length).value.typ;
    assert typ[0] == spec.name[0];
  }

  /** A column that has the rendered type compares as having it. */
  lemma RenderedIsSame(typ: string, length: string)
    requires RenderType(typ, length).Some?
    ensures var t := RenderType(typ, length).value.typ; SameType(t, t)
  {
    var name := LowerWord(TrimSpace(typ));
    TypesPrecise();
    RenderedStays(SpecIn(TYPES, name).value, TrimSpace(length));
  }
}
