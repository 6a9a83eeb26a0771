/**
 Compiling the rule formulas of one engine into those of another, with the payload normalisation that
 goes with it, and an evaluator that understands the vocabularies of both.

 Comparison of strings, parsing and shifting of times, filter operators, aggregates and fuzzy scores are
 the same functions in both engines; they are parameters here.
 */
module FormulaTranslation {
  import opened Common

  const HIGH_RISK_IP := "45.155.205.99"
  const FLAG := "is_usual_active_hour"
  const UPDATED_AT := "updated_at"
  const LINKS: set<string> := {"account", "device", "product", "beneficiary", "merchant"}

  datatype Value =
    | Null
    | Bool(b: bool)
    | Num(n: real)
    | Str(s: string)
    | Time(t: int)
    | List(items: seq<Value>)
    | Pred(field: string, operator: string, operand: Value)  // what a Filter node evaluates to

  type Record = map<string, Value>

  /** Names of functions. The first line is the source's own, the second the target's own, the third is shared. */
  datatype Fn =
    | FieldRef | RelatedField | InCustomList | Contains | In | Not | Neq | Gt | Gte | Lt | Lte | Eq | And | Or
        | Multiply
    | Payload | DatabaseAccess | IsInList | StringContains | MNot | MGt | MGte | MLt | MLte | MEq | MAnd | MOr
        | MMultiply
    | Filter | Aggregator | TimeAdd | ListOf | FuzzyMatchAnyOf
    | Named(other: string)  // a function the translator does not know

  /** Names of named children. */
  datatype Slot =
    | TableName | FieldName | Operator | Operand | AggregatorName | Filters | TimestampField | Duration | Sign
    | ListName | Field | Path | Algorithm | Label | Other(key: string)

  datatype Expr = Const(value: Value) | Node(fn: Fn, children: seq<Expr>, named: map<Slot, Expr>)

  // ---- The translation ---------------------------------------------------------------------------

  function Spell(b: bool): string { if b then "true" else "false" }

  function Normal(v: Value): Value { if v.Bool? then Str(Spell(v.b)) else v }

  /** Fills in `updated_at` and spells the flag out. */
  function NormalizePayload(r: Record, baseTime: string): Record {
    var filled := if UPDATED_AT in r then r else r[UPDATED_AT := Str(baseTime)];
    if FLAG in filled then filled[FLAG := Normal(filled[FLAG])] else filled
  }

  function Rename(fn: Fn): Fn {
    match fn
    case Gt => MGt
    case Gte => MGte
    case Lt => MLt
    case Lte => MLte
    case Eq => MEq
    case And => MAnd
    case Or => MOr
    case Multiply => MMultiply
    case _ => fn
  }

  predicate Has(named: map<Slot, Expr>, slots: set<Slot>) { slots <= named.Keys }

  /** The node for `fn` over children that are translated already; `None` where the source raises. */
  function Rebuild(table: string, fn: Fn, cs: seq<Expr>, named: map<Slot, Expr>): Option<Expr> {
    match fn
    case FieldRef =>
      if Has(named, {Field}) && named[Field].Const? then Some(Node(Payload, [named[Field]], map[])) else None
    case RelatedField =>
      if Has(named, {Path, Field}) && named[Path].Const? && named[Path].value.Str? && named[Path].value.s in LINKS
          && named[Field].Const?
      then Some(Node(DatabaseAccess, [],
          map[TableName := Const(Str(table)), FieldName := named[Field], Path := Const(List([named[Path].value]))]))
      else None
    case Filter =>
      if Has(named, {TableName, FieldName, Operator, Operand})
      then Some(Node(Filter, [],
          map[TableName := named[TableName], FieldName := named[FieldName], Operator := named[Operator],
          Operand := named[Operand]]))
      else None
    case Aggregator =>
      if Has(named, {TableName, FieldName, AggregatorName, Filters})
      then Some(Node(Aggregator, [], map[TableName := named[TableName], FieldName := named[FieldName],
                                         AggregatorName := named[AggregatorName], Filters := named[Filters],
                                             Label := Const(Str("Demo aggregate"))]))
      else None
    case TimeAdd =>
      if Has(named, {TimestampField, Duration, Sign})
      then Some(Node(TimeAdd, [],
          map[TimestampField := named[TimestampField], Duration := named[Duration], Sign := named[Sign]]))
      else None
    case InCustomList =>
      if Has(named, {Operand})
      then Some(Node(IsInList, [named[Operand], Node(ListOf, [Const(Str(HIGH_RISK_IP))], map[])], map[]))
      else None
    case Contains => if |cs| >= 2 then Some(Node(StringContains, cs[..2], map[])) else None
    case In => if |cs| >= 2 then Some(Node(IsInList, cs[..2], map[])) else None
    case Not => Some(Node(MNot, cs, map[]))
    case Neq => Some(Node(MNot, [Node(MEq, cs, map[])], map[]))
    case Gte =>
      if FuzzyAtEighty(cs) then Some(Node(MGte, [cs[0], Const(Num(95.0))], map[]))
          else Some(Node(Rename(fn), cs, named))
    case _ => Some(Node(Rename(fn), cs, named))
  }

  predicate FuzzyAtEighty(cs: seq<Expr>) {
    |cs| > 1 && cs[0].Node? && cs[0].fn.FuzzyMatchAnyOf? && cs[1] == Const(Num(80.0))
  }

  function Translate(table: string, e: Expr): Option<Expr>
    decreases e, 1
  {
    match e
    case Const(v) => Some(Const(Normal(v)))
    case Node(fn, _, _) =>
      if TranslateChildren(table, e).Some? && TranslateNamed(table, e).Some?
      then Rebuild(table, fn, TranslateChildren(table, e).value, TranslateNamed(table, e).value)
      else None
  }

  function TranslateChildren(table: string, e: Expr): Option<seq<Expr>>
    requires e.Node?
    decreases e, 0
  {
    if forall i :: 0 <= i < |e.children| ==> Translate(table, e.children[i]).Some?
    then Some(seq(|e.children|, i requires 0 <= i < |e.children| => Translate(table, e.children[i]).value))
    else None
  }

  function TranslateNamed(table: string, e: Expr): Option<map<Slot, Expr>>
    requires e.Node?
    decreases e, 0
  {
    if forall k :: k in e.named ==> Translate(table, e.named[k]).Some?
    then Some(map k | k in e.named :: Translate(table, e.named[k]).value)
    else None
  }

  // ---- The evaluator ---------------------------------------------------------------------------------

  datatype Prims = Prims(
    parse: string -> Option<int>,
    less: (string, string) -> bool,
    within: (string, string) -> bool,                        // substring
    shift: (int, string, string) -> Option<int>,             // time, duration, sign
    filter: (Value, string, Value) -> Option<bool>,          // field value, operator, operand
    aggregate: (string, seq<Value>) -> Option<Value>,        // aggregator, values that are not null
    fuzzy: (Value, Value, string) -> Option<Value>,
    other: (string, seq<Value>, map<Slot, Value>) -> Option<Value>)

  /** `None` for a link means that no record is linked. */
  datatype Env = Env(
    table: string, payload: Record, linked: map<string, Option<Record>>, tables: map<string, seq<Record>>,
    lists: map<string, set<string>>, prims: Prims)

  /** An evaluation that fails has no value. */
  type Answer = Option<Value>

  function TimeOf(p: Prims, v: Value): Option<int> {
    match v
    case Time(t) => Some(t)
    case Str(s) => p.parse(s)
    case _ => None
  }

  datatype Order = Less | Same | More

  /** Equal, or how the two compare; `None` if they cannot be compared. Booleans have no order. */
  function Compare(p: Prims, l: Value, r: Value): Option<Order> {
    if TimeOf(p, l).Some? then
      if TimeOf(p, r).None? then None
      else
        var a := TimeOf(p, l).value;
        var b := TimeOf(p, r).value;
        Some(if a < b then Less else if a == b then Same else More)
    else if l.Num? && r.Num? then Some(if l.n < r.n then Less else if l.n == r.n then Same else More)
    else if l.Bool? && r.Bool? then Some(if l == r then Same else More)
    else if l.Str? && r.Str? then Some(if l == r then Same else if p.less(l.s, r.s) then Less else More)
    else None
  }

  function Equal(p: Prims, l: Value, r: Value): Option<bool> {
    if l.Null? || r.Null? then Some(l.Null? && r.Null?)
    else if Compare(p, l, r).Some? then Some(Compare(p, l, r).value.Same?) else None
  }

  function Unequal(p: Prims, l: Value, r: Value): Option<bool> {
    if l.Null? || r.Null? then Some(!l.Null? || !r.Null?)
    else if Compare(p, l, r).Some? then Some(!Compare(p, l, r).value.Same?) else None
  }

  predicate Holds(fn: Fn, o: Order) {
    match fn
    case Gt => o.More?
    case Gte => o.More? || o.Same?
    case Lt => o.Less?
    case Lte => o.Less? || o.Same?
    case _ => false
  }

  function Ordered(p: Prims, fn: Fn, l: Value, r: Value): Option<bool> {
    if l.Null? || r.Null? then Some(false)
    else if Compare(p, l, r).None? || l.Bool? then None
    else Some(Holds(fn, Compare(p, l, r).value))
  }

  predicate Member(p: Prims, v: Value, items: seq<Value>) {
    exists i :: 0 <= i < |items| && Equal(p, v, items[i]) == Some(true)
  }

  predicate Holding(p: Prims, items: seq<Value>, v: Value) {
    exists i :: 0 <= i < |items| && Equal(p, items[i], v) == Some(true)
  }

  function Read(r: Record, field: string): Value { if field in r then r[field] else Null }

  predicate AllSome(rs: seq<Answer>) { forall i :: 0 <= i < |rs| ==> rs[i].Some? }

  function Values(rs: seq<Answer>): (vs: seq<Value>)
    requires AllSome(rs)
  {
    seq(|rs|, i requires 0 <= i < |rs| => rs[i].value)
  }

  function Truth(b: Option<bool>): Answer { if b.Some? then Some(Bool(b.value)) else None }

  function AndOf(rs: seq<Answer>): Answer {
    if rs == [] then Some(Bool(true))
    else if rs[0].None? || !rs[0].value.Bool? then None
    else if !rs[0].value.b then Some(Bool(false))
    else AndOf(rs[1..])
  }

  function OrOf(rs: seq<Answer>): Answer {
    if rs == [] then Some(Bool(false))
    else if rs[0].None? || !rs[0].value.Bool? then None
    else if rs[0].value.b then Some(Bool(true))
    else OrOf(rs[1..])
  }

  function NotOf(rs: seq<Answer>): Answer {
    if |rs| == 1 && rs[0].Some? && rs[0].value.Bool? then Some(Bool(!rs[0].value.b)) else None
  }

  predicate TwoValues(rs: seq<Answer>) { |rs| == 2 && rs[0].Some? && rs[1].Some? }

  function NamedString(ns: map<Slot, Answer>, k: Slot): Option<string> {
    if k in ns && ns[k].Some? && ns[k].value.Str? then Some(ns[k].value.s) else None
  }

  /** Whether a row passes all filters; a filter that fails spoils the answer unless an earlier one rejects the row. */
  function Passes(p: Prims, row: Record, preds: seq<Value>): Option<bool> {
    if preds == [] then Some(true)
    else if !preds[0].Pred? then None
    else
      var one := p.filter(Read(row, preds[0].field), preds[0].operator, preds[0].operand);
      if one == Some(true) then Passes(p, row, preds[1..]) else one
  }

  /** The values of `field` that are not null, over the rows that pass. */
  function Column(p: Prims, rows: seq<Record>, field: string, preds: seq<Value>): Option<seq<Value>> {
    if rows == [] then Some([])
    else
      var first := Passes(p, rows[0], preds);
      var rest := Column(p, rows[1..], field, preds);
      if first.None? || rest.None? then None
      else if first.value && !Read(rows[0], field).Null? then Some([Read(rows[0], field)] + rest.value)
      else rest
  }

  function AggregateOf(env: Env, ns: map<Slot, Answer>): Answer {
    if NamedString(ns, TableName).None? || NamedString(ns, FieldName).None?
        || NamedString(ns, AggregatorName).None? then None
    else if Filters in ns && (ns[Filters].None? || !ns[Filters].value.List?) then None
    else
      var preds := if Filters in ns then ns[Filters].value.items else [];
      var t := NamedString(ns, TableName).value;
      if t !in env.tables then None
      else
        var column := Column(env.prims, env.tables[t], NamedString(ns, FieldName).value, preds);
        if column.None? then None else env.prims.aggregate(NamedString(ns, AggregatorName).value, column.value)
  }

  function TimeAddOf(p: Prims, ns: map<Slot, Answer>): Answer {
    if TimestampField !in ns || ns[TimestampField].None? then None
    else if ns[TimestampField].value.Null? then Some(Null)
    else if TimeOf(p, ns[TimestampField].value).None? || NamedString(ns, Duration).None?
        || NamedString(ns, Sign).None? then None
    else
      var t := p.shift(TimeOf(p, ns[TimestampField].value).value, NamedString(ns, Duration).value,
          NamedString(ns, Sign).value);
      if t.Some? then Some(Time(t.value)) else None
  }

  function FuzzyOf(p: Prims, rs: seq<Answer>, ns: map<Slot, Answer>): Answer {
    if !TwoValues(rs) then None
    else if rs[0].value.Null? || rs[1].value.Null? then Some(Null)
    else if NamedString(ns, Algorithm).None? then None
    else p.fuzzy(rs[0].value, rs[1].value, NamedString(ns, Algorithm).value)
  }

  function FilterOf(ns: map<Slot, Answer>): Answer {
    if NamedString(ns, TableName).None? || NamedString(ns, FieldName).None? || NamedString(ns, Operator).None? then None
    else if Operand in ns && ns[Operand].None? then None
    else Some(Pred(NamedString(ns, FieldName).value, NamedString(ns, Operator).value,
                   if Operand in ns then ns[Operand].value else Null))
  }

  /** A field of the record behind a link; a record that is not there has only nulls. */
  function LinkedField(env: Env, link: string, field: string): Answer {
    if link !in env.linked then None
    else if env.linked[link].None? then Some(Null)
    else Some(Read(env.linked[link].value, field))
  }

  function AccessOf(env: Env, ns: map<Slot, Answer>): Answer {
    if NamedString(ns, TableName) != Some(env.table) || NamedString(ns, FieldName).None? then None
    else if Path !in ns || ns[Path].None? || !ns[Path].value.List? then None
    else
      var path := ns[Path].value.items;
      if |path| == 1 && path[0].Str? then LinkedField(env, path[0].s, NamedString(ns, FieldName).value) else None
  }

  function RelatedOf(env: Env, ns: map<Slot, Answer>): Answer {
    if NamedString(ns, Path).None? || NamedString(ns, Field).None? then None
    else LinkedField(env, NamedString(ns, Path).value, NamedString(ns, Field).value)
  }

  function CustomListOf(env: Env, ns: map<Slot, Answer>): Answer {
    if NamedString(ns, ListName).None? || NamedString(ns, Operand).None? then None
    else
      var name := NamedString(ns, ListName).value;
      Some(Bool(name in env.lists && NamedString(ns, Operand).value in env.lists[name]))
  }

  function MembershipOf(p: Prims, rs: seq<Answer>): Answer {
    if TwoValues(rs) && rs[1].value.List? then Some(Bool(Member(p, rs[0].value, rs[1].value.items))) else None
  }

  function ContainsOf(p: Prims, rs: seq<Answer>): Answer {
    if !TwoValues(rs) then None
    else if rs[0].value.Str? then
        (if rs[1].value.Str? then Some(Bool(p.within(rs[0].value.s, rs[1].value.s))) else None)
    else if rs[0].value.List? then Some(Bool(Holding(p, rs[0].value.items, rs[1].value)))
    else None
  }

  function EqualOf(p: Prims, rs: seq<Answer>): Answer {
    if TwoValues(rs) then Truth(Equal(p, rs[0].value, rs[1].value)) else None
  }

  function OrderedOf(p: Prims, fn: Fn, rs: seq<Answer>): Answer {
    if TwoValues(rs) then Truth(Ordered(p, fn, rs[0].value, rs[1].value)) else None
  }

  function Product(x: real, y: real): real { x * y }

  function ProductOf(rs: seq<Answer>): Answer {
    if TwoValues(rs) && rs[0].value.Num? && rs[1].value.Num? then Some(Num(Product(rs[0].value.n, rs[1].value.n)))
        else None
  }

  function OtherOf(p: Prims, name: string, rs: seq<Answer>, ns: map<Slot, Answer>): Answer {
    if AllSome(rs) && forall k :: k in ns ==>
        ns[k].Some? then p.other(name, Values(rs), map k | k in ns :: ns[k].value) else None
  }

  function ListOfAll(rs: seq<Answer>): Answer { if AllSome(rs) then Some(List(Values(rs))) else None }

  /**
   The value of a node from the values of its children. Only `and` and `or` look at some children and not at others.
   */
  function Combine(env: Env, fn: Fn, rs: seq<Answer>, ns: map<Slot, Answer>): Answer {
    match fn
    case FieldRef => if NamedString(ns, Field).Some? then Some(Read(env.payload, NamedString(ns, Field).value))
        else None
    case Payload => if |rs| == 1 && rs[0].Some? && rs[0].value.Str? then Some(Read(env.payload, rs[0].value.s))
        else None
    case RelatedField => RelatedOf(env, ns)
    case DatabaseAccess => AccessOf(env, ns)
    case InCustomList => CustomListOf(env, ns)
    case In | IsInList => MembershipOf(env.prims, rs)
    case Contains | StringContains => ContainsOf(env.prims, rs)
    case Not | MNot => NotOf(rs)
    case And | MAnd => AndOf(rs)
    case Or | MOr => OrOf(rs)
    case Eq | MEq => EqualOf(env.prims, rs)
    case Neq => if TwoValues(rs) then Truth(Unequal(env.prims, rs[0].value, rs[1].value)) else None
    case Gt | MGt => OrderedOf(env.prims, Gt, rs)
    case Gte | MGte => OrderedOf(env.prims, Gte, rs)
    case Lt | MLt => OrderedOf(env.prims, Lt, rs)
    case Lte | MLte => OrderedOf(env.prims, Lte, rs)
    case Multiply | MMultiply => ProductOf(rs)
    case ListOf => ListOfAll(rs)
    case Filter => FilterOf(ns)
    case Aggregator => AggregateOf(env, ns)
    case TimeAdd => TimeAddOf(env.prims, ns)
    case FuzzyMatchAnyOf => FuzzyOf(env.prims, rs, ns)
    case Named(name) => OtherOf(env.prims, name, rs, ns)
  }

  /** The field of a field_ref is looked up, not evaluated. */
  predicate FieldGiven(fn: Fn, named: map<Slot, Expr>) { fn.FieldRef? ==> Field in named && named[Field].Const? }

  function Eval(env: Env, e: Expr): Answer
    decreases e
  {
    match e
    case Const(v) => Some(v)
    case Node(fn, cs, named) =>
      if !FieldGiven(fn, named) then None
      else Combine(env, fn,
                   seq(|cs|, i requires 0 <= i < |cs| => Eval(env, cs[i])),
                   map k | k in named :: Eval(env, named[k]))
  }
}
