/**
 What the formula translation keeps: over normalised data the translated formula gives every value that
 the formula gives over the raw data.
 */
module FormulaMeaning {
  import opened Common
  import opened FormulaTranslation

  // ---- The data on both sides ----------------------------------------------------------------------

  function NormalRows(rows: seq<Record>, base: string): seq<Record> {
    seq(|rows|, i requires 0 <= i < |rows| => NormalizePayload(rows[i], base))
  }

  function NormalLink(r: Option<Record>, base: string): Option<Record> {
    if r.Some? then Some(NormalizePayload(r.value, base)) else None
  }

  /** All records go through the normalisation on their way in: the payload, linked records and rows. */
  function NormalEnv(env: Env, base: string): Env {
    env.(payload := NormalizePayload(env.payload, base),
         linked := map l | l in env.linked :: NormalLink(env.linked[l], base),
         tables := map t | t in env.tables :: NormalRows(env.tables[t], base))
  }

  /** Neither the words for the flag nor the listed address read as a time. */
  predicate PlainWords(p: Prims) {
    p.parse("true").None? && p.parse("false").None? && p.parse(HIGH_RISK_IP).None?
  }

  // ---- The formulas ------------------------------------------------------------------------------------

  /** Normalisation does not change what the record reads for the field. */
  predicate KeptIn(r: Record, f: string) {
    (f == UPDATED_AT ==> UPDATED_AT in r) && (f == FLAG ==> !Read(r, FLAG).Bool?)
  }

  predicate AllKept(rows: seq<Record>, f: string) { forall i :: 0 <= i < |rows| ==> KeptIn(rows[i], f) }

  predicate RowsKept(env: Env, f: string) { forall t :: t in env.tables ==> AllKept(env.tables[t], f) }

  predicate LinkKept(env: Env, link: string, f: string) {
    link in env.linked && env.linked[link].Some? ==> KeptIn(env.linked[link].value, f)
  }

  predicate NamesString(named: map<Slot, Expr>, k: Slot) { k in named && named[k].Const? && named[k].value.Str? }

  /** A field of rows that normalisation does not change. */
  predicate NamesRowField(env: Env, named: map<Slot, Expr>) {
    NamesString(named, FieldName) && RowsKept(env, named[FieldName].value.s)
  }

  predicate ReadsFlag(e: Expr) {
    e.Node? && e.fn.FieldRef? && Field in e.named && e.named.Keys == {Field} && e.children == []
        && e.named[Field] == Const(Str(FLAG))
  }

  predicate FlagOperand(e: Expr) { ReadsFlag(e) || (e.Const? && (e.value.Bool? || e.value.Null?)) }

  /** Compares the flag or a boolean constant with the flag or a boolean constant. */
  predicate FlagTest(fn: Fn, cs: seq<Expr>, named: map<Slot, Expr>) {
    (fn.Eq? || fn.Neq?) && |cs| == 2 && FlagOperand(cs[0]) && FlagOperand(cs[1]) && named == map[]
  }

  predicate FlagList(e: Expr) {
    e.Node? && e.fn.ListOf? && e.named == map[] && forall i :: 0 <= i < |e.children| ==> FlagOperand(e.children[i])
  }

  /** Looks for the flag or a boolean constant in a list of such. */
  predicate FlagMembership(env: Env, fn: Fn, cs: seq<Expr>, named: map<Slot, Expr>) {
    && FlagIsBool(env) && |cs| == 2 && named == map[]
    && ((fn.In? && FlagOperand(cs[0]) && FlagList(cs[1])) || (fn.Contains? && FlagList(cs[0]) && FlagOperand(cs[1])))
  }

  /** The raw flag is a boolean, null or absent. */
  predicate FlagIsBool(env: Env) { Read(env.payload, FLAG).Bool? || Read(env.payload, FLAG).Null? }

  predicate BoolConst(e: Expr) { e.Const? && e.value.Bool? }

  predicate Ordering(fn: Fn) { fn.Gt? || fn.Gte? || fn.Lt? || fn.Lte? }

  /** Functions under which a boolean constant does no harm: the source fails, or finds a null beside it. */
  predicate BearsBoolean(exact: bool, fn: Fn) { fn.Multiply? || (Ordering(fn) && !exact) }

  predicate FilterNode(env: Env, e: Expr) { e.Node? && e.fn.Filter? && NamesRowField(env, e.named) }

  predicate SourceFuzzyAtEighty(cs: seq<Expr>) {
    |cs| > 1 && cs[0].Node? && cs[0].fn.FuzzyMatchAnyOf? && cs[1] == Const(Num(80.0))
  }

  /** What a node must look like for its function. With `exact`, nothing that can only fail in the source is allowed. */
  predicate NodeOk(exact: bool, env: Env, fn: Fn, cs: seq<Expr>, named: map<Slot, Expr>) {
    match fn
    case FieldRef => NamesString(named, Field) && KeptIn(env.payload, named[Field].value.s)
    case RelatedField =>
      && NamesString(named, Field) && NamesString(named, Path) && named[Path].value.s in LINKS
      && LinkKept(env, named[Path].value.s, named[Field].value.s)
    case InCustomList =>
      && !exact && Has(named, {ListName, Operand}) && named[ListName].Const? && named[ListName].value.Str?
      && named[ListName].value.s in env.lists && env.lists[named[ListName].value.s] == {HIGH_RISK_IP}
    case Contains => |cs| >= 2 && (exact ==> |cs| == 2)
    case In => |cs| >= 2 && (exact ==> |cs| == 2)
    case Gte => !SourceFuzzyAtEighty(cs)
    case Filter => Has(named, {TableName, Operator, Operand}) && NamesRowField(env, named)
    case Aggregator =>
      && Has(named, {TableName, AggregatorName, Filters}) && NamesRowField(env, named)
      && named[Filters].Node? && named[Filters].fn.ListOf?
      && forall i :: 0 <= i < |named[Filters].children| ==> FilterNode(env, named[Filters].children[i])
    case TimeAdd => Has(named, {TimestampField, Duration, Sign})
    case Payload | DatabaseAccess | IsInList | StringContains | MNot | MGt | MGte | MLt | MLte | MEq | MAnd | MOr
        | MMultiply => false
    case _ => true
  }

  /**
   A formula over the functions of the source: boolean constants occur only in tests of the flag and where
   they do no harm, fields that normalisation would change are read only in such tests, lists in use hold
   exactly the one address, and no fuzzy score is compared with 80.
   */
  predicate Supported(exact: bool, env: Env, e: Expr)
    decreases e
  {
    match e
    case Const(v) => !v.Bool?
    case Node(fn, cs, named) =>
      || FlagTest(fn, cs, named) || FlagMembership(env, fn, cs, named)
      || (&& NodeOk(exact, env, fn, cs, named)
          && (forall i :: 0 <= i < |cs| ==>
              Supported(exact, env, cs[i]) || (BearsBoolean(exact, fn) && BoolConst(cs[i])))
          && (forall k :: k in named ==> Supported(exact, env, named[k])))
  }

  // ---- Agreement -----------------------------------------------------------------------------------------

  /** The target gives what the source gives; with `exact`, it also fails where the source fails. */
  predicate Agrees(exact: bool, a: Answer, b: Answer) { (exact || a.Some?) ==> a == b }

  predicate AgreeAll(exact: bool, rs: seq<Answer>, qs: seq<Answer>) {
    |rs| == |qs| && forall i :: 0 <= i < |rs| ==> Agrees(exact, rs[i], qs[i])
  }

  predicate AgreeAt(exact: bool, ns: map<Slot, Answer>, ms: map<Slot, Answer>, k: Slot) {
    k in ns && k in ms && Agrees(exact, ns[k], ms[k])
  }

  predicate AgreeNamed(exact: bool, ns: map<Slot, Answer>, ms: map<Slot, Answer>) {
    ns.Keys == ms.Keys && forall k :: k in ns ==> AgreeAt(exact, ns, ms, k)
  }

  lemma {:induction false} AndAgrees(exact: bool, rs: seq<Answer>, qs: seq<Answer>)
    requires AgreeAll(exact, rs, qs)
    ensures Agrees(exact, AndOf(rs), AndOf(qs))
  {
    if rs != [] {
      assert Agrees(exact, rs[0], qs[0]);
      assert forall i :: 0 <= i < |rs[1..]| ==> rs[1..][i] == rs[i + 1] && qs[1..][i] == qs[i + 1];
      AndAgrees(exact, rs[1..], qs[1..]);
    }
  }

  lemma {:induction false} OrAgrees(exact: bool, rs: seq<Answer>, qs: seq<Answer>)
    requires AgreeAll(exact, rs, qs)
    ensures Agrees(exact, OrOf(rs), OrOf(qs))
  {
    if rs != [] {
      assert Agrees(exact, rs[0], qs[0]);
      assert forall i :: 0 <= i < |rs[1..]| ==> rs[1..][i] == rs[i + 1] && qs[1..][i] == qs[i + 1];
      OrAgrees(exact, rs[1..], qs[1..]);
    }
  }

  lemma ListAgrees(exact: bool, rs: seq<Answer>, qs: seq<Answer>)
    requires AgreeAll(exact, rs, qs)
    ensures Agrees(exact, ListOfAll(rs), ListOfAll(qs))
  {
    if AllSome(rs) {
      assert forall i :: 0 <= i < |rs| ==> Agrees(exact, rs[i], qs[i]);
      assert Values(rs) == Values(qs);
    } else if exact {
      assert forall i :: 0 <= i < |rs| ==> Agrees(exact, rs[i], qs[i]);
      assert rs == qs;
    }
  }

  lemma OtherAgrees(exact: bool, p: Prims, name: string, rs: seq<Answer>, qs: seq<Answer>, ns: map<Slot, Answer>,
      ms: map<Slot, Answer>)
    requires AgreeAll(exact, rs, qs) && AgreeNamed(exact, ns, ms)
    ensures Agrees(exact, OtherOf(p, name, rs, ns), OtherOf(p, name, qs, ms))
  {
    assert forall i :: 0 <= i < |rs| ==> Agrees(exact, rs[i], qs[i]);
    assert forall k :: k in ns ==> AgreeAt(exact, ns, ms, k);
    if exact || (AllSome(rs) && forall k :: k in ns ==> ns[k].Some?) {
      assert rs == qs && ns == ms;
    }
  }

  // ---- Where the environments differ ------------------------------------------------------------------

  /** The condition on a record and a field is exact. */
  lemma ReadKeptExactly(r: Record, base: string, f: string)
    ensures Read(NormalizePayload(r, base), f) == Read(r, f) <==> KeptIn(r, f)
  {}

  lemma LinkedKept(env: Env, base: string, link: string, f: string)
    requires LinkKept(env, link, f)
    ensures LinkedField(NormalEnv(env, base), link, f) == LinkedField(env, link, f)
  {
    if link in env.linked && env.linked[link].Some? {
      ReadKeptExactly(env.linked[link].value, base, f);
    }
  }

  predicate KeptPreds(rows: seq<Record>, preds: seq<Value>) {
    forall i :: 0 <= i < |preds| ==> preds[i].Pred? && AllKept(rows, preds[i].field)
  }

  predicate PredsKept(env: Env, preds: seq<Value>) {
    forall i :: 0 <= i < |preds| ==> preds[i].Pred? && RowsKept(env, preds[i].field)
  }

  lemma {:induction false} PassesKept(p: Prims, row: Record, base: string, preds: seq<Value>)
    requires KeptPreds([row], preds)
    ensures Passes(p, NormalizePayload(row, base), preds) == Passes(p, row, preds)
  {
    if preds != [] {
      assert AllKept([row], preds[0].field) && KeptIn([row][0], preds[0].field);
      ReadKeptExactly(row, base, preds[0].field);
      PassesKept(p, row, base, preds[1..]);
    }
  }

  lemma {:induction false} ColumnKept(p: Prims, rows: seq<Record>, base: string, f: string, preds: seq<Value>)
    requires KeptPreds(rows, preds) && AllKept(rows, f)
    ensures Column(p, NormalRows(rows, base), f, preds) == Column(p, rows, f, preds)
  {
    if rows != [] {
      assert NormalRows(rows, base)[1..] == NormalRows(rows[1..], base);
      forall i | 0 <= i < |preds|
        ensures AllKept([rows[0]], preds[i].field) && AllKept(rows[1..], preds[i].field)
      {
        assert AllKept(rows, preds[i].field) && KeptIn(rows[0], preds[i].field);
      }
      PassesKept(p, rows[0], base, preds);
      ReadKeptExactly(rows[0], base, f);
      ColumnKept(p, rows[1..], base, f, preds);
    }
  }

  // ---- One node at a time ---------------------------------------------------------------------------------

  function Answers(env: Env, cs: seq<Expr>): seq<Answer> {
    seq(|cs|, i requires 0 <= i < |cs| => Eval(env, cs[i]))
  }

  function NamedAnswers(env: Env, named: map<Slot, Expr>): map<Slot, Answer> {
    map k | k in named :: Eval(env, named[k])
  }

  lemma EvalNode(env: Env, fn: Fn, cs: seq<Expr>, named: map<Slot, Expr>)
    ensures Eval(env, Node(fn, cs, named))
         == if FieldGiven(fn, named) then Combine(env, fn, Answers(env, cs), NamedAnswers(env, named)) else None
  {
    var e := Node(fn, cs, named);
    assert seq(|cs|, i requires 0 <= i < |cs| => Eval(env, cs[i])) == Answers(env, cs);
    assert (map k | k in named :: Eval(env, named[k])) == NamedAnswers(env, named);
  }

  lemma NamedStringAgrees(exact: bool, ns: map<Slot, Answer>, ms: map<Slot, Answer>, k: Slot)
    requires AgreeAt(exact, ns, ms, k)
    ensures exact || NamedString(ns, k).Some? ==> NamedString(ns, k) == NamedString(ms, k)
  {}

  /** A filter on a kept field gives a predicate on it. */
  lemma FilterKept(env: Env, e: Expr)
    requires FilterNode(env, e)
    ensures var a := Eval(env, e); a.Some? ==> a.value.Pred? && RowsKept(env, a.value.field)
  {
    EvalNode(env, Filter, e.children, e.named);
    assert e == Node(Filter, e.children, e.named);
    assert NamedAnswers(env, e.named)[FieldName] == Some(e.named[FieldName].value);
  }

  lemma ListNode(env: Env, cs: seq<Expr>, named: map<Slot, Expr>)
    ensures Eval(env, Node(ListOf, cs, named)) == ListOfAll(Answers(env, cs))
  {
    EvalNode(env, ListOf, cs, named);
  }

  /** A list node over filters on kept fields gives predicates on kept fields. */
  lemma FiltersKept(env: Env, cs: seq<Expr>, named: map<Slot, Expr>)
    requires forall i :: 0 <= i < |cs| ==> FilterNode(env, cs[i])
    ensures var a := Eval(env, Node(ListOf, cs, named)); a.Some? ==> a.value.List? && PredsKept(env, a.value.items)
  {
    ListNode(env, cs, named);
    if AllSome(Answers(env, cs)) {
      forall i | 0 <= i < |cs|
        ensures Values(Answers(env, cs))[i].Pred? && RowsKept(env, Values(Answers(env, cs))[i].field)
      {
        FilterKept(env, cs[i]);
      }
    }
  }

  lemma FilterAgrees(exact: bool, ns: map<Slot, Answer>, ms: map<Slot, Answer>)
    requires AgreeAt(exact, ns, ms, TableName) && AgreeAt(exact, ns, ms, FieldName)
    requires AgreeAt(exact, ns, ms, Operator) && AgreeAt(exact, ns, ms, Operand)
    ensures Agrees(exact, FilterOf(ns), FilterOf(ms))
  {}

  lemma TimeAddAgrees(exact: bool, p: Prims, ns: map<Slot, Answer>, ms: map<Slot, Answer>)
    requires AgreeAt(exact, ns, ms, TimestampField) && AgreeAt(exact, ns, ms, Duration) && AgreeAt(exact, ns, ms, Sign)
    ensures Agrees(exact, TimeAddOf(p, ns), TimeAddOf(p, ms))
  {}

  lemma AggregateAgrees(exact: bool, env: Env, base: string, ns: map<Slot, Answer>, ms: map<Slot, Answer>)
    requires AgreeAt(exact, ns, ms, TableName) && AgreeAt(exact, ns, ms, FieldName)
    requires AgreeAt(exact, ns, ms, AggregatorName) && AgreeAt(exact, ns, ms, Filters)
    requires NamedString(ns, FieldName).Some? && RowsKept(env, NamedString(ns, FieldName).value)
    requires ns[Filters].Some? ==> ns[Filters].value.List? && PredsKept(env, ns[Filters].value.items)
    ensures Agrees(exact, AggregateOf(env, ns), AggregateOf(NormalEnv(env, base), ms))
  {
    if NamedString(ns, TableName).Some? && ns[Filters].Some? && NamedString(ns, TableName).value in env.tables {
      var rows := env.tables[NamedString(ns, TableName).value];
      assert KeptPreds(rows, ns[Filters].value.items) && AllKept(rows, NamedString(ns, FieldName).value);
      ColumnKept(env.prims, rows, base, NamedString(ns, FieldName).value, ns[Filters].value.items);
    }
  }

  lemma FuzzyAgrees(exact: bool, p: Prims, rs: seq<Answer>, qs: seq<Answer>, ns: map<Slot, Answer>,
      ms: map<Slot, Answer>)
    requires AgreeAll(exact, rs, qs) && AgreeNamed(exact, ns, ms)
    ensures Agrees(exact, FuzzyOf(p, rs, ns), FuzzyOf(p, qs, ms))
  {
    if |rs| == 2 {
      assert Agrees(exact, rs[0], qs[0]) && Agrees(exact, rs[1], qs[1]);
    }
    if Algorithm in ns {
      NamedStringAgrees(exact, ns, ms, Algorithm);
    }
  }

  lemma PairAgrees(exact: bool, rs: seq<Answer>, qs: seq<Answer>)
    requires AgreeAll(exact, rs, qs)
    ensures TwoValues(rs) || (exact && |rs| == 2) ==> rs == qs
    ensures exact ==> TwoValues(rs) == TwoValues(qs)
  {
    if |rs| == 2 {
      assert Agrees(exact, rs[0], qs[0]) && Agrees(exact, rs[1], qs[1]);
    }
  }

  predicate OnlyRenamed(fn: Fn) {
    || fn.And? || fn.Or? || fn.ListOf? || fn.FuzzyMatchAnyOf? || fn.Named?
    || fn.Eq? || fn.Gt? || fn.Gte? || fn.Lt? || fn.Lte? || fn.Multiply?
  }

  lemma EqualAgrees(exact: bool, p: Prims, rs: seq<Answer>, qs: seq<Answer>)
    requires AgreeAll(exact, rs, qs)
    ensures Agrees(exact, EqualOf(p, rs), EqualOf(p, qs)) && Agrees(exact, ProductOf(rs), ProductOf(qs))
  {
    PairAgrees(exact, rs, qs);
  }

  lemma OrderedAgrees(exact: bool, p: Prims, fn: Fn, rs: seq<Answer>, qs: seq<Answer>)
    requires AgreeAll(exact, rs, qs)
    ensures Agrees(exact, OrderedOf(p, fn, rs), OrderedOf(p, fn, qs))
  {
    PairAgrees(exact, rs, qs);
  }

  lemma ComparisonAgrees(exact: bool, env: Env, env': Env, fn: Fn, rs: seq<Answer>, qs: seq<Answer>,
      ns: map<Slot, Answer>, ms: map<Slot, Answer>)
    requires fn.Eq? || fn.Gt? || fn.Gte? || fn.Lt? || fn.Lte? || fn.Multiply?
    requires AgreeAll(exact, rs, qs) && env.prims == env'.prims
    ensures Agrees(exact, Combine(env, fn, rs, ns), Combine(env', Rename(fn), qs, ms))
  {
    EqualAgrees(exact, env.prims, rs, qs);
    OrderedAgrees(exact, env.prims, fn, rs, qs);
  }

  lemma RenamedAgrees(exact: bool, env: Env, base: string, fn: Fn, rs: seq<Answer>, qs: seq<Answer>,
      ns: map<Slot, Answer>, ms: map<Slot, Answer>)
    requires OnlyRenamed(fn) && AgreeAll(exact, rs, qs) && AgreeNamed(exact, ns, ms)
    ensures Agrees(exact, Combine(env, fn, rs, ns), Combine(NormalEnv(env, base), Rename(fn), qs, ms))
  {
    if fn.And? {
      AndAgrees(exact, rs, qs);
    } else if fn.Or? {
      OrAgrees(exact, rs, qs);
    } else if fn.ListOf? {
      ListAgrees(exact, rs, qs);
    } else if fn.FuzzyMatchAnyOf? {
      FuzzyAgrees(exact, env.prims, rs, qs, ns, ms);
    } else if fn.Named? {
      OtherAgrees(exact, env.prims, fn.other, rs, qs, ns, ms);
    } else {
      ComparisonAgrees(exact, env, NormalEnv(env, base), fn, rs, qs, ns, ms);
    }
  }

  /** `not` and `neq` become negations in the target. */
  lemma NotNodeValue(env: Env, fn: Fn, cs: seq<Expr>, named: map<Slot, Expr>)
    requires fn.Not? || fn.MNot?
    ensures Eval(env, Node(fn, cs, named)) == NotOf(Answers(env, cs))
  {
    EvalNode(env, fn, cs, named);
  }

  /** A difference in the source and a negated equality in the target. */
  lemma UnequalValues(env: Env, env': Env, cs: seq<Expr>, tcs: seq<Expr>, named: map<Slot, Expr>)
    ensures Eval(env, Node(Neq, cs, named)) == (var rs := Answers(env, cs);
      if TwoValues(rs) then Truth(Unequal(env.prims, rs[0].value, rs[1].value)) else None)
    ensures Eval(env', Node(MNot, [Node(MEq, tcs, map[])], map[])) == NotOf([EqualOf(env'.prims, Answers(env', tcs))])
  {
    EvalNode(env, Neq, cs, named);
    EvalNode(env', MEq, tcs, map[]);
    NotNodeValue(env', MNot, [Node(MEq, tcs, map[])], map[]);
    assert Answers(env', [Node(MEq, tcs, map[])]) == [Eval(env', Node(MEq, tcs, map[]))];
  }

  lemma NegationAgrees(exact: bool, env: Env, base: string, cs: seq<Expr>, tcs: seq<Expr>, named: map<Slot, Expr>)
    requires AgreeAll(exact, Answers(env, cs), Answers(NormalEnv(env, base), tcs))
    ensures Agrees(exact, Eval(env, Node(Not, cs, named)), Eval(NormalEnv(env, base), Node(MNot, tcs, map[])))
    ensures Agrees(exact, Eval(env, Node(Neq, cs, named)),
        Eval(NormalEnv(env, base), Node(MNot, [Node(MEq, tcs, map[])], map[])))
  {
    var env' := NormalEnv(env, base);
    NotNodeValue(env, Not, cs, named);
    NotNodeValue(env', MNot, tcs, map[]);
    UnequalValues(env, env', cs, tcs, named);
    PairAgrees(exact, Answers(env, cs), Answers(env', tcs));
    if |cs| == 1 {
      assert Agrees(exact, Answers(env, cs)[0], Answers(env', tcs)[0]);
    }
  }

  lemma MembershipAgrees(exact: bool, env: Env, base: string, fn: Fn, cs: seq<Expr>, tcs: seq<Expr>,
      named: map<Slot, Expr>)
    requires fn.In? || fn.Contains?
    requires AgreeAll(exact, Answers(env, cs), Answers(NormalEnv(env, base), tcs))
    requires |cs| >= 2 && (exact ==> |cs| == 2)
    ensures Agrees(exact, Eval(env, Node(fn, cs, named)),
        Eval(NormalEnv(env, base), Node(if fn.In? then IsInList else StringContains, tcs[..2], map[])))
  {
    var env' := NormalEnv(env, base);
    var fn' := if fn.In? then IsInList else StringContains;
    EvalNode(env, fn, cs, named);
    EvalNode(env', fn', tcs[..2], map[]);
    if |cs| == 2 {
      assert tcs[..2] == tcs;
      PairAgrees(exact, Answers(env, cs), Answers(env', tcs));
    }
  }

  lemma FieldAgrees(exact: bool, env: Env, base: string, cs: seq<Expr>, named: map<Slot, Expr>)
    requires NamesString(named, Field) && KeptIn(env.payload, named[Field].value.s)
    ensures Eval(env, Node(FieldRef, cs, named)) == Eval(NormalEnv(env, base), Node(Payload, [named[Field]], map[]))
  {
    var env' := NormalEnv(env, base);
    EvalNode(env, FieldRef, cs, named);
    EvalNode(env', Payload, [named[Field]], map[]);
    assert Answers(env', [named[Field]]) == [Some(named[Field].value)];
    assert NamedAnswers(env, named)[Field] == Some(named[Field].value);
    ReadKeptExactly(env.payload, base, named[Field].value.s);
  }

  lemma RelatedValue(env: Env, cs: seq<Expr>, named: map<Slot, Expr>, link: string, f: string)
    requires Has(named, {Path, Field}) && named[Path] == Const(Str(link)) && named[Field] == Const(Str(f))
    ensures Eval(env, Node(RelatedField, cs, named)) == LinkedField(env, link, f)
  {
    EvalNode(env, RelatedField, cs, named);
    assert NamedAnswers(env, named)[Path] == Some(Str(link)) && NamedAnswers(env, named)[Field] == Some(Str(f));
  }

  lemma AccessValue(env: Env, named: map<Slot, Expr>, link: string, f: string)
    requires Has(named, {TableName, FieldName, Path}) && named[TableName] == Const(Str(env.table))
    requires named[FieldName] == Const(Str(f)) && named[Path] == Const(List([Str(link)]))
    ensures Eval(env, Node(DatabaseAccess, [], named)) == LinkedField(env, link, f)
  {
    EvalNode(env, DatabaseAccess, [], named);
    var ms := NamedAnswers(env, named);
    assert ms[TableName] == Some(Str(env.table)) && ms[FieldName] == Some(Str(f))
        && ms[Path] == Some(List([Str(link)]));
  }

  lemma RelatedAgrees(env: Env, base: string, cs: seq<Expr>, named: map<Slot, Expr>)
    requires NamesString(named, Field) && NamesString(named, Path)
        && LinkKept(env, named[Path].value.s, named[Field].value.s)
    ensures Eval(env, Node(RelatedField, cs, named))
         == Eval(NormalEnv(env, base),
             Node(DatabaseAccess, [],
             map[TableName := Const(Str(env.table)), FieldName := named[Field],
             Path := Const(List([named[Path].value]))]))
  {
    var target: map<Slot, Expr> :=
      map[TableName := Const(Str(env.table)), FieldName := named[Field], Path := Const(List([named[Path].value]))];
    RelatedValue(env, cs, named, named[Path].value.s, named[Field].value.s);
    AccessValue(NormalEnv(env, base), target, named[Path].value.s, named[Field].value.s);
    LinkedKept(env, base, named[Path].value.s, named[Field].value.s);
  }

  /** Membership in a list that holds exactly the one address is equality with that address. */
  lemma WatchListAgrees(env: Env, base: string, cs: seq<Expr>, named: map<Slot, Expr>, operand: Expr)
    requires PlainWords(env.prims) && Has(named, {ListName, Operand}) && named[ListName].Const?
        && named[ListName].value.Str?
    requires named[ListName].value.s in env.lists && env.lists[named[ListName].value.s] == {HIGH_RISK_IP}
    requires Agrees(false, Eval(env, named[Operand]), Eval(NormalEnv(env, base), operand))
    ensures Agrees(false, Eval(env, Node(InCustomList, cs, named)),
                   Eval(NormalEnv(env, base),
                       Node(IsInList, [operand, Node(ListOf, [Const(Str(HIGH_RISK_IP))], map[])], map[])))
  {
    var env' := NormalEnv(env, base);
    EvalNode(env, InCustomList, cs, named);
    var ns := NamedAnswers(env, named);
    assert ns[ListName] == Some(named[ListName].value);
    if NamedString(ns, Operand).Some? {
      var s := NamedString(ns, Operand).value;
      var listed := Node(ListOf, [Const(Str(HIGH_RISK_IP))], map[]);
      OneAddress(env', listed);
      EvalNode(env', IsInList, [operand, listed], map[]);
      assert Answers(env', [operand, listed]) == [Some(Str(s)), Some(List([Str(HIGH_RISK_IP)]))];
      AddressEquals(env.prims, s);
    }
  }

  lemma OneAddress(env: Env, listed: Expr)
    requires listed == Node(ListOf, [Const(Str(HIGH_RISK_IP))], map[])
    ensures Eval(env, listed) == Some(List([Str(HIGH_RISK_IP)]))
  {
    EvalNode(env, ListOf, listed.children, map[]);
    var rs := Answers(env, listed.children);
    assert rs == [Some(Str(HIGH_RISK_IP))];
    assert Values(rs) == [Str(HIGH_RISK_IP)];
  }

  lemma AddressEquals(p: Prims, s: string)
    requires PlainWords(p)
    ensures Member(p, Str(s), [Str(HIGH_RISK_IP)]) <==> s == HIGH_RISK_IP
  {
    var items := [Str(HIGH_RISK_IP)];
    if s == HIGH_RISK_IP {
      assert Equal(p, Str(s), items[0]) == Some(true);
    } else {
      assert forall i :: 0 <= i < |items| ==> Equal(p, Str(s), items[i]) != Some(true);
    }
  }

  predicate Keeps(tnamed: map<Slot, Expr>, kept: map<Slot, Expr>, slots: set<Slot>) {
    forall k :: k in slots ==> k in tnamed && k in kept && kept[k] == tnamed[k]
  }

  /** A target node that keeps some of the named children keeps their values. */
  lemma KeptAgrees(exact: bool, env: Env, env': Env, named: map<Slot, Expr>, tnamed: map<Slot, Expr>,
      kept: map<Slot, Expr>, slots: set<Slot>)
    requires AgreeNamed(exact, NamedAnswers(env, named), NamedAnswers(env', tnamed)) && Keeps(tnamed, kept, slots)
    ensures forall k :: k in slots ==> AgreeAt(exact, NamedAnswers(env, named), NamedAnswers(env', kept), k)
  {
    forall k | k in slots
      ensures AgreeAt(exact, NamedAnswers(env, named), NamedAnswers(env', kept), k)
    {
      assert k in NamedAnswers(env', tnamed);
      assert AgreeAt(exact, NamedAnswers(env, named), NamedAnswers(env', tnamed), k);
    }
  }

  lemma FilterValue(env: Env, cs: seq<Expr>, named: map<Slot, Expr>)
    ensures Eval(env, Node(Filter, cs, named)) == FilterOf(NamedAnswers(env, named))
  {
    EvalNode(env, Filter, cs, named);
  }

  lemma TimeAddValue(env: Env, cs: seq<Expr>, named: map<Slot, Expr>)
    ensures Eval(env, Node(TimeAdd, cs, named)) == TimeAddOf(env.prims, NamedAnswers(env, named))
  {
    EvalNode(env, TimeAdd, cs, named);
  }

  lemma AggregatorValue(env: Env, cs: seq<Expr>, named: map<Slot, Expr>)
    ensures Eval(env, Node(Aggregator, cs, named)) == AggregateOf(env, NamedAnswers(env, named))
  {
    EvalNode(env, Aggregator, cs, named);
  }

  lemma FilterNodeAgrees(exact: bool, env: Env, env': Env, cs: seq<Expr>, named: map<Slot, Expr>,
      tnamed: map<Slot, Expr>, kept: map<Slot, Expr>)
    requires AgreeNamed(exact, NamedAnswers(env, named), NamedAnswers(env', tnamed))
    requires Keeps(tnamed, kept, {TableName, FieldName, Operator, Operand})
    ensures Agrees(exact, Eval(env, Node(Filter, cs, named)), Eval(env', Node(Filter, [], kept)))
  {
    FilterValue(env, cs, named);
    FilterValue(env', [], kept);
    KeptAgrees(exact, env, env', named, tnamed, kept, {TableName, FieldName, Operator, Operand});
    FilterAgrees(exact, NamedAnswers(env, named), NamedAnswers(env', kept));
  }

  lemma TimeAddNodeAgrees(exact: bool, env: Env, env': Env, cs: seq<Expr>, named: map<Slot, Expr>,
      tnamed: map<Slot, Expr>, kept: map<Slot, Expr>)
    requires env.prims == env'.prims && AgreeNamed(exact, NamedAnswers(env, named), NamedAnswers(env', tnamed))
    requires Keeps(tnamed, kept, {TimestampField, Duration, Sign})
    ensures Agrees(exact, Eval(env, Node(TimeAdd, cs, named)), Eval(env', Node(TimeAdd, [], kept)))
  {
    TimeAddValue(env, cs, named);
    TimeAddValue(env', [], kept);
    KeptAgrees(exact, env, env', named, tnamed, kept, {TimestampField, Duration, Sign});
    TimeAddAgrees(exact, env.prims, NamedAnswers(env, named), NamedAnswers(env', kept));
  }

  lemma AggregatorOverKept(exact: bool, env: Env, cs: seq<Expr>, named: map<Slot, Expr>)
    requires NodeOk(exact, env, Aggregator, cs, named)
    ensures var ns := NamedAnswers(env, named);
      && Filters in ns && NamedString(ns, FieldName).Some? && RowsKept(env, NamedString(ns, FieldName).value)
      && (ns[Filters].Some? ==> ns[Filters].value.List? && PredsKept(env, ns[Filters].value.items))
  {
    var filters := named[Filters];
    FiltersKept(env, filters.children, filters.named);
    assert NamedAnswers(env, named)[FieldName] == Some(named[FieldName].value);
    assert NamedAnswers(env, named)[Filters] == Eval(env, filters);
  }

  lemma AggregatorNodeAgrees(exact: bool, env: Env, base: string, cs: seq<Expr>, named: map<Slot, Expr>,
      tnamed: map<Slot, Expr>, kept: map<Slot, Expr>)
    requires NodeOk(exact, env, Aggregator, cs, named)
    requires AgreeNamed(exact, NamedAnswers(env, named), NamedAnswers(NormalEnv(env, base), tnamed))
    requires Keeps(tnamed, kept, {TableName, FieldName, AggregatorName, Filters})
    ensures Agrees(exact, Eval(env, Node(Aggregator, cs, named)),
        Eval(NormalEnv(env, base), Node(Aggregator, [], kept)))
  {
    AggregatorValue(env, cs, named);
    AggregatorValue(NormalEnv(env, base), [], kept);
    KeptAgrees(exact, env, NormalEnv(env, base), named, tnamed, kept, {TableName, FieldName, AggregatorName, Filters});
    AggregatorOverKept(exact, env, cs, named);
    AggregateAgrees(exact, env, base, NamedAnswers(env, named), NamedAnswers(NormalEnv(env, base), kept));
  }

  lemma TranslateNode(table: string, fn: Fn, cs: seq<Expr>, named: map<Slot, Expr>, tcs: seq<Expr>,
      tnamed: map<Slot, Expr>)
    requires |tcs| == |cs| && forall i :: 0 <= i < |cs| ==> Translate(table, cs[i]) == Some(tcs[i])
    requires tnamed.Keys == named.Keys && forall k :: k in named ==> Translate(table, named[k]) == Some(tnamed[k])
    ensures Translate(table, Node(fn, cs, named)) == Rebuild(table, fn, tcs, tnamed)
  {
    var e := Node(fn, cs, named);
    assert forall i :: 0 <= i < |e.children| ==> Translate(table, e.children[i]) == Some(tcs[i]);
    assert TranslateChildren(table, e).Some?;
    assert TranslateChildren(table, e).value == tcs;
    assert forall k :: k in e.named ==> Translate(table, e.named[k]) == Some(tnamed[k]);
    assert TranslateNamed(table, e).Some?;
    assert TranslateNamed(table, e).value == tnamed;
  }

  // ---- The flag ------------------------------------------------------------------------------------------

  lemma FlagReadValue(env: Env, e: Expr)
    requires ReadsFlag(e)
    ensures Eval(env, e) == Some(Read(env.payload, FLAG))
    ensures Translate(env.table, e) == Some(Node(Payload, [Const(Str(FLAG))], map[]))
  {
    EvalNode(env, FieldRef, e.children, e.named);
    assert NamedAnswers(env, e.named)[Field] == Some(Str(FLAG));
    TranslateNode(env.table, FieldRef, [], e.named, [], e.named);
  }

  lemma FlagPayloadValue(env: Env)
    ensures Eval(env, Node(Payload, [Const(Str(FLAG))], map[])) == Some(Read(env.payload, FLAG))
  {
    var field := [Const(Str(FLAG))];
    EvalNode(env, Payload, field, map[]);
    assert Answers(env, field) == [Some(Str(FLAG))];
  }

  lemma FlagOperandValue(env: Env, base: string, e: Expr)
    requires FlagOperand(e)
    ensures Translate(env.table, e).Some?
    ensures Eval(env, e).Some?
        && Eval(NormalEnv(env, base), Translate(env.table, e).value) == Some(Normal(Eval(env, e).value))
    ensures Eval(env, e).value == Read(env.payload, FLAG) || Eval(env, e).value.Bool? || Eval(env, e).value.Null?
  {
    if ReadsFlag(e) {
      FlagReadValue(env, e);
      FlagPayloadValue(NormalEnv(env, base));
    }
  }

  /** Spelling booleans out neither merges nor splits values, apart from a flag that was spelled out already. */
  lemma SpelledOut(exact: bool, p: Prims, l: Value, r: Value)
    requires PlainWords(p)
    requires exact ==> (l.Bool? || l.Null?) && (r.Bool? || r.Null?)
    requires (l.Bool? || l.Null?) || (r.Bool? || r.Null?) || l == r
    ensures Agrees(exact, Truth(Equal(p, l, r)), Truth(Equal(p, Normal(l), Normal(r))))
    ensures Agrees(exact, Truth(Unequal(p, l, r)), NotOf([Truth(Equal(p, Normal(l), Normal(r)))]))
  {}

  lemma TwoAnswers(env: Env, cs: seq<Expr>, l: Value, r: Value)
    requires |cs| == 2 && Eval(env, cs[0]) == Some(l) && Eval(env, cs[1]) == Some(r)
    ensures Answers(env, cs) == [Some(l), Some(r)]
  {}

  lemma EqualNode(env: Env, fn: Fn, cs: seq<Expr>, l: Value, r: Value)
    requires fn.Eq? || fn.MEq?
    requires Answers(env, cs) == [Some(l), Some(r)]
    ensures Eval(env, Node(fn, cs, map[])) == Truth(Equal(env.prims, l, r))
  {
    EvalNode(env, fn, cs, map[]);
  }

  lemma UnequalNode(env: Env, cs: seq<Expr>, l: Value, r: Value)
    requires Answers(env, cs) == [Some(l), Some(r)]
    ensures Eval(env, Node(Neq, cs, map[])) == Truth(Unequal(env.prims, l, r))
  {
    EvalNode(env, Neq, cs, map[]);
  }

  lemma NegatedNode(env: Env, e: Expr)
    ensures Eval(env, Node(MNot, [e], map[])) == NotOf([Eval(env, e)])
  {
    EvalNode(env, MNot, [e], map[]);
    assert Answers(env, [e]) == [Eval(env, e)];
  }

  /** A comparison of two values, and the comparison of what they become. */
  lemma SpelledComparison(exact: bool, env: Env, env': Env, fn: Fn, cs: seq<Expr>, tcs: seq<Expr>, l: Value, r: Value)
    requires PlainWords(env.prims) && env'.prims == env.prims && (fn.Eq? || fn.Neq?)
    requires Answers(env, cs) == [Some(l), Some(r)] && Answers(env', tcs) == [Some(Normal(l)), Some(Normal(r))]
    requires exact ==> (l.Bool? || l.Null?) && (r.Bool? || r.Null?)
    requires (l.Bool? || l.Null?) || (r.Bool? || r.Null?) || l == r
    ensures Agrees(exact, Eval(env, Node(fn, cs, map[])), Eval(env', FlagTarget(fn, tcs)))
  {
    EqualNode(env', MEq, tcs, Normal(l), Normal(r));
    SpelledOut(exact, env.prims, l, r);
    if fn.Eq? {
      EqualNode(env, Eq, cs, l, r);
    } else {
      UnequalNode(env, cs, l, r);
      NegatedNode(env', Node(MEq, tcs, map[]));
    }
  }

  /** The target of a comparison. */
  function FlagTarget(fn: Fn, tcs: seq<Expr>): Expr {
    if fn.Eq? then Node(MEq, tcs, map[]) else Node(MNot, [Node(MEq, tcs, map[])], map[])
  }

  lemma FlagTestAgrees(exact: bool, env: Env, base: string, fn: Fn, cs: seq<Expr>, named: map<Slot, Expr>)
    requires PlainWords(env.prims) && (exact ==> FlagIsBool(env)) && FlagTest(fn, cs, named)
    ensures var t := Translate(env.table, Node(fn, cs, named));
      t.Some? && Agrees(exact, Eval(env, Node(fn, cs, named)), Eval(NormalEnv(env, base), t.value))
  {
    FlagOperandValue(env, base, cs[0]);
    FlagOperandValue(env, base, cs[1]);
    var tcs := [Translate(env.table, cs[0]).value, Translate(env.table, cs[1]).value];
    var l := Eval(env, cs[0]).value;
    var r := Eval(env, cs[1]).value;
    TwoAnswers(env, cs, l, r);
    TwoAnswers(NormalEnv(env, base), tcs, Normal(l), Normal(r));
    TranslateFlagTest(env.table, fn, cs, tcs);
    SpelledComparison(exact, env, NormalEnv(env, base), fn, cs, tcs, l, r);
  }

  lemma TranslateFlagTest(table: string, fn: Fn, cs: seq<Expr>, tcs: seq<Expr>)
    requires |cs| == |tcs| == 2 && (fn.Eq? || fn.Neq?)
    requires forall i :: 0 <= i < 2 ==> Translate(table, cs[i]) == Some(tcs[i])
    ensures Translate(table, Node(fn, cs, map[])) == Some(FlagTarget(fn, tcs))
  {
    TranslateNode(table, fn, cs, map[], tcs, map[]);
  }

  /** The value of the flag or a boolean constant, while the flag is a boolean or null. */
  predicate Truthlike(v: Value) { v.Bool? || v.Null? }

  predicate AllTruthlike(vs: seq<Value>) { forall i :: 0 <= i < |vs| ==> Truthlike(vs[i]) }

  function NormalAll(vs: seq<Value>): seq<Value> { seq(|vs|, i requires 0 <= i < |vs| => Normal(vs[i])) }

  lemma SpelledMembers(p: Prims, v: Value, vs: seq<Value>)
    requires PlainWords(p) && Truthlike(v) && AllTruthlike(vs)
    ensures Member(p, v, vs) <==> Member(p, Normal(v), NormalAll(vs))
    ensures Holding(p, vs, v) <==> Holding(p, NormalAll(vs), Normal(v))
  {
    forall i | 0 <= i < |vs|
      ensures (Equal(p, v, vs[i]) == Some(true)) <==> (Equal(p, Normal(v), NormalAll(vs)[i]) == Some(true))
      ensures (Equal(p, vs[i], v) == Some(true)) <==> (Equal(p, NormalAll(vs)[i], Normal(v)) == Some(true))
    {
      assert Truthlike(vs[i]) && NormalAll(vs)[i] == Normal(vs[i]);
    }
  }

  lemma FlagListValue(env: Env, base: string, e: Expr) returns (vs: seq<Value>)
    requires FlagList(e) && FlagIsBool(env)
    ensures AllTruthlike(vs) && Eval(env, e) == Some(List(vs))
    ensures Translate(env.table, e).Some?
        && Eval(NormalEnv(env, base), Translate(env.table, e).value) == Some(List(NormalAll(vs)))
  {
    var env' := NormalEnv(env, base);
    forall i | 0 <= i < |e.children|
      ensures Translate(env.table, e.children[i]).Some? && Eval(env, e.children[i]).Some?
          && Truthlike(Eval(env, e.children[i]).value)
      ensures Eval(env', Translate(env.table, e.children[i]).value) == Some(Normal(Eval(env, e.children[i]).value))
    {
      FlagOperandValue(env, base, e.children[i]);
    }
    var tcs := seq(|e.children|, i requires 0 <= i < |e.children| => Translate(env.table, e.children[i]).value);
    vs := seq(|e.children|, i requires 0 <= i < |e.children| => Eval(env, e.children[i]).value);
    TranslateNode(env.table, ListOf, e.children, map[], tcs, map[]);
    EvalNode(env, ListOf, e.children, map[]);
    EvalNode(env', ListOf, tcs, map[]);
    assert AllSome(Answers(env, e.children)) && Values(Answers(env, e.children)) == vs;
    assert AllSome(Answers(env', tcs)) && Values(Answers(env', tcs)) == NormalAll(vs);
    assert e == Node(ListOf, e.children, map[]);
  }

  lemma HoldingNode(env: Env, fn: Fn, cs: seq<Expr>, l: Value, r: Value)
    requires (fn.Contains? || fn.StringContains?) && Answers(env, cs) == [Some(l), Some(r)] && l.List?
    ensures Eval(env, Node(fn, cs, map[])) == Some(Bool(Holding(env.prims, l.items, r)))
  {
    EvalNode(env, fn, cs, map[]);
  }

  lemma MemberNode(env: Env, fn: Fn, cs: seq<Expr>, l: Value, r: Value)
    requires (fn.In? || fn.IsInList?) && Answers(env, cs) == [Some(l), Some(r)] && r.List?
    ensures Eval(env, Node(fn, cs, map[])) == Some(Bool(Member(env.prims, l, r.items)))
  {
    EvalNode(env, fn, cs, map[]);
  }

  lemma TranslateMembership(table: string, fn: Fn, cs: seq<Expr>, tcs: seq<Expr>)
    requires |cs| == |tcs| == 2 && (fn.In? || fn.Contains?)
    requires forall i :: 0 <= i < 2 ==> Translate(table, cs[i]) == Some(tcs[i])
    ensures Translate(table, Node(fn, cs, map[])) == Some(Node(if fn.In? then IsInList else StringContains, tcs, map[]))
  {
    TranslateNode(table, fn, cs, map[], tcs, map[]);
    assert tcs[..2] == tcs;
  }

  /** Membership of the flag in a list of booleans survives the spelling out of all of them. */
  lemma FlagMembershipAgrees(exact: bool, env: Env, base: string, fn: Fn, cs: seq<Expr>)
    requires PlainWords(env.prims) && FlagMembership(env, fn, cs, map[])
    ensures var t := Translate(env.table, Node(fn, cs, map[]));
      t.Some? && Eval(env, Node(fn, cs, map[])) == Eval(NormalEnv(env, base), t.value)
  {
    var env' := NormalEnv(env, base);
    var l := if fn.In? then 0 else 1;  // where the operand is
    FlagOperandValue(env, base, cs[l]);
    var v := Eval(env, cs[l]).value;
    var vs := FlagListValue(env, base, cs[1 - l]);
    var tcs := [Translate(env.table, cs[0]).value, Translate(env.table, cs[1]).value];
    TranslateMembership(env.table, fn, cs, tcs);
    SpelledMembers(env.prims, v, vs);
    if fn.In? {
      TwoAnswers(env, cs, v, List(vs));
      TwoAnswers(env', tcs, Normal(v), List(NormalAll(vs)));
      MemberNode(env, In, cs, v, List(vs));
      MemberNode(env', IsInList, tcs, Normal(v), List(NormalAll(vs)));
    } else {
      TwoAnswers(env, cs, List(vs), v);
      TwoAnswers(env', tcs, List(NormalAll(vs)), Normal(v));
      HoldingNode(env, Contains, cs, List(vs), v);
      HoldingNode(env', StringContains, tcs, List(NormalAll(vs)), Normal(v));
    }
  }

  // ---- Whole formulas ---------------------------------------------------------------------------------------

  /** What the translated children keep for the node above them. */
  predicate ChildrenKept(cs: seq<Expr>, tcs: seq<Expr>, named: map<Slot, Expr>, tnamed: map<Slot, Expr>) {
    && |tcs| == |cs| && tnamed.Keys == named.Keys
    && (forall k :: k in named && named[k].Const? && !named[k].value.Bool? ==> tnamed[k] == named[k])
    && (FuzzyAtEighty(tcs) ==> SourceFuzzyAtEighty(cs))
  }

  lemma RebuiltNamed(table: string, tnamed: map<Slot, Expr>)
    ensures Has(tnamed, {TableName, FieldName, Operator, Operand}) ==>
      var t := Rebuild(table, Filter, [], tnamed);
        t.Some? && t.value.Node? && t.value == Node(Filter, [], t.value.named)
        && Keeps(tnamed, t.value.named, {TableName, FieldName, Operator, Operand})
    ensures Has(tnamed, {TimestampField, Duration, Sign}) ==>
      var t := Rebuild(table, TimeAdd, [], tnamed);
        t.Some? && t.value.Node? && t.value == Node(TimeAdd, [], t.value.named)
        && Keeps(tnamed, t.value.named, {TimestampField, Duration, Sign})
    ensures Has(tnamed, {TableName, FieldName, AggregatorName, Filters}) ==>
      var t := Rebuild(table, Aggregator, [], tnamed);
        t.Some? && t.value.Node? && t.value == Node(Aggregator, [], t.value.named)
        && Keeps(tnamed, t.value.named, {TableName, FieldName, AggregatorName, Filters})
  {}

  /** Nodes that are built from named children. */
  lemma NamedRebuiltAgrees(exact: bool, env: Env, base: string, fn: Fn, cs: seq<Expr>, named: map<Slot, Expr>,
      tcs: seq<Expr>, tnamed: map<Slot, Expr>)
    requires fn in {Filter, TimeAdd, Aggregator} && NodeOk(exact, env, fn, cs, named) && tnamed.Keys == named.Keys
    requires AgreeNamed(exact, NamedAnswers(env, named), NamedAnswers(NormalEnv(env, base), tnamed))
    ensures var t := Rebuild(env.table, fn, tcs, tnamed);
      t.Some? && Agrees(exact, Eval(env, Node(fn, cs, named)), Eval(NormalEnv(env, base), t.value))
  {
    RebuiltNamed(env.table, tnamed);
    var t := Rebuild(env.table, fn, tcs, tnamed);
    assert t == Rebuild(env.table, fn, [], tnamed);
    match fn
    case Filter => FilterNodeAgrees(exact, env, NormalEnv(env, base), cs, named, tnamed, t.value.named);
    case TimeAdd => TimeAddNodeAgrees(exact, env, NormalEnv(env, base), cs, named, tnamed, t.value.named);
    case Aggregator => AggregatorNodeAgrees(exact, env, base, cs, named, tnamed, t.value.named);
  }

  /** Nodes that are built from their children, apart from renaming. */
  lemma ChildrenRebuiltAgrees(exact: bool, env: Env, base: string, fn: Fn, cs: seq<Expr>, named: map<Slot, Expr>,
      tcs: seq<Expr>, tnamed: map<Slot, Expr>)
    requires fn in {Contains, In, Not, Neq} && NodeOk(exact, env, fn, cs, named) && |tcs| == |cs|
    requires AgreeAll(exact, Answers(env, cs), Answers(NormalEnv(env, base), tcs))
    ensures var t := Rebuild(env.table, fn, tcs, tnamed);
      t.Some? && Agrees(exact, Eval(env, Node(fn, cs, named)), Eval(NormalEnv(env, base), t.value))
  {
    if fn.Not? || fn.Neq? {
      NegationAgrees(exact, env, base, cs, tcs, named);
    } else {
      MembershipAgrees(exact, env, base, fn, cs, tcs, named);
    }
  }

  lemma RenamedNode(table: string, fn: Fn, tcs: seq<Expr>, tnamed: map<Slot, Expr>)
    requires OnlyRenamed(fn) && (fn.Gte? ==> !FuzzyAtEighty(tcs))
    ensures Rebuild(table, fn, tcs, tnamed) == Some(Node(Rename(fn), tcs, tnamed))
    ensures !fn.FieldRef? && !Rename(fn).FieldRef?
  {}

  lemma RenamedNodeAgrees(exact: bool, env: Env, env': Env, fn: Fn, fn': Fn, cs: seq<Expr>, named: map<Slot, Expr>,
      tcs: seq<Expr>, tnamed: map<Slot, Expr>)
    requires !fn.FieldRef? && !fn'.FieldRef?
    requires Agrees(exact, Combine(env, fn, Answers(env, cs), NamedAnswers(env, named)),
        Combine(env', fn', Answers(env', tcs), NamedAnswers(env', tnamed)))
    ensures Agrees(exact, Eval(env, Node(fn, cs, named)), Eval(env', Node(fn', tcs, tnamed)))
  {
    EvalNode(env, fn, cs, named);
    EvalNode(env', fn', tcs, tnamed);
  }

  lemma FieldRebuiltAgrees(exact: bool, env: Env, base: string, cs: seq<Expr>, named: map<Slot, Expr>, tcs: seq<Expr>,
      tnamed: map<Slot, Expr>)
    requires NamesString(named, Field) && KeptIn(env.payload, named[Field].value.s) && Field in tnamed
        && tnamed[Field] == named[Field]
    ensures var t := Rebuild(env.table, FieldRef, tcs, tnamed);
      t.Some? && Agrees(exact, Eval(env, Node(FieldRef, cs, named)), Eval(NormalEnv(env, base), t.value))
  {
    assert Rebuild(env.table, FieldRef, tcs, tnamed) == Some(Node(Payload, [named[Field]], map[]));
    FieldAgrees(exact, env, base, cs, named);
  }

  lemma RelatedRebuiltAgrees(exact: bool, env: Env, base: string, cs: seq<Expr>, named: map<Slot, Expr>,
      tcs: seq<Expr>, tnamed: map<Slot, Expr>)
    requires NodeOk(exact, env, RelatedField, cs, named)
    requires Has(tnamed, {Field, Path}) && tnamed[Field] == named[Field] && tnamed[Path] == named[Path]
    ensures var t := Rebuild(env.table, RelatedField, tcs, tnamed);
      t.Some? && Agrees(exact, Eval(env, Node(RelatedField, cs, named)), Eval(NormalEnv(env, base), t.value))
  {
    RelatedAgrees(env, base, cs, named);
  }

  lemma ListRebuiltAgrees(exact: bool, env: Env, base: string, cs: seq<Expr>, named: map<Slot, Expr>, tcs: seq<Expr>,
      tnamed: map<Slot, Expr>)
    requires PlainWords(env.prims) && NodeOk(exact, env, InCustomList, cs, named) && tnamed.Keys == named.Keys
    requires AgreeNamed(exact, NamedAnswers(env, named), NamedAnswers(NormalEnv(env, base), tnamed))
    ensures var t := Rebuild(env.table, InCustomList, tcs, tnamed);
      t.Some? && Agrees(exact, Eval(env, Node(InCustomList, cs, named)), Eval(NormalEnv(env, base), t.value))
  {
    assert AgreeAt(exact, NamedAnswers(env, named), NamedAnswers(NormalEnv(env, base), tnamed), Operand);
    WatchListAgrees(env, base, cs, named, tnamed[Operand]);
  }

  lemma RebuiltAgrees(exact: bool, env: Env, base: string, fn: Fn, cs: seq<Expr>, named: map<Slot, Expr>,
      tcs: seq<Expr>, tnamed: map<Slot, Expr>)
    requires PlainWords(env.prims) && NodeOk(exact, env, fn, cs, named) && ChildrenKept(cs, tcs, named, tnamed)
    requires AgreeAll(exact, Answers(env, cs), Answers(NormalEnv(env, base), tcs))
    requires AgreeNamed(exact, NamedAnswers(env, named), NamedAnswers(NormalEnv(env, base), tnamed))
    ensures var t := Rebuild(env.table, fn, tcs, tnamed);
      t.Some? && Agrees(exact, Eval(env, Node(fn, cs, named)), Eval(NormalEnv(env, base), t.value))
  {
    if fn.FieldRef? {
      FieldRebuiltAgrees(exact, env, base, cs, named, tcs, tnamed);
    } else if fn.RelatedField? {
      RelatedRebuiltAgrees(exact, env, base, cs, named, tcs, tnamed);
    } else if fn.InCustomList? {
      ListRebuiltAgrees(exact, env, base, cs, named, tcs, tnamed);
    } else if fn in {Contains, In, Not, Neq} {
      ChildrenRebuiltAgrees(exact, env, base, fn, cs, named, tcs, tnamed);
    } else if fn in {Filter, TimeAdd, Aggregator} {
      NamedRebuiltAgrees(exact, env, base, fn, cs, named, tcs, tnamed);
    } else {
      RenamedNode(env.table, fn, tcs, tnamed);
      RenamedAgrees(exact, env, base, fn, Answers(env, cs), Answers(NormalEnv(env, base), tcs),
          NamedAnswers(env, named), NamedAnswers(NormalEnv(env, base), tnamed));
      RenamedNodeAgrees(exact, env, NormalEnv(env, base), fn, Rename(fn), cs, named, tcs, tnamed);
    }
  }

  /** Constants other than booleans stay, and only a fuzzy node becomes a fuzzy node. */
  lemma TranslatedChild(table: string, e: Expr)
    requires Translate(table, e).Some?
    ensures e.Const? <==> Translate(table, e).value.Const?
    ensures e.Const? && !e.value.Bool? ==> Translate(table, e).value == e
    ensures e.Const? && e.value.Bool? ==> Translate(table, e).value.value.Str?
    ensures Translate(table, e).value.Node? && Translate(table, e).value.fn.FuzzyMatchAnyOf? ==> e.fn.FuzzyMatchAnyOf?
  {}

  /**
   The translation keeps the meaning: every supported formula translates, and over normalised data its
   translation gives the value it gives over the raw data. With `exact`, it also fails exactly when the formula fails.
   */
  lemma {:induction false} TranslationKeepsMeaning(exact: bool, env: Env, base: string, e: Expr)
    requires PlainWords(env.prims) && (exact ==> FlagIsBool(env)) && Supported(exact, env, e)
    ensures Translate(env.table, e).Some?
    ensures Agrees(exact, Eval(env, e), Eval(NormalEnv(env, base), Translate(env.table, e).value))
    decreases e
  {
    if e.Node? {
      if FlagTest(e.fn, e.children, e.named) {
        FlagTestAgrees(exact, env, base, e.fn, e.children, e.named);
      } else if FlagMembership(env, e.fn, e.children, e.named) {
        FlagMembershipAgrees(exact, env, base, e.fn, e.children);
      } else {
        forall k | k in e.named
          ensures Translate(env.table, e.named[k]).Some?
          ensures Agrees(exact, Eval(env, e.named[k]),
              Eval(NormalEnv(env, base), Translate(env.table, e.named[k]).value))
        {
          TranslationKeepsMeaning(exact, env, base, e.named[k]);
        }
        forall i | 0 <= i < |e.children| && !BoolConst(e.children[i])
          ensures Translate(env.table, e.children[i]).Some?
          ensures Agrees(exact, Eval(env, e.children[i]),
              Eval(NormalEnv(env, base), Translate(env.table, e.children[i]).value))
        {
          TranslationKeepsMeaning(exact, env, base, e.children[i]);
        }
        if exists i :: 0 <= i < |e.children| && BoolConst(e.children[i]) {
          HarmlessBoolean(exact, env, base, e);
        } else {
          NodeKeepsMeaning(exact, env, base, e);
        }
      }
    }
  }

  /** Two operands in the target that agree with those of the source, or are spelled out. */
  predicate AgreeOrSpelled(exact: bool, a: Answer, b: Answer) {
    Agrees(exact, a, b) || (a.Some? && a.value.Bool? && b == Some(Normal(a.value)))
  }

  lemma SpelledProduct(env: Env, env': Env, rs: seq<Answer>, qs: seq<Answer>, ns: map<Slot, Answer>,
      ms: map<Slot, Answer>, j: nat)
    requires |rs| == |qs| && j < |rs| && rs[j].Some? && rs[j].value.Bool? && qs[j] == Some(Normal(rs[j].value))
    ensures Combine(env, Multiply, rs, ns) == None && Combine(env', MMultiply, qs, ms) == None
  {
    assert ProductOf(rs) == None && ProductOf(qs) == None;
  }

  lemma SpelledOrdering(env: Env, env': Env, fn: Fn, rs: seq<Answer>, qs: seq<Answer>, ns: map<Slot, Answer>,
      ms: map<Slot, Answer>, j: nat)
    requires Ordering(fn) && env.prims == env'.prims && |rs| == |qs|
    requires forall i :: 0 <= i < |rs| ==> AgreeOrSpelled(false, rs[i], qs[i])
    requires j < |rs| && rs[j].Some? && rs[j].value.Bool? && qs[j] == Some(Normal(rs[j].value))
    ensures Agrees(false, Combine(env, fn, rs, ns), Combine(env', Rename(fn), qs, ms))
  {
    if |rs| == 2 {
      assert AgreeOrSpelled(false, rs[0], qs[0]) && AgreeOrSpelled(false, rs[1], qs[1]);
      assert OrderedOf(env.prims, fn, rs).Some? ==> OrderedOf(env.prims, fn, qs) == OrderedOf(env.prims, fn, rs);
    }
  }

  lemma SpelledPair(exact: bool, env: Env, env': Env, fn: Fn, rs: seq<Answer>, qs: seq<Answer>, ns: map<Slot, Answer>,
      ms: map<Slot, Answer>, j: nat)
    requires BearsBoolean(exact, fn) && env.prims == env'.prims && |rs| == |qs|
    requires forall i :: 0 <= i < |rs| ==> AgreeOrSpelled(exact, rs[i], qs[i])
    requires j < |rs| && rs[j].Some? && rs[j].value.Bool? && qs[j] == Some(Normal(rs[j].value))
    ensures Agrees(exact, Combine(env, fn, rs, ns), Combine(env', Rename(fn), qs, ms))
  {
    if fn.Multiply? {
      SpelledProduct(env, env', rs, qs, ns, ms, j);
    } else {
      SpelledOrdering(env, env', fn, rs, qs, ns, ms, j);
    }
  }

  /** A boolean constant under a function that bears it. */
  lemma HarmlessBoolean(exact: bool, env: Env, base: string, e: Expr)
    requires e.Node? && BearsBoolean(exact, e.fn) && NodeOk(exact, env, e.fn, e.children, e.named)
    requires forall i :: 0 <= i < |e.children| && !BoolConst(e.children[i]) ==>
        var t := Translate(env.table, e.children[i]);
      t.Some? && Agrees(exact, Eval(env, e.children[i]), Eval(NormalEnv(env, base), t.value))
    requires forall k :: k in e.named ==> Translate(env.table, e.named[k]).Some?
    requires exists i :: 0 <= i < |e.children| && BoolConst(e.children[i])
    ensures var t := Translate(env.table, e);
      t.Some? && Agrees(exact, Eval(env, e), Eval(NormalEnv(env, base), t.value))
  {
    var env' := NormalEnv(env, base);
    assert forall i :: 0 <= i < |e.children| ==> Translate(env.table, e.children[i]).Some?;
    var tcs := TranslateChildren(env.table, e).value;
    var tnamed := TranslateNamed(env.table, e).value;
    var rs, qs := Answers(env, e.children), Answers(env', tcs);
    forall i | 0 <= i < |e.children|
      ensures AgreeOrSpelled(exact, rs[i], qs[i])
      ensures BoolConst(e.children[i]) ==> rs[i].Some? && rs[i].value.Bool? && qs[i] == Some(Normal(rs[i].value))
    {
    }
    if FuzzyAtEighty(tcs) {
      TranslatedChild(env.table, e.children[0]);
      TranslatedChild(env.table, e.children[1]);
    }
    var j :| 0 <= j < |e.children| && BoolConst(e.children[j]);
    RenamedNode(env.table, e.fn, tcs, tnamed);
    SpelledPair(exact, env, env', e.fn, rs, qs, NamedAnswers(env, e.named), NamedAnswers(env', tnamed), j);
    RenamedNodeAgrees(exact, env, env', e.fn, Rename(e.fn), e.children, e.named, tcs, tnamed);
    assert e == Node(e.fn, e.children, e.named);
  }

  lemma NodeKeepsMeaning(exact: bool, env: Env, base: string, e: Expr)
    requires PlainWords(env.prims) && e.Node? && NodeOk(exact, env, e.fn, e.children, e.named)
    requires forall i :: 0 <= i < |e.children| ==> var t := Translate(env.table, e.children[i]);
      t.Some? && Agrees(exact, Eval(env, e.children[i]), Eval(NormalEnv(env, base), t.value))
    requires forall k :: k in e.named ==> var t := Translate(env.table, e.named[k]);
      t.Some? && Agrees(exact, Eval(env, e.named[k]), Eval(NormalEnv(env, base), t.value))
    ensures var t := Translate(env.table, e);
      t.Some? && Agrees(exact, Eval(env, e), Eval(NormalEnv(env, base), t.value))
  {
    var tcs := TranslateChildren(env.table, e).value;
    var tnamed := TranslateNamed(env.table, e).value;
    forall i | 0 <= i < |e.children|
      ensures Agrees(exact, Answers(env, e.children)[i], Answers(NormalEnv(env, base), tcs)[i])
    {
    }
    forall k | k in e.named
      ensures AgreeAt(exact, NamedAnswers(env, e.named), NamedAnswers(NormalEnv(env, base), tnamed), k)
      ensures e.named[k].Const? && !e.named[k].value.Bool? ==> tnamed[k] == e.named[k]
    {
      TranslatedChild(env.table, e.named[k]);
    }
    if FuzzyAtEighty(tcs) {
      TranslatedChild(env.table, e.children[0]);
      TranslatedChild(env.table, e.children[1]);
    }
    assert e == Node(e.fn, e.children, e.named);
    RebuiltAgrees(exact, env, base, e.fn, e.children, e.named, tcs, tnamed);
  }

  // ---- What the target may contain ----------------------------------------------------------------------------

  predicate SourceOnly(fn: Fn) {
    || fn.FieldRef? || fn.RelatedField? || fn.InCustomList? || fn.Contains? || fn.In? || fn.Not? || fn.Neq?
    || fn.Gt? || fn.Gte? || fn.Lt? || fn.Lte? || fn.Eq? || fn.And? || fn.Or? || fn.Multiply?
  }

  /** No function of the source alone, and no boolean constant, anywhere. */
  predicate Clean(e: Expr)
    decreases e
  {
    match e
    case Const(v) => !v.Bool?
    case Node(fn, cs, named) =>
      && !SourceOnly(fn)
      && (forall i :: 0 <= i < |cs| ==> Clean(cs[i]))
      && (forall k :: k in named ==> Clean(named[k]))
  }

  lemma LookupsAreClean(table: string, fn: Fn, tcs: seq<Expr>, tnamed: map<Slot, Expr>)
    requires fn.FieldRef? || fn.RelatedField? || fn.InCustomList?
    requires forall k :: k in tnamed ==> Clean(tnamed[k])
    requires Rebuild(table, fn, tcs, tnamed).Some?
    ensures Clean(Rebuild(table, fn, tcs, tnamed).value)
  {
    assert Clean(Const(Str(HIGH_RISK_IP))) && Clean(Const(Str(table)));
    assert Clean(Node(ListOf, [Const(Str(HIGH_RISK_IP))], map[]));
  }

  lemma NegationIsClean(tcs: seq<Expr>)
    requires forall i :: 0 <= i < |tcs| ==> Clean(tcs[i])
    ensures Clean(Node(MNot, [Node(MEq, tcs, map[])], map[]))
  {
    assert Clean(Node(MEq, tcs, map[]));
  }

  lemma RebuiltIsClean(table: string, fn: Fn, tcs: seq<Expr>, tnamed: map<Slot, Expr>)
    requires forall i :: 0 <= i < |tcs| ==> Clean(tcs[i])
    requires forall k :: k in tnamed ==> Clean(tnamed[k])
    requires Rebuild(table, fn, tcs, tnamed).Some?
    ensures Clean(Rebuild(table, fn, tcs, tnamed).value)
  {
    if fn.FieldRef? || fn.RelatedField? || fn.InCustomList? {
      LookupsAreClean(table, fn, tcs, tnamed);
    } else if fn.Neq? {
      NegationIsClean(tcs);
    } else if fn.Gte? {
      assert Clean(Const(Num(95.0)));
    }
  }

  /** Whatever the formula, supported or not. */
  lemma {:induction false} TranslationIsClean(table: string, e: Expr)
    requires Translate(table, e).Some?
    ensures Clean(Translate(table, e).value)
    decreases e
  {
    if e.Node? {
      forall i | 0 <= i < |e.children|
        ensures Clean(TranslateChildren(table, e).value[i])
      {
        TranslationIsClean(table, e.children[i]);
      }
      forall k | k in e.named
        ensures Clean(TranslateNamed(table, e).value[k])
      {
        TranslationIsClean(table, e.named[k]);
      }
      RebuiltIsClean(table, e.fn, TranslateChildren(table, e).value, TranslateNamed(table, e).value);
    }
  }
}
