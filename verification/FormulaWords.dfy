/**
 What the translation, the normalisation and the evaluator really produce, spelled out: words, names, shapes
 and values.
 */
module FormulaWords {
  import opened Common
  import opened FormulaTranslation
  import opened FormulaMeaning

  // ---- Values of records and constants ----------------------------------------------------------------------------

  /** A boolean constant becomes the word for it; every other constant stays as it is. */
  lemma ConstantsExactly(table: string, v: Value)
    ensures v == Bool(true) ==> Translate(table, Const(v)) == Some(Const(Str("true")))
    ensures v == Bool(false) ==> Translate(table, Const(v)) == Some(Const(Str("false")))
    ensures !v.Bool? ==> Translate(table, Const(v)) == Some(Const(v))
  {
  }

  /** A normalised payload, field by field: two fields may change, and no other is added, changed or lost. */
  lemma NormalizedExactly(r: Record, base: string)
    ensures NormalizePayload(r, base).Keys == r.Keys + {"updated_at"}
    ensures "updated_at" !in r ==> NormalizePayload(r, base)["updated_at"] == Str(base)
    ensures "is_usual_active_hour" in r ==>
      NormalizePayload(r, base)["is_usual_active_hour"] ==
        if r["is_usual_active_hour"] == Bool(true) then Str("true")
        else if r["is_usual_active_hour"] == Bool(false) then Str("false")
        else r["is_usual_active_hour"]
    ensures forall f :: f in r && f != "is_usual_active_hour" ==> NormalizePayload(r, base)[f] == r[f]
  {
    assert "is_usual_active_hour" != "updated_at";
  }

  // ---- Targets ----------------------------------------------------------------------------------------------------

  /** The translations of the children and of the named children. */
  ghost predicate Parts(table: string, cs: seq<Expr>, named: map<Slot, Expr>, tcs: seq<Expr>, tnamed: map<Slot, Expr>) {
    && |tcs| == |cs| && (forall i :: 0 <= i < |cs| ==> Translate(table, cs[i]) == Some(tcs[i]))
    && tnamed.Keys == named.Keys && (forall k :: k in named ==> Translate(table, named[k]) == Some(tnamed[k]))
  }

  /** The target's name for a function that keeps its operands; one that is not known keeps its own. */
  predicate TargetName(fn: Fn, target: Fn) {
    || (fn.Gt? && target.MGt?) || (fn.Lt? && target.MLt?) || (fn.Lte? && target.MLte?) || (fn.Eq? && target.MEq?)
    || (fn.And? && target.MAnd?) || (fn.Or? && target.MOr?) || (fn.Multiply? && target.MMultiply?)
    || ((fn.ListOf? || fn.FuzzyMatchAnyOf? || fn.Named?) && target == fn)
  }

  /** Functions that keep their operands only change their name. */
  lemma RenamedTargets(table: string, fn: Fn, target: Fn, cs: seq<Expr>, named: map<Slot, Expr>, tcs: seq<Expr>,
      tnamed: map<Slot, Expr>)
    requires Parts(table, cs, named, tcs, tnamed) && TargetName(fn, target)
    ensures Translate(table, Node(fn, cs, named)) == Some(Node(target, tcs, tnamed))
  {
    TranslateNode(table, fn, cs, named, tcs, tnamed);
  }

  /** `gte` keeps its operands too, unless it compares a fuzzy score with 80. */
  lemma AtLeastTarget(table: string, cs: seq<Expr>, named: map<Slot, Expr>, tcs: seq<Expr>, tnamed: map<Slot, Expr>)
    requires Parts(table, cs, named, tcs, tnamed)
    ensures Translate(table, Node(Gte, cs, named)) ==
      if |tcs| > 1 && tcs[0].Node? && tcs[0].fn == FuzzyMatchAnyOf && tcs[1] == Const(Num(80.0))
      then Some(Node(MGte, [tcs[0], Const(Num(95.0))], map[])) else Some(Node(MGte, tcs, tnamed))
  {
    TranslateNode(table, Gte, cs, named, tcs, tnamed);
  }

  /** Negations and memberships drop their named children; the latter use two operands and fail with fewer. */
  lemma OperandTargets(table: string, cs: seq<Expr>, named: map<Slot, Expr>, tcs: seq<Expr>, tnamed: map<Slot, Expr>)
    requires Parts(table, cs, named, tcs, tnamed)
    ensures Translate(table, Node(Not, cs, named)) == Some(Node(MNot, tcs, map[]))
    ensures Translate(table, Node(Neq, cs, named)) == Some(Node(MNot, [Node(MEq, tcs, map[])], map[]))
    ensures Translate(table, Node(In, cs, named)) ==
      if |tcs| < 2 then None else Some(Node(IsInList, [tcs[0], tcs[1]], map[]))
    ensures Translate(table, Node(Contains, cs, named)) ==
      if |tcs| < 2 then None else Some(Node(StringContains, [tcs[0], tcs[1]], map[]))
  {
    TranslateNode(table, Not, cs, named, tcs, tnamed);
    TranslateNode(table, Neq, cs, named, tcs, tnamed);
    TranslateNode(table, In, cs, named, tcs, tnamed);
    TranslateNode(table, Contains, cs, named, tcs, tnamed);
    if |tcs| >= 2 {
      assert tcs[..2] == [tcs[0], tcs[1]];
    }
  }

  /** A field becomes a payload access, and the list test a membership in the one address. */
  lemma FieldAndListTargets(table: string, cs: seq<Expr>, named: map<Slot, Expr>, tcs: seq<Expr>,
      tnamed: map<Slot, Expr>)
    requires Parts(table, cs, named, tcs, tnamed)
    ensures Translate(table, Node(FieldRef, cs, named)) ==
      if Field in tnamed && tnamed[Field].Const? then Some(Node(Payload, [tnamed[Field]], map[])) else None
    ensures Translate(table, Node(InCustomList, cs, named)) ==
      if Operand in tnamed
      then Some(Node(IsInList, [tnamed[Operand], Node(ListOf, [Const(Str("45.155.205.99"))], map[])], map[])) else None
  {
    TranslateNode(table, FieldRef, cs, named, tcs, tnamed);
    TranslateNode(table, InCustomList, cs, named, tcs, tnamed);
  }

  /** A field behind one of the five links becomes an access through that link from the table of the trigger. */
  lemma LinkTarget(table: string, cs: seq<Expr>, named: map<Slot, Expr>, tcs: seq<Expr>, tnamed: map<Slot, Expr>)
    requires Parts(table, cs, named, tcs, tnamed)
    ensures Translate(table, Node(RelatedField, cs, named)) ==
      if Path in tnamed && tnamed[Path].Const? && Field in tnamed && tnamed[Field].Const?
         && tnamed[Path].value in {Str("account"), Str("device"), Str("product"), Str("beneficiary"), Str("merchant")}
      then Some(Node(DatabaseAccess, [], map[TableName := Const(Str(table)), FieldName := tnamed[Field],
                                             Path := Const(List([tnamed[Path].value]))]))
      else None
  {
    TranslateNode(table, RelatedField, cs, named, tcs, tnamed);
  }

  /** A filter keeps exactly the four named children that it needs and fails without them. */
  lemma FilterTarget(table: string, cs: seq<Expr>, named: map<Slot, Expr>, tcs: seq<Expr>, tnamed: map<Slot, Expr>)
    requires Parts(table, cs, named, tcs, tnamed)
    ensures Translate(table, Node(Filter, cs, named)) ==
      if TableName in tnamed && FieldName in tnamed && Operator in tnamed && Operand in tnamed
      then Some(Node(Filter, [],
          map[TableName := tnamed[TableName], FieldName := tnamed[FieldName], Operator := tnamed[Operator],
          Operand := tnamed[Operand]])) else None
  {
    TranslateNode(table, Filter, cs, named, tcs, tnamed);
  }

  /** An aggregate keeps its four and gets a label. */
  lemma AggregateTarget(table: string, cs: seq<Expr>, named: map<Slot, Expr>, tcs: seq<Expr>, tnamed: map<Slot, Expr>)
    requires Parts(table, cs, named, tcs, tnamed)
    ensures Translate(table, Node(Aggregator, cs, named)) ==
      if TableName in tnamed && FieldName in tnamed && AggregatorName in tnamed && Filters in tnamed
      then Some(Node(Aggregator, [],
          map[TableName := tnamed[TableName], FieldName := tnamed[FieldName], AggregatorName := tnamed[AggregatorName],
          Filters := tnamed[Filters], Label := Const(Str("Demo aggregate"))])) else None
  {
    TranslateNode(table, Aggregator, cs, named, tcs, tnamed);
  }

  /** A shifted time keeps its three. */
  lemma ShiftTarget(table: string, cs: seq<Expr>, named: map<Slot, Expr>, tcs: seq<Expr>, tnamed: map<Slot, Expr>)
    requires Parts(table, cs, named, tcs, tnamed)
    ensures Translate(table, Node(TimeAdd, cs, named)) ==
      if TimestampField in tnamed && Duration in tnamed && Sign in tnamed
      then Some(Node(TimeAdd, [],
          map[TimestampField := tnamed[TimestampField], Duration := tnamed[Duration], Sign := tnamed[Sign]])) else None
  {
    TranslateNode(table, TimeAdd, cs, named, tcs, tnamed);
  }

  /** Where a child has no translation, its parent has none. */
  lemma NoTargetWithout(table: string, fn: Fn, cs: seq<Expr>, named: map<Slot, Expr>)
    ensures (exists i :: 0 <= i < |cs| && Translate(table, cs[i]) == None) ==>
        Translate(table, Node(fn, cs, named)) == None
    ensures (exists k :: k in named && Translate(table, named[k]) == None) ==>
        Translate(table, Node(fn, cs, named)) == None
  {
    var e := Node(fn, cs, named);
    assert TranslateChildren(table, e).Some? ==> forall i :: 0 <= i < |e.children| ==>
        Translate(table, e.children[i]).Some?;
    assert TranslateNamed(table, e).Some? ==> forall k :: k in e.named ==> Translate(table, e.named[k]).Some?;
  }

  // ---- Values of formulas -------------------------------------------------------------------------------------------

  /** Two operands and their values. */
  ghost predicate Operands(env: Env, cs: seq<Expr>, l: Value, r: Value) {
    |cs| == 2 && Eval(env, cs[0]) == Some(l) && Eval(env, cs[1]) == Some(r)
  }

  /** What a comparison in one of the vocabularies asks for; `more` and `less` say how the operands compare. */
  predicate Asked(fn: Fn, less: bool, more: bool) {
    match fn
    case Gt | MGt => more
    case Gte | MGte => !less
    case Lt | MLt => less
    case Lte | MLte => !more
    case Eq | MEq => !less && !more
    case Neq => less || more
    case _ => false
  }

  predicate Compares(fn: Fn) {
    fn.Gt? || fn.MGt? || fn.Gte? || fn.MGte? || fn.Lt? || fn.MLt? || fn.Lte? || fn.MLte? || fn.Eq? || fn.MEq? || fn.Neq?
  }

  /** The ordering that a function asks for. */
  function SourceOrder(fn: Fn): Fn {
    match fn
    case MGt => Gt
    case MGte => Gte
    case MLt => Lt
    case MLte => Lte
    case _ => fn
  }

  lemma ComparedNode(env: Env, fn: Fn, cs: seq<Expr>, l: Value, r: Value)
    requires Compares(fn) && Operands(env, cs, l, r)
    ensures Eval(env, Node(fn, cs, map[])) ==
      if fn.Eq? || fn.MEq? then Truth(Equal(env.prims, l, r))
      else if fn.Neq? then Truth(Unequal(env.prims, l, r))
      else Truth(Ordered(env.prims, SourceOrder(fn), l, r))
  {
    EvalNode(env, fn, cs, map[]);
    TwoAnswers(env, cs, l, r);
  }

  lemma OrderAsked(p: Prims, fn: Fn, l: Value, r: Value, o: Order)
    requires Compares(fn) && !l.Null? && !r.Null? && !l.Bool? && Compare(p, l, r) == Some(o)
    ensures Equal(p, l, r) == Some(o.Same?) && Unequal(p, l, r) == Some(!o.Same?)
    ensures !fn.Eq? && !fn.MEq? && !fn.Neq? ==> Ordered(p, SourceOrder(fn), l, r) == Some(Asked(fn, o.Less?, o.More?))
  {
  }

  /** Numbers are compared as numbers. */
  lemma NumbersCompare(env: Env, fn: Fn, cs: seq<Expr>, x: real, y: real)
    requires Compares(fn) && Operands(env, cs, Num(x), Num(y))
    ensures Eval(env, Node(fn, cs, map[])) == Some(Bool(Asked(fn, x < y, x > y)))
  {
    ComparedNode(env, fn, cs, Num(x), Num(y));
    OrderAsked(env.prims, fn, Num(x), Num(y), if x < y then Less else if x == y then Same else More);
  }

  lemma TimesInOrder(p: Prims, l: Value, r: Value, x: int, y: int)
    requires TimeOf(p, l) == Some(x) && TimeOf(p, r) == Some(y)
    ensures Compare(p, l, r) == Some(if x < y then Less else if x == y then Same else More)
    ensures !l.Null? && !r.Null? && !l.Bool?
  {
  }

  /** Times, and strings that read as times, are compared as times. */
  lemma TimesCompare(env: Env, fn: Fn, cs: seq<Expr>, l: Value, r: Value, x: int, y: int)
    requires Compares(fn) && Operands(env, cs, l, r)
    requires l == Time(x) || (l.Str? && env.prims.parse(l.s) == Some(x))
    requires r == Time(y) || (r.Str? && env.prims.parse(r.s) == Some(y))
    ensures Eval(env, Node(fn, cs, map[])) == Some(Bool(Asked(fn, x < y, x > y)))
  {
    ComparedNode(env, fn, cs, l, r);
    TimesInOrder(env.prims, l, r, x, y);
    OrderAsked(env.prims, fn, l, r, if x < y then Less else if x == y then Same else More);
  }

  /** Other strings are compared as text. */
  lemma StringsCompare(env: Env, fn: Fn, cs: seq<Expr>, s: string, t: string)
    requires Compares(fn) && Operands(env, cs, Str(s), Str(t)) && env.prims.parse(s) == None
    ensures Eval(env, Node(fn, cs, map[]))
         == Some(Bool(Asked(fn, s != t && env.prims.less(s, t), s != t && !env.prims.less(s, t))))
  {
    ComparedNode(env, fn, cs, Str(s), Str(t));
    OrderAsked(env.prims, fn, Str(s), Str(t), if s == t then Same else if env.prims.less(s, t) then Less else More);
  }

  /** Null equals null and nothing else, and is in no order with anything. */
  lemma NullsCompare(env: Env, fn: Fn, cs: seq<Expr>, l: Value, r: Value)
    requires Compares(fn) && Operands(env, cs, l, r) && (l == Null || r == Null)
    ensures Eval(env, Node(fn, cs, map[]))
         == Some(Bool(if fn.Eq? || fn.MEq? then l == r else if fn.Neq? then l != r else false))
  {
    ComparedNode(env, fn, cs, l, r);
  }

  /** Booleans are equal or not, and comparing them otherwise fails. */
  lemma BooleansCompare(env: Env, fn: Fn, cs: seq<Expr>, l: bool, r: bool)
    requires Compares(fn) && Operands(env, cs, Bool(l), Bool(r))
    ensures Eval(env, Node(fn, cs, map[]))
         == if fn.Eq? || fn.MEq? then Some(Bool(l == r)) else if fn.Neq? then Some(Bool(l != r)) else None
  {
    ComparedNode(env, fn, cs, Bool(l), Bool(r));
  }

  /** A number compares with nothing but numbers, and a boolean with nothing but booleans. */
  lemma KindsDoNotMix(env: Env, fn: Fn, cs: seq<Expr>, l: Value, r: Value)
    requires Compares(fn) && Operands(env, cs, l, r) && !l.Null? && !r.Null?
    requires l.Num? != r.Num? || l.Bool? != r.Bool?
    ensures Eval(env, Node(fn, cs, map[])) == None
  {
    ComparedNode(env, fn, cs, l, r);
  }

  lemma ProductOfTwo(x: real, y: real)
    ensures ProductOf([Some(Num(x)), Some(Num(y))]) == Some(Num(x * y))
  {
    assert Product(x, y) == x * y;
  }

  lemma ProductExactly(env: Env, fn: Fn, cs: seq<Expr>, x: real, y: real)
    requires (fn.Multiply? || fn.MMultiply?) && Operands(env, cs, Num(x), Num(y))
    ensures Eval(env, Node(fn, cs, map[])) == Some(Num(x * y))
  {
    EvalNode(env, fn, cs, map[]);
    TwoAnswers(env, cs, Num(x), Num(y));
    ProductOfTwo(x, y);
  }

  lemma ProductOfNumbersOnly(env: Env, fn: Fn, cs: seq<Expr>, l: Value, r: Value)
    requires (fn.Multiply? || fn.MMultiply?) && Operands(env, cs, l, r) && (!l.Num? || !r.Num?)
    ensures Eval(env, Node(fn, cs, map[])) == None
  {
    EvalNode(env, fn, cs, map[]);
    TwoAnswers(env, cs, l, r);
  }

  // ---- Connectives ----------------------------------------------------------------------------------------

  /** The first operand that is not the boolean `b`; all of them if there is none. */
  function FirstOther(rs: seq<Answer>, b: bool): (n: nat)
    ensures n <= |rs| && (forall i :: 0 <= i < n ==> rs[i] == Some(Bool(b))) && (n < |rs| ==> rs[n] != Some(Bool(b)))
  {
    if rs == [] || rs[0] != Some(Bool(b)) then 0 else 1 + FirstOther(rs[1..], b)
  }

  lemma {:induction false} AndOfExactly(rs: seq<Answer>)
    ensures AndOf(rs) ==
      (var n := FirstOther(rs, true);
       if n == |rs| then Some(Bool(true)) else if rs[n] == Some(Bool(false)) then Some(Bool(false)) else None)
  {
    if rs != [] {
      AndOfExactly(rs[1..]);
    }
  }

  lemma {:induction false} OrOfExactly(rs: seq<Answer>)
    ensures OrOf(rs) ==
      (var n := FirstOther(rs, false);
       if n == |rs| then Some(Bool(false)) else if rs[n] == Some(Bool(true)) then Some(Bool(true)) else None)
  {
    if rs != [] {
      OrOfExactly(rs[1..]);
    }
  }

  /** A conjunction is decided by its first operand that is not true, a disjunction by its first that is not false. */
  lemma ConnectivesExactly(env: Env, cs: seq<Expr>, fn: Fn)
    requires fn.And? || fn.MAnd? || fn.Or? || fn.MOr?
    ensures var neutral := fn.And? || fn.MAnd?;
      Eval(env, Node(fn, cs, map[])) ==
        (var n := FirstOther(Answers(env, cs), neutral);
         if n == |cs| then Some(Bool(neutral))
         else if Eval(env, cs[n]) == Some(Bool(!neutral)) then Some(Bool(!neutral)) else None)
  {
    EvalNode(env, fn, cs, map[]);
    AndOfExactly(Answers(env, cs));
    OrOfExactly(Answers(env, cs));
  }

  lemma NotExactly(env: Env, fn: Fn, c: Expr)
    requires fn.Not? || fn.MNot?
    ensures Eval(env, Node(fn, [c], map[]))
         == match Eval(env, c) case Some(Bool(b)) => Some(Bool(!b)) case _ => None
  {
    EvalNode(env, fn, [c], map[]);
    assert Answers(env, [c]) == [Eval(env, c)];
  }

  // ---- Membership -----------------------------------------------------------------------------------------

  /** A value is in a list if it equals an item of it, as `eq` has it. */
  lemma MembershipExactly(env: Env, fn: Fn, cs: seq<Expr>, v: Value, items: seq<Value>)
    requires (fn.In? || fn.IsInList?) && Operands(env, cs, v, List(items))
    ensures Eval(env, Node(fn, cs, map[])) == Some(Bool(
      exists i :: 0 <= i < |items| && Eval(env, Node(Eq, [Const(v), Const(items[i])], map[])) == Some(Bool(true))))
  {
    EvalNode(env, fn, cs, map[]);
    TwoAnswers(env, cs, v, List(items));
    forall i | 0 <= i < |items|
      ensures Eval(env, Node(Eq, [Const(v), Const(items[i])], map[])) == Some(Bool(true)) <==>
          Equal(env.prims, v, items[i]) == Some(true)
    {
      EqualNode(env, Eq, [Const(v), Const(items[i])], v, items[i]);
    }
  }

  /** A string contains substrings, a list contains what equals an item of it, and nothing else contains anything. */
  lemma ContainsExactly(env: Env, fn: Fn, cs: seq<Expr>, l: Value, r: Value)
    requires (fn.Contains? || fn.StringContains?) && Operands(env, cs, l, r)
    ensures l.Str? && r.Str? ==> Eval(env, Node(fn, cs, map[])) == Some(Bool(env.prims.within(l.s, r.s)))
    ensures l.Str? && !r.Str? ==> Eval(env, Node(fn, cs, map[])) == None
    ensures !l.Str? && !l.List? ==> Eval(env, Node(fn, cs, map[])) == None
    ensures l.List? ==> Eval(env, Node(fn, cs, map[])) == Some(Bool(
      exists i :: 0 <= i < |l.items| && Eval(env, Node(Eq, [Const(l.items[i]), Const(r)], map[])) == Some(Bool(true))))
  {
    EvalNode(env, fn, cs, map[]);
    TwoAnswers(env, cs, l, r);
    if l.List? {
      forall i | 0 <= i < |l.items|
        ensures Eval(env, Node(Eq, [Const(l.items[i]), Const(r)], map[])) == Some(Bool(true)) <==>
            Equal(env.prims, l.items[i], r) == Some(true)
      {
        EqualNode(env, Eq, [Const(l.items[i]), Const(r)], l.items[i], r);
      }
    }
  }

  // ---- Records --------------------------------------------------------------------------------------------

  /** A field of the payload, the same in both vocabularies; one that is not there is null. */
  lemma FieldExactly(env: Env, f: string)
    ensures Eval(env, Node(FieldRef, [], map[Field := Const(Str(f))])) == Some(if f in env.payload then env.payload[f]
        else Null)
    ensures Eval(env, Node(Payload, [Const(Str(f))], map[])) == Some(if f in env.payload then env.payload[f] else Null)
  {
    EvalNode(env, FieldRef, [], map[Field := Const(Str(f))]);
    assert NamedAnswers(env, map[Field := Const(Str(f))])[Field] == Some(Str(f));
    EvalNode(env, Payload, [Const(Str(f))], map[]);
    assert Answers(env, [Const(Str(f))]) == [Some(Str(f))];
  }

  /** A field behind a link, the same in both vocabularies; without a record it is null, without a link it fails. */
  lemma LinkedExactly(env: Env, link: string, f: string)
    ensures var source := Node(RelatedField, [], map[Path := Const(Str(link)), Field := Const(Str(f))]);
      var target := Node(DatabaseAccess, [],
        map[TableName := Const(Str(env.table)), FieldName := Const(Str(f)), Path := Const(List([Str(link)]))]);
      var found :=
        if link !in env.linked then None
        else if env.linked[link].Some? && f in env.linked[link].value then Some(env.linked[link].value[f])
        else Some(Null);
      Eval(env, source) == found && Eval(env, target) == found
  {
    var named := map[Path := Const(Str(link)), Field := Const(Str(f))];
    EvalNode(env, RelatedField, [], named);
    var ns := NamedAnswers(env, named);
    assert ns[Path] == Some(Str(link)) && ns[Field] == Some(Str(f));
    AccessValue(env,
        map[TableName := Const(Str(env.table)), FieldName := Const(Str(f)), Path := Const(List([Str(link)]))], link, f);
  }

  /** Only the table of the trigger has links. */
  lemma OtherTableFails(env: Env, named: map<Slot, Expr>, t: string)
    requires Gives(env, named, TableName, Str(t)) && t != env.table
    ensures Eval(env, Node(DatabaseAccess, [], named)) == None
  {
    EvalNode(env, DatabaseAccess, [], named);
    GivenAnswer(env, named, TableName, Str(t));
  }

  /**
   The column of an aggregate: row by row, the value where all filters hold and it is not null; a failing filter
   spoils it.
   */
  lemma {:induction false} ColumnExactly(p: Prims, rows: seq<Record>, more: seq<Record>, f: string, preds: seq<Value>)
    ensures Column(p, [], f, preds) == Some([])
    ensures Column(p, rows + more, f, preds) ==
      if Column(p, rows, f, preds).Some? && Column(p, more, f, preds).Some?
      then Some(Column(p, rows, f, preds).value + Column(p, more, f, preds).value) else None
  {
    if rows == [] {
      assert rows + more == more;
      if Column(p, more, f, preds).Some? {
        assert [] + Column(p, more, f, preds).value == Column(p, more, f, preds).value;
      }
    } else {
      assert (rows + more)[1..] == rows[1..] + more;
      ColumnExactly(p, rows[1..], more, f, preds);
      if Column(p, rows[1..], f, preds).Some? && Column(p, more, f, preds).Some? {
        var v, a, b := [Read(rows[0], f)], Column(p, rows[1..], f, preds).value, Column(p, more, f, preds).value;
        assert v + (a + b) == (v + a) + b;
      }
    }
  }

  /** Whether the filter lets the row pass; `None` if it fails. */
  function FilterAnswer(p: Prims, row: Record, pred: Value): Option<bool>
    requires pred.Pred?
  {
    p.filter(if pred.field in row then row[pred.field] else Null, pred.operator, pred.operand)
  }

  /** The first filter that does not let the row pass. */
  function FirstStop(p: Prims, row: Record, preds: seq<Value>): (n: nat)
    requires forall i :: 0 <= i < |preds| ==> preds[i].Pred?
    ensures n <= |preds| && (forall i :: 0 <= i < n ==> FilterAnswer(p, row, preds[i]) == Some(true))
    ensures n < |preds| ==> FilterAnswer(p, row, preds[n]) != Some(true)
  {
    if preds == [] || FilterAnswer(p, row, preds[0]) != Some(true) then 0 else 1 + FirstStop(p, row, preds[1..])
  }

  /** A row passes if all filters let it pass; otherwise the first that does not decides. */
  lemma {:induction false} PassesExactly(p: Prims, row: Record, preds: seq<Value>)
    requires forall i :: 0 <= i < |preds| ==> preds[i].Pred?
    ensures var n := FirstStop(p, row, preds);
      Passes(p, row, preds) == if n == |preds| then Some(true) else FilterAnswer(p, row, preds[n])
  {
    if preds != [] {
      PassesExactly(p, row, preds[1..]);
    }
  }

  lemma RowExactly(p: Prims, row: Record, f: string, preds: seq<Value>)
    requires forall i :: 0 <= i < |preds| ==> preds[i].Pred?
    ensures Column(p, [row], f, preds) ==
      var pass := Passes(p, row, preds);
      if pass.None? then None else Some(if pass.value && f in row && row[f] != Null then [row[f]] else [])
  {
    assert [row][1..] == [];
    assert Column(p, [], f, preds) == Some([]);
    assert [Read(row, f)] + [] == [Read(row, f)];
  }

  // ---- Functions with named operands --------------------------------------------------------------------------------

  /** The named child has the value. */
  predicate Gives(env: Env, named: map<Slot, Expr>, k: Slot, v: Value) { k in named && Eval(env, named[k]) == Some(v) }

  lemma GivenAnswer(env: Env, named: map<Slot, Expr>, k: Slot, v: Value)
    requires Gives(env, named, k, v)
    ensures k in NamedAnswers(env, named) && NamedAnswers(env, named)[k] == Some(v)
  {
  }

  /** A filter keeps what it compares with what. */
  lemma FilterExactly(env: Env, named: map<Slot, Expr>, t: string, f: string, op: string, operand: Value)
    requires Gives(env, named, TableName, Str(t)) && Gives(env, named, FieldName, Str(f))
    requires Gives(env, named, Operator, Str(op)) && Gives(env, named, Operand, operand)
    ensures Eval(env, Node(Filter, [], named)) == Some(Pred(f, op, operand))
  {
    EvalNode(env, Filter, [], named);
    GivenAnswer(env, named, TableName, Str(t));
    GivenAnswer(env, named, FieldName, Str(f));
    GivenAnswer(env, named, Operator, Str(op));
    GivenAnswer(env, named, Operand, operand);
  }

  /** An aggregate is that of the column of its field in its table, over the rows that its filters let pass. */
  lemma AggregateExactly(env: Env, named: map<Slot, Expr>, t: string, f: string, a: string, preds: seq<Value>)
    requires Gives(env, named, TableName, Str(t)) && Gives(env, named, FieldName, Str(f))
    requires Gives(env, named, AggregatorName, Str(a)) && Gives(env, named, Filters, List(preds))
    ensures Eval(env, Node(Aggregator, [], named)) ==
      if t in env.tables && Column(env.prims, env.tables[t], f, preds).Some?
      then env.prims.aggregate(a, Column(env.prims, env.tables[t], f, preds).value) else None
  {
    EvalNode(env, Aggregator, [], named);
    GivenAnswer(env, named, TableName, Str(t));
    GivenAnswer(env, named, FieldName, Str(f));
    GivenAnswer(env, named, AggregatorName, Str(a));
    GivenAnswer(env, named, Filters, List(preds));
  }

  /** A time is shifted by the duration in the direction of the sign; null stays null. */
  lemma ShiftExactly(env: Env, named: map<Slot, Expr>, x: int, duration: string, sign: string)
    requires Gives(env, named, Duration, Str(duration)) && Gives(env, named, Sign, Str(sign))
    ensures Gives(env, named, TimestampField, Time(x)) ==>
      Eval(env, Node(TimeAdd, [], named))
      == (var t := env.prims.shift(x, duration, sign); if t.Some? then Some(Time(t.value)) else None)
    ensures Gives(env, named, TimestampField, Null) ==> Eval(env, Node(TimeAdd, [], named)) == Some(Null)
  {
    EvalNode(env, TimeAdd, [], named);
    GivenAnswer(env, named, Duration, Str(duration));
    GivenAnswer(env, named, Sign, Str(sign));
    if Gives(env, named, TimestampField, Time(x)) {
      GivenAnswer(env, named, TimestampField, Time(x));
    }
    if Gives(env, named, TimestampField, Null) {
      GivenAnswer(env, named, TimestampField, Null);
    }
  }

  /** A fuzzy score is that of the two operands, in their order; null for a null operand. */
  lemma FuzzyExactly(env: Env, cs: seq<Expr>, named: map<Slot, Expr>, l: Value, r: Value, algorithm: string)
    requires Operands(env, cs, l, r) && Gives(env, named, Algorithm, Str(algorithm))
    ensures Eval(env, Node(FuzzyMatchAnyOf, cs, named))
         == if l == Null || r == Null then Some(Null) else env.prims.fuzzy(l, r, algorithm)
  {
    EvalNode(env, FuzzyMatchAnyOf, cs, named);
    TwoAnswers(env, cs, l, r);
    GivenAnswer(env, named, Algorithm, Str(algorithm));
  }
}
