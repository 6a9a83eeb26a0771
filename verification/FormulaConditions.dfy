/**
 Why the conditions on supported formulas are there: for each, when exactly the two sides of the
 translation agree without it.
 */
module FormulaConditions {
  import opened Common
  import opened FormulaTranslation
  import opened FormulaMeaning

  function ListTest(name: string, operand: Expr): Expr {
    Node(InCustomList, [], map[ListName := Const(Str(name)), Operand := operand])
  }

  function AddressTest(operand: Expr): Expr {
    Node(IsInList, [operand, Node(ListOf, [Const(Str(HIGH_RISK_IP))], map[])], map[])
  }

  lemma TranslateListTest(table: string, name: string, operand: Expr)
    requires Translate(table, operand).Some?
    ensures Translate(table, ListTest(name, operand)) == Some(AddressTest(Translate(table, operand).value))
  {
    var e := ListTest(name, operand);
    TranslateNode(table, InCustomList, [], e.named, [], e.named[Operand := Translate(table, operand).value]);
  }

  lemma ListTestValue(env: Env, name: string, operand: Expr, v: Value)
    requires Eval(env, operand) == Some(v)
    ensures Eval(env, ListTest(name, operand))
         == if v.Str? then Some(Bool(name in env.lists && v.s in env.lists[name])) else None
  {
    var named := ListTest(name, operand).named;
    EvalNode(env, InCustomList, [], named);
    var ns := NamedAnswers(env, named);
    assert ns[ListName] == Some(Str(name)) && ns[Operand] == Some(v);
  }

  lemma AddressTestValue(env: Env, operand: Expr, v: Value)
    requires PlainWords(env.prims) && Eval(env, operand) == Some(v)
    ensures Eval(env, AddressTest(operand)) == Some(Bool(v == Str(HIGH_RISK_IP)))
  {
    var listed := Node(ListOf, [Const(Str(HIGH_RISK_IP))], map[]);
    OneAddress(env, listed);
    EvalNode(env, IsInList, [operand, listed], map[]);
    assert Answers(env, [operand, listed]) == [Some(v), Some(List([Str(HIGH_RISK_IP)]))];
    OnlyTheAddressEquals(env.prims, v);
  }

  /** An operand that translates and has the value `v` on both sides. */
  predicate ValueOnBothSides(env: Env, base: string, operand: Expr, v: Value) {
    && Translate(env.table, operand).Some?
    && Eval(env, operand) == Some(v) && Eval(NormalEnv(env, base), Translate(env.table, operand).value) == Some(v)
  }

  /** The two sides of a list test, compared by the value of the operand. */
  lemma ListTestValues(env: Env, base: string, name: string, operand: Expr, v: Value)
    requires PlainWords(env.prims) && ValueOnBothSides(env, base, operand, v)
    ensures SameOnRaw(env, base, ListTest(name, operand))
      <==> v.Str? && ((name in env.lists && v.s in env.lists[name]) <==> v.s == HIGH_RISK_IP)
  {
    TranslateListTest(env.table, name, operand);
    ListTestValue(env, name, operand, v);
    AddressTestValue(NormalEnv(env, base), Translate(env.table, operand).value, v);
  }

  lemma OnlyTheAddressEquals(p: Prims, v: Value)
    requires PlainWords(p)
    ensures Member(p, v, [Str(HIGH_RISK_IP)]) <==> v == Str(HIGH_RISK_IP)
  {
    if v.Str? {
      AddressEquals(p, v.s);
    } else {
      assert forall i :: 0 <= i < 1 ==> Equal(p, v, [Str(HIGH_RISK_IP)][i]) != Some(true);
    }
  }

  predicate SameOnRaw(env: Env, base: string, e: Expr) {
    Translate(env.table, e).Some? && Eval(env, e) == Eval(NormalEnv(env, base), Translate(env.table, e).value)
  }

  /** The hard-coded address stands in for a list exactly when the list holds that address and no other. */
  lemma WatchListExactly(env: Env, base: string, name: string)
    requires PlainWords(env.prims) && name in env.lists
    ensures (forall s: string :: SameOnRaw(env, base, ListTest(name, Const(Str(s))))) <==>
        env.lists[name] == {HIGH_RISK_IP}
  {
    forall s: string
      ensures SameOnRaw(env, base, ListTest(name, Const(Str(s)))) <==> (s in env.lists[name] <==> s == HIGH_RISK_IP)
    {
      ListTestValues(env, base, name, Const(Str(s)), Str(s));
    }
    if forall s: string :: SameOnRaw(env, base, ListTest(name, Const(Str(s)))) {
      forall s: string
        ensures s in env.lists[name] <==> s in {HIGH_RISK_IP}
      {
        assert SameOnRaw(env, base, ListTest(name, Const(Str(s))));
      }
    }
  }

  /**
   A test of the list fails in the source and is false in the target exactly when the value of its operand is not a
   string.
   */
  lemma ListTestFailsExactly(env: Env, base: string, name: string, operand: Expr, v: Value)
    requires PlainWords(env.prims) && name in env.lists && env.lists[name] == {HIGH_RISK_IP}
    requires ValueOnBothSides(env, base, operand, v)
    ensures SameOnRaw(env, base, ListTest(name, operand)) <==> v.Str?
  {
    ListTestValues(env, base, name, operand, v);
  }

  lemma AtLeastValue(env: Env, fn: Fn, cs: seq<Expr>, x: real, y: real)
    requires (fn.Gte? || fn.MGte?) && |cs| == 2 && Eval(env, cs[0]) == Some(Num(x)) && Eval(env, cs[1]) == Some(Num(y))
    ensures Eval(env, Node(fn, cs, map[])) == Some(Bool(x >= y))
  {
    EvalNode(env, fn, cs, map[]);
    assert Answers(env, cs) == [Some(Num(x)), Some(Num(y))];
  }

  lemma TranslateFuzzyTest(table: string, fuzzy: Expr)
    requires fuzzy.Node? && fuzzy.fn.FuzzyMatchAnyOf? && Translate(table, fuzzy).Some?
    ensures Translate(table, Node(Gte, [fuzzy, Const(Num(80.0))], map[]))
         == Some(Node(MGte, [Translate(table, fuzzy).value, Const(Num(95.0))], map[]))
  {
    var t := Translate(table, fuzzy).value;
    assert t.Node? && t.fn.FuzzyMatchAnyOf?;
    TranslateNode(table, Gte, [fuzzy, Const(Num(80.0))], map[], [t, Const(Num(80.0))], map[]);
  }

  /** The raised fuzzy threshold changes the outcome exactly for scores from 80 up to, but not including, 95. */
  lemma FuzzyThresholdExactly(env: Env, base: string, fuzzy: Expr, x: real)
    requires fuzzy.Node? && fuzzy.fn.FuzzyMatchAnyOf? && Translate(env.table, fuzzy).Some?
    requires Eval(env, fuzzy) == Eval(NormalEnv(env, base), Translate(env.table, fuzzy).value) == Some(Num(x))
    ensures SameOnRaw(env, base, Node(Gte, [fuzzy, Const(Num(80.0))], map[])) <==> x < 80.0 || 95.0 <= x
  {
    TranslateFuzzyTest(env.table, fuzzy);
    AtLeastValue(env, Gte, [fuzzy, Const(Num(80.0))], x, 80.0);
    AtLeastValue(NormalEnv(env, base), MGte, [Translate(env.table, fuzzy).value, Const(Num(95.0))], x, 95.0);
  }

  function FieldNode(f: string): Expr { Node(FieldRef, [], map[Field := Const(Str(f))]) }

  lemma FieldValue(env: Env, f: string)
    ensures Eval(env, FieldNode(f)) == Some(Read(env.payload, f))
  {
    var named := FieldNode(f).named;
    EvalNode(env, FieldRef, [], named);
    assert NamedAnswers(env, named)[Field] == Some(Str(f));
  }

  lemma PayloadValue(env: Env, f: string)
    ensures Eval(env, Node(Payload, [Const(Str(f))], map[])) == Some(Read(env.payload, f))
  {
    var field := [Const(Str(f))];
    EvalNode(env, Payload, field, map[]);
    assert Answers(env, field) == [Some(Str(f))];
  }

  lemma TranslateField(table: string, f: string)
    ensures Translate(table, FieldNode(f)) == Some(Node(Payload, [Const(Str(f))], map[]))
  {
    var named := FieldNode(f).named;
    TranslateNode(table, FieldRef, [], named, [], named);
  }

  /**
   A field reads the same on both sides exactly when normalisation does not change it: the flag when it is no boolean,
   `updated_at` when the key is there.
   */
  lemma FieldReadExactly(env: Env, base: string, f: string)
    ensures SameOnRaw(env, base, FieldNode(f)) <==> KeptIn(env.payload, f)
  {
    FieldValue(env, f);
    PayloadValue(NormalEnv(env, base), f);
    TranslateField(env.table, f);
    ReadKeptExactly(env.payload, base, f);
  }

  /** A string that does not read as a time. */
  predicate PlainString(p: Prims, v: Value) { v.Str? && p.parse(v.s).None? }

  /** What the other operand must be for a boolean constant on the right of a function of two operands to do no harm. */
  predicate BooleanHarmless(p: Prims, fn: Fn, v: Value, b: bool) {
    match fn
    case Eq => !v.Bool? && !PlainString(p, v)
    case Neq => !v.Bool? && !PlainString(p, v)
    case Gt => !PlainString(p, v)
    case Gte => !PlainString(p, v)
    case Lt => !PlainString(p, v)
    case Lte => !PlainString(p, v)
    case And => v != Bool(true)
    case Or => v != Bool(false)
    case Contains => !v.Str? && (v.List? ==> (Bool(b) in v.items <==> Str(Spell(b)) in v.items))
    case In => true
    case Multiply => true
    case _ => false
  }

  predicate TakesTwo(fn: Fn) {
    fn.Eq? || fn.Neq? || Ordering(fn) || fn.And? || fn.Or? || fn.Contains? || fn.In? || fn.Multiply? || fn.ListOf?
  }

  /**
   Beside a value that both sides have, a boolean constant keeps the outcome exactly under this condition on the
   function and the value.
   */
  lemma BooleanOperandExactly(env: Env, base: string, fn: Fn, o: Expr, v: Value, b: bool)
    requires PlainWords(env.prims) && TakesTwo(fn) && ValueOnBothSides(env, base, o, v)
    ensures SameOnRaw(env, base, Node(fn, [o, Const(Bool(b))], map[])) <==> BooleanHarmless(env.prims, fn, v, b)
  {
    var cs := [o, Const(Bool(b))];
    var tcs := [Translate(env.table, o).value, Const(Str(Spell(b)))];
    TwoAnswers(env, cs, v, Bool(b));
    TwoAnswers(NormalEnv(env, base), tcs, v, Str(Spell(b)));
    TranslateTwo(env.table, fn, cs, tcs);
    BooleanBesideExactly(env, base, fn, cs, tcs, v, b);
  }

  /** The target of a function of two operands. */
  function TargetOfTwo(fn: Fn, tcs: seq<Expr>): Expr {
    if fn.Neq? then Node(MNot, [Node(MEq, tcs, map[])], map[])
    else if fn.In? then Node(IsInList, tcs, map[])
    else if fn.Contains? then Node(StringContains, tcs, map[])
    else Node(Rename(fn), tcs, map[])
  }

  lemma TranslateTwo(table: string, fn: Fn, cs: seq<Expr>, tcs: seq<Expr>)
    requires TakesTwo(fn) && |cs| == |tcs| == 2 && !FuzzyAtEighty(tcs)
    requires forall i :: 0 <= i < 2 ==> Translate(table, cs[i]) == Some(tcs[i])
    ensures Translate(table, Node(fn, cs, map[])) == Some(TargetOfTwo(fn, tcs))
  {
    TranslateNode(table, fn, cs, map[], tcs, map[]);
    assert tcs[..2] == tcs;
  }

  lemma BooleanBesideExactly(env: Env, base: string, fn: Fn, cs: seq<Expr>, tcs: seq<Expr>, v: Value, b: bool)
    requires PlainWords(env.prims) && TakesTwo(fn) && BooleanBeside(env, NormalEnv(env, base), cs, tcs, v, b)
    ensures Eval(env, Node(fn, cs, map[])) == Eval(NormalEnv(env, base), TargetOfTwo(fn, tcs)) <==>
        BooleanHarmless(env.prims, fn, v, b)
  {
    if fn.Eq? || fn.Neq? {
      BooleanEquality(env, base, cs, tcs, v, b);
    } else if Ordering(fn) {
      BooleanOrdering(env, base, fn, cs, tcs, v, b);
    } else if fn.And? || fn.Or? {
      BooleanConnective(env, base, fn, cs, tcs, v, b);
    } else if fn.Contains? || fn.In? {
      BooleanMembership(env, base, fn, cs, tcs, v, b);
    } else {
      BooleanProductOrList(env, base, fn, cs, tcs, v, b);
    }
  }

  /** Operands and their translations: a value both sides have, and a boolean constant. */
  predicate BooleanBeside(env: Env, env': Env, cs: seq<Expr>, tcs: seq<Expr>, v: Value, b: bool) {
    Answers(env, cs) == [Some(v), Some(Bool(b))] && Answers(env', tcs) == [Some(v), Some(Str(Spell(b)))]
  }

  lemma BooleanEquality(env: Env, base: string, cs: seq<Expr>, tcs: seq<Expr>, v: Value, b: bool)
    requires PlainWords(env.prims) && BooleanBeside(env, NormalEnv(env, base), cs, tcs, v, b)
    ensures Eval(env, Node(Eq, cs, map[])) == Eval(NormalEnv(env, base), Node(MEq, tcs, map[])) <==>
        !v.Bool? && !PlainString(env.prims, v)
    ensures Eval(env, Node(Neq, cs, map[])) == Eval(NormalEnv(env, base), FlagTarget(Neq, tcs)) <==>
        !v.Bool? && !PlainString(env.prims, v)
  {
    var env' := NormalEnv(env, base);
    EqualNode(env, Eq, cs, v, Bool(b));
    UnequalNode(env, cs, v, Bool(b));
    EqualNode(env', MEq, tcs, v, Str(Spell(b)));
    NegatedNode(env', Node(MEq, tcs, map[]));
  }

  lemma OrderedNode(env: Env, fn: Fn, cs: seq<Expr>, l: Value, r: Value)
    requires Ordering(fn) && Answers(env, cs) == [Some(l), Some(r)]
    ensures Eval(env, Node(fn, cs, map[])) == Eval(env, Node(Rename(fn), cs, map[]))
        == Truth(Ordered(env.prims, fn, l, r))
  {
    EvalNode(env, fn, cs, map[]);
    EvalNode(env, Rename(fn), cs, map[]);
  }

  lemma BooleanOrdering(env: Env, base: string, fn: Fn, cs: seq<Expr>, tcs: seq<Expr>, v: Value, b: bool)
    requires PlainWords(env.prims) && Ordering(fn) && BooleanBeside(env, NormalEnv(env, base), cs, tcs, v, b)
    ensures Eval(env, Node(fn, cs, map[])) == Eval(NormalEnv(env, base), Node(Rename(fn), tcs, map[])) <==>
        !PlainString(env.prims, v)
  {
    OrderedNode(env, fn, cs, v, Bool(b));
    OrderedNode(NormalEnv(env, base), fn, tcs, v, Str(Spell(b)));
  }

  lemma ConnectivesOfTwo(l: Value, r: Value)
    ensures AndOf([Some(l), Some(r)]) == if !l.Bool? then None else if !l.b then Some(Bool(false))
        else if r.Bool? then Some(r) else None
    ensures OrOf([Some(l), Some(r)]) == if !l.Bool? then None else if l.b then Some(Bool(true))
        else if r.Bool? then Some(r) else None
  {
    var rs: seq<Answer> := [Some(l), Some(r)];
    assert rs[1..] == [Some(r)] && rs[1..][1..] == [];
    assert AndOf(rs[1..][1..]) == Some(Bool(true)) && OrOf(rs[1..][1..]) == Some(Bool(false));
    assert AndOf(rs[1..]) == if r.Bool? then Some(r) else None;
    assert OrOf(rs[1..]) == if r.Bool? then Some(r) else None;
  }

  lemma ConnectiveNode(env: Env, fn: Fn, cs: seq<Expr>)
    ensures fn.And? || fn.MAnd? ==> Eval(env, Node(fn, cs, map[])) == AndOf(Answers(env, cs))
    ensures fn.Or? || fn.MOr? ==> Eval(env, Node(fn, cs, map[])) == OrOf(Answers(env, cs))
  {
    EvalNode(env, fn, cs, map[]);
  }

  lemma BooleanConnective(env: Env, base: string, fn: Fn, cs: seq<Expr>, tcs: seq<Expr>, v: Value, b: bool)
    requires (fn.And? || fn.Or?) && BooleanBeside(env, NormalEnv(env, base), cs, tcs, v, b)
    ensures Eval(env, Node(fn, cs, map[])) == Eval(NormalEnv(env, base), Node(Rename(fn), tcs, map[])) <==>
        v != Bool(fn.And?)
  {
    ConnectiveNode(env, fn, cs);
    ConnectiveNode(NormalEnv(env, base), Rename(fn), tcs);
    ConnectivesOfTwo(v, Bool(b));
    ConnectivesOfTwo(v, Str(Spell(b)));
  }

  lemma ContainsNodeValue(env: Env, fn: Fn, cs: seq<Expr>)
    requires fn.Contains? || fn.StringContains?
    ensures Eval(env, Node(fn, cs, map[])) == ContainsOf(env.prims, Answers(env, cs))
  {
    EvalNode(env, fn, cs, map[]);
  }

  lemma InNodeValue(env: Env, fn: Fn, cs: seq<Expr>)
    requires fn.In? || fn.IsInList?
    ensures Eval(env, Node(fn, cs, map[])) == MembershipOf(env.prims, Answers(env, cs))
  {
    EvalNode(env, fn, cs, map[]);
  }

  lemma HeldByEquality(p: Prims, item: Value, b: bool)
    requires PlainWords(p)
    ensures Equal(p, item, Bool(b)) == Some(true) <==> item == Bool(b)
    ensures Equal(p, Bool(b), item) == Some(true) <==> item == Bool(b)
    ensures Equal(p, item, Str(Spell(b))) == Some(true) <==> item == Str(Spell(b))
    ensures Equal(p, Str(Spell(b)), item) == Some(true) <==> item == Str(Spell(b))
  {
  }

  /** A list is found to hold a boolean, or its word, exactly if that very value is an item of it. */
  lemma HeldExactly(p: Prims, items: seq<Value>, b: bool)
    requires PlainWords(p)
    ensures Holding(p, items, Bool(b)) <==> Bool(b) in items
    ensures Holding(p, items, Str(Spell(b))) <==> Str(Spell(b)) in items
    ensures Member(p, Bool(b), items) <==> Bool(b) in items
    ensures Member(p, Str(Spell(b)), items) <==> Str(Spell(b)) in items
  {
    forall i | 0 <= i < |items|
      ensures Equal(p, items[i], Bool(b)) == Some(true) <==> items[i] == Bool(b)
      ensures Equal(p, Bool(b), items[i]) == Some(true) <==> items[i] == Bool(b)
      ensures Equal(p, items[i], Str(Spell(b))) == Some(true) <==> items[i] == Str(Spell(b))
      ensures Equal(p, Str(Spell(b)), items[i]) == Some(true) <==> items[i] == Str(Spell(b))
    {
      HeldByEquality(p, items[i], b);
    }
  }

  lemma BooleanMembership(env: Env, base: string, fn: Fn, cs: seq<Expr>, tcs: seq<Expr>, v: Value, b: bool)
    requires PlainWords(env.prims) && (fn.Contains? || fn.In?)
        && BooleanBeside(env, NormalEnv(env, base), cs, tcs, v, b)
    ensures Eval(env, Node(fn, cs, map[]))
        == Eval(NormalEnv(env, base), Node(if fn.In? then IsInList else StringContains, tcs, map[]))
      <==> BooleanHarmless(env.prims, fn, v, b)
  {
    if v.List? {
      HeldExactly(env.prims, v.items, b);
    }
    if fn.In? {
      InNodeValue(env, In, cs);
      InNodeValue(NormalEnv(env, base), IsInList, tcs);
    } else {
      ContainsNodeValue(env, Contains, cs);
      ContainsNodeValue(NormalEnv(env, base), StringContains, tcs);
    }
  }

  lemma BooleanProductOrList(env: Env, base: string, fn: Fn, cs: seq<Expr>, tcs: seq<Expr>, v: Value, b: bool)
    requires (fn.Multiply? || fn.ListOf?) && BooleanBeside(env, NormalEnv(env, base), cs, tcs, v, b)
    ensures Eval(env, Node(fn, cs, map[])) == Eval(NormalEnv(env, base), Node(Rename(fn), tcs, map[])) <==> fn.Multiply?
  {
    EvalNode(env, fn, cs, map[]);
    EvalNode(NormalEnv(env, base), Rename(fn), tcs, map[]);
    if fn.ListOf? {
      assert Values(Answers(env, cs))[1] == Bool(b) && Values(Answers(NormalEnv(env, base), tcs))[1] == Str(Spell(b));
    }
  }

  // ---- A boolean constant as the first operand --------------------------------------------------------------

  /** What the other operand must be for a boolean constant on the left of a function of two operands to do no harm. */
  predicate BooleanFirstHarmless(p: Prims, fn: Fn, v: Value, b: bool) {
    match fn
    case Eq => !v.Bool? && !v.Str?
    case Neq => !v.Bool? && !v.Str?
    case Gt => !v.Str?
    case Gte => !v.Str?
    case Lt => !v.Str?
    case Lte => !v.Str?
    case And => b && !v.Bool?
    case Or => !b && !v.Bool?
    case Contains => !v.Str?
    case In => v.List? ==> (Bool(b) in v.items <==> Str(Spell(b)) in v.items)
    case Multiply => true
    case _ => false
  }

  /** Operands and their translations: a boolean constant, and a value both sides have. */
  predicate BooleanBefore(env: Env, env': Env, cs: seq<Expr>, tcs: seq<Expr>, v: Value, b: bool) {
    Answers(env, cs) == [Some(Bool(b)), Some(v)] && Answers(env', tcs) == [Some(Str(Spell(b))), Some(v)]
  }

  /**
   Before a value that both sides have, a boolean constant keeps the outcome exactly under this condition on the
   function and the value.
   */
  lemma BooleanFirstExactly(env: Env, base: string, fn: Fn, o: Expr, v: Value, b: bool)
    requires PlainWords(env.prims) && TakesTwo(fn) && ValueOnBothSides(env, base, o, v)
    ensures SameOnRaw(env, base, Node(fn, [Const(Bool(b)), o], map[])) <==> BooleanFirstHarmless(env.prims, fn, v, b)
  {
    var cs := [Const(Bool(b)), o];
    var tcs := [Const(Str(Spell(b))), Translate(env.table, o).value];
    TwoAnswers(env, cs, Bool(b), v);
    TwoAnswers(NormalEnv(env, base), tcs, Str(Spell(b)), v);
    TranslateTwo(env.table, fn, cs, tcs);
    BooleanBeforeExactly(env, base, fn, cs, tcs, v, b);
  }

  lemma BooleanBeforeExactly(env: Env, base: string, fn: Fn, cs: seq<Expr>, tcs: seq<Expr>, v: Value, b: bool)
    requires PlainWords(env.prims) && TakesTwo(fn) && BooleanBefore(env, NormalEnv(env, base), cs, tcs, v, b)
    ensures Eval(env, Node(fn, cs, map[])) == Eval(NormalEnv(env, base), TargetOfTwo(fn, tcs)) <==>
        BooleanFirstHarmless(env.prims, fn, v, b)
  {
    if fn.Eq? || fn.Neq? {
      FirstEquality(env, base, cs, tcs, v, b);
    } else if Ordering(fn) {
      FirstOrdering(env, base, fn, cs, tcs, v, b);
    } else if fn.And? || fn.Or? {
      FirstConnective(env, base, fn, cs, tcs, v, b);
    } else if fn.Contains? || fn.In? {
      FirstMembership(env, base, fn, cs, tcs, v, b);
    } else {
      FirstProductOrList(env, base, fn, cs, tcs, v, b);
    }
  }

  lemma FirstEquality(env: Env, base: string, cs: seq<Expr>, tcs: seq<Expr>, v: Value, b: bool)
    requires PlainWords(env.prims) && BooleanBefore(env, NormalEnv(env, base), cs, tcs, v, b)
    ensures Eval(env, Node(Eq, cs, map[])) == Eval(NormalEnv(env, base), Node(MEq, tcs, map[])) <==> !v.Bool? && !v.Str?
    ensures Eval(env, Node(Neq, cs, map[])) == Eval(NormalEnv(env, base), FlagTarget(Neq, tcs)) <==>
        !v.Bool? && !v.Str?
  {
    var env' := NormalEnv(env, base);
    EqualNode(env, Eq, cs, Bool(b), v);
    UnequalNode(env, cs, Bool(b), v);
    EqualNode(env', MEq, tcs, Str(Spell(b)), v);
    NegatedNode(env', Node(MEq, tcs, map[]));
  }

  lemma FirstOrdering(env: Env, base: string, fn: Fn, cs: seq<Expr>, tcs: seq<Expr>, v: Value, b: bool)
    requires PlainWords(env.prims) && Ordering(fn) && BooleanBefore(env, NormalEnv(env, base), cs, tcs, v, b)
    ensures Eval(env, Node(fn, cs, map[])) == Eval(NormalEnv(env, base), Node(Rename(fn), tcs, map[])) <==> !v.Str?
  {
    OrderedNode(env, fn, cs, Bool(b), v);
    OrderedNode(NormalEnv(env, base), fn, tcs, Str(Spell(b)), v);
  }

  lemma FirstConnective(env: Env, base: string, fn: Fn, cs: seq<Expr>, tcs: seq<Expr>, v: Value, b: bool)
    requires (fn.And? || fn.Or?) && BooleanBefore(env, NormalEnv(env, base), cs, tcs, v, b)
    ensures Eval(env, Node(fn, cs, map[])) == Eval(NormalEnv(env, base), Node(Rename(fn), tcs, map[])) <==>
        b == fn.And? && !v.Bool?
  {
    ConnectiveNode(env, fn, cs);
    ConnectiveNode(NormalEnv(env, base), Rename(fn), tcs);
    ConnectivesOfTwo(Bool(b), v);
    ConnectivesOfTwo(Str(Spell(b)), v);
  }

  lemma FirstMembership(env: Env, base: string, fn: Fn, cs: seq<Expr>, tcs: seq<Expr>, v: Value, b: bool)
    requires PlainWords(env.prims) && (fn.Contains? || fn.In?)
        && BooleanBefore(env, NormalEnv(env, base), cs, tcs, v, b)
    ensures Eval(env, Node(fn, cs, map[]))
        == Eval(NormalEnv(env, base), Node(if fn.In? then IsInList else StringContains, tcs, map[]))
      <==> BooleanFirstHarmless(env.prims, fn, v, b)
  {
    if v.List? {
      HeldExactly(env.prims, v.items, b);
    }
    if fn.In? {
      InNodeValue(env, In, cs);
      InNodeValue(NormalEnv(env, base), IsInList, tcs);
    } else {
      ContainsNodeValue(env, Contains, cs);
      ContainsNodeValue(NormalEnv(env, base), StringContains, tcs);
    }
  }

  lemma FirstProductOrList(env: Env, base: string, fn: Fn, cs: seq<Expr>, tcs: seq<Expr>, v: Value, b: bool)
    requires (fn.Multiply? || fn.ListOf?) && BooleanBefore(env, NormalEnv(env, base), cs, tcs, v, b)
    ensures Eval(env, Node(fn, cs, map[])) == Eval(NormalEnv(env, base), Node(Rename(fn), tcs, map[])) <==> fn.Multiply?
  {
    EvalNode(env, fn, cs, map[]);
    EvalNode(NormalEnv(env, base), Rename(fn), tcs, map[]);
    if fn.ListOf? {
      assert Values(Answers(env, cs))[0] == Bool(b) && Values(Answers(NormalEnv(env, base), tcs))[0] == Str(Spell(b));
    }
  }

  // ---- Other places of a boolean constant ---------------------------------------------------------------------

  lemma MemberOfOne(p: Prims, v: Value, item: Value)
    ensures Member(p, v, [item]) <==> Equal(p, v, item) == Some(true)
  {
    assert [item][0] == item;
  }

  lemma InListOfOne(env: Env, fn: Fn, o: Expr, list: Expr, v: Value, item: Value)
    requires (fn.In? || fn.IsInList?) && Eval(env, o) == Some(v) && Eval(env, list) == Some(List([item]))
    ensures Eval(env, Node(fn, [o, list], map[])) == Some(Bool(Equal(env.prims, v, item) == Some(true)))
  {
    TwoAnswers(env, [o, list], v, List([item]));
    MemberNode(env, fn, [o, list], v, List([item]));
    MemberOfOne(env.prims, v, item);
  }

  /** In a list, a boolean constant keeps the outcome exactly for values that are neither that boolean nor its word. */
  lemma BooleanInListExactly(env: Env, base: string, o: Expr, v: Value, b: bool)
    requires PlainWords(env.prims) && ValueOnBothSides(env, base, o, v)
    ensures SameOnRaw(env, base, Node(In, [o, Node(ListOf, [Const(Bool(b))], map[])], map[])) <==>
        v != Bool(b) && v != Str(Spell(b))
  {
    var list := Node(ListOf, [Const(Bool(b))], map[]);
    var tlist := Node(ListOf, [Const(Str(Spell(b)))], map[]);
    ConstantList(env, base, b);
    TranslateTwo(env.table, In, [o, list], [Translate(env.table, o).value, tlist]);
    InListOfOne(env, In, o, list, v, Bool(b));
    InListOfOne(NormalEnv(env, base), IsInList, Translate(env.table, o).value, tlist, v, Str(Spell(b)));
    HeldByEquality(env.prims, v, b);
  }

  lemma ConstantList(env: Env, base: string, b: bool)
    ensures var list := Node(ListOf, [Const(Bool(b))], map[]);
      var tlist := Node(ListOf, [Const(Str(Spell(b)))], map[]);
      && Translate(env.table, list) == Some(tlist)
      && Eval(env, list) == Some(List([Bool(b)])) && Eval(NormalEnv(env, base), tlist) == Some(List([Str(Spell(b))]))
  {
    var cs := [Const(Bool(b))];
    var tcs := [Const(Str(Spell(b)))];
    TranslateNode(env.table, ListOf, cs, map[], tcs, map[]);
    EvalNode(env, ListOf, cs, map[]);
    EvalNode(NormalEnv(env, base), ListOf, tcs, map[]);
    assert Values(Answers(env, cs)) == [Bool(b)];
    assert Values(Answers(NormalEnv(env, base), tcs)) == [Str(Spell(b))];
  }

  lemma NotNode(env: Env, fn: Fn, v: Value)
    requires fn.Not? || fn.MNot?
    ensures Eval(env, Node(fn, [Const(v)], map[])) == NotOf([Some(v)])
  {
    var cs := [Const(v)];
    EvalNode(env, fn, cs, map[]);
    assert Answers(env, cs) == [Some(v)];
  }

  /** Alone and under `not` a boolean constant never keeps the outcome. */
  lemma BooleanNeverKept(env: Env, base: string, b: bool)
    ensures !SameOnRaw(env, base, Const(Bool(b)))
    ensures !SameOnRaw(env, base, Node(Not, [Const(Bool(b))], map[]))
  {
    TranslateNode(env.table, Not, [Const(Bool(b))], map[], [Const(Str(Spell(b)))], map[]);
    NotNode(env, Not, Bool(b));
    NotNode(NormalEnv(env, base), MNot, Str(Spell(b)));
  }

  /** Nor does it as the operand of a list test: there the source fails and the target does not. */
  lemma BooleanListTest(env: Env, base: string, name: string, b: bool)
    requires PlainWords(env.prims)
    ensures !SameOnRaw(env, base, ListTest(name, Const(Bool(b))))
    ensures Eval(env, ListTest(name, Const(Bool(b)))) == None
  {
    TranslateListTest(env.table, name, Const(Bool(b)));
    ListTestValue(env, name, Const(Bool(b)), Bool(b));
    AddressTestValue(NormalEnv(env, base), Const(Str(Spell(b))), Str(Spell(b)));
  }

  /** Normalising twice is normalising once, and afterwards the flag is never a boolean. */
  lemma NormalizedOnce(r: Record, base: string, again: string)
    ensures NormalizePayload(NormalizePayload(r, base), again) == NormalizePayload(r, base)
    ensures !Read(NormalizePayload(r, base), FLAG).Bool?
  {}
}
