/**
 When the order of rule edits matters: exactly when an edit lies inside a constant that another one
 replaces. Then there are values for which one order fails and another goes through.
 */
module RuleEditOrder {
  import opened Common
  import opened RulePaths
  import opened RuleEdits
  import opened RuleEditBatches
  import opened RuleEditLaws

  // ---- What the edits of given paths may carry -------------------------------------------------------------

  predicate SamePaths(a: Edits, b: Edits) {
    && |a.constants| == |b.constants| && |a.operators| == |b.operators|
    && (forall i :: 0 <= i < |a.constants| ==> a.constants[i].0 == b.constants[i].0)
    && (forall i :: 0 <= i < |a.operators| ==> a.operators[i].0 == b.operators[i].0)
  }

  /** Edits of the same paths, with any values that are accepted. */
  ghost predicate MayCarry(doc: Json, edits: Edits, other: Edits)
    requires IsCase(doc)
  {
    SamePaths(edits, other) && Validate(RuleEditModel(Rules(doc), 0), other)
  }

  lemma SamePathsSameAims(edits: Edits, other: Edits)
    requires SamePaths(edits, other)
    ensures |AllEdits(other)| == |AllEdits(edits)|
    ensures forall i :: 0 <= i < |AllEdits(edits)| ==>
      AllEdits(other)[i].path == AllEdits(edits)[i].path && AllEdits(other)[i].operator == AllEdits(edits)[i].operator
  {
  }

  lemma SameAimSameSlot(doc: Json, e: Edit, f: Edit)
    requires e.path == f.path && e.operator == f.operator
    ensures Aimed(doc, e) <==> Aimed(doc, f)
    ensures Aimed(doc, e) ==> Slot(doc, e) == Slot(doc, f)
  {
  }

  lemma SamePathsSameInside(doc: Json, edits: Edits, other: Edits)
    requires SamePaths(edits, other) && DistinctPaths(edits) && NoneInside(doc, edits)
    ensures DistinctPaths(other) && NoneInside(doc, other)
  {
    var es, fs := AllEdits(edits), AllEdits(other);
    SamePathsSameAims(edits, other);
    forall i, j | 0 <= i < |fs| && 0 <= j < |fs| && i != j && Aimed(doc, fs[i])
      ensures !Inside(doc, fs[j], fs[i])
    {
      SameAimSameSlot(doc, es[i], fs[i]);
      assert !Inside(doc, es[j], es[i]);
    }
  }

  /** All orders of the edits, also across constants and operators, give one tree, or all fail. */
  ghost predicate AnyOrder(py: Conversions, doc: Json, es: seq<Edit>) {
    forall order: seq<Edit> :: multiset(order) == multiset(es) ==> ApplyAll(py, doc, order) == ApplyAll(py, doc, es)
  }

  /** If the edits go through, every slot holds the value formed from what it held at the start. */
  ghost predicate TakeEffect(py: Conversions, doc: Json, es: seq<Edit>) {
    ApplyAll(py, doc, es).Some? ==>
      forall n :: 0 <= n < |es| && Aimed(doc, es[n]) ==>
        Walk(ApplyAll(py, doc, es).value, Slot(doc, es[n])) == NewValue(py, doc, es[n])
  }

  // ---- Edits that always go through ---------------------------------------------------------------------------

  /** int() of an integer and float() of a float give it back. */
  ghost predicate KeepsNumbers(py: Conversions) {
    (forall n: int :: py.toInt(Num(n)) == Some(n)) && (forall x: real :: py.toFloat(Float(x)) == Some(x))
  }

  /** A constant set to what it is: nothing changes. */
  lemma HeldAgain(py: Conversions, doc: Json, e: Edit)
    requires KeepsNumbers(py) && Offered(doc, e) && !e.operator && e.value == Held(doc, e)
    ensures Apply(py, doc, e) == Some(doc)
  {
    ApplyAimed(py, doc, e);
    AimedSlot(doc, e);
    assert Coerce(py, e.value, e.value) == Some(e.value);
    PutSame(doc, Slot(doc, e));
  }

  lemma {:induction false} NothingChanges(py: Conversions, doc: Json, es: seq<Edit>, rest: seq<Edit>)
    requires forall i :: 0 <= i < |es| ==> Apply(py, doc, es[i]) == Some(doc)
    ensures ApplyAll(py, doc, es + rest) == ApplyAll(py, doc, rest)
    decreases |es|
  {
    if es == [] {
      assert es + rest == rest;
    } else {
      assert (es + rest)[1..] == es[1..] + rest;
      NothingChanges(py, doc, es[1..], rest);
    }
  }

  lemma SamePlace(p: seq<Seg>, q: seq<Seg>)
    requires p <= q && q[|p|..] == []
    ensures p == q
  {
  }

  /** No offered edit lies inside an operator: a function name holds no nodes. */
  lemma OperatorHoldsNone(doc: Json, e: Edit, f: Edit)
    requires Offered(doc, e) && e.operator && Offered(doc, f)
    ensures !Inside(doc, f, e)
  {
    if Inside(doc, f, e) {
      InsideIsShown(doc, e, f);
      var rest := f.path[|Slot(doc, e)|..];
      assert Held(doc, e) == Obj([]);
      AimedSlot(doc, e);
      if rest == [] {
        SamePlace(Slot(doc, e), f.path);
      }
    }
  }

  /** Operators, whatever constants they lie in, leave a list constant a list, and it can be replaced after them. */
  lemma {:induction false} OperatorsFirst(py: Conversions, doc: Json, os: seq<Edit>, e: Edit)
    requires forall i :: 0 <= i < |os| ==> Offered(doc, os[i]) && os[i].operator
    requires Offered(doc, e) && !e.operator && Held(doc, e).Arr? && e.value.Arr?
    ensures ApplyAll(py, doc, os + [e]).Some?
    ensures Walk(ApplyAll(py, doc, os + [e]).value, Slot(doc, e)) == Some(e.value)
    decreases |os|
  {
    if os == [] {
      assert os + [e] == [e];
      ApplyOne(py, doc, e);
      ApplyAimed(py, doc, e);
      AimedSlot(doc, e);
      WalkPut(doc, Slot(doc, e), e.value);
    } else {
      var c := OperatorKeepsAll(py, doc, os, e);
      assert (os + [e])[1..] == os[1..] + [e];
      OperatorsFirst(py, c, os[1..], e);
    }
  }

  lemma OperatorKeepsAll(py: Conversions, doc: Json, os: seq<Edit>, e: Edit) returns (c: Json)
    requires os != [] && forall i :: 0 <= i < |os| ==> Offered(doc, os[i]) && os[i].operator
    requires Offered(doc, e) && !e.operator && Held(doc, e).Arr?
    ensures Apply(py, doc, os[0]) == Some(c)
    ensures forall i :: 0 <= i < |os| ==> Offered(c, os[i])
    ensures Offered(c, e) && Held(c, e).Arr? && Slot(c, e) == Slot(doc, e)
  {
    ApplyAimed(py, doc, os[0]);
    c := Apply(py, doc, os[0]).value;
    forall i | 0 <= i < |os|
      ensures Offered(c, os[i])
    {
      OperatorHoldsNone(doc, os[0], os[i]);
      EditKeepsPlaced(py, doc, os[0], c, os[i]);
    }
    OperatorHoldsNone(doc, os[0], e);
    EditKeepsPlaced(py, doc, os[0], c, e);
    AimedSlot(doc, e);
    AimedSlot(c, e);
    SlotNotBelow(doc, os[0], e);
    PutKeepsSort(doc, Slot(doc, os[0]), NewValue(py, doc, os[0]).value, Slot(doc, e));
  }

  lemma LongerOrSame(p: seq<Seg>, q: seq<Seg>, last: Seg)
    ensures p <= q + [last] ==> p <= q || p == q + [last]
  {
    if p <= q + [last] && |p| <= |q| {
      assert p == (q + [last])[..|p|] == q[..|p|];
    }
  }

  lemma SlotNotBelow(doc: Json, o: Edit, e: Edit)
    requires Aimed(doc, o) && Aimed(doc, e) && o.operator != e.operator && !Inside(doc, e, o)
    ensures !(Slot(doc, o) <= Slot(doc, e))
  {
    var p, q := Slot(doc, o), Slot(doc, e);
    LongerOrSame(p, e.path, q[|q| - 1]);
    if p == q {
      SlotDetermines(doc, o, e);
    }
  }

  /** An edit inside a list that has been emptied fails. */
  lemma OuterFails(py: Conversions, doc: Json, e: Edit, f: Edit, rest: seq<Edit>)
    requires Offered(doc, e) && !e.operator && Held(doc, e).Arr? && e.value == Arr([]) && Inside(doc, f, e)
    ensures ApplyAll(py, doc, [e, f] + rest) == None
  {
    OuterFirst(py, doc, e, f);
    ApplyAllAppend(py, doc, [e, f], rest);
  }

  // ---- Values that tell orders apart ----------------------------------------------------------------------------

  /** All constants set to what they are, but the `i`-th, a list, to the empty list. */
  function Telling(doc: Json, edits: Edits, i: nat): Edits
    requires forall c :: 0 <= c < |edits.constants| ==> Aimed(doc, AllEdits(edits)[c])
  {
    Edits(seq(|edits.constants|, c requires 0 <= c < |edits.constants| =>
            (edits.constants[c].0, if c == i then Arr([]) else Held(doc, AllEdits(edits)[c]))),
          edits.operators)
  }

  lemma FrontIsPermuted(es: seq<Edit>, n: nat)
    requires n < |es|
    ensures multiset(ToFront(es, n)) == multiset(es)
  {
    assert es == es[..n] + [es[n]] + es[n + 1..];
  }

  /** Two edits taken to the front, the first of them first. */
  lemma TwoInFront(es: seq<Edit>, i: nat, j: nat) returns (rest: seq<Edit>)
    requires i < |es| && j < |es| && i != j
    ensures multiset([es[i], es[j]] + rest) == multiset(es)
  {
    var once := ToFront(es, j);
    FrontIsPermuted(es, j);
    var k := if i < j then i + 1 else i;
    assert once[k] == es[i];
    FrontIsPermuted(once, k);
    var twice := ToFront(once, k);
    assert twice[1] == once[0];
    rest := twice[2..];
    assert twice == [es[i], es[j]] + rest;
  }

  /** All other constants, then the operators, then the `i`-th constant. */
  function LastConstant(es: seq<Edit>, n: nat, i: nat): seq<Edit>
    requires i < n <= |es|
  {
    (es[..i] + es[i + 1..n]) + (es[n..] + [es[i]])
  }

  lemma LastIsPermuted(es: seq<Edit>, n: nat, i: nat)
    requires i < n <= |es|
    ensures multiset(LastConstant(es, n, i)) == multiset(es)
  {
    assert es == es[..i] + [es[i]] + es[i + 1..n] + es[n..];
  }

  /** One edit inside another: what the outer one replaces is a list constant. */
  lemma OuterIsList(doc: Json, e: Edit, f: Edit)
    requires Offered(doc, e) && Offered(doc, f) && Inside(doc, f, e)
    ensures !e.operator && Held(doc, e).Arr?
  {
    if e.operator {
      OperatorHoldsNone(doc, e, f);
    } else {
      InsideIsShown(doc, e, f);
    }
  }

  ghost predicate AllOffered(doc: Json, es: seq<Edit>) { forall i :: 0 <= i < |es| ==> Offered(doc, es[i]) }

  /**
   The first `n` edits are of constants, the others of operators; the `i`-th empties a list, the other constants stay.
   */
  ghost predicate Tells(doc: Json, es: seq<Edit>, n: nat, i: nat) {
    && AllOffered(doc, es) && i < n <= |es| && Held(doc, es[i]).Arr? && es[i].value == Arr([])
    && (forall m :: 0 <= m < n ==> !es[m].operator && (m != i ==> es[m].value == Held(doc, es[m])))
    && (forall m :: n <= m < |es| ==> es[m].operator)
  }

  lemma SameAimOffered(doc: Json, e: Edit, f: Edit)
    requires Offered(doc, e) && e.path == f.path && e.operator == f.operator && (e.operator ==> f.value == e.value)
    ensures Offered(doc, f) && Held(doc, f) == Held(doc, e)
  {
    SameAimSameSlot(doc, e, f);
  }

  /** The edits with these values, one by one. */
  lemma TellingEdit(doc: Json, edits: Edits, i: nat, m: nat)
    requires AllOffered(doc, AllEdits(edits)) && m < |AllEdits(edits)|
    ensures |AllEdits(Telling(doc, edits, i))| == |AllEdits(edits)|
    ensures var e, f := AllEdits(edits)[m], AllEdits(Telling(doc, edits, i))[m];
      && f.path == e.path && f.operator == e.operator && f.operator == (m >= |edits.constants|)
      && f.value == if m >= |edits.constants| then e.value else if m == i then Arr([]) else Held(doc, e)
  {
    EditAt(edits, m);
    EditAt(Telling(doc, edits, i), m);
  }

  lemma TellingTells(doc: Json, edits: Edits, i: nat)
    requires AllOffered(doc, AllEdits(edits)) && i < |edits.constants| && Held(doc, AllEdits(edits)[i]).Arr?
    ensures SamePaths(edits, Telling(doc, edits, i))
    ensures Tells(doc, AllEdits(Telling(doc, edits, i)), |edits.constants|, i)
  {
    var was, es := AllEdits(edits), AllEdits(Telling(doc, edits, i));
    var n := |edits.constants|;
    assert |es| == |was|;
    forall m | 0 <= m < |es|
      ensures Offered(doc, es[m]) && Held(doc, es[m]) == Held(doc, was[m]) && es[m].operator == (m >= n)
      ensures m < n ==> es[m].value == if m == i then Arr([]) else Held(doc, was[m])
    {
      TellingEdit(doc, edits, i, m);
      SameAimOffered(doc, was[m], es[m]);
    }
  }

  lemma LastGoesThrough(py: Conversions, doc: Json, es: seq<Edit>, n: nat, i: nat)
    requires KeepsNumbers(py) && Tells(doc, es, n, i)
    ensures ApplyAll(py, doc, LastConstant(es, n, i)).Some?
    ensures Walk(ApplyAll(py, doc, LastConstant(es, n, i)).value, Slot(doc, es[i])) == Some(Arr([]))
  {
    var first, os := es[..i] + es[i + 1..n], es[n..];
    forall m | 0 <= m < |first|
      ensures Apply(py, doc, first[m]) == Some(doc)
    {
      var k := if m < i then m else m + 1;
      assert first[m] == es[k];
      HeldAgain(py, doc, es[k]);
    }
    NothingChanges(py, doc, first, os + [es[i]]);
    OperatorsFirst(py, doc, os, es[i]);
  }

  /** What lay inside the emptied list is gone. */
  lemma WipedOut(doc: Json, case': Json, e: Edit, f: Edit)
    requires Aimed(doc, e) && Aimed(doc, f) && Inside(doc, f, e) && Walk(case', Slot(doc, e)) == Some(Arr([]))
    ensures Walk(case', Slot(doc, f)) == None
  {
    var p, q := Slot(doc, e), Slot(doc, f);
    assert q == p + q[|p|..];
    WalkAppend(case', p, q[|p|..]);
  }

  lemma TellingValue(py: Conversions, doc: Json, es: seq<Edit>, n: nat, i: nat, j: nat)
    requires KeepsNumbers(py) && Tells(doc, es, n, i) && j < |es|
    ensures NewValue(py, doc, es[j]).Some?
  {
    if j < n && j != i {
      HeldAgain(py, doc, es[j]);
      ApplyAimed(py, doc, es[j]);
    }
  }

  lemma NoEffect(py: Conversions, doc: Json, es: seq<Edit>, order: seq<Edit>, f: Edit)
    requires f in es && multiset(order) == multiset(es) && Aimed(doc, f) && ApplyAll(py, doc, order).Some?
    requires Walk(ApplyAll(py, doc, order).value, Slot(doc, f)) != NewValue(py, doc, f)
    ensures !TakeEffect(py, doc, order)
  {
    assert f in multiset(order);
    var m :| 0 <= m < |order| && order[m] == f;
  }

  /** The outer edit last goes through and wipes out the inner one; the outer edit first fails. */
  lemma TellingOrders(py: Conversions, doc: Json, es: seq<Edit>, n: nat, i: nat, j: nat)
      returns (good: seq<Edit>, bad: seq<Edit>)
    requires KeepsNumbers(py) && Tells(doc, es, n, i) && j < |es| && i != j && Inside(doc, es[j], es[i])
    ensures multiset(good) == multiset(es) && multiset(bad) == multiset(es)
    ensures ApplyAll(py, doc, bad) == None && ApplyAll(py, doc, good).Some? && !TakeEffect(py, doc, good)
  {
    var rest := TwoInFront(es, i, j);
    bad := [es[i], es[j]] + rest;
    OuterFails(py, doc, es[i], es[j], rest);
    good := LastConstant(es, n, i);
    LastIsPermuted(es, n, i);
    LastGoesThrough(py, doc, es, n, i);
    WipedOut(doc, ApplyAll(py, doc, good).value, es[i], es[j]);
    TellingValue(py, doc, es, n, i, j);
    NoEffect(py, doc, es, good, es[j]);
  }

  // ---- The exact condition ------------------------------------------------------------------------------------

  /**
   The result is independent of the order, for all values that edits of these paths may carry, exactly if none of
   them lies inside a constant that another one replaces.
   */
  lemma OrderFreeExactly(py: Conversions, doc: Json, edits: Edits)
    requires IsCase(doc) && GoodRules(Rules(doc)) && DistinctPaths(edits) && KeepsNumbers(py)
    requires Validate(RuleEditModel(Rules(doc), 0), edits)
    ensures (forall other :: MayCarry(doc, edits, other) ==> AnyOrder(py, doc, AllEdits(other))) <==>
        NoneInside(doc, edits)
  {
    if NoneInside(doc, edits) {
      forall other | MayCarry(doc, edits, other)
        ensures AnyOrder(py, doc, AllEdits(other))
      {
        SamePathsSameInside(doc, edits, other);
        forall order: seq<Edit> | multiset(order) == multiset(AllEdits(other))
          ensures ApplyAll(py, doc, order) == ApplyAll(py, doc, AllEdits(other))
        {
          EditsOrderFree(py, doc, other, order);
        }
      }
    } else {
      var other, good, bad := OrdersDiffer(py, doc, edits);
    }
  }

  /** If the edits of these paths nest, there are values for which the outcome depends on the order. */
  lemma OrdersDiffer(py: Conversions, doc: Json, edits: Edits) returns (other: Edits, good: seq<Edit>, bad: seq<Edit>)
    requires IsCase(doc) && GoodRules(Rules(doc)) && KeepsNumbers(py)
    requires Validate(RuleEditModel(Rules(doc), 0), edits) && !NoneInside(doc, edits)
    ensures MayCarry(doc, edits, other) && multiset(good) == multiset(bad) == multiset(AllEdits(other))
    ensures ApplyAll(py, doc, good).Some? && ApplyAll(py, doc, bad).None? && !AnyOrder(py, doc, AllEdits(other))
    ensures !TakeEffect(py, doc, good)
  {
    var es := AllEdits(edits);
    var i, j := NestedPair(doc, edits);
    other := Telling(doc, edits, i);
    var fs := AllEdits(other);
    TellingTells(doc, edits, i);
    OtherConstantsAccepted(RuleEditModel(Rules(doc), 0), edits, other);
    NestedStill(doc, es, fs, edits, other, i, j);
    good, bad := TellingOrders(py, doc, fs, |edits.constants|, i, j);
    NotAnyOrder(py, doc, fs, good, bad);
  }

  /** Whether a constant may be edited does not depend on its new value. */
  lemma OtherConstantsAccepted(model: seq<Item>, edits: Edits, other: Edits)
    requires SamePaths(edits, other) && other.operators == edits.operators && Validate(model, edits)
    ensures Validate(model, other)
  {
    forall i | 0 <= i < |other.constants|
      ensures ConstantAllowed(model, other.constants[i].0)
    {
      assert ConstantAllowed(model, edits.constants[i].0);
    }
  }

  lemma NestedStill(doc: Json, es: seq<Edit>, fs: seq<Edit>, edits: Edits, other: Edits, i: nat, j: nat)
    requires SamePaths(edits, other) && es == AllEdits(edits) && fs == AllEdits(other)
    requires i < |es| && j < |es| && Aimed(doc, es[i]) && Inside(doc, es[j], es[i])
    ensures |fs| == |es| && Aimed(doc, fs[i]) && Inside(doc, fs[j], fs[i])
  {
    SamePathsSameAims(edits, other);
    SameAimSameSlot(doc, es[i], fs[i]);
  }

  lemma NotAnyOrder(py: Conversions, doc: Json, es: seq<Edit>, good: seq<Edit>, bad: seq<Edit>)
    requires multiset(good) == multiset(es) && multiset(bad) == multiset(es)
    requires ApplyAll(py, doc, good) != ApplyAll(py, doc, bad)
    ensures !AnyOrder(py, doc, es)
  {
  }

  lemma NestedPair(doc: Json, edits: Edits) returns (i: nat, j: nat)
    requires IsCase(doc) && GoodRules(Rules(doc))
    requires Validate(RuleEditModel(Rules(doc), 0), edits) && !NoneInside(doc, edits)
    ensures AllOffered(doc, AllEdits(edits)) && i < |edits.constants| && j < |AllEdits(edits)| && i != j
    ensures Held(doc, AllEdits(edits)[i]).Arr? && Inside(doc, AllEdits(edits)[j], AllEdits(edits)[i])
  {
    var es := AllEdits(edits);
    ValidatedExactly(doc, edits);
    forall m | 0 <= m < |es|
      ensures Offered(doc, es[m])
    {
      assert OfferedAs(doc, edits, m);
    }
    i, j :| 0 <= i < |es| && 0 <= j < |es| && i != j && Aimed(doc, es[i]) && Inside(doc, es[j], es[i]);
    OuterIsList(doc, es[i], es[j]);
  }

  /**
   Whatever values the edits of these paths carry and in whatever order they go through, every slot gets the value
   formed from the untouched case: exactly if none of them lies inside a constant that another one replaces.
   */
  lemma EffectExactly(py: Conversions, doc: Json, edits: Edits)
    requires IsCase(doc) && GoodRules(Rules(doc)) && DistinctPaths(edits) && KeepsNumbers(py)
    requires Validate(RuleEditModel(Rules(doc), 0), edits)
    ensures (forall other, order: seq<Edit> ::
               MayCarry(doc, edits, other) && multiset(order) == multiset(AllEdits(other)) ==>
                   TakeEffect(py, doc, order))
      <==> NoneInside(doc, edits)
  {
    if NoneInside(doc, edits) {
      forall other, order: seq<Edit> | MayCarry(doc, edits, other) && multiset(order) == multiset(AllEdits(other))
        ensures TakeEffect(py, doc, order)
      {
        SamePathsSameInside(doc, edits, other);
        EditsOrderFree(py, doc, other, order);
        OrderTakesEffect(py, doc, other, order);
      }
    } else {
      var other, good, bad := OrdersDiffer(py, doc, edits);
    }
  }

  lemma OrderTakesEffect(py: Conversions, doc: Json, edits: Edits, order: seq<Edit>)
    requires IsCase(doc) && GoodRules(Rules(doc)) && DistinctPaths(edits) && NoneInside(doc, edits)
    requires Validate(RuleEditModel(Rules(doc), 0), edits)
    requires multiset(order) == multiset(AllEdits(edits)) && ApplyAll(py, doc, order) == Edited(py, doc, edits)
    ensures TakeEffect(py, doc, order)
  {
    var es := AllEdits(edits);
    if ApplyAll(py, doc, order).Some? {
      EditsAreFramed(py, doc, edits, []);
      forall n | 0 <= n < |order| && Aimed(doc, order[n])
        ensures Walk(ApplyAll(py, doc, order).value, Slot(doc, order[n])) == NewValue(py, doc, order[n])
      {
        assert order[n] in multiset(es);
        var m :| 0 <= m < |es| && es[m] == order[n];
      }
    }
  }

  // ---- An example -----------------------------------------------------------------------------------------------

  /** A case with one rule, whose formula is one constant. */
  function CaseWith(constant: Json): Json {
    Obj([Field("rules", Arr([Obj([Field("formula", Obj([Field("constant", constant)]))])]))])
  }

  function Boxed(v: Json): Json { Arr([Obj([Field("constant", v)])]) }

  /** An edit of the constant, and one of the constant inside it. */
  function Nested(outer: Json, inner: Json): Edits {
    Edits([(RulePath(0), outer), (RulePath(0) + Print([Key("constant"), Index(0)]), inner)], [])
  }

  const INNER_PLACE: seq<Seg> := [Key("constant"), Index(0)]

  lemma ExampleIsCase()
    ensures var doc := CaseWith(Boxed(Num(1)));
      && IsCase(doc) && Rules(doc) == [Obj([Field("formula", Obj([Field("constant", Boxed(Num(1)))]))])]
      && Formula(Rules(doc)[0]) == Obj([Field("constant", Boxed(Num(1)))])
  {
  }

  lemma ExampleIsGood()
    ensures IsCase(CaseWith(Boxed(Num(1)))) && GoodRules(Rules(CaseWith(Boxed(Num(1)))))
  {
    ExampleIsCase();
    var inner := Obj([Field("constant", Num(1))]);
    assert GoodValue(inner);
    assert GoodValue(Boxed(Num(1)));
    assert GoodValue(Obj([Field("constant", Boxed(Num(1)))]));
  }

  lemma ExampleNodes()
    ensures var formula := Formula(Rules(CaseWith(Boxed(Num(1))))[0]);
      && Emits(formula, []) && Walk(formula, []) == Some(Obj([Field("constant", Boxed(Num(1)))]))
      && Emits(formula, INNER_PLACE) && Walk(formula, INNER_PLACE) == Some(Obj([Field("constant", Num(1))]))
  {
    ExampleIsCase();
    var formula := Formula(Rules(CaseWith(Boxed(Num(1))))[0]);
    assert INNER_PLACE[1..] == [Index(0)] && INNER_PLACE[1..][1..] == [] && INNER_PLACE[2..] == [];
    assert !IsFieldRef(FunctionOf(formula.fields));
    assert Walk(formula, INNER_PLACE) == Walk(Boxed(Num(1)), [Index(0)]);
  }

  lemma ConstantOffered(doc: Json, r: nat, segs: seq<Seg>)
    requires IsCase(doc) && GoodRules(Rules(doc)) && r < |Rules(doc)| && Emits(Formula(Rules(doc)[r]), segs)
    requires var node := Walk(Formula(Rules(doc)[r]), segs);
        node.Some? && node.value.Obj? && Editable(node.value.fields)
    ensures ConstantAllowed(RuleEditModel(Rules(doc), 0), RulePath(r) + Print(segs))
  {
    ListedIsFound(doc, r, segs);
  }

  lemma NestedAllowed(model: seq<Item>, outer: Json, inner: Json)
    requires ConstantAllowed(model, RulePath(0)) && ConstantAllowed(model, RulePath(0) + Print(INNER_PLACE))
    ensures Validate(model, Nested(outer, inner))
  {
  }

  lemma BothOffered()
    ensures var doc := CaseWith(Boxed(Num(1)));
      && IsCase(doc) && ConstantAllowed(RuleEditModel(Rules(doc), 0), RulePath(0) + Print([]))
      && ConstantAllowed(RuleEditModel(Rules(doc), 0), RulePath(0) + Print(INNER_PLACE))
  {
    ExampleIsCase();
    ExampleIsGood();
    ExampleNodes();
    ConstantOffered(CaseWith(Boxed(Num(1))), 0, []);
    ConstantOffered(CaseWith(Boxed(Num(1))), 0, INNER_PLACE);
  }

  lemma ExampleTokens()
    ensures Tokens(RulePath(0)) == Full(0, []) && Tokens(RulePath(0) + Print(INNER_PLACE)) == Full(0, INNER_PLACE)
  {
    assert IsIdentifier("constant");
    FullRoundTrip(0, INNER_PLACE);
    FullRoundTrip(0, []);
    assert RulePath(0) + Print([]) == RulePath(0);
  }

  lemma ExampleEdits(outer: Json, inner: Json)
    ensures AllEdits(Nested(outer, inner))
        == [Edit(Full(0, []), false, outer), Edit(Full(0, INNER_PLACE), false, inner)]
  {
    ExampleTokens();
    EditsOfTwo(RulePath(0), outer, RulePath(0) + Print(INNER_PLACE), inner);
  }

  lemma EditsOfTwo(p: string, v: Json, q: string, w: Json)
    ensures AllEdits(Edits([(p, v), (q, w)], [])) == [Edit(Tokens(p), false, v), Edit(Tokens(q), false, w)]
  {
    assert EditsOf([(p, v), (q, w)], false) == [Edit(Tokens(p), false, v), Edit(Tokens(q), false, w)];
  }

  lemma ExampleAims(outer: Json, inner: Json)
    ensures var doc := CaseWith(Boxed(Num(1)));
      var e, f := Edit(Full(0, []), false, outer), Edit(Full(0, INNER_PLACE), false, inner);
      && Aimed(doc, e) && Slot(doc, e) == Full(0, [Key("constant")]) && Held(doc, e) == Boxed(Num(1))
      && Aimed(doc, f) && Held(doc, f) == Num(1) && Inside(doc, f, e)
          && Within(doc, f, e) == Edit([Index(0)], false, inner)
  {
    var doc := CaseWith(Boxed(Num(1)));
    ExampleIsCase();
    ExampleNodes();
    EmitsSolid(Formula(Rules(doc)[0]), []);
    EmitsSolid(Formula(Rules(doc)[0]), INNER_PLACE);
    FullSolid(doc, 0, []);
    FullSolid(doc, 0, INNER_PLACE);
    WalkFull(doc, Rules(doc), 0, []);
    WalkFull(doc, Rules(doc), 0, INNER_PLACE);
    assert Full(0, []) + [Key("constant")] == Full(0, [Key("constant")]);
    assert Full(0, INNER_PLACE) == Full(0, [Key("constant")]) + [Index(0)];
  }

  lemma ExampleNests(outer: Json, inner: Json)
    ensures !NoneInside(CaseWith(Boxed(Num(1))), Nested(outer, inner))
  {
    var doc, es := CaseWith(Boxed(Num(1))), AllEdits(Nested(outer, inner));
    ExampleEdits(outer, inner);
    ExampleAims(outer, inner);
    assert Aimed(doc, es[0]) && Inside(doc, es[1], es[0]);
  }

  /** Both edits are accepted, and the second lies inside the constant of the first. */
  lemma NestedAccepted(outer: Json, inner: Json)
    ensures var doc := CaseWith(Boxed(Num(1)));
      && IsCase(doc) && GoodRules(Rules(doc)) && Validate(RuleEditModel(Rules(doc), 0), Nested(outer, inner))
      && !NoneInside(doc, Nested(outer, inner))
  {
    BothOffered();
    ExampleIsGood();
    assert RulePath(0) + Print([]) == RulePath(0);
    NestedAllowed(RuleEditModel(Rules(CaseWith(Boxed(Num(1)))), 0), outer, inner);
    ExampleNests(outer, inner);
  }

  lemma PutExample(v: Json)
    ensures Put(CaseWith(Boxed(Num(1))), Full(0, [Key("constant")]), v) == CaseWith(v)
  {
    var p := Full(0, [Key("constant")]);
    assert p == [Key("rules"), Index(0), Key("formula"), Key("constant")];
    assert p[1..] == [Index(0), Key("formula"), Key("constant")];
    assert p[1..][1..] == [Key("formula"), Key("constant")];
    assert p[1..][1..][1..] == [Key("constant")] && p[1..][1..][1..][1..] == [];
    var formula := Obj([Field("constant", Boxed(Num(1)))]);
    var rule := Obj([Field("formula", formula)]);
    assert Put(formula, p[1..][1..][1..], v) == Obj([Field("constant", v)]);
    assert Put(rule, p[1..][1..], v) == Obj([Field("formula", Obj([Field("constant", v)]))]);
    assert Put(Arr([rule]), p[1..], v) == Arr([Obj([Field("formula", Obj([Field("constant", v)]))])]);
  }

  lemma ApplyInBox(py: Conversions, n: int, m: int)
    requires KeepsNumbers(py)
    ensures Apply(py, Boxed(Num(n)), Edit([Index(0)], false, Num(m))) == Some(Boxed(Num(m)))
  {
    var box := Boxed(Num(n));
    var node := Obj([Field("constant", Num(n))]);
    assert [Index(0)][1..] == [];
    assert Walk(box, [Index(0)]) == Walk(node, []) == Some(node);
    assert [Index(0)] + [Key("constant")] == [Index(0), Key("constant")];
    assert [Index(0), Key("constant")][1..] == [Key("constant")] && [Key("constant")][1..] == [];
    assert Put(node, [Key("constant")], Num(m)) == Obj([Field("constant", Num(m))]);
    assert Put(box, [Index(0), Key("constant")], Num(m)) == Boxed(Num(m));
  }

  /** An edit of the constant to a list, and one of the constant inside it, in both orders. */
  lemma BothOrders(py: Conversions, outer: Json, n: int)
    requires KeepsNumbers(py) && outer.Arr?
    ensures var doc, e, f := CaseWith(Boxed(Num(1))), Edit(Full(0, []), false, outer),
        Edit(Full(0, INNER_PLACE), false, Num(n));
      && ApplyAll(py, doc, [f, e]) == Some(CaseWith(outer))
      && ApplyAll(py, doc, [e, f]) ==
           match Apply(py, outer, Edit([Index(0)], false, Num(n))) case Some(v) => Some(CaseWith(v)) case None => None
  {
    var doc, e, f := CaseWith(Boxed(Num(1))), Edit(Full(0, []), false, outer),
        Edit(Full(0, INNER_PLACE), false, Num(n));
    ExampleAims(outer, Num(n));
    assert NewValue(py, doc, e) == Some(outer);
    assert NewValue(py, doc, f) == Some(Num(n));
    ApplyAimed(py, doc, e);
    OuterFirst(py, doc, e, f);
    InnerFirst(py, doc, f, e);
    PutExample(outer);
    if Apply(py, outer, Edit([Index(0)], false, Num(n))).Some? {
      PutExample(Apply(py, outer, Edit([Index(0)], false, Num(n))).value);
    }
  }

  lemma ApplyInEmpty(py: Conversions, n: int)
    ensures Apply(py, Arr([]), Edit([Index(0)], false, Num(n))) == None
  {
  }

  /**
   The outer edit first: the inner one stays if its place is there again, and fails if it is not. The other way round,
   it is lost.
   */
  lemma NestedOutcomes(py: Conversions)
    requires KeepsNumbers(py)
    ensures var doc, inner := CaseWith(Boxed(Num(1))), Edit(Full(0, INNER_PLACE), false, Num(7));
      var boxed, empty := Edit(Full(0, []), false, Boxed(Num(5))), Edit(Full(0, []), false, Arr([]));
      && ApplyAll(py, doc, [boxed, inner]) == Some(CaseWith(Boxed(Num(7))))
      && ApplyAll(py, doc, [inner, boxed]) == Some(CaseWith(Boxed(Num(5))))
      && ApplyAll(py, doc, [empty, inner]) == None
      && ApplyAll(py, doc, [inner, empty]) == Some(CaseWith(Arr([])))
  {
    BothOrders(py, Boxed(Num(5)), 7);
    BothOrders(py, Arr([]), 7);
    ApplyInBox(py, 5, 7);
    ApplyInEmpty(py, 7);
  }
}
