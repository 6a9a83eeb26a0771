/**
 What may be edited and what stands in the tree afterwards, written out for every sort of constant.
 */
module RuleEditValues {
  import opened Common
  import opened RulePaths
  import opened RulePlaces
  import opened RuleEdits
  import opened RuleEditBatches
  import opened RuleEditLaws

  // ---- One assignment ---------------------------------------------------------------------------------------------

  /** A number cannot be made of what was given. */
  predicate Refuses(py: Conversions, held: Json, given: Json) {
    (held.Num? && py.toInt(given).None?) || (held.Float? && py.toFloat(given).None?)
  }

  /** What stands where a constant stood when a value has been assigned to it. */
  predicate Takes(py: Conversions, held: Json, given: Json, now: Json) {
    match held
    case Bool(_) => now == if given.Bool? then given else Bool(py.saysTrue(given))
    case Num(_) => py.toInt(given).Some? && now == Num(py.toInt(given).value)
    case Float(_) => py.toFloat(given).Some? && now == Float(py.toFloat(given).value)
    case Arr(_) => if given.Arr? then now == given else AreTexts(now, py.split(given))
    case Null => now == if given == Str("") then Null else given
    case Str(_) => now == given
    case Obj(_) => now == given
  }

  predicate AreTexts(list: Json, texts: seq<string>) {
    list.Arr? && |list.items| == |texts| && forall i :: 0 <= i < |texts| ==> list.items[i] == Str(texts[i])
  }

  lemma CoerceExactly(py: Conversions, given: Json, held: Json)
    ensures Coerce(py, given, held).None? <==> Refuses(py, held, given)
    ensures Coerce(py, given, held).Some? ==> Takes(py, held, given, Coerce(py, given, held).value)
  {
  }

  /** The node holds something under the key. */
  predicate Has(node: Option<Json>, k: string) { node.Some? && node.value.Obj? && Lookup(node.value.fields, k).Some? }

  /** One constant edit of any tree: it fails without a constant there, or when the value does not convert. */
  lemma ConstantEditExactly(py: Conversions, doc: Json, path: seq<Seg>, given: Json) returns (now: Json)
    ensures var edited, node := Apply(py, doc, Edit(path, false, given)), Walk(doc, path);
      && (edited.Some? ==> Has(node, "constant") && Takes(py, Lookup(node.value.fields, "constant").value, given, now))
      && (edited.Some? ==> edited.value == Put(doc, path + [Key("constant")], now))
      && (edited.None? && Has(node, "constant") ==> Refuses(py, Lookup(node.value.fields, "constant").value, given))
  {
    now := Null;
    var node := Walk(doc, path);
    if Has(node, "constant") {
      var held := Lookup(node.value.fields, "constant").value;
      CoerceExactly(py, given, held);
      if Coerce(py, given, held).Some? {
        now := Coerce(py, given, held).value;
      }
    }
  }

  /** One operator edit of any tree: it fails without a dictionary there, and does nothing if that has no name. */
  lemma OperatorEditExactly(py: Conversions, doc: Json, path: seq<Seg>, given: Json)
    ensures var edited, node := Apply(py, doc, Edit(path, true, given)), Walk(doc, path);
      && (Has(node, "function") ==> edited == Some(Put(doc, path + [Key("function")], given)))
      && (Has(node, "name") && !Has(node, "function") ==> edited == Some(Put(doc, path + [Key("name")], given)))
      && (!Has(node, "name") && !Has(node, "function") ==>
            edited == if node.Some? && node.value.Obj? then Some(doc) else None)
  {
  }

  // ---- What is accepted ---------------------------------------------------------------------------------------------

  /** The text is the path printed for a visible place in the formula of a rule. */
  ghost predicate ShownAs(doc: Json, path: string, r: nat, segs: seq<Seg>)
    requires IsCase(doc)
  {
    && r < |Rules(doc)| && Lookup(Rules(doc)[r].fields, "formula").Some?
    && Visible(Lookup(Rules(doc)[r].fields, "formula").value, segs)
    && path == "rules" + ("[" + Decimal(r) + "]") + ("." + "formula") + Print(segs)
  }

  /** The dictionary at a visible place of a formula. */
  function NodeOf(doc: Json, r: nat, segs: seq<Seg>): (fields: seq<Field>)
    requires IsCase(doc) && r < |Rules(doc)| && Lookup(Rules(doc)[r].fields, "formula").Some?
    requires var node := Walk(Lookup(Rules(doc)[r].fields, "formula").value, segs); node.Some? && node.value.Obj?
  {
    Walk(Lookup(Rules(doc)[r].fields, "formula").value, segs).value.fields
  }

  ghost predicate ConstantOffered(doc: Json, path: string)
    requires IsCase(doc)
  {
    exists r: nat, segs :: ShownAs(doc, path, r, segs)
      && Lookup(NodeOf(doc, r, segs), "constant").Some? && !Lookup(NodeOf(doc, r, segs), "constant").value.Obj?
  }

  ghost predicate OperatorOffered(doc: Json, path: string, given: Json)
    requires IsCase(doc)
  {
    exists r: nat, segs :: ShownAs(doc, path, r, segs)
      && CalledName(NodeOf(doc, r, segs)).Str? && given.Str?
      && Interchangeable(CalledName(NodeOf(doc, r, segs)).s, given.s)
  }

  lemma ShownIsFound(doc: Json, path: string, r: nat, segs: seq<Seg>)
    requires IsCase(doc) && GoodRules(Rules(doc)) && ShownAs(doc, path, r, segs)
    ensures Find(RuleEditModel(Rules(doc), 0), path) == Some(ItemOf(NodeOf(doc, r, segs), path))
    ensures Tokens(path) == Full(r, segs) && Walk(doc, Tokens(path)) == Some(Obj(NodeOf(doc, r, segs)))
  {
    EmitsExactly(Formula(Rules(doc)[r]), segs);
    PathTextExactly(r, "", 0, []);
    ListedIsFound(doc, r, segs);
    WalkFull(doc, Rules(doc), r, segs);
  }

  lemma FoundIsShown(doc: Json, path: string) returns (r: nat, segs: seq<Seg>)
    requires IsCase(doc) && GoodRules(Rules(doc))
    requires var item := Find(RuleEditModel(Rules(doc), 0), path);
      item.Some? && (item.value.editableConstant || item.value.operators.Some?)
    ensures ShownAs(doc, path, r, segs)
    ensures Find(RuleEditModel(Rules(doc), 0), path) == Some(ItemOf(NodeOf(doc, r, segs), path))
  {
    r, segs := FoundNode(doc, path);
    EmitsExactly(Formula(Rules(doc)[r]), segs);
    PathTextExactly(r, "", 0, []);
  }

  lemma ConstantAllowedExactly(doc: Json, path: string)
    requires IsCase(doc) && GoodRules(Rules(doc))
    ensures ConstantAllowed(RuleEditModel(Rules(doc), 0), path) <==> ConstantOffered(doc, path)
  {
    if ConstantAllowed(RuleEditModel(Rules(doc), 0), path) {
      var r, segs := FoundIsShown(doc, path);
    } else if ConstantOffered(doc, path) {
      var r: nat, segs :| ShownAs(doc, path, r, segs)
        && Lookup(NodeOf(doc, r, segs), "constant").Some? && !Lookup(NodeOf(doc, r, segs), "constant").value.Obj?;
      ShownIsFound(doc, path, r, segs);
    }
  }

  lemma OperatorAllowedExactly(doc: Json, path: string, given: Json)
    requires IsCase(doc) && GoodRules(Rules(doc))
    ensures OperatorAllowed(RuleEditModel(Rules(doc), 0), path, given) <==> OperatorOffered(doc, path, given)
  {
    if OperatorAllowed(RuleEditModel(Rules(doc), 0), path, given) {
      var r, segs := FoundIsShown(doc, path);
      ItemExactly(NodeOf(doc, r, segs), path, given.s);
      GroupExactly(CalledName(NodeOf(doc, r, segs)).s, given.s);
    } else if OperatorOffered(doc, path, given) {
      var r: nat, segs :| ShownAs(doc, path, r, segs)
        && CalledName(NodeOf(doc, r, segs)).Str? && given.Str?
        && Interchangeable(CalledName(NodeOf(doc, r, segs)).s, given.s);
      ShownIsFound(doc, path, r, segs);
      ItemExactly(NodeOf(doc, r, segs), path, given.s);
      GroupExactly(CalledName(NodeOf(doc, r, segs)).s, given.s);
    }
  }

  /**
   Edits are accepted exactly if every constant edit names a visible dictionary with a constant that is no
   dictionary, and every operator edit gives such a one a name of the same group.
   */
  lemma AcceptedExactly(doc: Json, edits: Edits)
    requires IsCase(doc) && GoodRules(Rules(doc))
    ensures Validate(RuleEditModel(Rules(doc), 0), edits) <==>
      && (forall i :: 0 <= i < |edits.constants| ==> ConstantOffered(doc, edits.constants[i].0))
      && (forall i :: 0 <= i < |edits.operators| ==> OperatorOffered(doc, edits.operators[i].0, edits.operators[i].1))
  {
    forall i | 0 <= i < |edits.constants|
      ensures ConstantAllowed(RuleEditModel(Rules(doc), 0), edits.constants[i].0)
        <==> ConstantOffered(doc, edits.constants[i].0)
    {
      ConstantAllowedExactly(doc, edits.constants[i].0);
    }
    forall i | 0 <= i < |edits.operators|
      ensures OperatorAllowed(RuleEditModel(Rules(doc), 0), edits.operators[i].0, edits.operators[i].1)
        <==> OperatorOffered(doc, edits.operators[i].0, edits.operators[i].1)
    {
      OperatorAllowedExactly(doc, edits.operators[i].0, edits.operators[i].1);
    }
  }

  // ---- What stands there afterwards ---------------------------------------------------------------------------------

  /** The place of the constant that the i-th constant edit names. */
  function ConstantPlace(edits: Edits, i: nat): seq<Seg>
    requires i < |edits.constants|
  {
    Tokens(edits.constants[i].0) + [Key("constant")]
  }

  lemma ConstantAimed(doc: Json, edits: Edits, i: nat)
    requires IsCase(doc) && GoodRules(Rules(doc)) && Validate(RuleEditModel(Rules(doc), 0), edits)
    requires i < |edits.constants|
    ensures AllEdits(edits)[i] == Edit(Tokens(edits.constants[i].0), false, edits.constants[i].1)
    ensures Aimed(doc, AllEdits(edits)[i]) && Slot(doc, AllEdits(edits)[i]) == ConstantPlace(edits, i)
    ensures Walk(doc, ConstantPlace(edits, i)) == Some(Held(doc, AllEdits(edits)[i]))
  {
    ValidatedExactly(doc, edits);
    assert OfferedAs(doc, edits, i);
    EditAt(edits, i);
    AimedSlot(doc, AllEdits(edits)[i]);
  }

  /** What an edit assigns is in its slot afterwards. */
  lemma SlotHolds(py: Conversions, doc: Json, edits: Edits, i: nat)
    requires IsCase(doc) && GoodRules(Rules(doc)) && DistinctPaths(edits) && NoneInside(doc, edits)
    requires Edited(py, doc, edits).Some? && i < |AllEdits(edits)|
    ensures Aimed(doc, AllEdits(edits)[i]) && NewValue(py, doc, AllEdits(edits)[i]).Some?
    ensures Walk(Edited(py, doc, edits).value, Slot(doc, AllEdits(edits)[i])) == NewValue(py, doc, AllEdits(edits)[i])
  {
    EditsSucceed(py, doc, edits);
    EditsAreFramed(py, doc, edits, []);
  }

  /** What is assigned for a constant. */
  lemma NewConstant(py: Conversions, doc: Json, edits: Edits, i: nat)
    requires IsCase(doc) && GoodRules(Rules(doc)) && Validate(RuleEditModel(Rules(doc), 0), edits)
    requires i < |edits.constants|
    ensures Aimed(doc, AllEdits(edits)[i]) && Slot(doc, AllEdits(edits)[i]) == ConstantPlace(edits, i)
    ensures var held, now := Walk(doc, ConstantPlace(edits, i)), NewValue(py, doc, AllEdits(edits)[i]);
      && held.Some?
      && (now.None? <==> Refuses(py, held.value, edits.constants[i].1))
      && (now.Some? ==> Takes(py, held.value, edits.constants[i].1, now.value))
  {
    ConstantAimed(doc, edits, i);
    CoerceExactly(py, edits.constants[i].1, Held(doc, AllEdits(edits)[i]));
  }

  /**
   What stands where the constants stood: a boolean given for a boolean, and otherwise whether the value says true;
   the number that the value converts to; a list as given, or the split strings; nothing for an empty string over
   nothing; and anything else as given.
   */
  lemma ConstantsStored(py: Conversions, doc: Json, edits: Edits, i: nat)
    requires IsCase(doc) && GoodRules(Rules(doc)) && DistinctPaths(edits) && NoneInside(doc, edits)
    requires Edited(py, doc, edits).Some? && i < |edits.constants|
    ensures var held, now := Walk(doc, ConstantPlace(edits, i)),
        Walk(Edited(py, doc, edits).value, ConstantPlace(edits, i));
      held.Some? && now.Some? && Takes(py, held.value, edits.constants[i].1, now.value)
  {
    assert Validate(RuleEditModel(Rules(doc), 0), edits);
    NewConstant(py, doc, edits, i);
    SlotHolds(py, doc, edits, i);
  }

  /** The name given to an operator stands where its node had the name: under "function", or else under "name". */
  lemma OperatorsStored(py: Conversions, doc: Json, edits: Edits, i: nat)
    requires IsCase(doc) && GoodRules(Rules(doc)) && DistinctPaths(edits) && NoneInside(doc, edits)
    requires Edited(py, doc, edits).Some? && i < |edits.operators|
    ensures var (path, given) := edits.operators[i];
      && Walk(doc, Tokens(path)).Some? && Walk(doc, Tokens(path)).value.Obj?
      && var fields := Walk(doc, Tokens(path)).value.fields;
         var k := if Lookup(fields, "function").Some? then "function" else "name";
      Lookup(fields, k).Some? && Walk(Edited(py, doc, edits).value, Tokens(path) + [Key(k)]) == Some(given)
  {
    var n := |edits.constants| + i;
    ValidatedExactly(doc, edits);
    assert OfferedAs(doc, edits, n);
    EditAt(edits, n);
    EditsAreFramed(py, doc, edits, []);
  }

  predicate IsRefused(py: Conversions, doc: Json, edits: Edits, i: nat)
    requires i < |edits.constants|
  {
    var held := Walk(doc, ConstantPlace(edits, i));
    held.Some? && Refuses(py, held.value, edits.constants[i].1)
  }

  lemma RefusedExactly(py: Conversions, doc: Json, edits: Edits, i: nat)
    requires IsCase(doc) && GoodRules(Rules(doc)) && Validate(RuleEditModel(Rules(doc), 0), edits)
    requires i < |AllEdits(edits)|
    ensures Aimed(doc, AllEdits(edits)[i])
    ensures NewValue(py, doc, AllEdits(edits)[i]).None? <==> i < |edits.constants| && IsRefused(py, doc, edits, i)
  {
    if i < |edits.constants| {
      NewConstant(py, doc, edits, i);
    } else {
      ValidatedExactly(doc, edits);
      assert OfferedAs(doc, edits, i);
      EditAt(edits, i);
    }
  }

  /** Accepted edits fail exactly if a number cannot be made of one of the values. */
  lemma FailsExactly(py: Conversions, doc: Json, edits: Edits)
    requires IsCase(doc) && GoodRules(Rules(doc)) && DistinctPaths(edits) && NoneInside(doc, edits)
    requires Validate(RuleEditModel(Rules(doc), 0), edits)
    ensures Edited(py, doc, edits).None? <==>
      exists i :: 0 <= i < |edits.constants| && IsRefused(py, doc, edits, i)
  {
    EditsSucceed(py, doc, edits);
    forall i | 0 <= i < |AllEdits(edits)|
      ensures Aimed(doc, AllEdits(edits)[i])
      ensures NewValue(py, doc, AllEdits(edits)[i]).None? <==> i < |edits.constants| && IsRefused(py, doc, edits, i)
    {
      RefusedExactly(py, doc, edits, i);
    }
    if i :| 0 <= i < |edits.constants| && IsRefused(py, doc, edits, i) {
      assert NewValue(py, doc, AllEdits(edits)[i]).None?;
    }
  }
}
