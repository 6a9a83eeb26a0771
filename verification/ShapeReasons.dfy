/** Which reasons the audit gives for a rule, and for which rules it raises, in terms of the shape alone. */
module ShapeReasons {
  import opened Common
  import opened Spelling
  import opened ShapeNodes
  import opened ShapeAudit

  // ---- One node of a filter ------------------------------------------------------------------------------------

  /** What is reported as found under a key: a constant, or null if there is none. */
  ghost predicate Reads(node: Tree, key: string, v: Json)
    requires node.Node?
  {
    if v.Null? then forall w: Json :: HasConstant(node, key, w) ==> w.Null? else HasConstant(node, key, v)
  }

  /** The reason that a node of a filter gives on its own. */
  ghost predicate Objects(node: Tree, r: Reason)
    requires node.Node?
  {
    match r
    case FunctionNotSupported(found) =>
      && found == node.name && !IsNamed(node, "filter")
      && !IsNamed(node, "list") && !IsNamed(node, "and") && !IsNamed(node, "or") && !IsNamed(node, "not")
    case OperatorNotSupported(found) =>
      IsNamed(node, "filter") && Reads(node, "operator", found) && !(found.Str? && KnownOperator(found.s))
    case NeedsConstantList =>
      && IsNamed(node, "filter") && (forall items :: !HasConstant(node, "value", Arr(items)))
      && exists operator :: HasConstant(node, "operator", Str(operator)) && Spelled(operator, "isinlist")
    case NotNeedsOneChild => IsNamed(node, "not") && |node.children| != 1
    case AggregateNotSupported(_) => false
  }

  lemma ReadsExactly(node: Tree, key: string, v: Json)
    requires node.Node?
    ensures ConstantValue(NamedValue(node, key)) == v <==> Reads(node, key, v)
  {
    ConstantIs(node, key);
  }

  /** A node has at most one of the names that a filter may have. */
  lemma OneName(node: Tree)
    requires node.Node?
    ensures IsNamed(node, "filter") ==> !IsGroup(node)
  {
    GroupExactly(node);
  }

  lemma OperatorObjects(node: Tree, r: Reason)
    requires node.Node? && IsNamed(node, "filter")
    ensures Objection(node) == Some(r) <==> Objects(node, r)
  {
    OneName(node);
    GroupExactly(node);
    ConstantIs(node, "value");
    ConstantIs(node, "operator");
    var operator := ConstantValue(NamedValue(node, "operator"));
    if operator.Str? {
      OperatorExactly(operator.s);
    }
    if r.OperatorNotSupported? {
      ReadsExactly(node, "operator", r.found);
    }
    assert Spelling.Spelled(if operator.Str? then operator.s else "", "isinlist") ==>
      KnownOperator(if operator.Str? then operator.s else "");
  }

  lemma ObjectsExactly(node: Tree, r: Reason)
    requires node.Node?
    ensures Objection(node) == Some(r) <==> Objects(node, r)
  {
    GroupExactly(node);
    if IsNamed(node, "filter") {
      OperatorObjects(node, r);
    }
  }

  // ---- Below a filter ------------------------------------------------------------------------------------------

  /** A group whose children are looked at. */
  ghost predicate Descends(node: Tree) { IsGroup(node) && (IsNamed(node, "not") ==> |node.children| == 1) }

  lemma DescendsExactly(node: Tree)
    ensures IsOpenGroup(node) <==> Descends(node)
  {
    GroupExactly(node);
    if node.Node? {
      OneName(node);
    }
  }

  /** The reason comes from the node at the end of this way through groups. */
  ghost predicate Blamed(node: Tree, path: seq<nat>, r: Reason)
    requires node.Node?
    decreases |path|
  {
    if path == [] then Objects(node, r)
    else
      && Descends(node) && path[0] < |node.children| && node.children[path[0]].Node?
      && Blamed(node.children[path[0]], path[1..], r)
  }

  lemma InConcat(a: seq<Reason>, b: seq<Reason>, r: Reason)
    ensures r in a + b <==> r in a || r in b
  {
  }

  lemma {:induction false} ReasonOfFirst(nodes: seq<Tree>, n: nat, r: Reason) returns (i: nat)
    requires AllReadable(nodes) && n <= |nodes| && r in ReasonsOfFirst(nodes, n)
    ensures i < n && r in FilterReasons(nodes[i])
    decreases n
  {
    i := n - 1;
    InConcat(ReasonsOfFirst(nodes, n - 1), FilterReasons(nodes[i]), r);
    if r !in FilterReasons(nodes[i]) {
      i := ReasonOfFirst(nodes, n - 1, r);
    }
  }

  lemma {:induction false} ReasonAmongFirst(nodes: seq<Tree>, n: nat, i: nat, r: Reason)
    requires AllReadable(nodes) && i < n <= |nodes| && r in FilterReasons(nodes[i])
    ensures r in ReasonsOfFirst(nodes, n)
    decreases n
  {
    InConcat(ReasonsOfFirst(nodes, n - 1), FilterReasons(nodes[n - 1]), r);
    if i < n - 1 {
      ReasonAmongFirst(nodes, n - 1, i, r);
    }
  }

  lemma {:induction false} BlameOfReason(node: Tree, r: Reason) returns (path: seq<nat>)
    requires Readable(node) && r in FilterReasons(node)
    ensures Blamed(node, path, r)
    decreases node
  {
    DescendsExactly(node);
    ObjectsExactly(node, r);
    path := [];
    if IsOpenGroup(node) {
      var i := ReasonOfFirst(node.children, |node.children|, r);
      var rest := BlameOfReason(node.children[i], r);
      path := [i] + rest;
      assert path[1..] == rest;
    }
  }

  lemma {:induction false} ReasonOfBlame(node: Tree, path: seq<nat>, r: Reason)
    requires Readable(node) && Blamed(node, path, r)
    ensures r in FilterReasons(node)
    decreases |path|
  {
    DescendsExactly(node);
    ObjectsExactly(node, r);
    if path != [] {
      ReasonOfBlame(node.children[path[0]], path[1..], r);
      ReasonAmongFirst(node.children, |node.children|, path[0], r);
    }
  }

  /** Some node reached through groups gives the reason. */
  ghost predicate SomeBlamed(node: Tree, r: Reason)
    requires node.Node?
  {
    exists path: seq<nat> :: Blamed(node, path, r)
  }

  /** The reasons given for a filter are exactly those that nodes reached through groups give on their own. */
  lemma ReasonsExactly(node: Tree, r: Reason)
    requires Readable(node)
    ensures r in FilterReasons(node) <==> SomeBlamed(node, r)
  {
    if r in FilterReasons(node) {
      var path := BlameOfReason(node, r);
    }
    if SomeBlamed(node, r) {
      var path: seq<nat> :| Blamed(node, path, r);
      ReasonOfBlame(node, path, r);
    }
  }

  /** Something that is no node stands at the end of this way through groups. */
  ghost predicate Raises(node: Tree, path: seq<nat>)
    decreases |path|
  {
    if path == [] then !node.Node?
    else Descends(node) && path[0] < |node.children| && Raises(node.children[path[0]], path[1..])
  }

  lemma {:induction false} RaisedBelow(node: Tree) returns (path: seq<nat>)
    requires !Readable(node)
    ensures Raises(node, path)
    decreases node
  {
    DescendsExactly(node);
    path := [];
    if node.Node? {
      var i :| 0 <= i < |node.children| && !Readable(node.children[i]);
      var rest := RaisedBelow(node.children[i]);
      path := [i] + rest;
      assert path[1..] == rest;
    }
  }

  lemma {:induction false} ReadableIsSafe(node: Tree, path: seq<nat>)
    requires Readable(node)
    ensures !Raises(node, path)
    decreases |path|
  {
    DescendsExactly(node);
    if path != [] && Descends(node) && path[0] < |node.children| {
      ReadableIsSafe(node.children[path[0]], path[1..]);
    }
  }

  ghost predicate NeverRaises(node: Tree) { forall path: seq<nat> :: !Raises(node, path) }

  /** The audit of a filter raises exactly if such a value is reached. */
  lemma ReadableExactly(node: Tree)
    ensures Readable(node) <==> NeverRaises(node)
  {
    if Readable(node) {
      forall path: seq<nat>
        ensures !Raises(node, path)
      {
        ReadableIsSafe(node, path);
      }
    } else {
      var path := RaisedBelow(node);
    }
  }

  // ---- Rules -----------------------------------------------------------------------------------------------------

  /** The reason is one for the aggregator: its aggregate is not known, or a node of its filters gives it. */
  ghost predicate AggregatorBlamed(node: Tree, r: Reason)
    requires node.Node?
  {
    if !AggregateOk(node) then r.AggregateNotSupported? && Reads(node, "aggregator", r.found)
    else exists filters: Tree :: filters.Node? && HasEntry(node, "filters", filters) && SomeBlamed(filters, r)
  }

  lemma FiltersExactly(node: Tree)
    requires node.Node?
    ensures forall child: Tree :: child.Node? ==>
      (HasEntry(node, "filters", child) <==> NamedValue(node, "filters") == child)
  {
    forall child: Tree | child.Node?
      ensures HasEntry(node, "filters", child) <==> NamedValue(node, "filters") == child
    {
      EntryExactly(node, "filters", child);
    }
  }

  lemma AggregatorReasonsExactly(node: Tree, r: Reason)
    requires node.Node? && AggregatorReadable(node)
    ensures r in AggregatorReasons(node) <==> AggregatorBlamed(node, r)
  {
    AggregateExactly(node);
    if !AggregateOk(node) {
      if r.AggregateNotSupported? {
        ReadsExactly(node, "aggregator", r.found);
      }
    } else {
      FiltersExactly(node);
      var filters := NamedValue(node, "filters");
      if filters.Node? {
        ReasonsExactly(filters, r);
      }
    }
  }

  /** The reason is one for some aggregator of the rule. */
  ghost predicate RuleBlamed(formula: Tree, r: Reason) {
    exists path: seq<Turn> :: AggregatorAt(formula, path) && AggregatorBlamed(Below(formula, path).value, r)
  }

  lemma {:induction false} InUnion(sets: seq<set<Reason>>, r: Reason)
    ensures r in Union(sets) <==> exists i :: 0 <= i < |sets| && r in sets[i]
  {
    if sets != [] {
      InUnion(sets[..|sets| - 1], r);
      var before := sets[..|sets| - 1];
      assert forall i :: 0 <= i < |before| ==> before[i] == sets[i];
      assert (exists i :: 0 <= i < |sets| && r in sets[i]) <==>
        (exists i :: 0 <= i < |before| && r in before[i]) || r in sets[|sets| - 1];
    }
  }

  lemma OwnReasonsExactly(node: Tree, r: Reason)
    requires node.Node? && (IsAggregator(node) ==> AggregatorReadable(node))
    ensures r in OwnReasons(node) <==> IsNamed(node, "aggregator") && AggregatorBlamed(node, r)
  {
    NamedExactly(node, "aggregator");
    if IsAggregator(node) {
      AggregatorReasonsExactly(node, r);
    }
  }

  lemma ReasonIsBlamed(formula: Tree, i: nat, r: Reason)
    requires AggregatorsReadable(Walk(formula)) && i < |Walk(formula)| && r in OwnReasons(Walk(formula)[i])
    ensures RuleBlamed(formula, r)
  {
    var node := Walk(formula)[i];
    OwnReasonsExactly(node, r);
    var path := WalkFindsOnly(formula, node);
    assert AggregatorAt(formula, path);
  }

  lemma BlamedIsReason(formula: Tree, path: seq<Turn>, r: Reason) returns (i: nat)
    requires AggregatorsReadable(Walk(formula))
    requires AggregatorAt(formula, path) && AggregatorBlamed(Below(formula, path).value, r)
    ensures i < |Walk(formula)| && r in OwnReasons(Walk(formula)[i])
  {
    var nodes := Walk(formula);
    WalkFindsAll(formula, path);
    i :| 0 <= i < |nodes| && nodes[i] == Below(formula, path).value;
    OwnReasonsExactly(nodes[i], r);
  }

  /** The reasons given for a rule are exactly those of its aggregators, wherever they are. */
  lemma RuleReasonsExactly(formula: Tree, r: Reason)
    requires FormulaReadable(formula)
    ensures r in RuleReasons(formula) <==> RuleBlamed(formula, r)
  {
    WalkedAreReadable(formula);
    var own := OwnOfAll(Walk(formula));
    InUnion(own, r);
    if r in RuleReasons(formula) {
      var i :| 0 <= i < |own| && r in own[i];
      ReasonIsBlamed(formula, i, r);
    }
    if RuleBlamed(formula, r) {
      var path: seq<Turn> :| AggregatorAt(formula, path) && AggregatorBlamed(Below(formula, path).value, r);
      var i := BlamedIsReason(formula, path, r);
      assert r in own[i];
    }
  }

  /** The audit of a rule raises exactly if the filters of a known aggregate do. */
  lemma FormulaReadableExactly(formula: Tree)
    ensures FormulaReadable(formula) <==>
      forall path: seq<Turn> :: AggregatorAt(formula, path) ==> FiltersReadable(Below(formula, path).value)
  {
    forall path: seq<Turn> | AggregatorAt(formula, path)
      ensures AggregatorReadable(Below(formula, path).value) <==> FiltersReadable(Below(formula, path).value)
    {
      FiltersReadableExactly(Below(formula, path).value);
    }
  }

  ghost predicate FiltersReadable(node: Tree)
    requires node.Node?
  {
    AggregateOk(node) ==> forall filters: Tree :: filters.Node? && HasEntry(node, "filters", filters) ==>
      NeverRaises(filters)
  }

  lemma FiltersReadableExactly(node: Tree)
    requires node.Node?
    ensures AggregatorReadable(node) <==> FiltersReadable(node)
  {
    AggregateExactly(node);
    FiltersExactly(node);
    ReadableExactly(NamedValue(node, "filters"));
  }

  /** The functions listed for a rule are the names that its nodes have, as they are written. */
  lemma FunctionsExactly(formula: Tree, name: string)
    ensures name in FunctionNames(Walk(formula)) <==> name != "" && WrittenSomewhere(formula, name)
  {
    var nodes := Walk(formula);
    if name in FunctionNames(nodes) {
      var i :| 0 <= i < |nodes| && HasFunction(nodes[i]) && nodes[i].name.s == name;
      var path := WalkFindsOnly(formula, nodes[i]);
      assert WrittenAt(formula, path, name);
    }
    if name != "" && WrittenSomewhere(formula, name) {
      var path: seq<Turn> :| WrittenAt(formula, path, name);
      WalkFindsAll(formula, path);
    }
  }

  predicate WrittenAt(formula: Tree, path: seq<Turn>, name: string) {
    var n := Below(formula, path);
    n.Some? && n.value.Node? && n.value.name == Str(name)
  }

  ghost predicate WrittenSomewhere(formula: Tree, name: string) {
    exists path: seq<Turn> :: WrittenAt(formula, path, name)
  }
}
