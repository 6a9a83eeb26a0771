/**
 Which rules can have their aggregates pushed down to the database, judged from the shape of the rule alone.

 The methods compare names as the program does, stripped and in one case; what they are proved to find is stated
 over spellings of names.
 */
module ShapeAudit {
  import opened Common
  import opened Spelling
  import opened ShapeNodes

  const SUPPORTED_AGGREGATES: set<string> := {"COUNT", "COUNT_DISTINCT", "SUM", "AVG", "MIN", "MAX"}
  const SUPPORTED_FILTER_OPERATORS: set<string> :=
    {"=", "eq", "!=", "neq", ">", "gt", ">=", "gte", "<", "lt", "<=", "lte", "isinlist", "stringstartswith",
        "stringendswith"}

  /** A node with a function name spelled like this occurs somewhere, however deep. */
  ghost predicate Occurs(formula: Tree, name: string) {
    exists path: seq<Turn> :: Below(formula, path).Some? && IsNamed(Below(formula, path).value, name)
  }

  // ---- Filters ------------------------------------------------------------------------------------------------------

  datatype Reason =
    | FunctionNotSupported(found: Json)
    | OperatorNotSupported(found: Json)
    | NeedsConstantList
    | NotNeedsOneChild
    | AggregateNotSupported(found: Json)

  predicate Group(f: string) { f == "list" || f == "and" || f == "or" || f == "not" }

  /** A group of filters. */
  ghost predicate IsGroup(node: Tree) {
    IsNamed(node, "list") || IsNamed(node, "and") || IsNamed(node, "or") || IsNamed(node, "not")
  }

  /** What a node of a filter must be on its own. */
  ghost predicate FilterOk(node: Tree)
    requires node.Node?
  {
    && (IsNamed(node, "filter") || IsGroup(node))
    && (IsNamed(node, "filter") ==> OperatorOk(node))
    && (IsNamed(node, "not") ==> |node.children| == 1)
  }

  ghost predicate KnownOperator(operator: string) {
    exists name :: name in {"=", "eq", "!=", "neq", ">", "gt", ">=", "gte", "<", "lt", "<=", "lte",
        "isinlist", "stringstartswith", "stringendswith"} && Spelled(operator, name)
  }

  /** The operator is a constant name that is known, and one that looks into a list comes with a constant list. */
  ghost predicate OperatorOk(node: Tree)
    requires node.Node?
  {
    exists operator: string :: HasConstant(node, "operator", Str(operator)) && KnownOperator(operator)
      && (Spelled(operator, "isinlist") ==> exists items :: HasConstant(node, "value", Arr(items)))
  }

  lemma OperatorsAreNames(name: string)
    requires name in SUPPORTED_FILTER_OPERATORS
    ensures name != "" && Trimmed(name) && forall k :: 0 <= k < |name| ==> !('A' <= name[k] <= 'Z')
  {
  }

  lemma OperatorExactly(operator: string)
    ensures Canon(operator) in SUPPORTED_FILTER_OPERATORS <==> KnownOperator(operator)
    ensures Canon(operator) == "isinlist" <==> Spelled(operator, "isinlist")
  {
    forall name | name in SUPPORTED_FILTER_OPERATORS
      ensures Canon(operator) == name <==> Spelled(operator, name)
    {
      OperatorsAreNames(name);
      CanonExactly(operator, name);
    }
  }

  /** The objection to a node on its own. */
  function Objection(node: Tree): Option<Reason>
    requires node.Node?
  {
    var f := CanonicalFunctionName(node);
    if f != "filter" && !Group(f) then Some(FunctionNotSupported(node.name))
    else if f == "filter" then
      var op := ConstantValue(NamedValue(node, "operator"));
      if !op.Str? || Canon(op.s) !in SUPPORTED_FILTER_OPERATORS then Some(OperatorNotSupported(op))
      else if Canon(op.s) == "isinlist" && !ConstantValue(NamedValue(node, "value")).Arr? then Some(NeedsConstantList)
      else None
    else if f == "not" && |node.children| != 1 then Some(NotNeedsOneChild)
    else None
  }

  /** A group whose children are looked at. */
  predicate IsOpenGroup(node: Tree) { node.Node? && Objection(node).None? && Group(CanonicalFunctionName(node)) }

  /** Every child of a group that is looked at is a node; for any other child the source raises. */
  predicate Readable(node: Tree)
    decreases node, 1
  {
    node.Node? && (IsOpenGroup(node) ==> AllReadable(node.children))
  }

  predicate AllReadable(nodes: seq<Tree>)
    decreases nodes, 0
  {
    forall i :: 0 <= i < |nodes| ==> Readable(nodes[i])
  }

  function FilterReasons(node: Tree): seq<Reason>
    requires Readable(node)
    decreases node, 1, 0
  {
    if IsOpenGroup(node) then ReasonsOfFirst(node.children, |node.children|)
    else if Objection(node).Some? then [Objection(node).value]
    else []
  }

  /** The reasons of the first `n` nodes. */
  function ReasonsOfFirst(nodes: seq<Tree>, n: nat): seq<Reason>
    requires AllReadable(nodes) && n <= |nodes|
    decreases nodes, 0, n
  {
    if n == 0 then [] else ReasonsOfFirst(nodes, n - 1) + FilterReasons(nodes[n - 1])
  }

  method ClassifyFilterNode(node: Tree) returns (supported: bool, reasons: seq<Reason>)
    requires Readable(node)
    ensures reasons == FilterReasons(node) && (supported <==> reasons == [])
    decreases node, 1
  {
    var name := CanonicalFunctionName(node);
    if name != "filter" && !Group(name) {
      return false, [FunctionNotSupported(node.name)];
    }
    if name == "filter" {
      supported, reasons := ClassifyOperator(node);
      return;
    }
    if name == "not" {
      if |node.children| != 1 {
        return false, [NotNeedsOneChild];
      }
    }
    reasons := ClassifyEach(node.children);
    supported := |reasons| == 0;
  }

  /** The loop over the children of a group. */
  method ClassifyEach(children: seq<Tree>) returns (reasons: seq<Reason>)
    requires AllReadable(children)
    ensures reasons == ReasonsOfFirst(children, |children|)
    decreases children, 0
  {
    reasons := [];
    for i := 0 to |children|
      invariant reasons == ReasonsOfFirst(children, i)
    {
      var childSupported, childReasons := ClassifyFilterNode(children[i]);
      if !childSupported {
        reasons := reasons + childReasons;
      }
    }
  }

  /** The branch for a node that is a filter itself. */
  method ClassifyOperator(node: Tree) returns (supported: bool, reasons: seq<Reason>)
    requires node.Node? && CanonicalFunctionName(node) == "filter"
    ensures reasons == (if Objection(node).Some? then [Objection(node).value] else []) && (supported <==> reasons == [])
  {
    var operator := ConstantValue(NamedValue(node, "operator"));
    if !operator.Str? || Canon(operator.s) !in SUPPORTED_FILTER_OPERATORS {
      return false, [OperatorNotSupported(operator)];
    }
    if Canon(operator.s) == "isinlist" {
      var value := ConstantValue(NamedValue(node, "value"));
      if !value.Arr? {
        return false, [NeedsConstantList];
      }
    }
    return true, [];
  }

  /** The node reached by descending through groups only. */
  ghost function Reached(node: Tree, path: seq<nat>): (r: Option<Tree>)
    ensures r.Some? ==> r.value.Node?
    decreases |path|
  {
    if !node.Node? then None
    else if path == [] then Some(node)
    else if IsGroup(node) && path[0] < |node.children| then Reached(node.children[path[0]], path[1..])
    else None
  }

  ghost predicate AllReachedOk(node: Tree) {
    forall path: seq<nat> :: Reached(node, path).Some? ==> FilterOk(Reached(node, path).value)
  }

  lemma GroupExactly(node: Tree)
    ensures Group(CanonicalFunctionName(node)) <==> IsGroup(node)
    ensures CanonicalFunctionName(node) == "filter" <==> IsNamed(node, "filter")
    ensures CanonicalFunctionName(node) == "not" <==> IsNamed(node, "not")
  {
    NamedExactly(node, "filter");
    NamedExactly(node, "list");
    NamedExactly(node, "and");
    NamedExactly(node, "or");
    NamedExactly(node, "not");
  }

  /** The objection to an operator node, in terms of spellings. */
  lemma OperatorOkExactly(node: Tree)
    requires node.Node?
    ensures var operator := ConstantValue(NamedValue(node, "operator"));
      OperatorOk(node) <==>
        && operator.Str? && Canon(operator.s) in SUPPORTED_FILTER_OPERATORS
        && (Canon(operator.s) == "isinlist" ==> ConstantValue(NamedValue(node, "value")).Arr?)
  {
    var operator, value := ConstantValue(NamedValue(node, "operator")), ConstantValue(NamedValue(node, "value"));
    ConstantIs(node, "operator");
    ConstantIs(node, "value");
    if operator.Str? {
      OperatorExactly(operator.s);
    }
  }

  /** A constant other than null is what the entry holds, and nothing else is. */
  lemma ConstantIs(node: Tree, key: string)
    requires node.Node?
    ensures forall v: Json :: !v.Null? ==> (HasConstant(node, key, v) <==> ConstantValue(NamedValue(node, key)) == v)
  {
    forall v: Json | !v.Null?
      ensures HasConstant(node, key, v) <==> ConstantValue(NamedValue(node, key)) == v
    {
      ConstantExactly(node, key, v);
    }
  }

  lemma ObjectionExactly(node: Tree)
    requires node.Node?
    ensures Objection(node).None? <==> FilterOk(node)
  {
    GroupExactly(node);
    OperatorOkExactly(node);
  }

  /** No reasons means that every node reached through the groups is as it must be: soundness. */
  lemma {:induction false} NoReasonsMeansOk(node: Tree, path: seq<nat>)
    requires Readable(node) && FilterReasons(node) == [] && Reached(node, path).Some?
    ensures FilterOk(Reached(node, path).value)
    decreases |path|
  {
    ObjectionExactly(node);
    GroupExactly(node);
    if path != [] {
      NoneOfFirst(node.children, |node.children|, path[0]);
      NoReasonsMeansOk(node.children[path[0]], path[1..]);
    }
  }

  lemma {:induction false} NoneOfFirst(nodes: seq<Tree>, n: nat, i: nat)
    requires AllReadable(nodes) && i < n <= |nodes| && ReasonsOfFirst(nodes, n) == []
    ensures FilterReasons(nodes[i]) == []
    decreases n
  {
    var last := FilterReasons(nodes[n - 1]);
    var earlier := ReasonsOfFirst(nodes, n - 1);
    EmptyConcat(earlier, last);
    if i == n - 1 {
      assert last == [];
    } else {
      assert earlier == [];
      NoneOfFirst(nodes, n - 1, i);
    }
  }

  lemma EmptyConcat(a: seq<Reason>, b: seq<Reason>)
    ensures a + b == [] <==> a == [] && b == []
  {
    assert |a + b| == |a| + |b|;
  }

  ghost predicate Objectionable(node: Tree, path: seq<nat>) {
    Reached(node, path).Some? && !FilterOk(Reached(node, path).value)
  }

  lemma ReachedThrough(node: Tree, i: nat, rest: seq<nat>)
    requires node.Node? && IsGroup(node) && i < |node.children|
    ensures Objectionable(node, [i] + rest) <==> Objectionable(node.children[i], rest)
  {
    assert ([i] + rest)[1..] == rest;
  }

  lemma {:induction false} SomeOfFirst(nodes: seq<Tree>, n: nat) returns (i: nat)
    requires AllReadable(nodes) && n <= |nodes| && ReasonsOfFirst(nodes, n) != []
    ensures i < n && FilterReasons(nodes[i]) != []
    decreases n
  {
    i := n - 1;
    if FilterReasons(nodes[i]) == [] {
      EmptyConcat(ReasonsOfFirst(nodes, n - 1), FilterReasons(nodes[n - 1]));
      i := SomeOfFirst(nodes, n - 1);
    }
  }

  /** And every reason comes from such a node that is not as it must be: completeness. */
  lemma {:induction false} ReasonsMeanNotOk(node: Tree) returns (path: seq<nat>)
    requires Readable(node) && FilterReasons(node) != []
    ensures Objectionable(node, path)
    decreases node
  {
    ObjectionExactly(node);
    GroupExactly(node);
    if IsOpenGroup(node) {
      var i := SomeOfFirst(node.children, |node.children|);
      var rest := ReasonsMeanNotOk(node.children[i]);
      ReachedThrough(node, i, rest);
      path := [i] + rest;
    } else {
      path := [];
    }
  }

  /** A filter is supported exactly when every node reached through and, or, not and list is as it must be. */
  lemma FilterSupportedExactly(node: Tree)
    requires Readable(node)
    ensures FilterReasons(node) == [] <==> AllReachedOk(node)
  {
    if FilterReasons(node) == [] {
      forall path: seq<nat> | Reached(node, path).Some?
        ensures FilterOk(Reached(node, path).value)
      {
        NoReasonsMeansOk(node, path);
      }
    } else {
      var path := ReasonsMeanNotOk(node);
    }
  }

  // ---- Aggregators and rules ------------------------------------------------------------------------------

  predicate AggregateKnown(node: Tree)
    requires node.Node?
  {
    var name := ConstantValue(NamedValue(node, "aggregator"));
    name.Str? && Upper(Strip(name.s)) in SUPPORTED_AGGREGATES
  }

  ghost predicate KnownAggregate(aggregate: string) {
    exists name :: name in {"COUNT", "COUNT_DISTINCT", "SUM", "AVG", "MIN", "MAX"} && Spelled(aggregate, name)
  }

  /** The aggregate is a constant name of one of the six. */
  ghost predicate AggregateOk(node: Tree)
    requires node.Node?
  {
    exists aggregate: string :: HasConstant(node, "aggregator", Str(aggregate)) && KnownAggregate(aggregate)
  }

  lemma AggregatesAreNames(name: string)
    requires name in SUPPORTED_AGGREGATES
    ensures Trimmed(name) && forall k :: 0 <= k < |name| ==> !('a' <= name[k] <= 'z')
  {
  }

  lemma AggregateExactly(node: Tree)
    requires node.Node?
    ensures AggregateKnown(node) <==> AggregateOk(node)
  {
    var aggregate := ConstantValue(NamedValue(node, "aggregator"));
    ConstantIs(node, "aggregator");
    if aggregate.Str? {
      forall name | name in SUPPORTED_AGGREGATES
        ensures Upper(Strip(aggregate.s)) == name <==> Spelled(aggregate.s, name)
      {
        AggregatesAreNames(name);
        CapitalsExactly(aggregate.s, name);
      }
    }
  }

  /** The filters of a supported aggregate are readable; nothing else is looked at. */
  predicate AggregatorReadable(node: Tree)
    requires node.Node?
  {
    AggregateKnown(node) && NamedValue(node, "filters").Node? ==> Readable(NamedValue(node, "filters"))
  }

  function AggregatorReasons(node: Tree): seq<Reason>
    requires node.Node? && AggregatorReadable(node)
  {
    if !AggregateKnown(node) then [AggregateNotSupported(ConstantValue(NamedValue(node, "aggregator")))]
    else if !NamedValue(node, "filters").Node? then []
    else FilterReasons(NamedValue(node, "filters"))
  }

  /** The aggregate is one of the six, and its filters, if it has any, are as they must be. */
  ghost predicate AggregatorOk(node: Tree)
    requires node.Node?
  {
    AggregateOk(node) && forall filters: Tree :: filters.Node? && HasEntry(node, "filters", filters) ==>
      AllReachedOk(filters)
  }

  lemma AggregatorSupportedExactly(node: Tree)
    requires node.Node? && AggregatorReadable(node)
    ensures AggregatorReasons(node) == [] <==> AggregatorOk(node)
  {
    var filters := NamedValue(node, "filters");
    AggregateExactly(node);
    if AggregateOk(node) && filters.Node? {
      FilterSupportedExactly(filters);
    }
    forall child: Tree | child.Node?
      ensures HasEntry(node, "filters", child) <==> filters == child
    {
      EntryExactly(node, "filters", child);
    }
  }

  datatype Category =
    | BroadListReadHelper
    | AggregatePushdownSupported
    | AggregatePushdownUnsupported
    | ExplicitRecordLookup
    | NoBroadReadHelper

  datatype Classification = Classification(
    category: Category, functions: set<string>,
    usesAggregator: bool, usesRelatedCount: bool, usesRelatedRecords: bool, usesRelatedField: bool,
    pushdown: Option<bool>, reasons: set<Reason>)

  method ClassifyAggregatorNode(node: Tree) returns (supported: bool, reasons: seq<Reason>)
    requires node.Node? && AggregatorReadable(node)
    ensures reasons == AggregatorReasons(node) && (supported <==> reasons == [])
  {
    var name := ConstantValue(NamedValue(node, "aggregator"));
    if !name.Str? || Upper(Strip(name.s)) !in SUPPORTED_AGGREGATES {
      return false, [AggregateNotSupported(name)];
    }
    var filters := NamedValue(node, "filters");
    if !filters.Node? {
      return true, [];
    }
    supported, reasons := ClassifyFilterNode(filters);
  }

  /** The function name of a node as it is written, if it has one. */
  predicate HasFunction(node: Tree) { node.Node? && node.name.Str? && node.name.s != "" }

  /** All function names as written. */
  function FunctionNames(nodes: seq<Tree>): (names: set<string>)
    ensures forall name :: name in names <==>
        exists i :: 0 <= i < |nodes| && HasFunction(nodes[i]) && nodes[i].name.s == name
  {
    set i | 0 <= i < |nodes| && HasFunction(nodes[i]) :: nodes[i].name.s
  }

  predicate Uses(functions: set<string>, name: string) { exists f :: f in functions && Canon(f) == name }

  lemma UsesWhatOccurs(formula: Tree, name: string)
    requires name != "" && Trimmed(name) && forall k :: 0 <= k < |name| ==> !('A' <= name[k] <= 'Z')
    ensures Uses(FunctionNames(Walk(formula)), name) <==> Occurs(formula, name)
  {
    var nodes := Walk(formula);
    if Uses(FunctionNames(nodes), name) {
      var f :| f in FunctionNames(nodes) && Canon(f) == name;
      var i :| 0 <= i < |nodes| && HasFunction(nodes[i]) && nodes[i].name.s == f;
      var path := WalkFindsOnly(formula, nodes[i]);
      NamedExactly(nodes[i], name);
      assert IsNamed(Below(formula, path).value, name);
    }
    if Occurs(formula, name) {
      var path: seq<Turn> :| Below(formula, path).Some? && IsNamed(Below(formula, path).value, name);
      var n := Below(formula, path).value;
      WalkFindsAll(formula, path);
      NamedExactly(n, name);
      assert n.name.s != "" by {
        assert Canon("") == "";
      }
      assert HasFunction(n) && n.name.s in FunctionNames(nodes);
    }
  }

  /** The helpers that are looked for are used exactly if they occur. */
  lemma HelpersExactly(formula: Tree)
    ensures var functions := FunctionNames(Walk(formula));
      && (Uses(functions, "aggregator") <==> Occurs(formula, "aggregator"))
      && (Uses(functions, "related_count") <==> Occurs(formula, "related_count"))
      && (Uses(functions, "related_records") <==> Occurs(formula, "related_records"))
      && (Uses(functions, "related_field") <==> Occurs(formula, "related_field"))
      && (Uses(functions, "database_access") <==> Occurs(formula, "database_access"))
  {
    UsesWhatOccurs(formula, "aggregator");
    UsesWhatOccurs(formula, "related_count");
    UsesWhatOccurs(formula, "related_records");
    UsesWhatOccurs(formula, "related_field");
    UsesWhatOccurs(formula, "database_access");
  }

  /** Every aggregator anywhere in the formula is as it must be. */
  ghost predicate AggregatorsOk(formula: Tree) {
    forall path: seq<Turn> :: AggregatorAt(formula, path) ==> AggregatorOk(Below(formula, path).value)
  }

  ghost predicate AggregatorAt(formula: Tree, path: seq<Turn>) {
    Below(formula, path).Some? && IsNamed(Below(formula, path).value, "aggregator")
  }

  /** No filter of an aggregator makes the source raise. */
  ghost predicate FormulaReadable(formula: Tree) {
    forall path: seq<Turn> :: AggregatorAt(formula, path) ==> AggregatorReadable(Below(formula, path).value)
  }

  predicate IsAggregator(node: Tree) { node.Node? && CanonicalFunctionName(node) == "aggregator" }

  predicate AggregatorsReadable(nodes: seq<Tree>) {
    forall i :: 0 <= i < |nodes| ==> nodes[i].Node? && (IsAggregator(nodes[i]) ==> AggregatorReadable(nodes[i]))
  }

  predicate NoAggregatorReasons(nodes: seq<Tree>)
    requires AggregatorsReadable(nodes)
  {
    forall i :: 0 <= i < |nodes| && IsAggregator(nodes[i]) ==> AggregatorReasons(nodes[i]) == []
  }

  lemma WalkedAreReadable(formula: Tree)
    requires FormulaReadable(formula)
    ensures AggregatorsReadable(Walk(formula))
  {
    var nodes := Walk(formula);
    forall i | 0 <= i < |nodes|
      ensures nodes[i].Node? && (IsAggregator(nodes[i]) ==> AggregatorReadable(nodes[i]))
    {
      var path := WalkFindsOnly(formula, nodes[i]);
      NamedExactly(nodes[i], "aggregator");
      assert IsAggregator(nodes[i]) ==> AggregatorAt(formula, path);
    }
  }

  lemma AggregatorNamed(node: Tree)
    requires node.Node? && (IsAggregator(node) ==> AggregatorReadable(node))
    ensures IsAggregator(node) <==> IsNamed(node, "aggregator")
    ensures IsAggregator(node) ==> (AggregatorReasons(node) == [] <==> AggregatorOk(node))
  {
    NamedExactly(node, "aggregator");
    if IsAggregator(node) {
      AggregatorSupportedExactly(node);
    }
  }

  lemma NoReasonsAllOk(formula: Tree, path: seq<Turn>)
    requires AggregatorsReadable(Walk(formula)) && NoAggregatorReasons(Walk(formula)) && AggregatorAt(formula, path)
    ensures AggregatorOk(Below(formula, path).value)
  {
    var nodes := Walk(formula);
    WalkFindsAll(formula, path);
    var i :| 0 <= i < |nodes| && nodes[i] == Below(formula, path).value;
    AggregatorNamed(nodes[i]);
  }

  lemma AggregatorsOkExactly(formula: Tree)
    requires AggregatorsReadable(Walk(formula))
    ensures NoAggregatorReasons(Walk(formula)) <==> AggregatorsOk(formula)
  {
    var nodes := Walk(formula);
    if NoAggregatorReasons(nodes) {
      forall path: seq<Turn> | AggregatorAt(formula, path)
        ensures AggregatorOk(Below(formula, path).value)
      {
        NoReasonsAllOk(formula, path);
      }
    }
    if AggregatorsOk(formula) {
      forall i | 0 <= i < |nodes| && IsAggregator(nodes[i])
        ensures AggregatorReasons(nodes[i]) == []
      {
        var path := WalkFindsOnly(formula, nodes[i]);
        AggregatorNamed(nodes[i]);
        assert AggregatorAt(formula, path);
      }
    }
  }

  /** The category in terms of what occurs in the formula. */
  ghost function CategoryOf(formula: Tree): Category {
    if Occurs(formula, "related_count") || Occurs(formula, "related_records") then BroadListReadHelper
    else if Occurs(formula, "aggregator") then
        (if AggregatorsOk(formula) then AggregatePushdownSupported else AggregatePushdownUnsupported)
    else if Occurs(formula, "related_field") || Occurs(formula, "database_access") then ExplicitRecordLookup
    else NoBroadReadHelper
  }

  function AsSet(rs: seq<Reason>): (r: set<Reason>)
    ensures r == {} <==> rs == []
  {
    var r := set x | x in rs;
    assert rs != [] ==> rs[|rs| - 1] in r;
    r
  }

  /** The reasons that a node gives, which are those of an aggregator. */
  function OwnReasons(node: Tree): set<Reason>
    requires node.Node? && (IsAggregator(node) ==> AggregatorReadable(node))
  {
    if IsAggregator(node) then AsSet(AggregatorReasons(node)) else {}
  }

  function OwnOfAll(nodes: seq<Tree>): (r: seq<set<Reason>>)
    requires AggregatorsReadable(nodes)
    ensures |r| == |nodes| && forall i :: 0 <= i < |nodes| ==> r[i] == OwnReasons(nodes[i])
  {
    seq(|nodes|, i requires 0 <= i < |nodes| => OwnReasons(nodes[i]))
  }

  function Union(sets: seq<set<Reason>>): set<Reason> {
    if sets == [] then {} else Union(sets[..|sets| - 1]) + sets[|sets| - 1]
  }

  lemma UnionExtends(sets: seq<set<Reason>>, i: nat)
    requires i < |sets|
    ensures Union(sets[..i + 1]) == Union(sets[..i]) + sets[i]
  {
    assert sets[..i + 1][..i] == sets[..i];
  }

  lemma {:induction false} EmptyUnion(sets: seq<set<Reason>>)
    ensures Union(sets) == {} <==> forall i :: 0 <= i < |sets| ==> sets[i] == {}
  {
    if sets != [] {
      EmptyUnion(sets[..|sets| - 1]);
      assert Union(sets[..|sets| - 1]) <= Union(sets) && sets[|sets| - 1] <= Union(sets);
    }
  }

  lemma NoReasonsExactly(nodes: seq<Tree>)
    requires AggregatorsReadable(nodes)
    ensures Union(OwnOfAll(nodes)) == {} <==> NoAggregatorReasons(nodes)
  {
    EmptyUnion(OwnOfAll(nodes));
    assert forall i :: 0 <= i < |nodes| ==> OwnOfAll(nodes)[i] == OwnReasons(nodes[i]);
    assert forall i :: 0 <= i < |nodes| && IsAggregator(nodes[i]) ==>
        (OwnReasons(nodes[i]) == {} <==> AggregatorReasons(nodes[i]) == []);
  }

  method ClassifyIfAggregator(node: Tree) returns (supported: bool, reasons: set<Reason>)
    requires node.Node? && (IsAggregator(node) ==> AggregatorReadable(node))
    ensures reasons == OwnReasons(node) && (supported <==> reasons == {})
  {
    if !IsAggregator(node) {
      return true, {};
    }
    var more;
    supported, more := ClassifyAggregatorNode(node);
    reasons := AsSet(more);
  }

  /** Looks at all aggregators among the walked nodes. */
  method ClassifyAggregators(nodes: seq<Tree>) returns (supported: bool, reasons: set<Reason>)
    requires AggregatorsReadable(nodes)
    ensures supported <==> NoAggregatorReasons(nodes)
    ensures supported <==> reasons == {}
    ensures reasons == Union(OwnOfAll(nodes))
  {
    supported, reasons := true, {};
    ghost var own := OwnOfAll(nodes);
    for i := 0 to |nodes|
      invariant reasons == Union(own[..i]) && (supported <==> reasons == {})
    {
      var ok, more := ClassifyIfAggregator(nodes[i]);
      UnionExtends(own, i);
      if !ok {
        supported := false;
      }
      reasons := reasons + more;
    }
    assert own[..|nodes|] == own;
    NoReasonsExactly(nodes);
  }

  /** The reasons that the aggregators of the rule give. */
  function RuleReasons(formula: Tree): set<Reason>
    requires FormulaReadable(formula)
  {
    WalkedAreReadable(formula);
    Union(OwnOfAll(Walk(formula)))
  }

  method ClassifyRule(formula: Tree) returns (c: Classification)
    requires FormulaReadable(formula)
    ensures c.category == CategoryOf(formula)
    ensures c.usesAggregator == Occurs(formula, "aggregator") && c.usesRelatedField == Occurs(formula, "related_field")
    ensures c.usesRelatedCount == Occurs(formula, "related_count")
        && c.usesRelatedRecords == Occurs(formula, "related_records")
    ensures c.pushdown == if Occurs(formula, "aggregator") then Some(AggregatorsOk(formula)) else None
    ensures c.reasons == {} <==> c.pushdown != Some(false)
    ensures c.reasons == if Occurs(formula, "aggregator") then RuleReasons(formula) else {}
    ensures c.functions == FunctionNames(Walk(formula))
  {
    var nodes := WalkNodes(formula);
    WalkedAreReadable(formula);
    AggregatorsOkExactly(formula);
    var functions := FunctionNames(nodes);
    HelpersExactly(formula);
    var usesAggregator := Uses(functions, "aggregator");
    var usesRelatedCount := Uses(functions, "related_count");
    var usesRelatedRecords := Uses(functions, "related_records");
    var usesRelatedField := Uses(functions, "related_field");
    var pushdown: Option<bool> := None;
    var reasons: set<Reason> := {};
    if usesAggregator {
      var supported: bool;
      supported, reasons := ClassifyAggregators(nodes);
      pushdown := Some(supported);
    }
    var category :=
      if usesRelatedCount || usesRelatedRecords then BroadListReadHelper
      else if usesAggregator && pushdown == Some(true) then AggregatePushdownSupported
      else if usesAggregator then AggregatePushdownUnsupported
      else if usesRelatedField || Uses(functions, "database_access") then ExplicitRecordLookup
      else NoBroadReadHelper;
    c := Classification(category, functions, usesAggregator, usesRelatedCount, usesRelatedRecords, usesRelatedField,
        pushdown, reasons);
  }
}
