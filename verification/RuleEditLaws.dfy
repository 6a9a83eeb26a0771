/**
 Laws of the rule edit engine: what may be edited, what validated edits do, and when the edited case
 offers the same again.
 */
module RuleEditLaws {
  import opened Common
  import opened RulePaths
  import opened RuleEdits
  import opened RuleEditBatches

  /** A value that holds no node of its own: no object, and no list with objects in it. */
  predicate Plain(v: Json) { !v.Obj? && (v.Arr? ==> forall i :: 0 <= i < |v.items| ==> !v.items[i].Obj?) }

  /** Nothing is listed below the value in a node with these fields. */
  predicate Hides(fields: seq<Field>, v: Json) { IsFieldRef(FunctionOf(fields)) || Plain(v) }

  /** Which operators a node may have, and whether nothing below it is listed. */
  function Kind(fields: seq<Field>): (Option<set<string>>, bool) {
    (OperatorGroup(FunctionOf(fields)), IsFieldRef(FunctionOf(fields)))
  }

  predicate Editable(fields: seq<Field>) {
    Lookup(fields, "constant").Some? && EditableConstant(Lookup(fields, "constant").value)
  }

  // ---- Places under an assignment ---------------------------------------------------------------------------

  lemma {:induction false} EmitsSolid(node: Json, segs: seq<Seg>)
    requires Emits(node, segs)
    ensures Solid(node, segs) && Walk(node, segs).Some? && Walk(node, segs).value.Obj?
    decreases |segs|
  {
    if segs != [] {
      var v := Lookup(node.fields, segs[0].key).value;
      match v
      case Obj(_) => EmitsSolid(v, segs[1..]);
      case Arr(items) =>
        EmitsSolid(items[segs[1].i], segs[2..]);
        assert segs[1..][1..] == segs[2..];
        assert Walk(v, segs[1..]) == Walk(items[segs[1].i], segs[2..]);
    }
  }

  /** A listed place inside a slot: the node there is looked into, and the slot holds an object or a list of them. */
  lemma {:induction false} EmitsThrough(node: Json, segs: seq<Seg>, k: string, inner: seq<Seg>)
    requires Emits(node, segs) && Emits(node, inner) && segs + [Key(k)] <= inner
    ensures Walk(node, segs).Some? && Walk(node, segs).value.Obj?
    ensures var fields := Walk(node, segs).value.fields;
      && Lookup(fields, k).Some? && !Hides(fields, Lookup(fields, k).value)
      && (Lookup(fields, k).value.Obj? ==> Emits(Lookup(fields, k).value, inner[|segs| + 1..]))
    decreases |segs|
  {
    if segs == [] {
      assert inner[0] == Key(k);
    } else {
      assert (segs + [Key(k)])[0] == inner[0] && segs[1..] + [Key(k)] <= inner[1..];
      var child := Lookup(node.fields, segs[0].key).value;
      match child {
        case Obj(_) =>
          EmitsThrough(child, segs[1..], k, inner[1..]);
          assert inner[1..][|segs[1..]| + 1..] == inner[|segs| + 1..];
        case Arr(items) =>
          assert (segs + [Key(k)])[1] == inner[1] && segs[2..] + [Key(k)] <= inner[2..];
          EmitsThrough(items[segs[1].i], segs[2..], k, inner[2..]);
          assert segs[1..][1..] == segs[2..];
          assert Walk(child, segs[1..]) == Walk(items[segs[1].i], segs[2..]);
          assert inner[2..][|segs[2..]| + 1..] == inner[|segs| + 1..];
      }
    }
  }

  /** A child that stays an object or a list of the same size leaves its parent as it is shown. */
  lemma ParentStable(fields: seq<Field>, k: string, v: Json)
    requires Lookup(fields, k).Some?
    requires var w := Lookup(fields, k).value;
      (w.Obj? && v.Obj? && |v.fields| == |w.fields|) || (w.Arr? && v.Arr? && |v.items| == |w.items|)
    ensures Kind(Replace(fields, k, v)) == Kind(fields) && Editable(Replace(fields, k, v)) == Editable(fields)
  {
    LookupReplace(fields, k, v, "function");
    LookupReplace(fields, k, v, "name");
    LookupReplace(fields, k, v, "constant");
  }

  /** There is a node with the slot, and assigning it keeps the kind of the node. */
  predicate KindKept(node: Json, segs: seq<Seg>, k: string, v: Json) {
    var m := Walk(node, segs);
    && m.Some? && m.value.Obj? && Lookup(m.value.fields, k).Some?
    && Kind(Replace(m.value.fields, k, v)) == Kind(m.value.fields)
  }

  /** The place is listed in both trees, with nodes of one kind. */
  predicate KeptPlace(a: Json, b: Json, segs: seq<Seg>) {
    && Emits(a, segs) && Emits(b, segs)
    && var m, n := Walk(a, segs), Walk(b, segs);
    m.Some? && m.value.Obj? && n.Some? && n.value.Obj? && Kind(n.value.fields) == Kind(m.value.fields)
  }

  lemma KeptPlaceInChild(fields: seq<Field>, fields': seq<Field>, segs: seq<Seg>)
    requires segs != [] && segs[0].Key? && Kind(fields) == Kind(fields') && !IsFieldRef(FunctionOf(fields))
    requires Lookup(fields, segs[0].key).Some? && Lookup(fields, segs[0].key).value.Obj?
    requires Lookup(fields', segs[0].key).Some? && Lookup(fields', segs[0].key).value.Obj?
    requires KeptPlace(Lookup(fields, segs[0].key).value, Lookup(fields', segs[0].key).value, segs[1..])
    ensures KeptPlace(Obj(fields), Obj(fields'), segs)
  {
  }

  lemma KeptPlaceInItem(fields: seq<Field>, fields': seq<Field>, segs: seq<Seg>)
    requires |segs| > 1 && segs[0].Key? && segs[1].Index? && Kind(fields) == Kind(fields')
        && !IsFieldRef(FunctionOf(fields))
    requires Lookup(fields, segs[0].key).Some? && Lookup(fields, segs[0].key).value.Arr?
    requires Lookup(fields', segs[0].key).Some? && Lookup(fields', segs[0].key).value.Arr?
    requires var items, items' := Lookup(fields, segs[0].key).value.items, Lookup(fields', segs[0].key).value.items;
      segs[1].i < |items| == |items'| && KeptPlace(items[segs[1].i], items'[segs[1].i], segs[2..])
    ensures KeptPlace(Obj(fields), Obj(fields'), segs)
  {
    var v, v' := Lookup(fields, segs[0].key).value, Lookup(fields', segs[0].key).value;
    assert segs[1..][1..] == segs[2..];
    assert Walk(Obj(fields), segs) == Walk(v, segs[1..]) == Walk(v.items[segs[1].i], segs[2..]);
    assert Walk(Obj(fields'), segs) == Walk(v', segs[1..]) == Walk(v'.items[segs[1].i], segs[2..]);
  }

  lemma EmitsWithin(node: Json, segs: seq<Seg>)
    requires Emits(node, segs)
    ensures KeptPlace(node, node, segs)
  {
    EmitsSolid(node, segs);
  }

  /** An assignment that keeps the kind of its node keeps every listed place that is not inside the slot. */
  lemma {:induction false} PutKeepsPlace(node: Json, segs: seq<Seg>, k: string, v: Json, other: seq<Seg>)
    requires Emits(node, segs) && KindKept(node, segs, k, v) && Emits(node, other) && !(segs + [Key(k)] <= other)
    ensures KeptPlace(node, Put(node, segs + [Key(k)], v), other)
    decreases |segs|, 2
  {
    var path := segs + [Key(k)];
    EmitsWithin(node, other);
    if segs == [] {
      assert path[1..] == [];
      if other != [] {
        assert other == [other[0]] + other[1..];
        LookupReplace(node.fields, k, v, other[0].key);
      }
    } else {
      var child := Lookup(node.fields, segs[0].key).value;
      assert path[1..] == segs[1..] + [Key(k)];
      match child {
        case Obj(_) => PutKeepsPlaceInObject(node, segs, k, v, other);
        case Arr(_) => PutKeepsPlaceInList(node, segs, k, v, other);
      }
    }
  }

  /** A place that does not lead through a replaced child is the same in the new node. */
  lemma BesideChild(node: Json, key: string, child': Json, other: seq<Seg>)
    requires Emits(node, other) && Lookup(node.fields, key).Some? && (other == [] || other[0] != Key(key))
    requires Kind(Replace(node.fields, key, child')) == Kind(node.fields)
    ensures KeptPlace(node, Obj(Replace(node.fields, key, child')), other)
  {
    EmitsWithin(node, other);
    if other != [] {
      LookupReplace(node.fields, key, child', other[0].key);
    }
  }

  lemma {:induction false} PutKeepsPlaceInObject(node: Json, segs: seq<Seg>, k: string, v: Json, other: seq<Seg>)
    requires Emits(node, segs) && KindKept(node, segs, k, v) && Emits(node, other) && !(segs + [Key(k)] <= other)
    requires segs != [] && Lookup(node.fields, segs[0].key).value.Obj?
    ensures KeptPlace(node, Put(node, segs + [Key(k)], v), other)
    decreases |segs|, 1
  {
    var key := segs[0].key;
    var child := Lookup(node.fields, key).value;
    var child' := Put(child, segs[1..] + [Key(k)], v);
    assert (segs + [Key(k)])[1..] == segs[1..] + [Key(k)];
    assert Put(node, segs + [Key(k)], v) == Obj(Replace(node.fields, key, child'));
    ParentStable(node.fields, key, child');
    if other == [] || other[0] != segs[0] {
      BesideChild(node, key, child', other);
    } else {
      SamePrefix([segs[0]], segs[1..] + [Key(k)], other[1..]);
      assert other == [segs[0]] + other[1..] && segs + [Key(k)] == [segs[0]] + (segs[1..] + [Key(k)]);
      PutKeepsPlace(child, segs[1..], k, v, other[1..]);
      LookupReplace(node.fields, key, child', key);
      KeptPlaceInChild(node.fields, Replace(node.fields, key, child'), other);
    }
  }

  lemma {:induction false} PutKeepsPlaceInList(node: Json, segs: seq<Seg>, k: string, v: Json, other: seq<Seg>)
    requires Emits(node, segs) && KindKept(node, segs, k, v) && Emits(node, other) && !(segs + [Key(k)] <= other)
    requires segs != [] && Lookup(node.fields, segs[0].key).value.Arr?
    ensures KeptPlace(node, Put(node, segs + [Key(k)], v), other)
    decreases |segs|, 1
  {
    var path := segs + [Key(k)];
    var child := Lookup(node.fields, segs[0].key).value;
    var i := segs[1].i;
    PutInItem(child.items, segs, k, v);
    var item' := Put(child.items[i], segs[2..] + [Key(k)], v);
    var child' := Arr(child.items[i := item']);
    ParentStable(node.fields, segs[0].key, child');
    if other == [] || other[0] != segs[0] {
      BesideChild(node, segs[0].key, child', other);
    } else {
      LookupReplace(node.fields, segs[0].key, child', other[0].key);
      ItemKeepsPlace(child.items, segs, k, v, other);
      KeptPlaceInItem(node.fields, Replace(node.fields, segs[0].key, child'), other);
    }
  }

  lemma {:induction false} ItemKeepsPlace(items: seq<Json>, segs: seq<Seg>, k: string, v: Json, other: seq<Seg>)
    requires |segs| > 1 && segs[1].Index? && segs[1].i < |items| && Emits(items[segs[1].i], segs[2..])
    requires KindKept(items[segs[1].i], segs[2..], k, v) && !(segs + [Key(k)] <= other)
    requires |other| > 1 && other[0] == segs[0] && other[1].Index? && other[1].i < |items|
        && Emits(items[other[1].i], other[2..])
    ensures var items' := items[segs[1].i := Put(items[segs[1].i], segs[2..] + [Key(k)], v)];
      KeptPlace(items[other[1].i], items'[other[1].i], other[2..])
    decreases |segs|, 0
  {
    if other[1] == segs[1] {
      var both := [segs[0], segs[1]];
      assert other == both + other[2..] && segs + [Key(k)] == both + (segs[2..] + [Key(k)]);
      SamePrefix(both, segs[2..] + [Key(k)], other[2..]);
      PutKeepsPlace(items[segs[1].i], segs[2..], k, v, other[2..]);
    } else {
      EmitsWithin(items[other[1].i], other[2..]);
    }
  }

  /** A place below an item of a list, seen from the list and from the item. */
  lemma PutInItem(items: seq<Json>, segs: seq<Seg>, k: string, v: Json)
    requires |segs| > 1 && segs[1].Index? && segs[1].i < |items|
    ensures var i := segs[1].i;
      && (segs + [Key(k)])[1..] == segs[1..] + [Key(k)]
      && Put(Arr(items), segs[1..] + [Key(k)], v) == Arr(items[i := Put(items[i], segs[2..] + [Key(k)], v)])
      && Walk(Arr(items), segs[1..]) == Walk(items[i], segs[2..])
  {
    assert (segs[1..] + [Key(k)])[1..] == segs[2..] + [Key(k)] && segs[1..][1..] == segs[2..];
  }

  // ---- The listing under an assignment ---------------------------------------------------------------------

  lemma NodeShowsItself(node: Json, path: string)
    ensures AstNodes(node, path) == [] <==> !node.Obj?
  {
  }

  lemma {:induction false} ItemsShowNothing(items: seq<Json>, prefix: string, from: nat)
    requires from <= |items|
    ensures ItemNodes(items, prefix, from) == [] <==> forall i :: from <= i < |items| ==> !items[i].Obj?
    decreases |items| - from
  {
    if from < |items| {
      var first, rest := AstNodes(items[from], prefix + "[" + Decimal(from) + "]"), ItemNodes(items, prefix, from + 1);
      assert ItemNodes(items, prefix, from) == first + rest;
      NodeShowsItself(items[from], prefix + "[" + Decimal(from) + "]");
      ItemsShowNothing(items, prefix, from + 1);
    }
  }

  lemma PlainShowsNothing(key: string, value: Json, path: string)
    ensures ValueNodes(key, value, path) == [] <==> Plain(value)
  {
    if value.Arr? {
      ItemsShowNothing(value.items, path + "." + key, 0);
    }
  }

  lemma {:induction false} FieldsAfterReplace(fields: seq<Field>, k: string, v: Json, path: string)
    requires Lookup(fields, k).Some?
    ensures |FieldNodes(Replace(fields, k, v), path)| + |ValueNodes(k, Lookup(fields, k).value, path)|
         == |FieldNodes(fields, path)| + |ValueNodes(k, v, path)|
    ensures ValueNodes(k, v, path) == ValueNodes(k, Lookup(fields, k).value, path) ==>
      FieldNodes(Replace(fields, k, v), path) == FieldNodes(fields, path)
  {
    if fields[0].key == k {
      assert Replace(fields, k, v)[1..] == fields[1..];
    } else {
      assert Replace(fields, k, v)[1..] == Replace(fields[1..], k, v);
      FieldsAfterReplace(fields[1..], k, v, path);
    }
  }

  lemma {:induction false} ItemsBehind(items: seq<Json>, i: nat, x: Json, prefix: string, from: nat)
    requires i < from <= |items|
    ensures ItemNodes(items[i := x], prefix, from) == ItemNodes(items, prefix, from)
    decreases |items| - from
  {
    if from < |items| {
      ItemsBehind(items, i, x, prefix, from + 1);
    }
  }

  lemma {:induction false} ItemsAfterUpdate(items: seq<Json>, i: nat, x: Json, prefix: string, from: nat)
    requires from <= i < |items|
    ensures var at := prefix + "[" + Decimal(i) + "]";
      && |ItemNodes(items[i := x], prefix, from)| + |AstNodes(items[i], at)|
          == |ItemNodes(items, prefix, from)| + |AstNodes(x, at)|
      && (AstNodes(x, at) == AstNodes(items[i], at) ==>
          ItemNodes(items[i := x], prefix, from) == ItemNodes(items, prefix, from))
    decreases i - from
  {
    if from < i {
      ItemsAfterUpdate(items, i, x, prefix, from + 1);
    } else {
      ItemsBehind(items, i, x, prefix, i + 1);
    }
  }

  /** No fewer items than before, and no more exactly if nothing new is shown. */
  predicate Grows(before: seq<Item>, now: seq<Item>, nothingNew: bool) {
    |now| >= |before| && (|now| == |before| <==> nothingNew)
  }

  /** The new value shows nothing, and the node has an editable constant exactly if it had one. */
  predicate Unseen(node: Json, segs: seq<Seg>, k: string, v: Json) {
    var m := Walk(node, segs);
    && m.Some? && m.value.Obj? && Hides(m.value.fields, v)
    && Editable(Replace(m.value.fields, k, v)) == Editable(m.value.fields)
  }

  predicate HidesAt(node: Json, segs: seq<Seg>, v: Json) {
    var m := Walk(node, segs); m.Some? && m.value.Obj? && Hides(m.value.fields, v)
  }

  predicate OldHidden(node: Json, segs: seq<Seg>, k: string) {
    var m := Walk(node, segs);
    m.Some? && m.value.Obj? && Lookup(m.value.fields, k).Some? && Hides(m.value.fields, Lookup(m.value.fields, k).value)
  }

  /** How putting a new value over one that shows nothing changes the listing. */
  ghost predicate PutShows(node: Json, segs: seq<Seg>, k: string, v: Json, path: string) {
    var b := Put(node, segs + [Key(k)], v);
    && Grows(AstNodes(node, path), AstNodes(b, path), HidesAt(node, segs, v))
    && (Unseen(node, segs, k, v) ==> AstNodes(b, path) == AstNodes(node, path))
  }

  lemma {:induction false} PutNodes(node: Json, segs: seq<Seg>, k: string, v: Json, path: string)
    requires Emits(node, segs) && KindKept(node, segs, k, v) && OldHidden(node, segs, k)
    ensures PutShows(node, segs, k, v, path)
    decreases |segs|, 1
  {
    if segs == [] {
      PutInNode(node, k, v, path);
    } else if Lookup(node.fields, segs[0].key).value.Obj? {
      PutNodesInObject(node, segs, k, v, path);
    } else {
      PutNodesInList(node, segs, k, v, path);
    }
  }

  lemma PutInNode(node: Json, k: string, v: Json, path: string)
    requires node.Obj? && KindKept(node, [], k, v) && OldHidden(node, [], k)
    ensures PutShows(node, [], k, v, path)
  {
    assert [] + [Key(k)] == [Key(k)] && [Key(k)][1..] == [];
    FieldsAfterReplace(node.fields, k, v, path);
    PlainShowsNothing(k, v, path);
    PlainShowsNothing(k, Lookup(node.fields, k).value, path);
  }

  lemma {:induction false} PutNodesInObject(node: Json, segs: seq<Seg>, k: string, v: Json, path: string)
    requires Emits(node, segs) && KindKept(node, segs, k, v) && OldHidden(node, segs, k)
    requires segs != [] && Lookup(node.fields, segs[0].key).value.Obj?
    ensures PutShows(node, segs, k, v, path)
    decreases |segs|, 0
  {
    var key := segs[0].key;
    var child := Lookup(node.fields, key).value;
    assert (segs + [Key(k)])[1..] == segs[1..] + [Key(k)];
    PutNodes(child, segs[1..], k, v, path + "." + key);
    ChildNodes(node.fields, key, Put(child, segs[1..] + [Key(k)], v), path);
  }

  lemma {:induction false} PutNodesInList(node: Json, segs: seq<Seg>, k: string, v: Json, path: string)
    requires Emits(node, segs) && KindKept(node, segs, k, v) && OldHidden(node, segs, k)
    requires segs != [] && Lookup(node.fields, segs[0].key).value.Arr?
    ensures PutShows(node, segs, k, v, path)
    decreases |segs|, 0
  {
    var key, i := segs[0].key, segs[1].i;
    var items := Lookup(node.fields, key).value.items;
    PutInItem(items, segs, k, v);
    var item' := Put(items[i], segs[2..] + [Key(k)], v);
    assert KindKept(items[i], segs[2..], k, v) && OldHidden(items[i], segs[2..], k);
    PutNodes(items[i], segs[2..], k, v, path + "." + key + "[" + Decimal(i) + "]");
    ItemsAfterUpdate(items, i, item', path + "." + key, 0);
    ChildNodes(node.fields, key, Arr(items[i := item']), path);
  }

  /** A parent's listing changes as the listing of the replaced child does. */
  lemma ChildNodes(fields: seq<Field>, key: string, child': Json, path: string)
    requires Lookup(fields, key).Some? && !IsFieldRef(FunctionOf(fields))
    requires var child := Lookup(fields, key).value;
      || (child.Obj? && child'.Obj? && |child'.fields| == |child.fields|)
      || (child.Arr? && child'.Arr? && |child'.items| == |child.items|)
    ensures var a, b := AstNodes(Obj(fields), path), AstNodes(Obj(Replace(fields, key, child')), path);
      var was, new' := ValueNodes(key, Lookup(fields, key).value, path), ValueNodes(key, child', path);
      |b| + |was| == |a| + |new'| && (new' == was ==> b == a)
  {
    ParentStable(fields, key, child');
    FieldsAfterReplace(fields, key, child', path);
  }

  // ---- Edits that are offered ---------------------------------------------------------------------------------

  predicate IsCase(doc: Json) {
    doc.Obj? && Lookup(doc.fields, "rules").Some? && Lookup(doc.fields, "rules").value.Arr?
    && forall i :: 0 <= i < |Rules(doc)| ==> Rules(doc)[i].Obj?
  }

  /** The edit addresses a listed node of a rule that has the slot; a new operator is of the group of the old one. */
  predicate Placed(doc: Json, e: Edit) {
    && Aimed(doc, e) && IsCase(doc) && |e.path| >= 3 && e.path[1].Index? && e.path == Full(e.path[1].i, e.path[3..])
    && e.path[1].i < |Rules(doc)| && Lookup(Rules(doc)[e.path[1].i].fields, "formula").Some?
    && Emits(Formula(Rules(doc)[e.path[1].i]), e.path[3..])
    && Walk(Formula(Rules(doc)[e.path[1].i]), e.path[3..]) == Walk(doc, e.path)
    && (e.operator ==>
          var group := OperatorGroup(FunctionOf(Node(doc, e))); group.Some? && e.value.Str? && e.value.s in group.value)
  }

  /** What the slot of the edit holds. */
  function Held(doc: Json, e: Edit): Json
    requires Aimed(doc, e)
  {
    Lookup(Node(doc, e), SlotName(doc, e)).value
  }

  /** The edit is one that the case offers: a constant may be edited unless it is an object. */
  predicate Offered(doc: Json, e: Edit) { Placed(doc, e) && (!e.operator ==> !Held(doc, e).Obj?) }

  lemma KindAfterConstant(fields: seq<Field>, v: Json)
    requires Lookup(fields, "constant").Some?
    ensures Kind(Replace(fields, "constant", v)) == Kind(fields)
    ensures Editable(Replace(fields, "constant", v)) <==> !v.Obj?
  {
    LookupReplace(fields, "constant", v, "function");
    LookupReplace(fields, "constant", v, "name");
    LookupReplace(fields, "constant", v, "constant");
  }

  lemma SameGroup(name: Json, v: Json)
    requires OperatorGroup(name).Some? && v.Str? && v.s in OperatorGroup(name).value
    ensures OperatorGroup(v) == OperatorGroup(name) && !IsFieldRef(v) && !IsFieldRef(name) && v.s != ""
  {
  }

  lemma FunctionAfterOperator(fields: seq<Field>, k: string, v: Json)
    requires SlotKey(fields, true) == Some(k) && v.Str? && v.s != ""
    ensures FunctionOf(Replace(fields, k, v)) == v && Editable(Replace(fields, k, v)) == Editable(fields)
  {
    LookupReplace(fields, k, v, "function");
    LookupReplace(fields, k, v, "name");
    LookupReplace(fields, k, v, "constant");
  }

  lemma KindAfterOperator(fields: seq<Field>, k: string, v: Json)
    requires SlotKey(fields, true) == Some(k) && OperatorGroup(FunctionOf(fields)).Some?
    requires v.Str? && v.s in OperatorGroup(FunctionOf(fields)).value
    ensures Kind(Replace(fields, k, v)) == Kind(fields) && Editable(Replace(fields, k, v)) == Editable(fields)
  {
    SameGroup(FunctionOf(fields), v);
    FunctionAfterOperator(fields, k, v);
  }

  /** Only the formula of the addressed rule changes, by the same put seen from the formula. */
  lemma PutInCase(doc: Json, r: nat, segs: seq<Seg>, k: string, v: Json)
    requires IsCase(doc) && r < |Rules(doc)| && Lookup(Rules(doc)[r].fields, "formula").Some?
    ensures var case' := Put(doc, Full(r, segs) + [Key(k)], v);
      && IsCase(case') && |Rules(case')| == |Rules(doc)|
      && (forall i :: 0 <= i < |Rules(doc)| && i != r ==> Rules(case')[i] == Rules(doc)[i])
      && Lookup(Rules(case')[r].fields, "formula") == Some(Put(Formula(Rules(doc)[r]), segs + [Key(k)], v))
  {
    var path := Full(r, segs) + [Key(k)];
    var rules := Rules(doc);
    assert path[1..][1..][1..] == segs + [Key(k)];
    var formula' := Put(Formula(rules[r]), segs + [Key(k)], v);
    var rule' := SetChild(rules[r], Key("formula"), formula');
    var rules' := Arr(rules[r := rule']);
    assert path[1..][1] == Key("formula") && path[1..][0] == Index(r);
    assert Put(rules[r], path[1..][1..], v) == rule';
    assert Put(Arr(rules), path[1..], v) == rules';
    assert Put(doc, path, v) == SetChild(doc, Key("rules"), rules');
    LookupReplace(doc.fields, "rules", rules', "rules");
    LookupReplace(rules[r].fields, "formula", formula', "formula");
  }

  /** An offered edit is an assignment in the formula of its rule that keeps the kind of its node. */
  lemma EditInCase(py: Conversions, doc: Json, e: Edit, case': Json)
    requires Offered(doc, e) && Apply(py, doc, e) == Some(case')
    ensures IsCase(case') && |Rules(case')| == |Rules(doc)| && NewValue(py, doc, e).Some?
    ensures forall i :: 0 <= i < |Rules(doc)| && i != e.path[1].i ==> Rules(case')[i] == Rules(doc)[i]
    ensures Lookup(Rules(case')[e.path[1].i].fields, "formula")
         == Some(Put(Formula(Rules(doc)[e.path[1].i]), e.path[3..] + [Key(SlotName(doc, e))],
             NewValue(py, doc, e).value))
    ensures KindKept(Formula(Rules(doc)[e.path[1].i]), e.path[3..], SlotName(doc, e), NewValue(py, doc, e).value)
  {
    ApplyAimed(py, doc, e);
    PutInCase(doc, e.path[1].i, e.path[3..], SlotName(doc, e), NewValue(py, doc, e).value);
    if e.operator {
      KindAfterOperator(Node(doc, e), SlotName(doc, e), e.value);
    } else {
      KindAfterConstant(Node(doc, e), NewValue(py, doc, e).value);
    }
  }

  lemma PlacedFromFormula(doc: Json, r: nat, segs: seq<Seg>, f: Edit)
    requires IsCase(doc) && r < |Rules(doc)| && Lookup(Rules(doc)[r].fields, "formula").Some?
    requires f.path == Full(r, segs) && Aimed(doc, f) && Emits(Formula(Rules(doc)[r]), segs)
    requires f.operator ==>
      var group := OperatorGroup(FunctionOf(Node(doc, f))); group.Some? && f.value.Str? && f.value.s in group.value
    ensures Placed(doc, f)
  {
    WalkFull(doc, Rules(doc), r, segs);
    assert Full(r, segs)[3..] == segs && Full(r, segs)[1] == Index(r);
  }

  /**
   An applied edit leaves every placed edit outside its slot placed, with the same slot in a node of the same kind.
   */
  lemma EditKeepsPlaced(py: Conversions, doc: Json, e: Edit, case': Json, f: Edit)
    requires Offered(doc, e) && Apply(py, doc, e) == Some(case') && Placed(doc, f) && !Inside(doc, f, e)
    ensures Placed(case', f) && Slot(case', f) == Slot(doc, f) && Kind(Node(case', f)) == Kind(Node(doc, f))
  {
    var v := NewValue(py, doc, e).value;
    ApplyAimed(py, doc, e);
    EditInCase(py, doc, e, case');
    PutKeepsKeys(doc, Slot(doc, e), v, f.path);
    SameKeysSameSlot(Node(doc, f), Walk(case', f.path).value.fields, f.operator);
    FormulaKeepsPlace(py, doc, e, case', f);
    WalkFull(case', Rules(case'), f.path[1].i, f.path[3..]);
    PlacedFromFormula(case', f.path[1].i, f.path[3..], f);
  }

  lemma InsideFormula(doc: Json, e: Edit, f: Edit)
    requires Placed(doc, e) && Placed(doc, f) && e.path[1].i == f.path[1].i
    ensures e.path[3..] + [Key(SlotName(doc, e))] <= f.path[3..] <==> Inside(doc, f, e)
  {
    var prefix := Full(e.path[1].i, []);
    assert Slot(doc, e) == prefix + (e.path[3..] + [Key(SlotName(doc, e))]) && f.path == prefix + f.path[3..];
    SamePrefix(prefix, e.path[3..] + [Key(SlotName(doc, e))], f.path[3..]);
  }

  lemma SamePrefix(prefix: seq<Seg>, p: seq<Seg>, q: seq<Seg>)
    ensures p <= q <==> prefix + p <= prefix + q
  {
    assert prefix + p <= prefix + q <==> |p| <= |q| && (prefix + p)[|prefix|..] == (prefix + q)[|prefix|..][..|p|];
  }

  lemma FormulaKeepsPlace(py: Conversions, doc: Json, e: Edit, case': Json, f: Edit)
    requires Offered(doc, e) && Apply(py, doc, e) == Some(case') && Placed(doc, f) && !Inside(doc, f, e)
    ensures IsCase(case') && f.path[1].i < |Rules(case')| && Lookup(Rules(case')[f.path[1].i].fields, "formula").Some?
    ensures KeptPlace(Formula(Rules(doc)[f.path[1].i]), Formula(Rules(case')[f.path[1].i]), f.path[3..])
  {
    EditInCase(py, doc, e, case');
    var r, q := e.path[1].i, f.path[1].i;
    if r == q {
      var k := SlotName(doc, e);
      InsideFormula(doc, e, f);
      PutKeepsPlace(Formula(Rules(doc)[r]), e.path[3..], k, NewValue(py, doc, e).value, f.path[3..]);
    } else {
      EmitsWithin(Formula(Rules(doc)[q]), f.path[3..]);
    }
  }

  /** An applied edit leaves every offered edit of a slot apart offered, with the same slot and the same value in it. */
  lemma EditKeepsOffered(py: Conversions, doc: Json, e: Edit, case': Json, f: Edit)
    requires Offered(doc, e) && Offered(doc, f) && Apart(Slot(doc, e), Slot(doc, f)) && Apply(py, doc, e) == Some(case')
    ensures Offered(case', f) && Slot(case', f) == Slot(doc, f)
    ensures Held(case', f) == Held(doc, f) && Kind(Node(case', f)) == Kind(Node(doc, f))
    ensures NewValue(py, case', f) == NewValue(py, doc, f)
  {
    SlotsApartExactly(doc, e, f);
    EditKeepsPlaced(py, doc, e, case', f);
    OtherEditUndisturbed(py, doc, e, case', f);
    ApplyAimed(py, doc, e);
    WalkPutApart(doc, Slot(doc, e), NewValue(py, doc, e).value, Slot(doc, f));
    AimedSlot(doc, f);
    AimedSlot(case', f);
  }

  /** Offered edits of slots pairwise apart. */
  ghost predicate OfferedBatch(doc: Json, es: seq<Edit>) {
    Batch(doc, es) && forall i :: 0 <= i < |es| ==> Offered(doc, es[i])
  }

  lemma OfferedAfterFirst(py: Conversions, doc: Json, es: seq<Edit>, case': Json)
    requires es != [] && OfferedBatch(doc, es) && Apply(py, doc, es[0]) == Some(case')
    ensures OfferedBatch(case', es[1..])
    ensures forall i :: 1 <= i < |es| ==>
      && Aimed(case', es[i]) && Slot(case', es[i]) == Slot(doc, es[i]) && Held(case', es[i]) == Held(doc, es[i])
      && Kind(Node(case', es[i])) == Kind(Node(doc, es[i])) && NewValue(py, case', es[i]) == NewValue(py, doc, es[i])
  {
    BatchAfterFirst(py, doc, es, case');
    forall i | 1 <= i < |es|
      ensures Offered(case', es[i]) && Held(case', es[i]) == Held(doc, es[i])
          && Kind(Node(case', es[i])) == Kind(Node(doc, es[i]))
    {
      EditKeepsOffered(py, doc, es[0], case', es[i]);
    }
  }

  /** After a batch, an edit that lies in none of its slots is still placed, with the same slot. */
  lemma {:induction false} BatchKeepsPlaced(py: Conversions, doc: Json, es: seq<Edit>, f: Edit)
    requires OfferedBatch(doc, es) && ApplyAll(py, doc, es).Some? && Placed(doc, f)
    requires forall i :: 0 <= i < |es| ==> !Inside(doc, f, es[i])
    ensures var case' := ApplyAll(py, doc, es).value;
      Placed(case', f) && Slot(case', f) == Slot(doc, f) && Kind(Node(case', f)) == Kind(Node(doc, f))
    decreases |es|
  {
    if es != [] {
      var case' := Apply(py, doc, es[0]).value;
      EditKeepsPlaced(py, doc, es[0], case', f);
      OfferedAfterFirst(py, doc, es, case');
      BatchKeepsPlaced(py, case', es[1..], f);
    }
  }

  // ---- Good rules stay good ---------------------------------------------------------------------------------------

  /** Objects in the value have distinct keys, all of them identifiers. */
  predicate GoodValue(v: Json) { IsDict(v) && IdentTree(v) }

  lemma {:induction false} ReplaceKeepsGood(fields: seq<Field>, k: string, v: Json)
    requires GoodValue(v) && forall f <- fields :: GoodValue(f.value) && IsIdentifier(f.key)
    ensures forall f <- Replace(fields, k, v) :: GoodValue(f.value) && IsIdentifier(f.key)
  {
    if fields != [] {
      assert fields[0] in fields;
      assert forall f <- fields[1..] :: f in fields;
      ReplaceKeepsGood(fields[1..], k, v);
      if fields[0].key == k {
        assert Replace(fields, k, v) == [Field(k, v)] + fields[1..];
      }
    }
  }

  lemma SetKeepsGood(node: Json, seg: Seg, v: Json)
    requires HasSlot(node, seg) && GoodValue(node) && GoodValue(v)
    ensures GoodValue(SetChild(node, seg, v))
  {
    match node {
      case Obj(fields) =>
        forall f | f in fields ensures GoodValue(f.value) && IsIdentifier(f.key) { }
        ReplaceKeepsGood(fields, seg.key, v);
        var fields' := Replace(fields, seg.key, v);
        assert Distinct(fields');
      case Arr(items) =>
        forall x | x in items[seg.i := v] ensures GoodValue(x) {
          if x != v { assert x in items; }
        }
    }
  }

  lemma ChildIsGood(node: Json, seg: Seg)
    requires HasSlot(node, seg) && GoodValue(node)
    ensures GoodValue(Child(node, seg).value)
  {
    match node {
      case Obj(fields) =>
        var j := LookupIs(fields, seg.key);
        assert fields[j] in fields;
      case Arr(items) => assert items[seg.i] in items;
    }
  }

  lemma {:induction false} PutKeepsGood(node: Json, p: seq<Seg>, v: Json)
    requires GoodValue(node) && GoodValue(v)
    ensures GoodValue(Put(node, p, v))
    decreases |p|
  {
    if p != [] && HasSlot(node, p[0]) {
      ChildIsGood(node, p[0]);
      PutKeepsGood(Child(node, p[0]).value, p[1..], v);
      SetKeepsGood(node, p[0], Put(Child(node, p[0]).value, p[1..], v));
    }
  }

  lemma CoercedIsGood(py: Conversions, value: Json, previous: Json)
    requires GoodValue(value) && Coerce(py, value, previous).Some?
    ensures GoodValue(Coerce(py, value, previous).value)
  {
  }

  /** A batch of good values keeps the rules good. */
  lemma {:induction false} BatchKeepsGood(py: Conversions, doc: Json, es: seq<Edit>)
    requires IsCase(doc) && GoodRules(Rules(doc)) && OfferedBatch(doc, es) && ApplyAll(py, doc, es).Some?
    requires forall i :: 0 <= i < |es| ==> GoodValue(es[i].value)
    ensures IsCase(ApplyAll(py, doc, es).value) && GoodRules(Rules(ApplyAll(py, doc, es).value))
    decreases |es|
  {
    if es != [] {
      var case' := Apply(py, doc, es[0]).value;
      EditKeepsGood(py, doc, es[0], case');
      OfferedAfterFirst(py, doc, es, case');
      BatchKeepsGood(py, case', es[1..]);
    }
  }

  lemma EditKeepsGood(py: Conversions, doc: Json, e: Edit, case': Json)
    requires Offered(doc, e) && GoodRules(Rules(doc)) && GoodValue(e.value) && Apply(py, doc, e) == Some(case')
    ensures IsCase(case') && GoodRules(Rules(case'))
  {
    EditInCase(py, doc, e, case');
    if !e.operator {
      CoercedIsGood(py, e.value, Held(doc, e));
    }
    var r := e.path[1].i;
    assert Rules(doc)[r] in Rules(doc);
    PutKeepsGood(Formula(Rules(doc)[r]), e.path[3..] + [Key(SlotName(doc, e))], NewValue(py, doc, e).value);
    forall rule | rule in Rules(case')
      ensures rule.Obj? && GoodValue(Formula(rule))
    {
      var i :| 0 <= i < |Rules(case')| && Rules(case')[i] == rule;
      if i != r {
        assert Rules(doc)[i] in Rules(doc);
      }
    }
  }

  // ---- What is accepted ------------------------------------------------------------------------------------------

  /** The edits are dictionaries: no path twice. */
  ghost predicate DistinctPaths(edits: Edits) {
    && (forall i, j :: 0 <= i < j < |edits.constants| ==> edits.constants[i].0 != edits.constants[j].0)
    && (forall i, j :: 0 <= i < j < |edits.operators| ==> edits.operators[i].0 != edits.operators[j].0)
  }

  /** The node behind a path of the edit model that has anything to edit. */
  lemma FoundNode(doc: Json, path: string) returns (r: nat, segs: seq<Seg>)
    requires IsCase(doc) && GoodRules(Rules(doc))
    requires var item := Find(RuleEditModel(Rules(doc), 0), path);
      item.Some? && (item.value.editableConstant || item.value.operators.Some?)
    ensures Tokens(path) == Full(r, segs) && path == RulePath(r) + Print(segs) && r < |Rules(doc)|
    ensures Lookup(Rules(doc)[r].fields, "formula").Some? && Emits(Formula(Rules(doc)[r]), segs)
    ensures var node := Walk(Formula(Rules(doc)[r]), segs);
      && node.Some? && node.value.Obj? && Walk(doc, Tokens(path)) == node
      && Find(RuleEditModel(Rules(doc), 0), path).value == ItemOf(node.value.fields, path)
  {
    var model := RuleEditModel(Rules(doc), 0);
    var i :| 0 <= i < |model| && model[i] == Find(model, path).value && model[i].path == path;
    PathReachesItsNode(doc, Rules(doc), i);
    r, segs := Places(Rules(doc), 0)[i].0, Places(Rules(doc), 0)[i].1;
  }

  lemma FullSolid(doc: Json, r: nat, segs: seq<Seg>)
    requires IsCase(doc) && r < |Rules(doc)| && Lookup(Rules(doc)[r].fields, "formula").Some?
        && Solid(Formula(Rules(doc)[r]), segs)
    ensures Solid(doc, Full(r, segs))
  {
    var path := Full(r, segs);
    assert path[1..][1..][1..] == segs;
    assert Solid(Rules(doc)[r], path[1..][1..]);
    assert Solid(Arr(Rules(doc)), path[1..]);
  }

  lemma {:induction false} FindShown(model: seq<Item>, i: nat)
    requires i < |model| && forall j :: 0 <= j < |model| && j != i ==> model[j].path != model[i].path
    ensures Find(model, model[i].path) == Some(model[i])
    decreases |model|
  {
    if i < |model| - 1 {
      FindShown(model[..|model| - 1], i);
    }
  }

  /** Every listed node of a case is found under its path. */
  lemma ListedIsFound(doc: Json, r: nat, segs: seq<Seg>)
    requires IsCase(doc) && GoodRules(Rules(doc)) && r < |Rules(doc)| && Emits(Formula(Rules(doc)[r]), segs)
    ensures Walk(Formula(Rules(doc)[r]), segs).Some? && Walk(Formula(Rules(doc)[r]), segs).value.Obj?
    ensures var path := RulePath(r) + Print(segs);
      && Tokens(path) == Full(r, segs)
      && Find(RuleEditModel(Rules(doc), 0), path) == Some(ItemOf(Walk(Formula(Rules(doc)[r]), segs).value.fields, path))
  {
    var model := RuleEditModel(Rules(doc), 0);
    var i := EveryPlaceIsShown(Rules(doc), r, segs);
    forall j | 0 <= j < |model| && j != i
      ensures model[j].path != model[i].path
    {
      if i < j { PathsDistinct(Rules(doc), i, j); } else { PathsDistinct(Rules(doc), j, i); }
    }
    FindShown(model, i);
    assert Rules(doc)[r] in Rules(doc);
    EmittedKeysAreIdent(Formula(Rules(doc)[r]), segs);
    FullRoundTrip(r, segs);
  }

  predicate Allowed(model: seq<Item>, path: string, operator: bool, value: Json) {
    if operator then OperatorAllowed(model, path, value) else ConstantAllowed(model, path)
  }

  /** The text is the path printed for the place of the edit. */
  predicate Printed(path: string, e: Edit) {
    |e.path| >= 3 && e.path[1].Index? && path == RulePath(e.path[1].i) + Print(e.path[3..])
  }

  lemma AllowedIsOffered(doc: Json, path: string, operator: bool, value: Json)
    requires IsCase(doc) && GoodRules(Rules(doc)) && Allowed(RuleEditModel(Rules(doc), 0), path, operator, value)
    ensures var e := Edit(Tokens(path), operator, value); Offered(doc, e) && Printed(path, e)
  {
    var e := Edit(Tokens(path), operator, value);
    var r, segs := FoundNode(doc, path);
    assert Full(r, segs)[3..] == segs && Full(r, segs)[1] == Index(r);
    EmitsSolid(Formula(Rules(doc)[r]), segs);
    FullSolid(doc, r, segs);
    PlacedFromFormula(doc, r, segs, e);
  }

  /** An edit is accepted exactly if the case offers it and the path is the one printed for its place. */
  lemma AllowedExactly(doc: Json, path: string, operator: bool, value: Json)
    requires IsCase(doc) && GoodRules(Rules(doc))
    ensures var e := Edit(Tokens(path), operator, value);
      Allowed(RuleEditModel(Rules(doc), 0), path, operator, value) <==> Offered(doc, e) && Printed(path, e)
  {
    var e := Edit(Tokens(path), operator, value);
    if Allowed(RuleEditModel(Rules(doc), 0), path, operator, value) {
      AllowedIsOffered(doc, path, operator, value);
    } else if Offered(doc, e) && Printed(path, e) {
      ListedIsFound(doc, e.path[1].i, e.path[3..]);
    }
  }

  /** The path text of the i-th edit. */
  function PathOf(edits: Edits, i: nat): string
    requires i < |AllEdits(edits)|
  {
    if i < |edits.constants| then edits.constants[i].0 else edits.operators[i - |edits.constants|].0
  }

  lemma EditAt(edits: Edits, i: nat)
    requires i < |AllEdits(edits)|
    ensures var value := if i < |edits.constants| then edits.constants[i].1
        else edits.operators[i - |edits.constants|].1;
      AllEdits(edits)[i] == Edit(Tokens(PathOf(edits, i)), i >= |edits.constants|, value)
  {
  }

  /** The i-th edit is one that the case offers, under the path printed for its place. */
  predicate OfferedAs(doc: Json, edits: Edits, i: nat)
    requires i < |AllEdits(edits)|
  {
    Offered(doc, AllEdits(edits)[i]) && Printed(PathOf(edits, i), AllEdits(edits)[i])
  }

  predicate AllowedAt(model: seq<Item>, edits: Edits, i: nat)
    requires i < |AllEdits(edits)|
  {
    Allowed(model, PathOf(edits, i), i >= |edits.constants|, AllEdits(edits)[i].value)
  }

  lemma ValidateEach(model: seq<Item>, edits: Edits)
    ensures Validate(model, edits) <==> forall i :: 0 <= i < |AllEdits(edits)| ==> AllowedAt(model, edits, i)
  {
    var n := |edits.constants|;
    if forall i :: 0 <= i < |AllEdits(edits)| ==> AllowedAt(model, edits, i) {
      forall i | 0 <= i < n
        ensures ConstantAllowed(model, edits.constants[i].0)
      {
        assert AllowedAt(model, edits, i);
      }
      forall i | 0 <= i < |edits.operators|
        ensures OperatorAllowed(model, edits.operators[i].0, edits.operators[i].1)
      {
        assert AllowedAt(model, edits, n + i);
      }
    }
  }

  /** What is accepted, in terms of the tree alone. */
  lemma ValidatedExactly(doc: Json, edits: Edits)
    requires IsCase(doc) && GoodRules(Rules(doc))
    ensures Validate(RuleEditModel(Rules(doc), 0), edits) <==>
        forall i :: 0 <= i < |AllEdits(edits)| ==> OfferedAs(doc, edits, i)
  {
    var model := RuleEditModel(Rules(doc), 0);
    ValidateEach(model, edits);
    forall i | 0 <= i < |AllEdits(edits)|
      ensures AllowedAt(model, edits, i) <==> OfferedAs(doc, edits, i)
    {
      EditAt(edits, i);
      AllowedExactly(doc, PathOf(edits, i), i >= |edits.constants|, AllEdits(edits)[i].value);
    }
  }

  /** No two validated edits assign the same slot. */
  lemma ValidatedSlotsDiffer(doc: Json, edits: Edits, i: nat, j: nat)
    requires IsCase(doc) && GoodRules(Rules(doc)) && DistinctPaths(edits)
    requires Validate(RuleEditModel(Rules(doc), 0), edits) && i < |AllEdits(edits)| && j < |AllEdits(edits)| && i != j
    ensures Aimed(doc, AllEdits(edits)[i]) && Aimed(doc, AllEdits(edits)[j])
    ensures Slot(doc, AllEdits(edits)[i]) != Slot(doc, AllEdits(edits)[j])
  {
    var es := AllEdits(edits);
    ValidatedExactly(doc, edits);
    assert OfferedAs(doc, edits, i) && OfferedAs(doc, edits, j);
    EditAt(edits, i);
    EditAt(edits, j);
    assert PathOf(edits, i) != PathOf(edits, j) || es[i].operator != es[j].operator;
    if Slot(doc, es[i]) == Slot(doc, es[j]) {
      SlotDetermines(doc, es[i], es[j]);
      assert false;
    }
  }

  /** No edit addresses something inside a constant that another one replaces. */
  ghost predicate NoneInside(doc: Json, edits: Edits) {
    var es := AllEdits(edits);
    forall i, j :: 0 <= i < |es| && 0 <= j < |es| && i != j && Aimed(doc, es[i]) ==> !Inside(doc, es[j], es[i])
  }

  /** Validated edits have slots apart from each other exactly when none lies inside another. */
  lemma ValidatedIsBatch(doc: Json, edits: Edits)
    requires IsCase(doc) && GoodRules(Rules(doc)) && DistinctPaths(edits)
        && Validate(RuleEditModel(Rules(doc), 0), edits)
    ensures Batch(doc, AllEdits(edits)) <==> NoneInside(doc, edits)
    ensures Batch(doc, AllEdits(edits)) <==> OfferedBatch(doc, AllEdits(edits))
  {
    var es := AllEdits(edits);
    ValidatedExactly(doc, edits);
    forall i | 0 <= i < |es|
      ensures Offered(doc, es[i])
    {
      assert OfferedAs(doc, edits, i);
    }
    forall i, j | 0 <= i < |es| && 0 <= j < |es| && i != j
      ensures Apart(Slot(doc, es[i]), Slot(doc, es[j])) <==> !Inside(doc, es[j], es[i]) && !Inside(doc, es[i], es[j])
    {
      ValidatedSlotsDiffer(doc, edits, i, j);
      SlotsApartExactly(doc, es[i], es[j]);
    }
  }

  // ---- Constants without nodes ------------------------------------------------------------------------------------

  /** Nothing is listed below what the slot of the edit holds. */
  predicate HeldHidden(doc: Json, e: Edit) { Aimed(doc, e) ==> Hides(Node(doc, e), Held(doc, e)) }

  /** Nothing is listed below any of the values that are replaced. */
  ghost predicate OldHide(doc: Json, edits: Edits) {
    forall i :: 0 <= i < |AllEdits(edits)| ==> HeldHidden(doc, AllEdits(edits)[i])
  }

  /** What lies inside the slot of an offered edit shows up in what the slot holds. */
  lemma InsideIsShown(doc: Json, e: Edit, f: Edit)
    requires Offered(doc, e) && Offered(doc, f) && Inside(doc, f, e)
    ensures !HeldHidden(doc, e) && (Held(doc, e).Obj? ==> Emits(Held(doc, e), f.path[|Slot(doc, e)|..]))
  {
    var r, segs, inner := e.path[1].i, e.path[3..], f.path[3..];
    var k := SlotName(doc, e);
    assert Slot(doc, e)[1] == f.path[1] && Slot(doc, e)[3..] == segs + [Key(k)];
    assert Slot(doc, e)[3..] <= inner;
    EmitsThrough(Formula(Rules(doc)[r]), segs, k, inner);
    assert inner[|segs| + 1..] == f.path[|Slot(doc, e)|..];
  }

  /** Over constants that show nothing, no validated edit lies inside another. */
  lemma PlainIsBatch(doc: Json, edits: Edits)
    requires IsCase(doc) && GoodRules(Rules(doc)) && DistinctPaths(edits) && OldHide(doc, edits)
    requires Validate(RuleEditModel(Rules(doc), 0), edits)
    ensures NoneInside(doc, edits) && OfferedBatch(doc, AllEdits(edits))
  {
    var es := AllEdits(edits);
    ValidatedExactly(doc, edits);
    forall i, j | 0 <= i < |es| && 0 <= j < |es| && i != j && Aimed(doc, es[i])
      ensures !Inside(doc, es[j], es[i])
    {
      assert OfferedAs(doc, edits, i) && OfferedAs(doc, edits, j) && HeldHidden(doc, es[i]);
      if Inside(doc, es[j], es[i]) {
        InsideIsShown(doc, es[i], es[j]);
      }
    }
    ValidatedIsBatch(doc, edits);
  }

  // ---- The edit engine -----------------------------------------------------------------------------------

  /** The edited case, when the edits are accepted and every value can be converted. */
  function Edited(py: Conversions, doc: Json, edits: Edits): Option<Json>
    requires IsCase(doc)
  {
    if Validate(RuleEditModel(Rules(doc), 0), edits) then ApplyAll(py, doc, AllEdits(edits)) else None
  }

  /** Accepted edits are carried out exactly when each value converts to the type of the constant it replaces. */
  lemma EditsSucceed(py: Conversions, doc: Json, edits: Edits)
    requires IsCase(doc) && GoodRules(Rules(doc)) && DistinctPaths(edits) && NoneInside(doc, edits)
    requires Validate(RuleEditModel(Rules(doc), 0), edits)
    ensures Batch(doc, AllEdits(edits))
    ensures Edited(py, doc, edits).Some? <==>
        forall i :: 0 <= i < |AllEdits(edits)| ==> NewValue(py, doc, AllEdits(edits)[i]).Some?
  {
    ValidatedIsBatch(doc, edits);
    BatchSucceeds(py, doc, AllEdits(edits));
  }

  /**
   Every edited slot gets the value formed from the untouched case, and every place apart from all slots is untouched.
   */
  lemma EditsAreFramed(py: Conversions, doc: Json, edits: Edits, q: seq<Seg>)
    requires IsCase(doc) && GoodRules(Rules(doc)) && DistinctPaths(edits) && NoneInside(doc, edits)
    requires Edited(py, doc, edits).Some?
    ensures Batch(doc, AllEdits(edits))
    ensures forall i :: 0 <= i < |AllEdits(edits)| ==>
      Walk(Edited(py, doc, edits).value, Slot(doc, AllEdits(edits)[i])) == NewValue(py, doc, AllEdits(edits)[i])
    ensures (forall i :: 0 <= i < |AllEdits(edits)| ==> Apart(Slot(doc, AllEdits(edits)[i]), q)) ==>
      Walk(Edited(py, doc, edits).value, q) == Walk(doc, q)
  {
    ValidatedIsBatch(doc, edits);
    forall i | 0 <= i < |AllEdits(edits)|
      ensures Walk(Edited(py, doc, edits).value, Slot(doc, AllEdits(edits)[i])) == NewValue(py, doc, AllEdits(edits)[i])
    {
      BatchEffect(py, doc, AllEdits(edits), i);
    }
    if forall i :: 0 <= i < |AllEdits(edits)| ==> Apart(Slot(doc, AllEdits(edits)[i]), q) {
      BatchFramed(py, doc, AllEdits(edits), q);
    }
  }

  /** The edited case does not depend on the order of the edits, not even between constants and operators. */
  lemma EditsOrderFree(py: Conversions, doc: Json, edits: Edits, order: seq<Edit>)
    requires IsCase(doc) && GoodRules(Rules(doc)) && DistinctPaths(edits) && NoneInside(doc, edits)
    requires Validate(RuleEditModel(Rules(doc), 0), edits)
    requires multiset(order) == multiset(AllEdits(edits))
    ensures ApplyAll(py, doc, order) == Edited(py, doc, edits)
  {
    ValidatedIsBatch(doc, edits);
    BatchOrderFree(py, doc, AllEdits(edits), order);
  }

  /** The edit puts an object where there was none: into a constant that takes any value. */
  predicate MakesObject(doc: Json, e: Edit) {
    Aimed(doc, e) && !e.operator && e.value.Obj? && (Held(doc, e).Null? || Held(doc, e).Str?)
  }

  lemma MakesObjectExactly(py: Conversions, doc: Json, e: Edit)
    requires Offered(doc, e) && !e.operator && NewValue(py, doc, e).Some?
    ensures NewValue(py, doc, e).value.Obj? <==> MakesObject(doc, e)
  {
  }

  /** The values sent are such that paths into the edited case are again unambiguous. */
  ghost predicate GoodValues(edits: Edits) {
    forall i :: 0 <= i < |AllEdits(edits)| ==> GoodValue(AllEdits(edits)[i].value)
  }

  /** The same edits are accepted again exactly if none of them has made an object of a constant. */
  lemma EditsValidateAgain(py: Conversions, doc: Json, edits: Edits)
    requires IsCase(doc) && GoodRules(Rules(doc)) && DistinctPaths(edits) && NoneInside(doc, edits) && GoodValues(edits)
    requires Edited(py, doc, edits).Some?
    ensures var case' := Edited(py, doc, edits).value;
      && IsCase(case') && GoodRules(Rules(case'))
      && (Validate(RuleEditModel(Rules(case'), 0), edits) <==>
            forall i :: 0 <= i < |AllEdits(edits)| ==> !MakesObject(doc, AllEdits(edits)[i]))
  {
    var es := AllEdits(edits);
    var case' := Edited(py, doc, edits).value;
    ValidatedIsBatch(doc, edits);
    BatchKeepsGood(py, doc, es);
    ValidatedExactly(doc, edits);
    ValidatedExactly(case', edits);
    forall i | 0 <= i < |es|
      ensures OfferedAs(case', edits, i) <==> !MakesObject(doc, es[i])
    {
      OfferedAgainExactly(py, doc, edits, i);
    }
  }

  /** One of the edits, seen in the edited case. */
  lemma OfferedAgainExactly(py: Conversions, doc: Json, edits: Edits, n: nat)
    requires IsCase(doc) && OfferedBatch(doc, AllEdits(edits)) && ApplyAll(py, doc, AllEdits(edits)).Some?
    requires n < |AllEdits(edits)| && OfferedAs(doc, edits, n)
    ensures OfferedAs(ApplyAll(py, doc, AllEdits(edits)).value, edits, n) <==> !MakesObject(doc, AllEdits(edits)[n])
  {
    var es := AllEdits(edits);
    var case' := ApplyAll(py, doc, es).value;
    forall i | 0 <= i < |es|
      ensures !Inside(doc, es[n], es[i])
    {
      if i != n {
        assert Apart(Slot(doc, es[i]), Slot(doc, es[n]));
        SlotsApartExactly(doc, es[i], es[n]);
      }
    }
    BatchKeepsPlaced(py, doc, es, es[n]);
    BatchEffect(py, doc, es, n);
    AimedSlot(case', es[n]);
    assert Held(case', es[n]) == NewValue(py, doc, es[n]).value;
    if !es[n].operator {
      MakesObjectExactly(py, doc, es[n]);
    }
  }

  // ---- When the edit model stays the same ----------------------------------------------------------------------

  /** The edit leaves nothing to see but itself: nothing is listed below the new value. */
  predicate NewHidden(py: Conversions, doc: Json, e: Edit) {
    Aimed(doc, e) && NewValue(py, doc, e).Some? && Hides(Node(doc, e), NewValue(py, doc, e).value)
  }

  lemma {:induction false} ModelAfterRule(rules: seq<Json>, rules': seq<Json>, r: nat, from: nat)
    requires r < |rules| == |rules'| && from <= |rules|
    requires forall i :: 0 <= i < |rules| ==> rules[i].Obj? && rules'[i].Obj? && (i != r ==> rules'[i] == rules[i])
    ensures var a, b := AstNodes(Formula(rules[r]), RulePath(r)), AstNodes(Formula(rules'[r]), RulePath(r));
      var all, all' := RuleEditModel(rules, from), RuleEditModel(rules', from);
      if from <= r then |all'| + |a| == |all| + |b| && (b == a ==> all' == all) else all' == all
    decreases |rules| - from
  {
    if from < |rules| {
      ModelAfterRule(rules, rules', r, from + 1);
    }
  }

  lemma EditGrowsModel(py: Conversions, doc: Json, e: Edit, case': Json)
    requires Offered(doc, e) && HeldHidden(doc, e) && Apply(py, doc, e) == Some(case')
    ensures IsCase(case') && Grows(RuleEditModel(Rules(doc), 0), RuleEditModel(Rules(case'), 0), NewHidden(py, doc, e))
    ensures NewHidden(py, doc, e) && !MakesObject(doc, e) ==>
        RuleEditModel(Rules(case'), 0) == RuleEditModel(Rules(doc), 0)
  {
    EditInCase(py, doc, e, case');
    var r, segs, k, v := e.path[1].i, e.path[3..], SlotName(doc, e), NewValue(py, doc, e).value;
    var formula := Formula(Rules(doc)[r]);
    PutNodes(formula, segs, k, v, RulePath(r));
    ModelAfterRule(Rules(doc), Rules(case'), r, 0);
    if e.operator {
      KindAfterOperator(Node(doc, e), k, v);
    } else {
      KindAfterConstant(Node(doc, e), v);
      MakesObjectExactly(py, doc, e);
    }
  }

  ghost predicate AllHeldHidden(doc: Json, es: seq<Edit>) { forall i :: 0 <= i < |es| ==> HeldHidden(doc, es[i]) }

  ghost predicate AllNewHidden(py: Conversions, doc: Json, es: seq<Edit>) {
    forall i :: 0 <= i < |es| ==> NewHidden(py, doc, es[i])
  }

  ghost predicate NoObjectMade(doc: Json, es: seq<Edit>) { forall i :: 0 <= i < |es| ==> !MakesObject(doc, es[i]) }

  lemma SeenAfterFirst(py: Conversions, doc: Json, es: seq<Edit>, case': Json)
    requires es != [] && OfferedBatch(doc, es) && AllHeldHidden(doc, es) && Apply(py, doc, es[0]) == Some(case')
    ensures OfferedBatch(case', es[1..]) && AllHeldHidden(case', es[1..])
    ensures AllNewHidden(py, doc, es) <==> NewHidden(py, doc, es[0]) && AllNewHidden(py, case', es[1..])
    ensures NoObjectMade(doc, es) <==> !MakesObject(doc, es[0]) && NoObjectMade(case', es[1..])
  {
    OfferedAfterFirst(py, doc, es, case');
    forall i | 1 <= i < |es|
      ensures HeldHidden(case', es[i]) && (NewHidden(py, case', es[i]) <==> NewHidden(py, doc, es[i]))
      ensures MakesObject(case', es[i]) <==> MakesObject(doc, es[i])
    {
      assert HeldHidden(doc, es[i]);
    }
    var rest := es[1..];
    assert forall i :: 0 <= i < |rest| ==> rest[i] == es[i + 1];
    assert forall i :: 1 <= i < |es| ==> es[i] == rest[i - 1];
  }

  lemma {:induction false} BatchGrowsModel(py: Conversions, doc: Json, es: seq<Edit>)
    requires IsCase(doc) && OfferedBatch(doc, es) && AllHeldHidden(doc, es) && ApplyAll(py, doc, es).Some?
    ensures var case' := ApplyAll(py, doc, es).value;
      && IsCase(case') && Grows(RuleEditModel(Rules(doc), 0), RuleEditModel(Rules(case'), 0), AllNewHidden(py, doc, es))
      && (AllNewHidden(py, doc, es) && NoObjectMade(doc, es) ==>
          RuleEditModel(Rules(case'), 0) == RuleEditModel(Rules(doc), 0))
    decreases |es|
  {
    if es != [] {
      var case' := Apply(py, doc, es[0]).value;
      EditGrowsModel(py, doc, es[0], case');
      SeenAfterFirst(py, doc, es, case');
      BatchGrowsModel(py, case', es[1..]);
    }
  }

  /**
   Over constants that show nothing, the edit model is the same afterwards exactly if the new constants show nothing
   either and none has become an object: plain constants, and any lists where the node is a field reference.
   */
  lemma PlainIsExact(py: Conversions, doc: Json, edits: Edits)
    requires IsCase(doc) && GoodRules(Rules(doc)) && DistinctPaths(edits) && OldHide(doc, edits) && GoodValues(edits)
    requires Edited(py, doc, edits).Some?
    ensures var case' := Edited(py, doc, edits).value;
      IsCase(case') && (RuleEditModel(Rules(case'), 0) == RuleEditModel(Rules(doc), 0) <==>
        forall i :: 0 <= i < |AllEdits(edits)| ==>
          NewHidden(py, doc, AllEdits(edits)[i]) && !MakesObject(doc, AllEdits(edits)[i]))
  {
    var es := AllEdits(edits);
    PlainIsBatch(doc, edits);
    BatchGrowsModel(py, doc, es);
    EditsValidateAgain(py, doc, edits);
    assert AllNewHidden(py, doc, es) && NoObjectMade(doc, es) <==>
      forall i :: 0 <= i < |es| ==> NewHidden(py, doc, es[i]) && !MakesObject(doc, es[i]);
  }
}
