/**
 Editing rules in place through their paths.

 `ApplyRuleEdits` is the source's pair of loops; `Apply` is what one edit does to the tree, a put into one
 place of it.
 */
module RuleEdits {
  import opened Common
  import opened RulePaths

  // ---- Lenses on JSON trees ---------------------------------------------------------------------

  function Replace(fields: seq<Field>, k: string, v: Json): (r: seq<Field>)
    ensures |r| == |fields|
    ensures forall i :: 0 <= i < |fields| ==> r[i].key == fields[i].key
  {
    if fields == [] then []
    else if fields[0].key == k then [Field(k, v)] + fields[1..]
    else [fields[0]] + Replace(fields[1..], k, v)
  }

  /** The node has a slot that can be assigned under this segment. */
  predicate HasSlot(node: Json, seg: Seg) { !node.Str? && Child(node, seg).Some? }

  function SetChild(node: Json, seg: Seg, v: Json): Json
    requires HasSlot(node, seg)
  {
    match node
    case Obj(fields) => Obj(Replace(fields, seg.key, v))
    case Arr(items) => Arr(items[seg.i := v])
  }

  /** The tree with the value at a path replaced; unchanged if the path leads nowhere. */
  function Put(node: Json, segs: seq<Seg>, v: Json): Json
    decreases |segs|
  {
    if segs == [] then v
    else if HasSlot(node, segs[0]) then SetChild(node, segs[0], Put(Child(node, segs[0]).value, segs[1..], v))
    else node
  }

  /** Neither path is a prefix of the other. */
  predicate Apart(p: seq<Seg>, q: seq<Seg>)
    decreases |p|
  {
    p != [] && q != [] && (p[0] != q[0] || Apart(p[1..], q[1..]))
  }

  lemma {:induction false} LookupReplace(fields: seq<Field>, k: string, v: Json, j: string)
    ensures Lookup(Replace(fields, k, v), j) == if j == k && Lookup(fields, k).Some? then Some(v) else Lookup(fields, j)
  {
    if fields != [] && fields[0].key != k {
      LookupReplace(fields[1..], k, v, j);
      assert Replace(fields, k, v)[1..] == Replace(fields[1..], k, v);
    } else if fields != [] {
      assert Replace(fields, k, v)[1..] == fields[1..];
    }
  }

  lemma {:induction false} ReplaceTwice(fields: seq<Field>, k: string, v: Json, w: Json)
    ensures Replace(Replace(fields, k, v), k, w) == Replace(fields, k, w)
  {
    if fields != [] {
      if fields[0].key != k {
        ReplaceTwice(fields[1..], k, v, w);
        assert Replace(fields, k, v)[1..] == Replace(fields[1..], k, v);
      } else {
        assert Replace(fields, k, v)[1..] == fields[1..];
      }
    }
  }

  lemma {:induction false} ReplaceCommutes(fields: seq<Field>, k: string, v: Json, j: string, w: Json)
    requires j != k
    ensures Replace(Replace(fields, k, v), j, w) == Replace(Replace(fields, j, w), k, v)
  {
    if fields != [] {
      assert Replace(fields, k, v)[1..] == if fields[0].key == k then fields[1..] else Replace(fields[1..], k, v);
      assert Replace(fields, j, w)[1..] == if fields[0].key == j then fields[1..] else Replace(fields[1..], j, w);
      ReplaceCommutes(fields[1..], k, v, j, w);
    }
  }

  lemma ChildOfSet(node: Json, seg: Seg, v: Json, other: Seg)
    requires HasSlot(node, seg)
    ensures Child(SetChild(node, seg, v), other) == if other == seg then Some(v) else Child(node, other)
  {
    if node.Obj? && other.Key? {
      LookupReplace(node.fields, seg.key, v, other.key);
    }
  }

  lemma SetTwice(node: Json, seg: Seg, v: Json, w: Json)
    requires HasSlot(node, seg)
    ensures HasSlot(SetChild(node, seg, v), seg) && SetChild(SetChild(node, seg, v), seg, w) == SetChild(node, seg, w)
  {
    ChildOfSet(node, seg, v, seg);
    if node.Obj? {
      ReplaceTwice(node.fields, seg.key, v, w);
    } else {
      assert node.items[seg.i := v][seg.i := w] == node.items[seg.i := w];
    }
  }

  lemma SetCommutes(node: Json, p: Seg, v: Json, q: Seg, w: Json)
    requires HasSlot(node, p) && HasSlot(node, q) && p != q
    ensures HasSlot(SetChild(node, p, v), q) && HasSlot(SetChild(node, q, w), p)
    ensures SetChild(SetChild(node, p, v), q, w) == SetChild(SetChild(node, q, w), p, v)
  {
    ChildOfSet(node, p, v, q);
    ChildOfSet(node, q, w, p);
    if node.Obj? {
      ReplaceCommutes(node.fields, p.key, v, q.key, w);
    } else {
      assert node.items[p.i := v][q.i := w] == node.items[q.i := w][p.i := v];
    }
  }

  /** The path leads somewhere, through objects and lists only. */
  predicate Solid(node: Json, p: seq<Seg>)
    decreases |p|
  {
    p == [] || (HasSlot(node, p[0]) && Solid(Child(node, p[0]).value, p[1..]))
  }

  /** Lens law: what was put is found. */
  lemma {:induction false} WalkPut(node: Json, p: seq<Seg>, v: Json)
    requires Solid(node, p)
    ensures Walk(Put(node, p, v), p) == Some(v)
    decreases |p|
  {
    if p != [] {
      var child := Child(node, p[0]).value;
      WalkPut(child, p[1..], v);
      ChildOfSet(node, p[0], Put(child, p[1..], v), p[0]);
    }
  }

  /** Lens law: a put is not seen from a path apart from it. */
  lemma {:induction false} WalkPutApart(node: Json, p: seq<Seg>, v: Json, q: seq<Seg>)
    requires Apart(p, q)
    ensures Walk(Put(node, p, v), q) == Walk(node, q)
    decreases |p|
  {
    if HasSlot(node, p[0]) {
      var child := Child(node, p[0]).value;
      ChildOfSet(node, p[0], Put(child, p[1..], v), q[0]);
      if p[0] == q[0] {
        WalkPutApart(child, p[1..], v, q[1..]);
      }
    }
  }

  /** A put that leads nowhere in a node leads nowhere after a put into another place of it. */
  lemma PutNowhere(node: Json, p: seq<Seg>, v: Json, q: seq<Seg>, w: Json)
    requires p != [] && q != [] && !HasSlot(node, q[0])
    ensures Put(node, q, w) == node && Put(Put(node, p, v), q, w) == Put(node, p, v)
  {
    if HasSlot(node, p[0]) {
      ChildOfSet(node, p[0], Put(Child(node, p[0]).value, p[1..], v), q[0]);
    }
  }

  /** Two puts below one child of a node. */
  lemma PutTwiceBelow(node: Json, seg: Seg, p: seq<Seg>, v: Json, q: seq<Seg>, w: Json)
    requires HasSlot(node, seg)
    ensures var child := Child(node, seg).value;
      Put(Put(node, [seg] + p, v), [seg] + q, w) == SetChild(node, seg, Put(Put(child, p, v), q, w))
  {
    var child := Child(node, seg).value;
    assert ([seg] + p)[1..] == p && ([seg] + q)[1..] == q;
    ChildOfSet(node, seg, Put(child, p, v), seg);
    SetTwice(node, seg, Put(child, p, v), Put(Put(child, p, v), q, w));
  }

  /** Lens law: puts at paths apart commute. */
  lemma {:induction false} PutPutApart(node: Json, p: seq<Seg>, v: Json, q: seq<Seg>, w: Json)
    requires Apart(p, q)
    ensures Put(Put(node, p, v), q, w) == Put(Put(node, q, w), p, v)
    decreases |p|
  {
    if !HasSlot(node, q[0]) {
      PutNowhere(node, p, v, q, w);
    } else if !HasSlot(node, p[0]) {
      PutNowhere(node, q, w, p, v);
    } else if p[0] == q[0] {
      assert p == [p[0]] + p[1..] && q == [p[0]] + q[1..];
      PutPutApart(Child(node, p[0]).value, p[1..], v, q[1..], w);
      PutTwiceBelow(node, p[0], p[1..], v, q[1..], w);
      PutTwiceBelow(node, p[0], q[1..], w, p[1..], v);
    } else {
      PutPutSiblings(node, p, v, q, w);
    }
  }

  lemma PutPutSiblings(node: Json, p: seq<Seg>, v: Json, q: seq<Seg>, w: Json)
    requires p != [] && q != [] && p[0] != q[0] && HasSlot(node, p[0]) && HasSlot(node, q[0])
    ensures Put(Put(node, p, v), q, w) == Put(Put(node, q, w), p, v)
  {
    var pv, qv := Put(Child(node, p[0]).value, p[1..], v), Put(Child(node, q[0]).value, q[1..], w);
    ChildOfSet(node, p[0], pv, q[0]);
    ChildOfSet(node, q[0], qv, p[0]);
    SetCommutes(node, p[0], pv, q[0], qv);
  }

  /** A put below a path is a put into the value found there. */
  lemma {:induction false} PutThrough(node: Json, p: seq<Seg>, rest: seq<Seg>, v: Json)
    requires Solid(node, p)
    ensures Walk(node, p).Some? && Put(node, p + rest, v) == Put(node, p, Put(Walk(node, p).value, rest, v))
    ensures Solid(Put(node, p + rest, v), p)
    decreases |p|
  {
    if p == [] {
      assert p + rest == rest;
    } else {
      var child := Child(node, p[0]).value;
      assert (p + rest)[1..] == p[1..] + rest;
      PutThrough(child, p[1..], rest, v);
      ChildOfSet(node, p[0], Put(child, p[1..] + rest, v), p[0]);
    }
  }

  lemma {:induction false} WalkAppend(node: Json, p: seq<Seg>, rest: seq<Seg>)
    ensures Walk(node, p + rest) == match Walk(node, p) case Some(m) => Walk(m, rest) case None => None
    decreases |p|
  {
    if p == [] {
      assert p + rest == rest;
    } else if Child(node, p[0]).Some? {
      assert (p + rest)[1..] == p[1..] + rest;
      WalkAppend(Child(node, p[0]).value, p[1..], rest);
    }
  }

  // ---- The edit engine ----------------------------------------------------------------------------

  /** Python's int(), float(), `str(v).lower() == "true"` and comma splitting. */
  datatype Conversions = Conversions(toInt: Json -> Option<int>, toFloat: Json -> Option<real>, saysTrue: Json -> bool,
      split: Json -> seq<string>)

  /** A new constant in the type of the old one; None when int() or float() raises. */
  function Coerce(py: Conversions, value: Json, previous: Json): Option<Json> {
    match previous
    case Bool(_) => Some(if value.Bool? then value else Bool(py.saysTrue(value)))
    case Num(_) => (match py.toInt(value) case Some(n) => Some(Num(n)) case None => None)
    case Float(_) => (match py.toFloat(value) case Some(x) => Some(Float(x)) case None => None)
    case Arr(_) => Some(if value.Arr? then value else var parts := py.split(value);
        Arr(seq(|parts|, i requires 0 <= i < |parts| => Str(parts[i]))))
    case Null => Some(if value == Str("") then Null else value)
    case _ => Some(value)
  }

  datatype Edits = Edits(constants: seq<(string, Json)>, operators: seq<(string, Json)>)

  function Rules(doc: Json): seq<Json>
    requires doc.Obj?
  {
    match Lookup(doc.fields, "rules") case Some(Arr(items)) => items case _ => []
  }

  /** The item shown for a path; of several the last, as in a dictionary that is filled in order. */
  function Find(items: seq<Item>, path: string): (r: Option<Item>)
    ensures r.Some? ==> exists i :: 0 <= i < |items| && items[i] == r.value && r.value.path == path
  {
    if items == [] then None
    else if items[|items| - 1].path == path then Some(items[|items| - 1])
    else
      var r := Find(items[..|items| - 1], path);
      assert r.Some? ==> exists i :: 0 <= i < |items| - 1 && items[..|items| - 1][i] == r.value && items[i] == r.value;
      r
  }

  predicate ConstantAllowed(model: seq<Item>, path: string) {
    var item := Find(model, path);
    item.Some? && item.value.editableConstant
  }

  predicate OperatorAllowed(model: seq<Item>, path: string, value: Json) {
    var item := Find(model, path);
    item.Some? && item.value.operators.Some? && value.Str? && value.s in item.value.operators.value
  }

  predicate Validate(model: seq<Item>, edits: Edits) {
    && (forall i :: 0 <= i < |edits.constants| ==> ConstantAllowed(model, edits.constants[i].0))
    && (forall i :: 0 <= i < |edits.operators| ==> OperatorAllowed(model, edits.operators[i].0, edits.operators[i].1))
  }

  datatype Edit = Edit(path: seq<Seg>, operator: bool, value: Json)

  /** The slot of the node that an edit assigns; None when the source leaves the node alone or raises. */
  function SlotKey(fields: seq<Field>, operator: bool): Option<string> {
    if !operator then (if Lookup(fields, "constant").Some? then Some("constant") else None)
    else if Lookup(fields, "function").Some? then Some("function")
    else if Lookup(fields, "name").Some? then Some("name")
    else None
  }

  /** One pass of an edit loop; None when it raises. */
  function Apply(py: Conversions, doc: Json, e: Edit): Option<Json> {
    match Walk(doc, e.path)
    case Some(Obj(fields)) =>
      (match SlotKey(fields, e.operator)
       case Some(k) =>
         (match (if e.operator then Some(e.value) else Coerce(py, e.value, Lookup(fields, k).value))
          case Some(v) => Some(Put(doc, e.path + [Key(k)], v))
          case None => None)
       case None => if e.operator then Some(doc) else None)
    case _ => None
  }

  function ApplyAll(py: Conversions, doc: Json, es: seq<Edit>): Option<Json>
    decreases |es|
  {
    if es == [] then Some(doc)
    else match Apply(py, doc, es[0]) case Some(next) => ApplyAll(py, next, es[1..]) case None => None
  }

  function EditsOf(edits: seq<(string, Json)>, operator: bool): (r: seq<Edit>)
    ensures |r| == |edits|
    ensures forall i :: 0 <= i < |edits| ==> r[i] == Edit(Tokens(edits[i].0), operator, edits[i].1)
  {
    seq(|edits|, i requires 0 <= i < |edits| => Edit(Tokens(edits[i].0), operator, edits[i].1))
  }

  function AllEdits(edits: Edits): seq<Edit> { EditsOf(edits.constants, false) + EditsOf(edits.operators, true) }

  lemma {:induction false} ApplyAllAppend(py: Conversions, doc: Json, es: seq<Edit>, more: seq<Edit>)
    ensures ApplyAll(py, doc, es + more) == match ApplyAll(py, doc, es) case Some(c) => ApplyAll(py, c, more)
        case None => None
    decreases |es|
  {
    if es == [] {
      assert es + more == more;
    } else if Apply(py, doc, es[0]).Some? {
      assert (es + more)[1..] == es[1..] + more;
      ApplyAllAppend(py, Apply(py, doc, es[0]).value, es[1..], more);
    }
  }

  /** One loop of the edit engine, over the constants or over the operators. */
  method RunEdits(py: Conversions, start: Json, edits: seq<(string, Json)>, operator: bool)
      returns (edited: Option<Json>)
    ensures edited == ApplyAll(py, start, EditsOf(edits, operator))
  {
    var doc := start;
    ghost var es := EditsOf(edits, operator);
    for i := 0 to |edits|
      invariant ApplyAll(py, start, es[..i]) == Some(doc)
    {
      var (path, value) := edits[i];
      assert es[..i + 1] == es[..i] + [es[i]] && es == es[..i] + es[i..] && es[i..][0] == es[i];
      ApplyAllAppend(py, start, es[..i], [es[i]]);
      ApplyAllAppend(py, start, es[..i], es[i..]);
      assert ApplyAll(py, doc, [es[i]]) == Apply(py, doc, es[i]) by {
        assert [es[i]][1..] == [];
      }
      var node := PathGet(doc, path);
      if node.None? || !node.value.Obj? {
        return None;
      }
      var k := SlotKey(node.value.fields, operator);
      if k.None? {
        if !operator {
          return None;
        }
      } else {
        var v := if operator then Some(value) else Coerce(py, value, Lookup(node.value.fields, k.value).value);
        if v.None? {
          return None;
        }
        doc := Put(doc, Tokens(path) + [Key(k.value)], v.value);
      }
    }
    assert es[..|edits|] == es;
    return Some(doc);
  }

  /** None: the edits were refused, or an assignment raised. */
  method ApplyRuleEdits(py: Conversions, doc: Json, edits: Edits) returns (edited: Option<Json>)
    requires doc.Obj? && forall r <- Rules(doc) :: r.Obj?
    ensures edited == if Validate(RuleEditModel(Rules(doc), 0), edits) then ApplyAll(py, doc, AllEdits(edits)) else None
  {
    if !Validate(RuleEditModel(Rules(doc), 0), edits) {
      return None;
    }
    ApplyAllAppend(py, doc, EditsOf(edits.constants, false), EditsOf(edits.operators, true));
    edited := RunEdits(py, doc, edits.constants, false);
    if edited.Some? {
      edited := RunEdits(py, edited.value, edits.operators, true);
    }
  }
}
