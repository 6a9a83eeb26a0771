/** Nodes of rules in a replay, how their names and constants are read, and the walk over all of them. */
module ShapeNodes {
  import opened Common
  import opened Spelling

  /** A value; `Record` is any dictionary in a place where it is not read as a node. */
  datatype Json = Null | Bool(b: bool) | Num(n: real) | Str(s: string) | Arr(items: seq<Json>) | Record

  /**
   What is read of a node: `name` is its entry "function"; a missing entry reads as null, missing children
   are none. `NoNode` is a value that is no dictionary.
   */
  datatype Tree = Node(name: Json, constant: Json, children: seq<Tree>, named: seq<Entry>) | NoNode

  datatype Entry = Entry(key: string, value: Tree)

  // ---- Reading nodes -----------------------------------------------------------------------------------------

  /** The named child with the key, if there is one. */
  function NamedValue(node: Tree, key: string): (v: Tree)
    requires node.Node?
    ensures v == NoNode || exists i :: 0 <= i < |node.named| && v == node.named[i].value
  {
    Lookup(node.named, key)
  }

  function Lookup(named: seq<Entry>, key: string): (v: Tree)
    ensures v == NoNode || exists i :: 0 <= i < |named| && v == named[i].value
  {
    if named == [] then NoNode
    else if named[0].key == key then named[0].value
    else
      var v := Lookup(named[1..], key);
      assert v == NoNode || exists i :: 0 <= i < |named[1..]| && v == named[1..][i].value;
      v
  }

  function CanonicalFunctionName(node: Tree): string {
    if node.Node? && node.name.Str? then Canon(node.name.s) else ""
  }

  function ConstantValue(node: Tree): Json {
    if node.Node?
        && (node.name.Null? || node.name == Str("") || node.name == Str("constant") || node.name == Str("Constant"))
    then node.constant else Null
  }

  // ---- What is read -------------------------------------------------------------------------------------------

  /** The node has a function name that is a spelling of this one. */
  ghost predicate IsNamed(node: Tree, name: string) { node.Node? && node.name.Str? && Spelled(node.name.s, name) }

  /** The first entry with the key. */
  predicate EntryAt(node: Tree, key: string, i: nat) {
    && node.Node? && i < |node.named| && node.named[i].key == key
    && forall j :: 0 <= j < i ==> node.named[j].key != key
  }

  predicate HasEntry(node: Tree, key: string, child: Tree)
    requires node.Node?
  {
    exists i :: 0 <= i < |node.named| && EntryAt(node, key, i) && node.named[i].value == child
  }

  /** The entry with the key is a constant: a node without a function, or with that of a constant. */
  predicate HasConstant(node: Tree, key: string, v: Json)
    requires node.Node?
  {
    exists i :: 0 <= i < |node.named| && EntryAt(node, key, i)
      && node.named[i].value.Node? && node.named[i].value.constant == v
      && node.named[i].value.name in {Null, Str(""), Str("constant"), Str("Constant")}
  }

  lemma NamedExactly(node: Tree, name: string)
    requires name != "" && Trimmed(name) && forall k :: 0 <= k < |name| ==> !('A' <= name[k] <= 'Z')
    ensures CanonicalFunctionName(node) == name <==> IsNamed(node, name)
  {
    if node.Node? && node.name.Str? {
      CanonExactly(node.name.s, name);
    }
  }

  lemma {:induction false} FirstEntry(named: seq<Entry>, key: string) returns (i: nat)
    ensures i <= |named| && forall j :: 0 <= j < i ==> named[j].key != key
    ensures if i < |named| then named[i].key == key && Lookup(named, key) == named[i].value
      else Lookup(named, key) == NoNode
  {
    i := 0;
    if named != [] && named[0].key != key {
      var rest := FirstEntry(named[1..], key);
      i := rest + 1;
      assert forall j :: 0 < j < |named| ==> named[j] == named[1..][j - 1];
    }
  }

  lemma EntryExactly(node: Tree, key: string, child: Tree)
    requires node.Node? && child.Node?
    ensures NamedValue(node, key) == child <==> HasEntry(node, key, child)
  {
    var i := FirstEntry(node.named, key);
    assert i < |node.named| ==> EntryAt(node, key, i);
    assert forall j :: 0 <= j < |node.named| && EntryAt(node, key, j) ==> i == j;
  }

  lemma ConstantExactly(node: Tree, key: string, v: Json)
    requires node.Node? && !v.Null?
    ensures ConstantValue(NamedValue(node, key)) == v <==> HasConstant(node, key, v)
  {
    var i := FirstEntry(node.named, key);
    assert i < |node.named| ==> EntryAt(node, key, i);
    assert forall j :: 0 <= j < |node.named| && EntryAt(node, key, j) ==> i == j;
  }

  // ---- Walking ---------------------------------------------------------------------------------------------------

  function Walk(node: Tree): seq<Tree>
    decreases node, 1, 0
  {
    if node.Node? then [node] + WalkChildren(node, |node.children|) + WalkNamed(node, |node.named|) else []
  }

  /** The walk of the first `n` children. */
  function WalkChildren(node: Tree, n: nat): seq<Tree>
    requires node.Node? && n <= |node.children|
    decreases node, 0, n
  {
    if n == 0 then [] else WalkChildren(node, n - 1) + Walk(node.children[n - 1])
  }

  function WalkNamed(node: Tree, n: nat): seq<Tree>
    requires node.Node? && n <= |node.named|
    decreases node, 0, n
  {
    if n == 0 then [] else WalkNamed(node, n - 1) + Walk(node.named[n - 1].value)
  }

  lemma Associative(a: seq<Tree>, b: seq<Tree>, c: seq<Tree>)
    ensures (a + b) + c == a + (b + c)
  {}

  method WalkNodes(node: Tree) returns (nodes: seq<Tree>)
    ensures nodes == Walk(node)
    decreases node
  {
    if !node.Node? {
      return [];
    }
    var children := node.children;
    var named := node.named;
    nodes := [node];
    for i := 0 to |children|
      invariant nodes == [node] + WalkChildren(node, i)
    {
      var more := WalkNodes(children[i]);
      Associative([node], WalkChildren(node, i), more);
      nodes := nodes + more;
    }
    ghost var before := nodes;
    for i := 0 to |named|
      invariant nodes == before + WalkNamed(node, i)
    {
      var more := WalkNodes(named[i].value);
      Associative(before, WalkNamed(node, i), more);
      nodes := nodes + more;
    }
  }

  /** A way down from a node. */
  datatype Turn = Child(i: nat) | Named(i: nat)

  function Below(node: Tree, path: seq<Turn>): Option<Tree>
    decreases |path|
  {
    if path == [] then Some(node)
    else if !node.Node? then None
    else
      match path[0]
      case Child(i) => if i < |node.children| then Below(node.children[i], path[1..]) else None
      case Named(i) => if i < |node.named| then Below(node.named[i].value, path[1..]) else None
  }

  lemma {:induction false} ChildInWalk(node: Tree, n: nat, i: nat, found: Tree)
    requires node.Node? && i < n <= |node.children| && found in Walk(node.children[i])
    ensures found in WalkChildren(node, n)
    decreases n
  {
    if i < n - 1 {
      ChildInWalk(node, n - 1, i, found);
    }
  }

  lemma {:induction false} NamedInWalk(node: Tree, n: nat, i: nat, found: Tree)
    requires node.Node? && i < n <= |node.named| && found in Walk(node.named[i].value)
    ensures found in WalkNamed(node, n)
    decreases n
  {
    if i < n - 1 {
      NamedInWalk(node, n - 1, i, found);
    }
  }

  /** Every node at the end of a path is walked. */
  lemma {:induction false} WalkFindsAll(node: Tree, path: seq<Turn>)
    requires Below(node, path).Some? && Below(node, path).value.Node?
    ensures Below(node, path).value in Walk(node)
    decreases |path|
  {
    if path != [] {
      match path[0]
      case Child(i) =>
        WalkFindsAll(node.children[i], path[1..]);
        ChildInWalk(node, |node.children|, i, Below(node, path).value);
      case Named(i) =>
        WalkFindsAll(node.named[i].value, path[1..]);
        NamedInWalk(node, |node.named|, i, Below(node, path).value);
    }
  }

  /** And whatever is walked is a node at the end of a path. */
  lemma {:induction false} WalkFindsOnly(node: Tree, found: Tree) returns (path: seq<Turn>)
    requires found in Walk(node)
    ensures found.Node? && Below(node, path) == Some(found)
    decreases node, 1, 0
  {
    if found == node {
      path := [];
    } else if found in WalkChildren(node, |node.children|) {
      path := FoundInChildren(node, |node.children|, found);
    } else {
      path := FoundInNamed(node, |node.named|, found);
    }
  }

  lemma {:induction false} FoundInChildren(node: Tree, n: nat, found: Tree) returns (path: seq<Turn>)
    requires node.Node? && n <= |node.children| && found in WalkChildren(node, n)
    ensures found.Node? && Below(node, path) == Some(found)
    decreases node, 0, n
  {
    if found in Walk(node.children[n - 1]) {
      var rest := WalkFindsOnly(node.children[n - 1], found);
      path := [Child(n - 1)] + rest;
      assert path[1..] == rest;
    } else {
      path := FoundInChildren(node, n - 1, found);
    }
  }

  lemma {:induction false} FoundInNamed(node: Tree, n: nat, found: Tree) returns (path: seq<Turn>)
    requires node.Node? && n <= |node.named| && found in WalkNamed(node, n)
    ensures found.Node? && Below(node, path) == Some(found)
    decreases node, 0, n
  {
    if found in Walk(node.named[n - 1].value) {
      var rest := WalkFindsOnly(node.named[n - 1].value, found);
      path := [Named(n - 1)] + rest;
      assert path[1..] == rest;
    } else {
      path := FoundInNamed(node, n - 1, found);
    }
  }
}
