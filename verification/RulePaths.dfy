/**
 Paths into rule formulas: `ast_nodes` prints one for every node, `path_get` reads one back.

 JSON objects are lists of fields in insertion order, as the source's dictionaries are.
 The round trip, and the fact that no two nodes of any two rules share a path, hold exactly when the
 keys on the paths are identifiers.
 */
module RulePaths {
  import opened Common

  datatype Json =
    | Null
    | Bool(b: bool)
    | Num(n: int)
    | Float(x: real)
    | Str(s: string)
    | Arr(items: seq<Json>)
    | Obj(fields: seq<Field>)

  datatype Field = Field(key: string, value: Json)

  datatype Seg = Key(key: string) | Index(i: nat)

  // ---- Objects ----------------------------------------------------------------------------------

  function Lookup(fields: seq<Field>, k: string): Option<Json> {
    if fields == [] then None else if fields[0].key == k then Some(fields[0].value) else Lookup(fields[1..], k)
  }

  predicate Distinct(fields: seq<Field>) {
    forall i, j :: 0 <= i < j < |fields| ==> fields[i].key != fields[j].key
  }

  /** Every object in the tree has distinct keys. */
  predicate IsDict(j: Json) {
    match j
    case Arr(items) => forall x <- items :: IsDict(x)
    case Obj(fields) => Distinct(fields) && forall f <- fields :: IsDict(f.value)
    case _ => true
  }

  predicate Truthy(j: Json) {
    match j
    case Null => false
    case Bool(b) => b
    case Num(n) => n != 0
    case Float(x) => x != 0.0
    case Str(s) => s != ""
    case Arr(items) => items != []
    case Obj(fields) => fields != []
  }

  /** `node.get("function") or node.get("name")`. */
  function FunctionOf(fields: seq<Field>): Json {
    var f := Lookup(fields, "function");
    if f.Some? && Truthy(f.value) then f.value
    else match Lookup(fields, "name") case Some(n) => n case None => Null
  }

  const COMPARISONS := {"eq", "neq", "gt", "gte", "lt", "lte", ">", ">=", "<", "<=", "="}
  const CONNECTIVES := {"and", "or"}
  const ARITHMETIC := {"add", "subtract", "multiply", "divide"}
  const TEXT_TESTS := {"contains", "in", "starts_with", "ends_with"}

  function OperatorGroup(name: Json): Option<set<string>> {
    if !name.Str? then None
    else if name.s in COMPARISONS then Some(COMPARISONS)
    else if name.s in CONNECTIVES then Some(CONNECTIVES)
    else if name.s in ARITHMETIC then Some(ARITHMETIC)
    else if name.s in TEXT_TESTS then Some(TEXT_TESTS)
    else None
  }

  predicate IsFieldRef(name: Json) { name in {Str("field_ref"), Str("Payload"), Str("payload")} }

  predicate EditableConstant(v: Json) { !v.Obj? }

  // ---- Printing -----------------------------------------------------------------------------------

  predicate IsDigit(c: char) { '0' <= c <= '9' }
  predicate AllDigits(s: string) { forall i :: 0 <= i < |s| ==> IsDigit(s[i]) }

  function Digit(d: nat): char
    requires d < 10
  {
    '0' + d as char
  }

  function Decimal(n: nat): (s: string)
    ensures s != "" && AllDigits(s)
  {
    if n < 10 then [Digit(n)] else Decimal(n / 10) + [Digit(n % 10)]
  }

  function Text(seg: Seg): string {
    match seg
    case Key(k) => "." + k
    case Index(i) => "[" + Decimal(i) + "]"
  }

  /** A path below a node, as it is appended to the node's own path. */
  function Print(segs: seq<Seg>): string {
    if segs == [] then "" else Text(segs[0]) + Print(segs[1..])
  }

  datatype Item = Item(path: string, operators: Option<set<string>>, editableConstant: bool)

  function ItemOf(fields: seq<Field>, path: string): Item {
    Item(path, OperatorGroup(FunctionOf(fields)),
         Lookup(fields, "constant").Some? && EditableConstant(Lookup(fields, "constant").value))
  }

  /** Every editable node of a formula, with its path. */
  function AstNodes(node: Json, path: string): seq<Item>
    decreases node, 1
  {
    if !node.Obj? then []
    else [ItemOf(node.fields, path)] + if IsFieldRef(FunctionOf(node.fields)) then [] else FieldNodes(node.fields, path)
  }

  function FieldNodes(fields: seq<Field>, path: string): seq<Item>
    decreases fields, 0
  {
    if fields == [] then [] else ValueNodes(fields[0].key, fields[0].value, path) + FieldNodes(fields[1..], path)
  }

  function ValueNodes(key: string, value: Json, path: string): seq<Item>
    decreases value, 2
  {
    match value
    case Obj(_) => AstNodes(value, path + "." + key)
    case Arr(items) => ItemNodes(items, path + "." + key, 0)
    case _ => []
  }

  function ItemNodes(items: seq<Json>, prefix: string, from: nat): seq<Item>
    requires from <= |items|
    decreases items, |items| - from
  {
    if from == |items| then []
    else AstNodes(items[from], prefix + "[" + Decimal(from) + "]") + ItemNodes(items, prefix, from + 1)
  }

  function Formula(rule: Json): Json
    requires rule.Obj?
  {
    match Lookup(rule.fields, "formula") case Some(f) => f case None => Obj([])
  }

  function SlotPath(list: string, i: nat, slot: string): string { list + ("[" + Decimal(i) + "]") + ("." + slot) }

  function RulePath(rule: nat): string { SlotPath("rules", rule, "formula") }

  /** The nodes of all rules from the given one on. */
  function RuleEditModel(rules: seq<Json>, from: nat): seq<Item>
    requires from <= |rules| && forall r <- rules :: r.Obj?
    decreases |rules| - from
  {
    if from == |rules| then []
    else AstNodes(Formula(rules[from]), RulePath(from)) + RuleEditModel(rules, from + 1)
  }

  // ---- Reading --------------------------------------------------------------------------------------

  predicate IdentStart(c: char) { 'A' <= c <= 'Z' || 'a' <= c <= 'z' || c == '_' }
  predicate IdentChar(c: char) { IdentStart(c) || '0' <= c <= '9' }

  predicate IsIdentifier(s: string) { s != "" && IdentStart(s[0]) && forall i :: 0 <= i < |s| ==> IdentChar(s[i]) }

  function IdentLength(s: string): (n: nat)
    ensures n <= |s| && (forall i :: 0 <= i < n ==> IdentChar(s[i])) && (n < |s| ==> !IdentChar(s[n]))
  {
    if s == "" || !IdentChar(s[0]) then 0 else 1 + IdentLength(s[1..])
  }

  function DigitLength(s: string): (n: nat)
    ensures n <= |s| && (forall i :: 0 <= i < n ==> IsDigit(s[i])) && (n < |s| ==> !IsDigit(s[n]))
  {
    if s == "" || !IsDigit(s[0]) then 0 else 1 + DigitLength(s[1..])
  }

  function DigitValue(c: char): nat
    requires IsDigit(c)
  {
    c as nat - '0' as nat
  }

  function ParseDecimal(s: string): nat
    requires AllDigits(s)
  {
    if s == "" then 0 else 10 * ParseDecimal(s[..|s| - 1]) + DigitValue(s[|s| - 1])
  }

  /** The token at the front of the text, if one starts there, and how many characters it takes. */
  function Token(s: string): (r: Option<(Seg, nat)>)
    requires s != ""
    ensures r.Some? ==> 0 < r.value.1 <= |s|
    ensures r.Some? && r.value.0.Key? ==> IsIdentifier(r.value.0.key)
  {
    if IdentStart(s[0]) then Some((Key(s[..IdentLength(s)]), IdentLength(s)))
    else
      var d := DigitLength(s[1..]);
      if s[0] == '[' && d > 0 && 1 + d < |s| && s[1 + d] == ']' then Some((Index(ParseDecimal(s[1..][..d])), d + 2))
          else None
  }

  /** All tokens of a path, left to right; characters that start no token are skipped. */
  function Tokens(s: string): (r: seq<Seg>)
    ensures forall i :: 0 <= i < |r| ==> r[i].Key? ==> IsIdentifier(r[i].key)
  {
    if s == "" then []
    else
      match Token(s)
      case Some((seg, n)) => [seg] + Tokens(s[n..])
      case None => Tokens(s[1..])
  }

  function Child(node: Json, seg: Seg): Option<Json> {
    match (node, seg)
    case (Obj(fields), Key(k)) => Lookup(fields, k)
    case (Arr(items), Index(i)) => if i < |items| then Some(items[i]) else None
    case (Str(s), Index(i)) => if i < |s| then Some(Str([s[i]])) else None
    case _ => None
  }

  function Walk(node: Json, segs: seq<Seg>): Option<Json>
    decreases |segs|
  {
    if segs == [] then Some(node)
    else match Child(node, segs[0]) case None => None case Some(child) => Walk(child, segs[1..])
  }

  /** None is the KeyError, IndexError or TypeError the lookup raises. */
  method PathGet(root: Json, path: string) returns (found: Option<Json>)
    ensures found == Walk(root, Tokens(path))
  {
    var current := root;
    var cursor := 0;
    assert path[0..] == path;
    while cursor < |path|
      invariant 0 <= cursor <= |path|
      invariant Walk(current, Tokens(path[cursor..])) == Walk(root, Tokens(path))
    {
      var rest := path[cursor..];
      var part := Token(rest);
      if part.None? {
        cursor := cursor + 1;
        assert path[cursor..] == rest[1..];
      } else {
        var (seg, n) := part.value;
        assert Tokens(rest) == [seg] + Tokens(rest[n..]);
        var child := Child(current, seg);
        if child.None? {
          return None;
        }
        current := child.value;
        cursor := cursor + n;
        assert path[cursor..] == rest[n..];
      }
    }
    return Some(current);
  }

  // ---- Round trip --------------------------------------------------------------------------------------

  lemma {:induction false} ParseDecimalInverts(n: nat)
    ensures ParseDecimal(Decimal(n)) == n
  {
    if n >= 10 {
      ParseDecimalInverts(n / 10);
      var s := Decimal(n);
      assert s[..|s| - 1] == Decimal(n / 10);
    }
  }

  lemma IdentifierToken(k: string, rest: string)
    requires IsIdentifier(k) && (rest == "" || !IdentChar(rest[0]))
    ensures Tokens(k + rest) == [Key(k)] + Tokens(rest)
  {
    var s := k + rest;
    assert forall i :: 0 <= i < |k| ==> s[i] == k[i] && IdentChar(k[i]);
    assert rest != "" ==> s[|k|] == rest[0];
    assert IdentLength(s) == |k|;
    assert s[..|k|] == k && s[|k|..] == rest;
  }

  lemma IndexToken(i: nat, rest: string)
    ensures Tokens("[" + Decimal(i) + "]" + rest) == [Index(i)] + Tokens(rest)
  {
    var d := Decimal(i);
    var s := "[" + d + "]" + rest;
    var t := s[1..];
    assert t == d + "]" + rest;
    assert forall j :: 0 <= j < |d| ==> t[j] == d[j] && IsDigit(d[j]);
    assert t[|d|] == ']';
    assert DigitLength(t) == |d|;
    assert t[..|d|] == d && s[1 + |d|] == ']' && s[|d| + 2..] == rest;
    ParseDecimalInverts(i);
    assert Token(s) == Some((Index(i), |d| + 2));
  }

  lemma DotSkipped(rest: string)
    ensures Tokens("." + rest) == Tokens(rest)
  {
    var s := "." + rest;
    assert s[0] == '.' && Token(s).None? && s[1..] == rest;
  }

  /** One printed segment reads back as itself in front of whatever may follow it in a path. */
  lemma SegmentToken(seg: Seg, rest: string)
    requires seg.Key? ==> IsIdentifier(seg.key)
    requires rest == "" || !IdentChar(rest[0])
    ensures Tokens(Text(seg) + rest) == [seg] + Tokens(rest)
  {
    match seg
    case Key(k) =>
      assert Text(seg) + rest == "." + (k + rest);
      DotSkipped(k + rest);
      IdentifierToken(k, rest);
    case Index(i) => IndexToken(i, rest);
  }

  lemma PrintStartsClean(segs: seq<Seg>)
    ensures Print(segs) == "" || !IdentChar(Print(segs)[0])
  {
    if segs != [] {
      assert Text(segs[0])[0] in {'.', '['};
      assert Print(segs)[0] == Text(segs[0])[0];
    }
  }

  predicate IdentKeys(segs: seq<Seg>) { forall i :: 0 <= i < |segs| ==> segs[i].Key? ==> IsIdentifier(segs[i].key) }

  lemma {:induction false} PrintedReadsBack(segs: seq<Seg>)
    requires IdentKeys(segs)
    ensures Tokens(Print(segs)) == segs
  {
    if segs != [] {
      PrintedReadsBack(segs[1..]);
      PrintStartsClean(segs[1..]);
      SegmentToken(segs[0], Print(segs[1..]));
    }
  }

  /** Reading a printed path gives back its segments exactly when every key is an identifier. */
  lemma PathRoundTrip(segs: seq<Seg>)
    ensures IdentKeys(segs) <==> Tokens(Print(segs)) == segs
  {
    if IdentKeys(segs) {
      PrintedReadsBack(segs);
    }
  }

  /** The segments of a node of a rule, counted from the case document. */
  function Full(rule: nat, segs: seq<Seg>): seq<Seg> { [Key("rules"), Index(rule), Key("formula")] + segs }

  lemma {:induction false} PrintAppend(a: seq<Seg>, b: seq<Seg>)
    ensures Print(a + b) == Print(a) + Print(b)
  {
    if a == [] {
      assert a + b == b;
    } else {
      assert (a + b)[1..] == a[1..] + b;
      PrintAppend(a[1..], b);
    }
  }

  lemma Reassociate(dot: string, a: string, b: string, c: string, d: string)
    ensures dot + a + (b + (c + d)) == dot + (a + b + c + d)
  {
  }

  lemma SlotPathPrints(list: string, i: nat, slot: string, segs: seq<Seg>)
    ensures Print([Key(list), Index(i), Key(slot)] + segs) == "." + (SlotPath(list, i, slot) + Print(segs))
  {
    var third := [Key(slot)] + segs;
    var second := [Index(i)] + third;
    var all := [Key(list)] + second;
    assert [Key(list), Index(i), Key(slot)] + segs == all;
    assert third[1..] == segs && second[1..] == third && all[1..] == second;
    assert Print(third) == ("." + slot) + Print(segs);
    assert Print(second) == ("[" + Decimal(i) + "]") + Print(third);
    assert Print(all) == ("." + list) + Print(second);
    Reassociate(".", list, "[" + Decimal(i) + "]", "." + slot, Print(segs));
  }

  lemma SlotPathReadsBack(list: string, i: nat, slot: string, segs: seq<Seg>)
    requires IsIdentifier(list) && IsIdentifier(slot) && IdentKeys(segs)
    ensures Tokens(SlotPath(list, i, slot) + Print(segs)) == [Key(list), Index(i), Key(slot)] + segs
  {
    SlotPathPrints(list, i, slot, segs);
    DotSkipped(SlotPath(list, i, slot) + Print(segs));
    PrintedReadsBack([Key(list), Index(i), Key(slot)] + segs);
  }

  /** The path of a node of a rule reads back as the way to it from the case document exactly for identifier keys. */
  lemma FullRoundTrip(rule: nat, segs: seq<Seg>)
    ensures IdentKeys(segs) <==> Tokens(RulePath(rule) + Print(segs)) == Full(rule, segs)
  {
    if IdentKeys(segs) {
      SlotPathReadsBack("rules", rule, "formula", segs);
    } else if Tokens(RulePath(rule) + Print(segs)) == Full(rule, segs) {
      FullKeysAreIdent(rule, segs);
    }
  }

  /** Tokens have identifier keys, and all segments of the place are among them. */
  lemma FullKeysAreIdent(rule: nat, segs: seq<Seg>)
    requires forall i :: 0 <= i < |Full(rule, segs)| ==> Full(rule, segs)[i].Key? ==>
        IsIdentifier(Full(rule, segs)[i].key)
    ensures IdentKeys(segs)
  {
    forall i | 0 <= i < |segs| && segs[i].Key?
      ensures IsIdentifier(segs[i].key)
    {
      assert Full(rule, segs)[i + 3] == segs[i];
    }
  }

  // ---- The nodes that get a path -------------------------------------------------------------------------

  /** `segs` leads from `node` to a node that `ast_nodes` lists. */
  predicate Emits(node: Json, segs: seq<Seg>)
    decreases |segs|
  {
    && node.Obj?
    && (segs == [] ||
        (&& !IsFieldRef(FunctionOf(node.fields)) && segs[0].Key?
         && var v := Lookup(node.fields, segs[0].key);
         && v.Some?
         && match v.value
            case Obj(_) => Emits(v.value, segs[1..])
            case Arr(items) => |segs| > 1 && segs[1].Index? && segs[1].i < |items| && Emits(items[segs[1].i], segs[2..])
            case _ => false))
  }

  /** The listed paths as segments, in the order they are listed. */
  function NodeSegs(node: Json): seq<seq<Seg>>
    decreases node, 1
  {
    if !node.Obj? then []
    else [[]] + if IsFieldRef(FunctionOf(node.fields)) then [] else FieldSegs(node.fields)
  }

  function FieldSegs(fields: seq<Field>): seq<seq<Seg>>
    decreases fields, 0
  {
    if fields == [] then [] else ValueSegs(fields[0].key, fields[0].value) + FieldSegs(fields[1..])
  }

  function ValueSegs(key: string, value: Json): seq<seq<Seg>>
    decreases value, 2
  {
    match value
    case Obj(_) => Under([Key(key)], NodeSegs(value))
    case Arr(items) => ItemSegs(items, key, 0)
    case _ => []
  }

  function ItemSegs(items: seq<Json>, key: string, from: nat): seq<seq<Seg>>
    requires from <= |items|
    decreases items, |items| - from
  {
    if from == |items| then []
    else Under([Key(key), Index(from)], NodeSegs(items[from])) + ItemSegs(items, key, from + 1)
  }

  function Under(prefix: seq<Seg>, paths: seq<seq<Seg>>): (r: seq<seq<Seg>>)
    ensures |r| == |paths| && forall i :: 0 <= i < |r| ==> r[i] == prefix + paths[i]
  {
    seq(|paths|, i requires 0 <= i < |paths| => prefix + paths[i])
  }

  /** The items are the nodes at the listed segments, each printed below `path`. */
  ghost predicate Lists(node: Json, path: string, items: seq<Item>, paths: seq<seq<Seg>>) {
    && |items| == |paths|
    && forall i :: 0 <= i < |items| ==>
         && Emits(node, paths[i]) && Walk(node, paths[i]).Some? && Walk(node, paths[i]).value.Obj?
         && items[i] == ItemOf(Walk(node, paths[i]).value.fields, path + Print(paths[i]))
  }

  lemma {:induction false} LookupAt(fields: seq<Field>, j: nat)
    requires Distinct(fields) && j < |fields|
    ensures Lookup(fields, fields[j].key) == Some(fields[j].value)
  {
    if j > 0 {
      LookupAt(fields[1..], j - 1);
    }
  }

  lemma {:induction false} LookupIs(fields: seq<Field>, k: string) returns (j: nat)
    requires Lookup(fields, k).Some?
    ensures j < |fields| && fields[j].key == k && fields[j].value == Lookup(fields, k).value
  {
    if fields[0].key == k {
      j := 0;
    } else {
      j := LookupIs(fields[1..], k);
      j := j + 1;
    }
  }

  // ---- Every listed node is reached by its path -----------------------------------------------------------

  lemma ListsAppend(node: Json, path: string, items1: seq<Item>, paths1: seq<seq<Seg>>, items2: seq<Item>,
      paths2: seq<seq<Seg>>)
    requires Lists(node, path, items1, paths1) && Lists(node, path, items2, paths2)
    ensures Lists(node, path, items1 + items2, paths1 + paths2)
  {
  }

  /** `prefix` is one step from a node to a child it lists: a key, or a key and an index. */
  predicate LeadsTo(node: Json, prefix: seq<Seg>, child: Json) {
    && node.Obj? && !IsFieldRef(FunctionOf(node.fields)) && child.Obj?
    && |prefix| in {1, 2} && prefix[0].Key? && Lookup(node.fields, prefix[0].key).Some?
    && var v := Lookup(node.fields, prefix[0].key).value;
    if |prefix| == 1 then v == child
        else v.Arr? && prefix[1].Index? && prefix[1].i < |v.items| && v.items[prefix[1].i] == child
  }

  lemma EmitsLift(node: Json, prefix: seq<Seg>, child: Json, p: seq<Seg>)
    requires LeadsTo(node, prefix, child) && Emits(child, p)
    ensures Emits(node, prefix + p) && Walk(node, prefix + p) == Walk(child, p)
  {
    var full := prefix + p;
    assert full[|prefix|..] == p;
    if |prefix| == 2 {
      assert full[1..][0] == prefix[1] && full[1..][1..] == p;
      assert Walk(node, full) == Walk(Lookup(node.fields, prefix[0].key).value, full[1..]);
    }
  }

  /** What is listed below a child is listed below its parent. */
  lemma ListsLift(node: Json, path: string, prefix: seq<Seg>, child: Json, childPath: string, items: seq<Item>,
      paths: seq<seq<Seg>>)
    requires LeadsTo(node, prefix, child) && childPath == path + Print(prefix)
    requires Lists(child, childPath, items, paths)
    ensures Lists(node, path, items, Under(prefix, paths))
  {
    forall i | 0 <= i < |items|
      ensures var p := prefix + paths[i];
        Emits(node, p) && Walk(node, p) == Walk(child, paths[i]) && path + Print(p) == childPath + Print(paths[i])
    {
      EmitsLift(node, prefix, child, paths[i]);
      PrintAppend(prefix, paths[i]);
    }
  }

  lemma {:induction false} AstNodesListed(node: Json, path: string)
    requires IsDict(node)
    ensures Lists(node, path, AstNodes(node, path), NodeSegs(node))
    decreases node, 1, 0
  {
    if node.Obj? {
      assert Lists(node, path, [ItemOf(node.fields, path)], [[]]) by { assert path + "" == path; }
      if !IsFieldRef(FunctionOf(node.fields)) {
        assert node.fields[0..] == node.fields;
        FieldNodesListed(node, 0, path);
        ListsAppend(node, path, [ItemOf(node.fields, path)], [[]], FieldNodes(node.fields, path),
            FieldSegs(node.fields));
      }
    }
  }

  lemma {:induction false} FieldNodesListed(node: Json, k: nat, path: string)
    requires node.Obj? && IsDict(node) && !IsFieldRef(FunctionOf(node.fields)) && k <= |node.fields|
    ensures Lists(node, path, FieldNodes(node.fields[k..], path), FieldSegs(node.fields[k..]))
    decreases node, 0, |node.fields| - k
  {
    if k < |node.fields| {
      var f := node.fields[k];
      var rest := node.fields[k..];
      assert rest[0] == f && rest[1..] == node.fields[k + 1..];
      LookupAt(node.fields, k);
      assert f in node.fields;
      FieldNodesListed(node, k + 1, path);
      match f.value {
        case Obj(_) =>
          AstNodesListed(f.value, path + "." + f.key);
          assert path + Print([Key(f.key)]) == path + "." + f.key by { assert Print([Key(f.key)]) == "." + f.key + ""; }
          ListsLift(node, path, [Key(f.key)], f.value, path + "." + f.key, AstNodes(f.value, path + "." + f.key),
              NodeSegs(f.value));
          ListsAppend(node, path, AstNodes(f.value, path + "." + f.key), Under([Key(f.key)], NodeSegs(f.value)),
              FieldNodes(rest[1..], path), FieldSegs(rest[1..]));
        case Arr(items) =>
          ItemNodesListed(node, k, 0, path);
          ListsAppend(node, path, ItemNodes(items, path + "." + f.key, 0), ItemSegs(items, f.key, 0),
              FieldNodes(rest[1..], path), FieldSegs(rest[1..]));
        case _ =>
          assert FieldNodes(rest, path) == FieldNodes(rest[1..], path);
          assert FieldSegs(rest) == FieldSegs(rest[1..]);
      }
    }
  }

  lemma {:induction false} ItemNodesListed(node: Json, k: nat, from: nat, path: string)
    requires node.Obj? && IsDict(node) && !IsFieldRef(FunctionOf(node.fields)) && k < |node.fields|
    requires node.fields[k].value.Arr? && from <= |node.fields[k].value.items|
    ensures var f := node.fields[k];
      Lists(node, path, ItemNodes(f.value.items, path + "." + f.key, from), ItemSegs(f.value.items, f.key, from))
    decreases node, 0, 0, |node.fields[k].value.items| - from
  {
    var f := node.fields[k];
    var items := f.value.items;
    if from < |items| {
      var prefix := [Key(f.key), Index(from)];
      var childPath := path + "." + f.key + "[" + Decimal(from) + "]";
      LookupAt(node.fields, k);
      assert f in node.fields && items[from] in items;
      ItemNodesListed(node, k, from + 1, path);
      AstNodesListed(items[from], childPath);
      if items[from].Obj? {
        assert childPath == path + Print(prefix) by {
          assert prefix[1..] == [Index(from)] && Print([Index(from)]) == "[" + Decimal(from) + "]" + "";
          assert Print(prefix) == "." + f.key + ("[" + Decimal(from) + "]");
        }
        ListsLift(node, path, prefix, items[from], childPath, AstNodes(items[from], childPath), NodeSegs(items[from]));
      }
      ListsAppend(node, path, AstNodes(items[from], childPath), Under(prefix, NodeSegs(items[from])),
                  ItemNodes(items, path + "." + f.key, from + 1), ItemSegs(items, f.key, from + 1));
    }
  }

  // ---- Every node that should be is listed -------------------------------------------------------------

  lemma {:induction false} ValueInFields(fields: seq<Field>, j: nat, segs: seq<Seg>)
    requires j < |fields| && segs in ValueSegs(fields[j].key, fields[j].value)
    ensures segs in FieldSegs(fields)
    decreases j
  {
    if j > 0 {
      ValueInFields(fields[1..], j - 1, segs);
    }
  }

  lemma {:induction false} ItemInItems(items: seq<Json>, key: string, from: nat, i: nat, segs: seq<Seg>)
    requires from <= i < |items| && segs in Under([Key(key), Index(i)], NodeSegs(items[i]))
    ensures segs in ItemSegs(items, key, from)
    decreases i - from
  {
    if from < i {
      ItemInItems(items, key, from + 1, i, segs);
    }
  }

  lemma InUnder(prefix: seq<Seg>, paths: seq<seq<Seg>>, p: seq<Seg>)
    requires p in paths
    ensures prefix + p in Under(prefix, paths)
  {
    var i :| 0 <= i < |paths| && paths[i] == p;
    assert Under(prefix, paths)[i] == prefix + p;
  }

  /** Completeness: whatever place leads to a node that should get a path is in the list. */
  lemma {:induction false} AllListed(node: Json, segs: seq<Seg>)
    requires Emits(node, segs)
    ensures segs in NodeSegs(node)
    decreases |segs|
  {
    if segs != [] {
      var j := LookupIs(node.fields, segs[0].key);
      var value := node.fields[j].value;
      match value {
        case Obj(_) =>
          AllListed(value, segs[1..]);
          InUnder([segs[0]], NodeSegs(value), segs[1..]);
          assert segs == [segs[0]] + segs[1..];
        case Arr(items) =>
          AllListed(items[segs[1].i], segs[2..]);
          InUnder([segs[0], segs[1]], NodeSegs(items[segs[1].i]), segs[2..]);
          assert segs == [segs[0], segs[1]] + segs[2..];
          ItemInItems(items, segs[0].key, 0, segs[1].i, segs);
      }
      ValueInFields(node.fields, j, segs);
    }
  }

  /** The list is exact: a place is in it exactly when it leads to a dictionary without passing a field reference. */
  lemma ListedExactly(node: Json, segs: seq<Seg>)
    requires IsDict(node)
    ensures segs in NodeSegs(node) <==> Emits(node, segs)
  {
    AstNodesListed(node, "");
    if segs in NodeSegs(node) {
      var i :| 0 <= i < |NodeSegs(node)| && NodeSegs(node)[i] == segs;
    } else if Emits(node, segs) {
      AllListed(node, segs);
    }
  }

  // ---- No node is listed twice --------------------------------------------------------------------------

  predicate NoDup<T(==)>(xs: seq<T>) { forall i, j :: 0 <= i < j < |xs| ==> xs[i] != xs[j] }

  lemma NoDupAppend<T>(xs: seq<T>, ys: seq<T>)
    requires NoDup(xs) && NoDup(ys) && forall i, j :: 0 <= i < |xs| && 0 <= j < |ys| ==> xs[i] != ys[j]
    ensures NoDup(xs + ys)
  {
  }

  lemma NoDupUnder(prefix: seq<Seg>, paths: seq<seq<Seg>>)
    requires NoDup(paths)
    ensures NoDup(Under(prefix, paths))
  {
    var r := Under(prefix, paths);
    forall i, j | 0 <= i < j < |r| ensures r[i] != r[j] {
      assert r[i][|prefix|..] == paths[i] && r[j][|prefix|..] == paths[j];
    }
  }

  lemma {:induction false} NodeSegsDistinct(node: Json)
    requires IsDict(node)
    ensures NoDup(NodeSegs(node))
    decreases node, 1, 0
  {
    if node.Obj? && !IsFieldRef(FunctionOf(node.fields)) {
      FieldSegsDistinct(node.fields);
      NoDupAppend([[]], FieldSegs(node.fields));
    }
  }

  lemma {:induction false} FieldSegsDistinct(fields: seq<Field>)
    requires Distinct(fields) && forall f <- fields :: IsDict(f.value)
    ensures NoDup(FieldSegs(fields))
    ensures forall i :: 0 <= i < |FieldSegs(fields)| ==> StartsWithKeyOf(FieldSegs(fields)[i], fields)
    decreases fields, 0, 0
  {
    if fields != [] {
      assert fields[0] in fields;
      FieldSegsDistinct(fields[1..]);
      ValueSegsDistinct(fields[0].key, fields[0].value);
      var first, rest := ValueSegs(fields[0].key, fields[0].value), FieldSegs(fields[1..]);
      forall i, j | 0 <= i < |first| && 0 <= j < |rest| ensures first[i] != rest[j] {
        var k :| 0 <= k < |fields[1..]| && fields[1..][k].key == rest[j][0].key;
        assert fields[1..][k] == fields[k + 1];
      }
      NoDupAppend(first, rest);
      forall i | 0 <= i < |FieldSegs(fields)| ensures StartsWithKeyOf(FieldSegs(fields)[i], fields) {
        if i >= |first| {
          var k :| 0 <= k < |fields[1..]| && fields[1..][k].key == rest[i - |first|][0].key;
          assert fields[k + 1].key == FieldSegs(fields)[i][0].key;
        }
      }
    }
  }

  predicate StartsWithKeyOf(p: seq<Seg>, fields: seq<Field>) {
    |p| > 0 && p[0].Key? && exists k :: 0 <= k < |fields| && fields[k].key == p[0].key
  }

  lemma {:induction false} ValueSegsDistinct(key: string, value: Json)
    requires IsDict(value)
    ensures NoDup(ValueSegs(key, value))
    ensures forall i :: 0 <= i < |ValueSegs(key, value)| ==>
        |ValueSegs(key, value)[i]| > 0 && ValueSegs(key, value)[i][0] == Key(key)
    decreases value, 2, 0
  {
    match value
    case Obj(_) => NodeSegsDistinct(value); NoDupUnder([Key(key)], NodeSegs(value));
    case Arr(items) => ItemSegsDistinct(items, key, 0);
    case _ =>
  }

  lemma {:induction false} ItemSegsDistinct(items: seq<Json>, key: string, from: nat)
    requires from <= |items| && forall x <- items :: IsDict(x)
    ensures NoDup(ItemSegs(items, key, from))
    ensures forall i :: 0 <= i < |ItemSegs(items, key, from)| ==>
      var p := ItemSegs(items, key, from)[i]; |p| > 1 && p[0] == Key(key) && p[1].Index? && p[1].i >= from
    decreases items, |items| - from, 0
  {
    if from < |items| {
      ItemSegsDistinct(items, key, from + 1);
      NodeSegsDistinct(items[from]);
      NoDupUnder([Key(key), Index(from)], NodeSegs(items[from]));
      var first, rest := Under([Key(key), Index(from)], NodeSegs(items[from])), ItemSegs(items, key, from + 1);
      forall i, j | 0 <= i < |first| && 0 <= j < |rest| ensures first[i] != rest[j] {
        assert first[i][1] == Index(from);
      }
      NoDupAppend(first, rest);
    }
  }

  // ---- Identifier keys ----------------------------------------------------------------------------------

  /** Every key in the tree is an identifier. */
  predicate IdentTree(j: Json) {
    match j
    case Arr(items) => forall x <- items :: IdentTree(x)
    case Obj(fields) => forall f <- fields :: IsIdentifier(f.key) && IdentTree(f.value)
    case _ => true
  }

  lemma {:induction false} EmittedKeysAreIdent(node: Json, segs: seq<Seg>)
    requires IdentTree(node) && Emits(node, segs)
    ensures IdentKeys(segs)
    decreases |segs|
  {
    if segs != [] {
      var j := LookupIs(node.fields, segs[0].key);
      var v := node.fields[j].value;
      assert node.fields[j] in node.fields;
      match v
      case Obj(_) => EmittedKeysAreIdent(v, segs[1..]);
      case Arr(items) =>
        assert items[segs[1].i] in items;
        EmittedKeysAreIdent(items[segs[1].i], segs[2..]);
    }
  }

  // ---- All rules of a case --------------------------------------------------------------------------------

  predicate GoodRules(rules: seq<Json>) {
    forall r <- rules :: r.Obj? && IsDict(Formula(r)) && IdentTree(Formula(r))
  }

  /** Where each item of the edit model comes from: a rule and a place in its formula. */
  function Places(rules: seq<Json>, from: nat): seq<(nat, seq<Seg>)>
    requires from <= |rules| && forall r <- rules :: r.Obj?
    decreases |rules| - from
  {
    if from == |rules| then []
    else
      var here := NodeSegs(Formula(rules[from]));
      seq(|here|, i requires 0 <= i < |here| => (from, here[i])) + Places(rules, from + 1)
  }

  /** Item by item, the edit model shows the nodes at its places under their printed paths. */
  lemma {:induction false} ModelShowsPlaces(rules: seq<Json>, from: nat)
    requires from <= |rules| && GoodRules(rules)
    ensures |RuleEditModel(rules, from)| == |Places(rules, from)| && NoDup(Places(rules, from))
    ensures forall i :: 0 <= i < |Places(rules, from)| ==>
      var (r, segs) := Places(rules, from)[i];
      && from <= r < |rules| && Emits(Formula(rules[r]), segs)
      && Walk(Formula(rules[r]), segs).Some? && Walk(Formula(rules[r]), segs).value.Obj?
      && RuleEditModel(rules, from)[i] == ItemOf(Walk(Formula(rules[r]), segs).value.fields, RulePath(r) + Print(segs))
    decreases |rules| - from
  {
    if from < |rules| {
      ModelShowsPlaces(rules, from + 1);
      var formula := Formula(rules[from]);
      assert rules[from] in rules;
      AstNodesListed(formula, RulePath(from));
      NodeSegsDistinct(formula);
      var here := NodeSegs(formula);
      var first := seq(|here|, i requires 0 <= i < |here| => (from, here[i]));
      assert NoDup(first) by {
        forall i, j | 0 <= i < j < |first| ensures first[i] != first[j] { assert here[i] != here[j]; }
      }
      NoDupAppend(first, Places(rules, from + 1));
    }
  }

  lemma {:induction false} PlaceInPlaces(rules: seq<Json>, from: nat, r: nat, segs: seq<Seg>)
    requires from <= r < |rules| && (forall x <- rules :: x.Obj?) && segs in NodeSegs(Formula(rules[r]))
    ensures (r, segs) in Places(rules, from)
    decreases r - from
  {
    if from < r {
      PlaceInPlaces(rules, from + 1, r, segs);
    } else {
      var here := NodeSegs(Formula(rules[from]));
      var i :| 0 <= i < |here| && here[i] == segs;
      assert Places(rules, from)[i] == (r, segs);
    }
  }

  /** Every place of every rule that should get a path has it in the edit model, with the node that is there. */
  lemma EveryPlaceIsShown(rules: seq<Json>, r: nat, segs: seq<Seg>) returns (i: nat)
    requires GoodRules(rules) && r < |rules| && Emits(Formula(rules[r]), segs)
    ensures Walk(Formula(rules[r]), segs).Some? && Walk(Formula(rules[r]), segs).value.Obj?
    ensures i < |RuleEditModel(rules, 0)|
      && RuleEditModel(rules, 0)[i] == ItemOf(Walk(Formula(rules[r]), segs).value.fields, RulePath(r) + Print(segs))
  {
    AllListed(Formula(rules[r]), segs);
    PlaceInPlaces(rules, 0, r, segs);
    ModelShowsPlaces(rules, 0);
    i :| 0 <= i < |Places(rules, 0)| && Places(rules, 0)[i] == (r, segs);
  }

  lemma FullInjective(r1: nat, segs1: seq<Seg>, r2: nat, segs2: seq<Seg>)
    ensures Full(r1, segs1) == Full(r2, segs2) ==> r1 == r2 && segs1 == segs2
  {
    assert Full(r1, segs1)[3..] == segs1 && Full(r2, segs2)[3..] == segs2;
    assert Full(r1, segs1)[1] == Index(r1) && Full(r2, segs2)[1] == Index(r2);
  }

  lemma WalkFull(doc: Json, rules: seq<Json>, r: nat, segs: seq<Seg>)
    requires doc.Obj? && Lookup(doc.fields, "rules") == Some(Arr(rules)) && r < |rules| && rules[r].Obj?
    ensures Walk(doc, Full(r, segs)) == match Lookup(rules[r].fields, "formula") case Some(f) => Walk(f, segs)
        case None => None
  {
    var full := Full(r, segs);
    assert full[1..] == [Index(r), Key("formula")] + segs;
    assert full[1..][1..] == [Key("formula")] + segs;
    assert full[1..][1..][1..] == segs;
    assert Walk(doc, full) == Walk(Arr(rules), full[1..]);
    assert Walk(Arr(rules), full[1..]) == Walk(rules[r], full[1..][1..]);
  }

  /** Path strings are pairwise distinct over all nodes of all rules. */
  lemma PathsDistinct(rules: seq<Json>, i: nat, j: nat)
    requires GoodRules(rules) && i < j < |RuleEditModel(rules, 0)|
    ensures RuleEditModel(rules, 0)[i].path != RuleEditModel(rules, 0)[j].path
  {
    ModelShowsPlaces(rules, 0);
    var (r1, segs1) := Places(rules, 0)[i];
    var (r2, segs2) := Places(rules, 0)[j];
    assert rules[r1] in rules && rules[r2] in rules;
    EmittedKeysAreIdent(Formula(rules[r1]), segs1);
    EmittedKeysAreIdent(Formula(rules[r2]), segs2);
    FullRoundTrip(r1, segs1);
    FullRoundTrip(r2, segs2);
    FullInjective(r1, segs1, r2, segs2);
  }

  /**
   A listed path leads `path_get` to the node it was printed for; only a rule without a formula has a path that leads
   nowhere.
   */
  lemma PathReachesItsNode(doc: Json, rules: seq<Json>, i: nat)
    requires doc.Obj? && Lookup(doc.fields, "rules") == Some(Arr(rules)) && GoodRules(rules)
        && i < |RuleEditModel(rules, 0)|
    ensures i < |Places(rules, 0)|
    ensures var item := RuleEditModel(rules, 0)[i];
      var (r, segs) := Places(rules, 0)[i];
      && r < |rules| && Emits(Formula(rules[r]), segs) && item.path == RulePath(r) + Print(segs)
      && Tokens(item.path) == Full(r, segs)
      && Walk(doc, Tokens(item.path))
          == (if Lookup(rules[r].fields, "formula").Some? then Walk(Formula(rules[r]), segs) else None)
      && (Lookup(rules[r].fields, "formula").Some? ==>
            var node := Walk(doc, Tokens(item.path));
                node.Some? && node.value.Obj? && item == ItemOf(node.value.fields, item.path))
      && (Lookup(rules[r].fields, "formula").None? ==> segs == [] && item == ItemOf([], item.path))
  {
    ModelShowsPlaces(rules, 0);
    var (r, segs) := Places(rules, 0)[i];
    assert rules[r] in rules;
    EmittedKeysAreIdent(Formula(rules[r]), segs);
    FullRoundTrip(r, segs);
    WalkFull(doc, rules, r, segs);
  }
}
