/**
 Which places of a formula are listed, and how a path text is read, without the recursion of the listing and of
 the tokeniser.
 */
module RulePlaces {
  import opened Common
  import opened RulePaths

  // ---- Names ------------------------------------------------------------------------------------------------------

  /** What a dictionary calls its function: "function", unless that is missing or counts as false, or else "name". */
  function CalledName(fields: seq<Field>): Json {
    var f := Lookup(fields, "function");
    if f.Some? && f.value !in {Null, Bool(false), Num(0), Float(0.0), Str(""), Arr([]), Obj([])} then f.value
    else
      var n := Lookup(fields, "name");
      if n.Some? then n.value else Null
  }

  lemma CalledNameExactly(fields: seq<Field>)
    ensures FunctionOf(fields) == CalledName(fields)
  {
    var f := Lookup(fields, "function");
    if f.Some? {
      TruthyExactly(f.value);
    }
  }

  lemma TruthyExactly(v: Json)
    ensures !Truthy(v) <==> v in {Null, Bool(false), Num(0), Float(0.0), Str(""), Arr([]), Obj([])}
  {
  }

  /** Both names are of one of the four groups of operators that may stand for each other. */
  predicate Interchangeable(name: string, other: string) {
    || (name in {"eq", "neq", "gt", "gte", "lt", "lte", ">", ">=", "<", "<=", "="}
        && other in {"eq", "neq", "gt", "gte", "lt", "lte", ">", ">=", "<", "<=", "="})
    || (name in {"and", "or"} && other in {"and", "or"})
    || (name in {"add", "subtract", "multiply", "divide"} && other in {"add", "subtract", "multiply", "divide"})
    || (name in {"contains", "in", "starts_with", "ends_with"}
        && other in {"contains", "in", "starts_with", "ends_with"})
  }

  lemma GroupExactly(name: string, other: string)
    ensures OperatorGroup(Str(name)).Some? && other in OperatorGroup(Str(name)).value <==> Interchangeable(name, other)
  {
  }

  lemma GroupsHoldNames(name: Json)
    ensures OperatorGroup(name).Some? ==> name.Str?
  {
  }

  // ---- Listed places ------------------------------------------------------------------------------------------------

  /** A field reference: nothing below it is listed. */
  predicate RefersToField(fields: seq<Field>) {
    CalledName(fields) == Str("field_ref") || CalledName(fields) == Str("Payload")
        || CalledName(fields) == Str("payload")
  }

  /** The step `n` of the way leads out of a dictionary that is looked into, or out of a list that such a one holds. */
  predicate OpenAt(node: Json, segs: seq<Seg>, n: nat)
    requires n < |segs|
  {
    match Walk(node, segs[..n])
    case Some(Obj(fields)) => segs[n].Key? && !RefersToField(fields)
    case Some(Arr(_)) => segs[n].Index? && n > 0 && (var m := Walk(node, segs[..n - 1]); m.Some? && m.value.Obj?)
    case _ => false
  }

  /** A way from a dictionary to a dictionary, through dictionaries and their lists, past no field reference. */
  ghost predicate Visible(node: Json, segs: seq<Seg>) {
    && node.Obj? && Walk(node, segs).Some? && Walk(node, segs).value.Obj?
    && OpenFrom(node, segs, 0)
  }

  ghost predicate OpenFrom(node: Json, segs: seq<Seg>, from: nat) {
    forall n :: from <= n < |segs| ==> OpenAt(node, segs, n)
  }

  lemma WalkOne(node: Json, segs: seq<Seg>)
    requires segs != []
    ensures Walk(node, segs[..0]) == Some(node) && Walk(node, segs[..1]) == Child(node, segs[0])
  {
    assert segs[..0] == [] && segs[..1][0] == segs[0] && segs[..1][1..] == [];
  }

  lemma FieldReferenceExactly(fields: seq<Field>)
    ensures IsFieldRef(FunctionOf(fields)) <==> RefersToField(fields)
  {
    CalledNameExactly(fields);
  }

  /** Behind a key that leads to a dictionary, the way is open where it is open seen from that dictionary. */
  lemma OpenBehindKey(node: Json, segs: seq<Seg>, n: nat)
    requires segs != [] && n < |segs| - 1 && Child(node, segs[0]).Some? && Child(node, segs[0]).value.Obj?
    ensures OpenAt(node, segs, n + 1) <==> OpenAt(Child(node, segs[0]).value, segs[1..], n)
  {
    var child := Child(node, segs[0]).value;
    assert segs[..n + 1][0] == segs[0] && segs[..n + 1][1..] == segs[1..][..n];
    assert Walk(node, segs[..n + 1]) == Walk(child, segs[1..][..n]);
    if n == 0 {
      assert segs[1..][..0] == [];
    } else {
      assert segs[..n][0] == segs[0] && segs[..n][1..] == segs[1..][..n - 1];
      assert Walk(node, segs[..n]) == Walk(child, segs[1..][..n - 1]);
    }
  }

  /** The same behind a key and an index. */
  lemma OpenBehindItem(node: Json, segs: seq<Seg>, n: nat)
    requires |segs| > 1 && n < |segs| - 2 && Child(node, segs[0]).Some? && Child(node, segs[0]).value.Arr?
    requires segs[1].Index? && segs[1].i < |Child(node, segs[0]).value.items|
    requires Child(node, segs[0]).value.items[segs[1].i].Obj?
    ensures OpenAt(node, segs, n + 2) <==> OpenAt(Child(node, segs[0]).value.items[segs[1].i], segs[2..], n)
  {
    var item := Child(node, segs[0]).value.items[segs[1].i];
    WalkTwo(node, segs, n);
    if n == 0 {
      assert segs[2..][..0] == [];
    } else {
      WalkTwo(node, segs, n - 1);
    }
  }

  lemma WalkTwo(node: Json, segs: seq<Seg>, n: nat)
    requires |segs| > 1 && n <= |segs| - 2 && Child(node, segs[0]).Some? && Child(node, segs[0]).value.Arr?
    requires segs[1].Index? && segs[1].i < |Child(node, segs[0]).value.items|
    ensures Walk(node, segs[..n + 2]) == Walk(Child(node, segs[0]).value.items[segs[1].i], segs[2..][..n])
  {
    var list := Child(node, segs[0]).value;
    var part := segs[..n + 2];
    assert part[0] == segs[0] && part[1..][0] == segs[1] && part[1..][1..] == segs[2..][..n];
    assert Walk(node, part) == Walk(list, part[1..]) == Walk(list.items[segs[1].i], part[1..][1..]);
  }

  lemma OpenFromKey(node: Json, segs: seq<Seg>)
    requires segs != [] && Child(node, segs[0]).Some? && Child(node, segs[0]).value.Obj?
    ensures OpenFrom(node, segs, 1) <==> OpenFrom(Child(node, segs[0]).value, segs[1..], 0)
  {
    var child := Child(node, segs[0]).value;
    forall n | 0 <= n < |segs| - 1
      ensures OpenAt(node, segs, n + 1) <==> OpenAt(child, segs[1..], n)
    {
      OpenBehindKey(node, segs, n);
    }
    if OpenFrom(child, segs[1..], 0) {
      forall n | 1 <= n < |segs|
        ensures OpenAt(node, segs, n)
      {
        assert OpenAt(child, segs[1..], n - 1);
      }
    }
  }

  lemma OpenFromItem(node: Json, segs: seq<Seg>)
    requires |segs| > 1 && Child(node, segs[0]).Some? && Child(node, segs[0]).value.Arr?
    requires segs[1].Index? && segs[1].i < |Child(node, segs[0]).value.items|
    requires Child(node, segs[0]).value.items[segs[1].i].Obj?
    ensures OpenFrom(node, segs, 2) <==> OpenFrom(Child(node, segs[0]).value.items[segs[1].i], segs[2..], 0)
  {
    var item := Child(node, segs[0]).value.items[segs[1].i];
    forall n | 0 <= n < |segs| - 2
      ensures OpenAt(node, segs, n + 2) <==> OpenAt(item, segs[2..], n)
    {
      OpenBehindItem(node, segs, n);
    }
    if OpenFrom(item, segs[2..], 0) {
      forall n | 2 <= n < |segs|
        ensures OpenAt(node, segs, n)
      {
        assert OpenAt(item, segs[2..], n - 2);
      }
    }
  }

  /** The first step out of a dictionary. */
  lemma FirstStep(node: Json, segs: seq<Seg>)
    requires segs != [] && node.Obj?
    ensures OpenAt(node, segs, 0) <==> segs[0].Key? && !IsFieldRef(FunctionOf(node.fields))
    ensures OpenFrom(node, segs, 0) <==> OpenAt(node, segs, 0) && OpenFrom(node, segs, 1)
  {
    WalkOne(node, segs);
    FieldReferenceExactly(node.fields);
  }

  /** A place is listed exactly if it is visible. */
  lemma {:induction false} EmitsExactly(node: Json, segs: seq<Seg>)
    ensures Emits(node, segs) <==> Visible(node, segs)
    decreases |segs|, 2
  {
    if segs != [] && node.Obj? {
      FirstStep(node, segs);
      if segs[0].Key? && Lookup(node.fields, segs[0].key).Some? {
        match Lookup(node.fields, segs[0].key).value {
          case Obj(_) => EmitsBehindKey(node, segs);
          case Arr(_) => EmitsBehindItem(node, segs);
          case _ => NoWayBehind(node, segs);
        }
      }
    }
  }

  lemma NoWayBehind(node: Json, segs: seq<Seg>)
    requires segs != [] && Child(node, segs[0]).Some?
    requires !Child(node, segs[0]).value.Obj? && !Child(node, segs[0]).value.Arr?
    ensures !Visible(node, segs)
  {
    WalkOne(node, segs);
    if |segs| > 1 {
      assert OpenFrom(node, segs, 0) ==> OpenAt(node, segs, 1);
    } else {
      assert segs[..1] == segs;
    }
  }

  lemma {:induction false} EmitsBehindKey(node: Json, segs: seq<Seg>)
    requires segs != [] && node.Obj? && segs[0].Key? && Lookup(node.fields, segs[0].key).Some?
    requires Lookup(node.fields, segs[0].key).value.Obj?
    ensures Emits(node, segs) <==> Visible(node, segs)
    decreases |segs|, 1
  {
    FirstStep(node, segs);
    OpenFromKey(node, segs);
    EmitsExactly(Lookup(node.fields, segs[0].key).value, segs[1..]);
  }

  lemma {:induction false} EmitsBehindItem(node: Json, segs: seq<Seg>)
    requires segs != [] && node.Obj? && segs[0].Key? && Lookup(node.fields, segs[0].key).Some?
    requires Lookup(node.fields, segs[0].key).value.Arr?
    ensures Emits(node, segs) <==> Visible(node, segs)
    decreases |segs|, 1
  {
    var items := Lookup(node.fields, segs[0].key).value.items;
    WalkOne(node, segs);
    if |segs| == 1 {
      assert segs[..1] == segs;
    } else if segs[1].Index? && segs[1].i < |items| {
      if items[segs[1].i].Obj? {
        ItemIsNode(node, segs);
      } else {
        ItemIsNoNode(node, segs);
      }
    } else {
      assert Walk(node, segs) == Walk(Arr(items), segs[1..]);
    }
  }

  lemma {:induction false} ItemIsNode(node: Json, segs: seq<Seg>)
    requires |segs| > 1 && node.Obj? && segs[0].Key? && Lookup(node.fields, segs[0].key).Some?
    requires Lookup(node.fields, segs[0].key).value.Arr? && segs[1].Index?
    requires segs[1].i < |Lookup(node.fields, segs[0].key).value.items|
    requires Lookup(node.fields, segs[0].key).value.items[segs[1].i].Obj?
    ensures Emits(node, segs) <==> Visible(node, segs)
    decreases |segs|, 0
  {
    var item := Lookup(node.fields, segs[0].key).value.items[segs[1].i];
    FirstStep(node, segs);
    WalkOne(node, segs);
    assert OpenAt(node, segs, 1);
    assert OpenFrom(node, segs, 1) <==> OpenFrom(node, segs, 2);
    OpenFromItem(node, segs);
    WalkTwo(node, segs, |segs| - 2);
    assert segs[..|segs|] == segs && segs[2..][..|segs| - 2] == segs[2..];
    EmitsExactly(item, segs[2..]);
  }

  lemma ItemIsNoNode(node: Json, segs: seq<Seg>)
    requires |segs| > 1 && node.Obj? && segs[0].Key? && Lookup(node.fields, segs[0].key).Some?
    requires Lookup(node.fields, segs[0].key).value.Arr? && segs[1].Index?
    requires segs[1].i < |Lookup(node.fields, segs[0].key).value.items|
    requires !Lookup(node.fields, segs[0].key).value.items[segs[1].i].Obj?
    ensures !Emits(node, segs) && !Visible(node, segs)
  {
    WalkOne(node, segs);
    WalkTwo(node, segs, 0);
    assert segs[2..][..0] == [];
    if |segs| > 2 {
      assert OpenFrom(node, segs, 0) ==> OpenAt(node, segs, 2);
    } else {
      assert segs[..2] == segs;
    }
  }

  // ---- Path texts -----------------------------------------------------------------------------------------

  /** How a path is spelled: a dot before a key, brackets around an index, and every rule's own beginning. */
  lemma PathTextExactly(rule: nat, k: string, i: nat, segs: seq<Seg>)
    ensures Print([]) == "" && Print([Key(k)] + segs) == "." + k + Print(segs)
    ensures Print([Index(i)] + segs) == "[" + Decimal(i) + "]" + Print(segs)
    ensures RulePath(rule) == "rules" + ("[" + Decimal(rule) + "]") + ("." + "formula")
  {
    assert ([Key(k)] + segs)[1..] == segs && ([Index(i)] + segs)[1..] == segs;
  }

  /** The digits of a number, the last one apart. */
  lemma DecimalExactly(n: nat)
    ensures n < 10 ==> Decimal(n) == ["0123456789"[n]]
    ensures n >= 10 ==> Decimal(n) == Decimal(n / 10) + ["0123456789"[n % 10]]
  {
    DigitExactly(n % 10);
  }

  lemma DigitExactly(d: nat)
    requires d < 10
    ensures Digit(d) == "0123456789"[d] && IsDigit("0123456789"[d]) && DigitValue("0123456789"[d]) == d
  {
  }

  /** Letters, digits and underscores, and no digit in front. */
  lemma IdentifierExactly(s: string)
    ensures IsIdentifier(s) <==>
      && s != "" && s[0] !in "0123456789"
      && forall i :: 0 <= i < |s| ==>
           || s[i] in "abcdefghijklm" || s[i] in "nopqrstuvwxyz"
           || s[i] in "ABCDEFGHIJKLM" || s[i] in "NOPQRSTUVWXYZ"
           || s[i] in "0123456789" || s[i] == '_'
  {
    forall i | 0 <= i < |s|
      ensures IdentChar(s[i]) <==>
        || s[i] in "abcdefghijklm" || s[i] in "nopqrstuvwxyz"
           || s[i] in "ABCDEFGHIJKLM" || s[i] in "NOPQRSTUVWXYZ"
        || s[i] in "0123456789" || s[i] == '_'
    {
      IdentCharExactly(s[i]);
    }
    if s != "" {
      IdentCharExactly(s[0]);
    }
  }

  lemma IdentCharExactly(c: char)
    ensures IdentStart(c) <==>
        c in "abcdefghijklm" || c in "nopqrstuvwxyz" || c in "ABCDEFGHIJKLM" || c in "NOPQRSTUVWXYZ" || c == '_'
    ensures IdentChar(c) <==> IdentStart(c) || c in "0123456789"
    ensures IdentStart(c) ==> c !in "0123456789"
  {
    LowerExactly(c);
    UpperExactly(c);
    DigitsOnly(c);
  }

  lemma LowerExactly(c: char)
    ensures 'a' <= c <= 'm' <==> c in "abcdefghijklm"
    ensures 'n' <= c <= 'z' <==> c in "nopqrstuvwxyz"
  {
    if 'a' <= c <= 'm' {
      assert "abcdefghijklm"[c as int - 'a' as int] == c;
    }
    if 'n' <= c <= 'z' {
      assert "nopqrstuvwxyz"[c as int - 'n' as int] == c;
    }
  }

  lemma UpperExactly(c: char)
    ensures 'A' <= c <= 'M' <==> c in "ABCDEFGHIJKLM"
    ensures 'N' <= c <= 'Z' <==> c in "NOPQRSTUVWXYZ"
  {
    if 'A' <= c <= 'M' {
      assert "ABCDEFGHIJKLM"[c as int - 'A' as int] == c;
    }
    if 'N' <= c <= 'Z' {
      assert "NOPQRSTUVWXYZ"[c as int - 'N' as int] == c;
    }
  }

  lemma DigitsOnly(c: char)
    ensures IsDigit(c) <==> c in "0123456789"
  {
    if IsDigit(c) {
      assert "0123456789"[c as int - '0' as int] == c;
    }
  }

  /** How a text is read: a name as far as it goes, digits in brackets, and nothing else is looked at. */
  lemma NameIsRead(k: string, rest: string)
    requires IsIdentifier(k) && (rest == "" || !IdentChar(rest[0]))
    ensures Tokens(k + rest) == [Key(k)] + Tokens(rest)
  {
    IdentifierToken(k, rest);
  }

  lemma IndexIsRead(d: string, rest: string)
    requires d != "" && AllDigits(d)
    ensures Tokens("[" + d + "]" + rest) == [Index(ParseDecimal(d))] + Tokens(rest)
  {
    var s := "[" + d + "]" + rest;
    var t := s[1..];
    assert t == d + "]" + rest;
    assert forall j :: 0 <= j < |d| ==> t[j] == d[j] && IsDigit(d[j]);
    assert t[|d|] == ']' && DigitLength(t) == |d|;
    assert t[..|d|] == d && s[1 + |d|] == ']' && s[|d| + 2..] == rest;
    assert Token(s) == Some((Index(ParseDecimal(d)), |d| + 2));
  }

  /** Digits in brackets stand at the front of the text. */
  ghost predicate StartsIndex(s: string) {
    exists n :: 1 < n < |s| && s[0] == '[' && AllDigits(s[1..n]) && s[n] == ']'
  }

  lemma BracketStarts(s: string, d: nat)
    requires s != "" && d <= DigitLength(s[1..])
    ensures s[0] == '[' && d > 0 && 1 + d < |s| && s[1 + d] == ']' ==> StartsIndex(s)
  {
    if s[0] == '[' && d > 0 && 1 + d < |s| && s[1 + d] == ']' {
      assert s[1..1 + d] == s[1..][..d];
      assert AllDigits(s[1..1 + d]);
    }
  }

  lemma OtherIsSkipped(c: char, rest: string)
    requires !IdentStart(c) && !StartsIndex([c] + rest)
    ensures Tokens([c] + rest) == Tokens(rest)
  {
    var s := [c] + rest;
    assert s[1..] == rest;
    BracketStarts(s, DigitLength(rest));
    assert Token(s).None?;
  }

  lemma {:induction false} NumberExactly(d: string)
    requires AllDigits(d)
    ensures ParseDecimal("") == 0
    ensures d != "" ==> ParseDecimal(d) == 10 * ParseDecimal(d[..|d| - 1]) + (d[|d| - 1] as int - '0' as int)
  {
  }

  /** One step down: a key of a dictionary, an item of a list, or a letter of a string; nothing else is a step. */
  lemma StepExactly(node: Json, seg: Seg)
    ensures node.Obj? && seg.Key? ==>
      (Child(node, seg).Some? <==> exists j :: 0 <= j < |node.fields| && node.fields[j].key == seg.key)
    ensures node.Obj? && seg.Key? && Distinct(node.fields) ==>
      forall j :: 0 <= j < |node.fields| && node.fields[j].key == seg.key ==>
          Child(node, seg) == Some(node.fields[j].value)
    ensures node.Arr? && seg.Index? ==>
        Child(node, seg) == if seg.i < |node.items| then Some(node.items[seg.i]) else None
    ensures node.Str? && seg.Index? ==>
        Child(node, seg) == if seg.i < |node.s| then Some(Str([node.s[seg.i]])) else None
    ensures !(node.Obj? && seg.Key?) && !(node.Arr? && seg.Index?) && !(node.Str? && seg.Index?) ==>
        Child(node, seg) == None
  {
    if node.Obj? && seg.Key? {
      LookupFinds(node.fields, seg.key);
      if Distinct(node.fields) {
        forall j | 0 <= j < |node.fields| && node.fields[j].key == seg.key
          ensures Child(node, seg) == Some(node.fields[j].value)
        {
          LookupAt(node.fields, j);
        }
      }
    }
  }

  lemma {:induction false} LookupFinds(fields: seq<Field>, k: string)
    ensures Lookup(fields, k).Some? <==> exists j :: 0 <= j < |fields| && fields[j].key == k
  {
    if fields != [] {
      LookupFinds(fields[1..], k);
      if exists j :: 0 <= j < |fields[1..]| && fields[1..][j].key == k {
        var j :| 0 <= j < |fields[1..]| && fields[1..][j].key == k;
        assert fields[j + 1].key == k;
      }
      if exists j :: 0 < j < |fields| && fields[j].key == k {
        var j :| 0 < j < |fields| && fields[j].key == k;
        assert fields[1..][j - 1].key == k;
      }
    }
  }

  /**
   What is shown of a node: its path, the operators it may have, and whether it has a constant that is no dictionary.
   */
  lemma ItemExactly(fields: seq<Field>, path: string, other: string)
    ensures var item := ItemOf(fields, path);
      && item.path == path
      && (item.editableConstant <==> Lookup(fields, "constant").Some? && !Lookup(fields, "constant").value.Obj?)
      && (item.operators.Some? && other in item.operators.value <==>
            CalledName(fields).Str?
            && OperatorGroup(CalledName(fields)).Some? && other in OperatorGroup(CalledName(fields)).value)
  {
    CalledNameExactly(fields);
    GroupsHoldNames(CalledName(fields));
  }

  /** A rule without a formula is shown as an empty dictionary: one item, with nothing to edit. */
  lemma NoFormulaExactly(rule: Json, path: string)
    requires rule.Obj? && Lookup(rule.fields, "formula").None?
    ensures AstNodes(Formula(rule), path) == [Item(path, None, false)]
  {
    assert Lookup([], "function").None? && Lookup([], "name").None? && Lookup([], "constant").None?;
    assert FieldNodes([], path) == [];
  }
}
