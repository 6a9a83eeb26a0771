/**
 Edits of slots that do not lie inside one another: what they do together, in any order, whatever values
 the slots hold before and after.
 */
module RuleEditBatches {
  import opened Common
  import opened RulePaths
  import opened RuleEdits

  // ---- One edit ---------------------------------------------------------------------------------------

  /** The edit leads, through objects and lists only, to a node that has the slot it assigns. */
  predicate Aimed(doc: Json, e: Edit) {
    Solid(doc, e.path) && Walk(doc, e.path).Some? && Walk(doc, e.path).value.Obj?
        && SlotKey(Walk(doc, e.path).value.fields, e.operator).Some?
  }

  function Node(doc: Json, e: Edit): seq<Field>
    requires Aimed(doc, e)
  {
    Walk(doc, e.path).value.fields
  }

  function SlotName(doc: Json, e: Edit): string
    requires Aimed(doc, e)
  {
    SlotKey(Node(doc, e), e.operator).value
  }

  /** The one place of the case that the edit assigns. */
  function Slot(doc: Json, e: Edit): seq<Seg>
    requires Aimed(doc, e)
  {
    e.path + [Key(SlotName(doc, e))]
  }

  /** What the edit assigns there. */
  function NewValue(py: Conversions, doc: Json, e: Edit): Option<Json>
    requires Aimed(doc, e)
  {
    if e.operator then Some(e.value) else Coerce(py, e.value, Lookup(Node(doc, e), SlotName(doc, e)).value)
  }

  lemma AimedSlot(doc: Json, e: Edit)
    requires Aimed(doc, e)
    ensures Walk(doc, Slot(doc, e)) == Lookup(Node(doc, e), SlotName(doc, e)) && Solid(doc, Slot(doc, e))
  {
    WalkAppend(doc, e.path, [Key(SlotName(doc, e))]);
    SolidAppend(doc, e.path, Key(SlotName(doc, e)));
  }

  lemma {:induction false} SolidAppend(node: Json, p: seq<Seg>, seg: Seg)
    requires Solid(node, p) && Walk(node, p).Some? && HasSlot(Walk(node, p).value, seg)
    ensures Solid(node, p + [seg])
    decreases |p|
  {
    if p != [] {
      assert (p + [seg])[1..] == p[1..] + [seg];
      SolidAppend(Child(node, p[0]).value, p[1..], seg);
    }
  }

  lemma ApplyAimed(py: Conversions, doc: Json, e: Edit)
    requires Aimed(doc, e)
    ensures Apply(py, doc, e) == match NewValue(py, doc, e) case Some(v) => Some(Put(doc, Slot(doc, e), v))
        case None => None
  {
  }

  lemma SlotDetermines(doc: Json, e: Edit, f: Edit)
    requires Aimed(doc, e) && Aimed(doc, f) && Slot(doc, e) == Slot(doc, f)
    ensures e.path == f.path && e.operator == f.operator
  {
    var p, q := Slot(doc, e), Slot(doc, f);
    assert p[..|p| - 1] == e.path && q[..|q| - 1] == f.path;
    assert p[|p| - 1] == Key(SlotName(doc, e)) && q[|q| - 1] == Key(SlotName(doc, f));
  }

  // ---- One edit seen from another ------------------------------------------------------------------------

  predicate SameKeys(a: seq<Field>, b: seq<Field>) { |a| == |b| && forall i :: 0 <= i < |a| ==> a[i].key == b[i].key }

  lemma {:induction false} SameKeysLookup(a: seq<Field>, b: seq<Field>, k: string)
    requires SameKeys(a, b)
    ensures Lookup(a, k).Some? <==> Lookup(b, k).Some?
  {
    if a != [] {
      SameKeysLookup(a[1..], b[1..], k);
    }
  }

  lemma SameKeysSameSlot(a: seq<Field>, b: seq<Field>, operator: bool)
    requires SameKeys(a, b)
    ensures SlotKey(a, operator) == SlotKey(b, operator)
  {
    SameKeysLookup(a, b, "function");
    SameKeysLookup(a, b, "name");
    SameKeysLookup(a, b, "constant");
  }

  /** A put that does not replace the node at `q`, or anything around it, leaves its keys. */
  lemma {:induction false} PutKeepsKeys(node: Json, p: seq<Seg>, v: Json, q: seq<Seg>)
    requires Solid(node, q) && Walk(node, q).Some? && Walk(node, q).value.Obj? && !(p <= q)
    ensures var node' := Put(node, p, v);
      && Solid(node', q) && Walk(node', q).Some? && Walk(node', q).value.Obj?
      && SameKeys(Walk(node, q).value.fields, Walk(node', q).value.fields)
    decreases |q|
  {
    if HasSlot(node, p[0]) && q != [] {
      var child := Child(node, p[0]).value;
      ChildOfSet(node, p[0], Put(child, p[1..], v), q[0]);
      if p[0] == q[0] {
        assert p == [p[0]] + p[1..] && q == [q[0]] + q[1..];
        PutKeepsKeys(child, p[1..], v, q[1..]);
      }
    }
  }

  /** Places that are not apart lie one inside the other. */
  lemma {:induction false} ApartExactly(p: seq<Seg>, q: seq<Seg>)
    ensures Apart(p, q) <==> !(p <= q) && !(q <= p)
    decreases |p|
  {
    if p != [] && q != [] {
      ApartExactly(p[1..], q[1..]);
      assert p == [p[0]] + p[1..] && q == [q[0]] + q[1..];
    }
  }

  /**
   Slots of two edits are apart exactly when they differ and neither edit addresses something inside the other's slot.
   */
  lemma SlotsApartExactly(doc: Json, e: Edit, f: Edit)
    requires Aimed(doc, e) && Aimed(doc, f)
    ensures Apart(Slot(doc, e), Slot(doc, f))
      <==> Slot(doc, e) != Slot(doc, f) && !(Slot(doc, e) <= f.path) && !(Slot(doc, f) <= e.path)
  {
    var p, q := Slot(doc, e), Slot(doc, f);
    ApartExactly(p, q);
    assert q[..|q| - 1] == f.path && p[..|p| - 1] == e.path;
    if p <= q && p != q {
      assert p == q[..|p|] == f.path[..|p|];
    }
    if q <= p && p != q {
      assert q == p[..|q|] == e.path[..|q|];
    }
  }

  /** An applied edit leaves an edit of a slot apart as it was: same slot, same new value. */
  lemma OtherEditUndisturbed(py: Conversions, doc: Json, e: Edit, case': Json, f: Edit)
    requires Aimed(doc, e) && Aimed(doc, f) && Apart(Slot(doc, e), Slot(doc, f)) && Apply(py, doc, e) == Some(case')
    ensures Aimed(case', f) && Slot(case', f) == Slot(doc, f) && NewValue(py, case', f) == NewValue(py, doc, f)
  {
    ApplyAimed(py, doc, e);
    var v := NewValue(py, doc, e).value;
    SlotsApartExactly(doc, e, f);
    PutKeepsKeys(doc, Slot(doc, e), v, f.path);
    SameKeysSameSlot(Node(doc, f), Walk(case', f.path).value.fields, f.operator);
    WalkPutApart(doc, Slot(doc, e), v, Slot(doc, f));
    AimedSlot(doc, f);
    AimedSlot(case', f);
  }

  /** Lens law: a put inside a place is lost when the place itself is assigned afterwards. */
  lemma {:induction false} InsideIsLost(node: Json, p: seq<Seg>, rest: seq<Seg>, w: Json, v: Json)
    requires Solid(node, p)
    ensures Put(Put(node, p + rest, w), p, v) == Put(node, p, v)
    decreases |p|
  {
    if p != [] {
      var child := Child(node, p[0]).value;
      assert (p + rest)[1..] == p[1..] + rest && (p + rest)[0] == p[0];
      InsideIsLost(child, p[1..], rest, w, v);
      SetTwice(node, p[0], Put(child, p[1..] + rest, w), Put(child, p[1..], v));
      ChildOfSet(node, p[0], Put(child, p[1..] + rest, w), p[0]);
    }
  }

  lemma {:induction false} ReplaceSame(fields: seq<Field>, k: string)
    requires Lookup(fields, k).Some?
    ensures Replace(fields, k, Lookup(fields, k).value) == fields
  {
    if fields[0].key != k {
      ReplaceSame(fields[1..], k);
    }
  }

  /** Putting what is there already changes nothing. */
  lemma {:induction false} PutSame(node: Json, p: seq<Seg>)
    requires Solid(node, p) && Walk(node, p).Some?
    ensures Put(node, p, Walk(node, p).value) == node
    decreases |p|
  {
    if p != [] {
      PutSame(Child(node, p[0]).value, p[1..]);
      if node.Obj? {
        ReplaceSame(node.fields, p[0].key);
      }
    }
  }

  /** An object stays an object and a list a list when something inside it is replaced. */
  lemma {:induction false} PutKeepsSort(node: Json, p: seq<Seg>, v: Json, q: seq<Seg>)
    requires Solid(node, q) && Walk(node, q).Some? && (Walk(node, q).value.Obj? || Walk(node, q).value.Arr?)
        && !(p <= q)
    ensures Walk(Put(node, p, v), q).Some?
    ensures Walk(node, q).value.Arr? ==> Walk(Put(node, p, v), q).value.Arr?
    ensures Walk(node, q).value.Obj? ==> Walk(Put(node, p, v), q).value.Obj?
    decreases |q|
  {
    if HasSlot(node, p[0]) && q != [] {
      var child := Child(node, p[0]).value;
      ChildOfSet(node, p[0], Put(child, p[1..], v), q[0]);
      if p[0] == q[0] {
        assert p == [p[0]] + p[1..] && q == [q[0]] + q[1..];
        PutKeepsSort(child, p[1..], v, q[1..]);
      }
    }
  }

  // ---- An edit inside the slot of another -----------------------------------------------------------------

  /** `f` addresses something inside the slot that `e` assigns. */
  predicate Inside(doc: Json, f: Edit, e: Edit)
    requires Aimed(doc, e)
  {
    Slot(doc, e) <= f.path
  }

  /** The inner edit as an edit of what the slot of the outer one holds. */
  function Within(doc: Json, f: Edit, e: Edit): Edit
    requires Aimed(doc, e) && Inside(doc, f, e)
  {
    f.(path := f.path[|Slot(doc, e)|..])
  }

  /** The inner edit first: it is lost, and the outer one does what it would have done without it. */
  lemma InnerFirst(py: Conversions, doc: Json, f: Edit, e: Edit)
    requires Aimed(doc, e) && Aimed(doc, f) && Inside(doc, f, e)
    ensures ApplyAll(py, doc, [f, e]) == if NewValue(py, doc, f).Some? then Apply(py, doc, e) else None
  {
    ApplyTwo(py, doc, f, e);
    ApplyAimed(py, doc, f);
    if NewValue(py, doc, f).Some? {
      var w := NewValue(py, doc, f).value;
      var p, q := Slot(doc, e), Slot(doc, f);
      var case' := Put(doc, q, w);
      AimedSlot(doc, e);
      InnerKeepsOuter(py, doc, f, e, w);
      assert q == p + q[|p|..];
      InsideIsLost(doc, p, q[|p|..], w, if NewValue(py, doc, e).Some? then NewValue(py, doc, e).value else Null);
      ApplyAimed(py, case', e);
    }
  }

  /** The slot of the outer edit, and what it assigns there, do not depend on what the inner one puts. */
  lemma InnerKeepsOuter(py: Conversions, doc: Json, f: Edit, e: Edit, w: Json)
    requires Aimed(doc, e) && Aimed(doc, f) && Inside(doc, f, e)
    ensures var case' := Put(doc, Slot(doc, f), w);
      Aimed(case', e) && Slot(case', e) == Slot(doc, e) && NewValue(py, case', e) == NewValue(py, doc, e)
  {
    var p, q := Slot(doc, e), Slot(doc, f);
    var case' := Put(doc, q, w);
    AimedSlot(doc, e);
    assert f.path == p + f.path[|p|..];
    WalkAppend(doc, p, f.path[|p|..]);
    SolidSuffix(doc, p, f.path[|p|..]);
    HoldsNode(Walk(doc, p).value, f.path[|p|..]);
    assert |q| > |p| > |e.path|;
    PutKeepsKeys(doc, q, w, e.path);
    SameKeysSameSlot(Node(doc, e), Walk(case', e.path).value.fields, e.operator);
    PutKeepsSort(doc, q, w, p);
    AimedSlot(case', e);
  }

  lemma {:induction false} SolidSuffix(node: Json, p: seq<Seg>, rest: seq<Seg>)
    requires Solid(node, p + rest) && Walk(node, p).Some?
    ensures Solid(Walk(node, p).value, rest)
    decreases |p|
  {
    if p == [] {
      assert p + rest == rest;
    } else {
      assert (p + rest)[1..] == p[1..] + rest;
      SolidSuffix(Child(node, p[0]).value, p[1..], rest);
    }
  }

  /** What holds an object is an object or a list. */
  lemma HoldsNode(node: Json, rest: seq<Seg>)
    requires Solid(node, rest) && Walk(node, rest).Some? && Walk(node, rest).value.Obj?
    ensures node.Obj? || node.Arr?
  {
  }

  lemma ApplyOne(py: Conversions, doc: Json, e: Edit)
    ensures ApplyAll(py, doc, [e]) == Apply(py, doc, e)
  {
    assert [e][1..] == [];
  }

  lemma ApplyTwo(py: Conversions, doc: Json, e: Edit, f: Edit)
    ensures ApplyAll(py, doc, [e, f]) == match Apply(py, doc, e) case Some(c) => Apply(py, c, f) case None => None
  {
    assert [e, f][1..] == [f];
    if Apply(py, doc, e).Some? {
      ApplyOne(py, Apply(py, doc, e).value, f);
    }
  }

  /** An edit below a place is an edit of what is there. */
  lemma ApplyBelow(py: Conversions, doc: Json, p: seq<Seg>, rest: seq<Seg>, f: Edit)
    requires Solid(doc, p) && Walk(doc, p).Some? && f.path == p + rest
    ensures Apply(py, doc, f) ==
      match Apply(py, Walk(doc, p).value, f.(path := rest)) case Some(v) => Some(Put(doc, p, v)) case None => None
  {
    WalkAppend(doc, p, rest);
    var m := Walk(doc, f.path);
    if m.Some? && m.value.Obj? {
      match SlotKey(m.value.fields, f.operator) {
        case Some(k) =>
          var w := if f.operator then Some(f.value) else Coerce(py, f.value, Lookup(m.value.fields, k).value);
          if w.Some? {
            assert f.path + [Key(k)] == p + (rest + [Key(k)]);
            PutThrough(doc, p, rest + [Key(k)], w.value);
          }
        case None =>
          PutSame(doc, p);
      }
    }
  }

  /** The outer edit first: the inner one is carried out on the new value, if that has the place it addresses. */
  lemma OuterFirst(py: Conversions, doc: Json, e: Edit, f: Edit)
    requires Aimed(doc, e) && Inside(doc, f, e)
    ensures ApplyAll(py, doc, [e, f]) ==
      match NewValue(py, doc, e)
      case None => None
      case Some(v) => match Apply(py, v, Within(doc, f, e)) case Some(v') => Some(Put(doc, Slot(doc, e), v'))
          case None => None
  {
    ApplyTwo(py, doc, e, f);
    ApplyAimed(py, doc, e);
    if NewValue(py, doc, e).Some? {
      var p := Slot(doc, e);
      var v := NewValue(py, doc, e).value;
      AimedSlot(doc, e);
      WalkPut(doc, p, v);
      PutThrough(doc, p, [], v);
      assert p + [] == p && f.path == p + Within(doc, f, e).path;
      ApplyBelow(py, Put(doc, p, v), p, Within(doc, f, e).path, f);
      if Apply(py, v, Within(doc, f, e)).Some? {
        InsideIsLost(doc, p, [], v, Apply(py, v, Within(doc, f, e)).value);
      }
    }
  }

  // ---- Batches of edits --------------------------------------------------------------------------------

  /** Edits whose slots lie pairwise apart. */
  ghost predicate Batch(doc: Json, es: seq<Edit>) {
    && (forall i :: 0 <= i < |es| ==> Aimed(doc, es[i]))
    && (forall i, j :: 0 <= i < |es| && 0 <= j < |es| && i != j ==> Apart(Slot(doc, es[i]), Slot(doc, es[j])))
  }

  lemma BatchAfterFirst(py: Conversions, doc: Json, es: seq<Edit>, case': Json)
    requires es != [] && Batch(doc, es) && Apply(py, doc, es[0]) == Some(case')
    ensures Batch(case', es[1..])
    ensures forall i :: 1 <= i < |es| ==>
        Aimed(case', es[i]) && Slot(case', es[i]) == Slot(doc, es[i])
        && NewValue(py, case', es[i]) == NewValue(py, doc, es[i])
  {
    forall i | 1 <= i < |es|
      ensures Aimed(case', es[i]) && Slot(case', es[i]) == Slot(doc, es[i])
          && NewValue(py, case', es[i]) == NewValue(py, doc, es[i])
    {
      OtherEditUndisturbed(py, doc, es[0], case', es[i]);
    }
  }

  /** A batch goes through exactly when every new value can be formed from the value present at the start. */
  lemma {:induction false} BatchSucceeds(py: Conversions, doc: Json, es: seq<Edit>)
    requires Batch(doc, es)
    ensures ApplyAll(py, doc, es).Some? <==> forall i :: 0 <= i < |es| ==> NewValue(py, doc, es[i]).Some?
    decreases |es|
  {
    if es != [] {
      ApplyAimed(py, doc, es[0]);
      if NewValue(py, doc, es[0]).Some? {
        var case' := Apply(py, doc, es[0]).value;
        BatchAfterFirst(py, doc, es, case');
        BatchSucceeds(py, case', es[1..]);
        assert forall i :: 1 <= i < |es| ==> es[1..][i - 1] == es[i];
      }
    }
  }

  /** Frame: a place apart from every edited slot holds after the batch what it held before. */
  lemma {:induction false} BatchFramed(py: Conversions, doc: Json, es: seq<Edit>, q: seq<Seg>)
    requires Batch(doc, es) && ApplyAll(py, doc, es).Some?
    requires forall i :: 0 <= i < |es| ==> Apart(Slot(doc, es[i]), q)
    ensures Walk(ApplyAll(py, doc, es).value, q) == Walk(doc, q)
    decreases |es|
  {
    if es != [] {
      ApplyAimed(py, doc, es[0]);
      var case' := Apply(py, doc, es[0]).value;
      BatchAfterFirst(py, doc, es, case');
      WalkPutApart(doc, Slot(doc, es[0]), NewValue(py, doc, es[0]).value, q);
      BatchFramed(py, case', es[1..], q);
    }
  }

  /** Effect: every edited slot ends up with the value formed from what it held at the start. */
  lemma {:induction false} BatchEffect(py: Conversions, doc: Json, es: seq<Edit>, n: nat)
    requires Batch(doc, es) && ApplyAll(py, doc, es).Some? && n < |es|
    ensures Walk(ApplyAll(py, doc, es).value, Slot(doc, es[n])) == NewValue(py, doc, es[n])
    decreases |es|
  {
    ApplyAimed(py, doc, es[0]);
    var case' := Apply(py, doc, es[0]).value;
    BatchAfterFirst(py, doc, es, case');
    if n > 0 {
      BatchEffect(py, case', es[1..], n - 1);
    } else {
      AimedSlot(doc, es[0]);
      WalkPut(doc, Slot(doc, es[0]), NewValue(py, doc, es[0]).value);
      BatchFramed(py, case', es[1..], Slot(doc, es[0]));
    }
  }

  // ---- Order ----------------------------------------------------------------------------------------------

  lemma TwoCommute(py: Conversions, doc: Json, e: Edit, f: Edit, rest: seq<Edit>)
    requires Aimed(doc, e) && Aimed(doc, f) && Apart(Slot(doc, e), Slot(doc, f)) && Apart(Slot(doc, f), Slot(doc, e))
    ensures ApplyAll(py, doc, [e, f] + rest) == ApplyAll(py, doc, [f, e] + rest)
  {
    ApplyAimed(py, doc, e);
    ApplyAimed(py, doc, f);
    assert ([e, f] + rest)[1..] == [f] + rest && ([f] + rest)[1..] == rest;
    assert ([f, e] + rest)[1..] == [e] + rest && ([e] + rest)[1..] == rest;
    if NewValue(py, doc, e).Some? {
      var c := Apply(py, doc, e).value;
      OtherEditUndisturbed(py, doc, e, c, f);
      ApplyAimed(py, c, f);
    }
    if NewValue(py, doc, f).Some? {
      var c := Apply(py, doc, f).value;
      OtherEditUndisturbed(py, doc, f, c, e);
      ApplyAimed(py, c, e);
    }
    if NewValue(py, doc, e).Some? && NewValue(py, doc, f).Some? {
      PutPutApart(doc, Slot(doc, e), NewValue(py, doc, e).value, Slot(doc, f), NewValue(py, doc, f).value);
    }
  }

  function ToFront(es: seq<Edit>, n: nat): (r: seq<Edit>)
    requires n < |es|
    ensures |r| == |es| && r[0] == es[n] && r[1..] == es[..n] + es[n + 1..]
  {
    [es[n]] + (es[..n] + es[n + 1..])
  }

  lemma ApplyFirst(py: Conversions, doc: Json, e: Edit, rest: seq<Edit>)
    ensures ApplyAll(py, doc, [e] + rest) == match Apply(py, doc, e) case Some(c) => ApplyAll(py, c, rest)
        case None => None
  {
    assert ([e] + rest)[1..] == rest;
  }

  /** How taking the edit at `n` to the front looks from behind the first edit. */
  lemma ToFrontShape(es: seq<Edit>, n: nat)
    requires 0 < n < |es|
    ensures var tail := es[1..n] + es[n + 1..];
      && [es[0]] + ToFront(es[1..], n - 1) == [es[0], es[n]] + tail
      && ToFront(es, n) == [es[n], es[0]] + tail
  {
    var rest := es[1..];
    assert rest[..n - 1] == es[1..n] && rest[n..] == es[n + 1..] && rest[n - 1] == es[n];
    assert es[..n] == [es[0]] + es[1..n];
  }

  lemma {:induction false} MoveToFront(py: Conversions, doc: Json, es: seq<Edit>, n: nat)
    requires Batch(doc, es) && n < |es|
    ensures ApplyAll(py, doc, es) == ApplyAll(py, doc, ToFront(es, n))
    decreases |es|, 1
  {
    if n == 0 {
      assert ToFront(es, 0) == es;
    } else {
      MoveBehindFirst(py, doc, es, n);
      ToFrontShape(es, n);
      TwoCommute(py, doc, es[0], es[n], es[1..n] + es[n + 1..]);
    }
  }

  lemma {:induction false} MoveBehindFirst(py: Conversions, doc: Json, es: seq<Edit>, n: nat)
    requires Batch(doc, es) && 0 < n < |es|
    ensures ApplyAll(py, doc, es) == ApplyAll(py, doc, [es[0]] + ToFront(es[1..], n - 1))
    decreases |es|, 0
  {
    ApplyFirst(py, doc, es[0], ToFront(es[1..], n - 1));
    if Apply(py, doc, es[0]).Some? {
      BatchAfterFirst(py, doc, es, Apply(py, doc, es[0]).value);
      MoveToFront(py, Apply(py, doc, es[0]).value, es[1..], n - 1);
    }
  }

  lemma TailsAgree(es: seq<Edit>, fs: seq<Edit>, n: nat)
    requires n < |es| && fs != [] && es[n] == fs[0] && multiset(es) == multiset(fs)
    ensures multiset(ToFront(es, n)[1..]) == multiset(fs[1..])
  {
    assert es == es[..n] + [es[n]] + es[n + 1..];
    assert fs == [fs[0]] + fs[1..];
    assert multiset(es) == multiset(ToFront(es, n)[1..]) + multiset{es[n]};
    assert multiset(fs) == multiset(fs[1..]) + multiset{fs[0]};
    assert multiset(ToFront(es, n)[1..]) == multiset(es) - multiset{es[n]};
    assert multiset(fs[1..]) == multiset(fs) - multiset{fs[0]};
  }

  /** The order of a batch does not matter: any permutation of it gives the same tree, or fails as well. */
  lemma {:induction false} BatchOrderFree(py: Conversions, doc: Json, es: seq<Edit>, fs: seq<Edit>)
    requires Batch(doc, es) && multiset(es) == multiset(fs)
    ensures ApplyAll(py, doc, es) == ApplyAll(py, doc, fs)
    decreases |fs|, 1
  {
    if fs == [] {
      assert |multiset(es)| == |es|;
    } else {
      assert fs[0] in multiset(es);
      var n :| 0 <= n < |es| && es[n] == fs[0];
      MoveToFront(py, doc, es, n);
      PermutedBatch(doc, es, n);
      TailsAgree(es, fs, n);
      FirstThenRest(py, doc, ToFront(es, n), fs);
    }
  }

  lemma {:induction false} FirstThenRest(py: Conversions, doc: Json, es: seq<Edit>, fs: seq<Edit>)
    requires es != [] && fs != [] && Batch(doc, es) && es[0] == fs[0] && multiset(es[1..]) == multiset(fs[1..])
    ensures ApplyAll(py, doc, es) == ApplyAll(py, doc, fs)
    decreases |fs|, 0
  {
    if Apply(py, doc, es[0]).Some? {
      var c := Apply(py, doc, es[0]).value;
      BatchAfterFirst(py, doc, es, c);
      BatchOrderFree(py, c, es[1..], fs[1..]);
    }
  }

  lemma PermutedBatch(doc: Json, es: seq<Edit>, n: nat)
    requires Batch(doc, es) && n < |es|
    ensures Batch(doc, ToFront(es, n))
  {
    var front := ToFront(es, n);
    forall i | 0 <= i < |front| ensures front[i] == es[if i == 0 then n else if i <= n then i - 1 else i] {
    }
  }
}
