/** What an empty report is worth, and which findings are real alarms, measured by the JSON values
    that the two schemas accept. */
module Compatibility {
  import opened Prelude
  import opened OpenApi
  import opened SchemaDiff
  import opened DiffLaws
  import opened DiffPolicy
  import opened JsonSchema

  // ----- Requests: every value of the base must be one of the target

  /** What the diff never compares, demanded at every depth: null still allowed, no string enum
      introduced, other enums, items and whatever stands behind names included, and no property
      newly declared, but by a name that accepts every value. */
  ghost predicate Covered(b: Schema, t: Schema, mb: Meaning, mt: Meaning)
    decreases t, 1
  {
    if Typed(b) && Typed(t)
    then (AllowsNull(b) ==> AllowsNull(t)) && (Inhabited(b, mb) ==> CoveredHere(b, t, mb, mt))
    else NamesIncluded(Item(b), Item(t), mb, mt)
  }

  ghost predicate CoveredHere(b: Schema, t: Schema, mb: Meaning, mt: Meaning)
    decreases t, 0
  {
    match (b, t)
    case (StringType(_, be), StringType(_, te)) => te != [] ==> be != []
    case (NumberType(_, be), NumberType(_, te)) => ListIncluded(be, te)
    case (IntegerType(_, be), IntegerType(_, te)) => ListIncluded(be, te)
    case (BooleanType(_, be), BooleanType(_, te)) => BooleansIncluded(be, te)
    case (ArrayType(_, bi), ArrayType(_, ti)) => ti.Some? ==> IncludedRef(bi, ti.value, mb, mt)
    case (ObjectType(_, _, bp), ObjectType(_, _, tp)) => forall p :: p in tp ==> CoveredRef(Get(bp, p.key), p.value, mb, mt)
    case _ => false
  }

  ghost predicate CoveredRef(b: Option<ReferenceOr<Schema>>, t: ReferenceOr<Schema>, mb: Meaning, mt: Meaning)
    decreases t, 0
  {
    match b
    case Some(r) => if r.Item? && t.Item? then Covered(r.item, t.item, mb, mt) else NamesIncluded(r, t, mb, mt)
    case None => AcceptsAll(t, mt)
  }

  /** After an empty default report, inclusion is exactly the part the diff does not compare. */
  lemma {:induction false} EmptyDiffLeavesCovered(b: Schema, t: Schema, mb: Meaning, mt: Meaning)
    requires Keeps(b, t, DEFAULT_CONFIG) && WellFormed(t)
    ensures Included(b, t, mb, mt) <==> Covered(b, t, mb, mt)
    decreases t, 1
  {
    if b.ObjectType? && t.ObjectType? {
      forall p | p in t.properties
        ensures IncludedRef(Get(b.properties, p.key), p.value, mb, mt) <==> CoveredRef(Get(b.properties, p.key), p.value, mb, mt)
      {
        var i :| 0 <= i < |t.properties| && t.properties[i] == p;
        GetEntry(t.properties, i);
        EmptyDiffLeavesCoveredAt(b.properties, t.properties, p, mb, mt);
      }
    }
  }

  lemma {:induction false} EmptyDiffLeavesCoveredAt(bp: IndexMap<string, ReferenceOr<Schema>>, tp: IndexMap<string, ReferenceOr<Schema>>,
                                                    p: Entry<string, ReferenceOr<Schema>>, mb: Meaning, mt: Meaning)
    requires Get(tp, p.key) == Some(p.value) && WellFormedRef(p.value)
    requires forall q :: q in bp ==> KeepsProperty(q, Get(tp, q.key), DEFAULT_CONFIG)
    ensures IncludedRef(Get(bp, p.key), p.value, mb, mt) <==> CoveredRef(Get(bp, p.key), p.value, mb, mt)
    decreases p, 0
  {
    var b := Get(bp, p.key);
    if b.Some? && b.value.Item? && p.value.Item? {
      var i :| 0 <= i < |bp| && bp[i].key == p.key && bp[i].value == b.value;
      assert KeepsProperty(bp[i], Get(tp, bp[i].key), DEFAULT_CONFIG);
      EmptyDiffLeavesCovered(b.value.item, p.value.item, mb, mt);
    }
  }

  /** When an empty default report means what it promises: every value the base accepts is accepted
      by the target if and only if the target is covered. */
  lemma EmptyDiffIsSafeExactlyWhenCovered(b: Schema, t: Schema, loc: Location, mb: Meaning, mt: Meaning)
    requires WellFormed(b) && WellFormed(t) && Diff(b, t, loc, DEFAULT_CONFIG) == []
    ensures Covered(b, t, mb, mt) <==> forall v :: Valid(v, b, mb) ==> Valid(v, t, mt)
  {
    EmptyDiffExactly(b, t, loc, DEFAULT_CONFIG);
    EmptyDiffLeavesCovered(b, t, mb, mt);
    InclusionIsStructural(b, t, mb, mt);
  }

  /** A condition on the trees alone: null still allowed, no string enum introduced, no property newly
      declared, other enums, array items, references and composite schemas kept as they are. */
  ghost predicate KeptOutside(b: Schema, t: Schema)
    decreases t, 1
  {
    if Typed(b) && Typed(t) then (AllowsNull(b) ==> AllowsNull(t)) && KeptOutsideHere(b, t) else b == t
  }

  ghost predicate KeptOutsideHere(b: Schema, t: Schema)
    decreases t, 0
  {
    match (b, t)
    case (StringType(_, be), StringType(_, te)) => te != [] ==> be != []
    case (NumberType(_, be), NumberType(_, te)) => be == te
    case (IntegerType(_, be), IntegerType(_, te)) => be == te
    case (BooleanType(_, be), BooleanType(_, te)) => be == te
    case (ArrayType(_, bi), ArrayType(_, ti)) => ti.Some? ==> bi == ti
    case (ObjectType(_, _, bp), ObjectType(_, _, tp)) => forall p :: p in tp ==> KeptOutsideRef(Get(bp, p.key), p.value)
    case _ => false
  }

  ghost predicate KeptOutsideRef(b: Option<ReferenceOr<Schema>>, t: ReferenceOr<Schema>)
    decreases t, 0
  {
    match (b, t)
    case (Some(Item(bs)), Item(ts)) => KeptOutside(bs, ts)
    case (Some(Reference(bu)), Reference(tu)) => bu == tu
    case _ => false
  }

  /** Every name in the tree means at least as much to the target document as to the base. */
  ghost predicate Loosens(s: Schema, mb: Meaning, mt: Meaning)
    decreases s, 1
  {
    match s
    case ArrayType(_, items) => items.Some? ==> LoosensRef(items.value, mb, mt)
    case ObjectType(_, _, props) => forall p :: p in props ==> LoosensRef(p.value, mb, mt)
    case Composite(text) => forall v :: mb(Untyped(text), v) ==> mt(Untyped(text), v)
    case _ => true
  }

  ghost predicate LoosensRef(r: ReferenceOr<Schema>, mb: Meaning, mt: Meaning)
    decreases r, 0
  {
    match r
    case Reference(uri) => forall v :: mb(Component(uri), v) ==> mt(Component(uri), v)
    case Item(s) => Loosens(s, mb, mt)
  }

  lemma {:induction false} LoosenedAccepts(v: Json, s: Schema, mb: Meaning, mt: Meaning)
    requires Loosens(s, mb, mt) && Valid(v, s, mb)
    ensures Valid(v, s, mt)
    decreases s, 1
  {
    if s.ArrayType? && s.items.Some? && !v.Null? {
      forall e | e in v.elements
        ensures ValidRef(e, s.items.value, mt)
      {
        LoosenedAcceptsRef(e, s.items.value, mb, mt);
      }
    } else if s.ObjectType? && !v.Null? {
      forall p | p in s.properties && p.key in v.members
        ensures ValidRef(v.members[p.key], p.value, mt)
      {
        LoosenedAcceptsMember(v.members[p.key], p, mb, mt);
      }
    }
  }

  lemma {:induction false} LoosenedAcceptsRef(v: Json, r: ReferenceOr<Schema>, mb: Meaning, mt: Meaning)
    requires LoosensRef(r, mb, mt) && ValidRef(v, r, mb)
    ensures ValidRef(v, r, mt)
    decreases r, 0
  {
    if r.Item? { LoosenedAccepts(v, r.item, mb, mt); }
  }

  lemma {:induction false} LoosenedAcceptsMember(v: Json, p: Entry<string, ReferenceOr<Schema>>, mb: Meaning, mt: Meaning)
    requires LoosensRef(p.value, mb, mt) && ValidRef(v, p.value, mb)
    ensures ValidRef(v, p.value, mt)
    decreases p, 0
  {
    LoosenedAcceptsRef(v, p.value, mb, mt);
  }

  lemma {:induction false} KeptOutsideIsCovered(b: Schema, t: Schema, mb: Meaning, mt: Meaning)
    requires KeptOutside(b, t) && Loosens(t, mb, mt) && WellFormed(t)
    ensures Covered(b, t, mb, mt)
    decreases t, 1
  {
    if b.ArrayType? && t.ArrayType? && t.items.Some? {
      ItemsAreIncluded(t.items.value, mb, mt);
    } else if b.ObjectType? && t.ObjectType? {
      forall p | p in t.properties
        ensures CoveredRef(Get(b.properties, p.key), p.value, mb, mt)
      {
        KeptPropertyIsCovered(Get(b.properties, p.key), p, mb, mt);
      }
    } else if b.Composite? || t.Composite? {
      forall v | ValidRef(v, Item(b), mb)
        ensures ValidRef(v, Item(t), mt)
      {
        LoosenedAccepts(v, t, mb, mt);
      }
    }
  }

  lemma ItemsAreIncluded(r: ReferenceOr<Schema>, mb: Meaning, mt: Meaning)
    requires LoosensRef(r, mb, mt) && WellFormedRef(r)
    ensures IncludedRef(Some(r), r, mb, mt)
  {
    if r.Item? {
      forall v | Valid(v, r.item, mb)
        ensures Valid(v, r.item, mt)
      {
        LoosenedAccepts(v, r.item, mb, mt);
      }
      InclusionIsStructural(r.item, r.item, mb, mt);
    }
  }

  lemma {:induction false} KeptPropertyIsCovered(b: Option<ReferenceOr<Schema>>, p: Entry<string, ReferenceOr<Schema>>, mb: Meaning, mt: Meaning)
    requires KeptOutsideRef(b, p.value) && LoosensRef(p.value, mb, mt) && WellFormedRef(p.value)
    ensures CoveredRef(b, p.value, mb, mt)
    decreases p, 0
  {
    if p.value.Item? { KeptOutsideIsCovered(b.value.item, p.value.item, mb, mt); }
  }

  /** An empty report keeps its promise when what it does not look at is kept and no name it mentions
      has become stricter. */
  lemma EmptyDiffIsSafeWhenKept(b: Schema, t: Schema, loc: Location, mb: Meaning, mt: Meaning, v: Json)
    requires WellFormed(t) && KeptOutside(b, t) && Loosens(t, mb, mt)
    requires Diff(b, t, loc, DEFAULT_CONFIG) == [] && Valid(v, b, mb)
    ensures Valid(v, t, mt)
  {
    EmptyDiffExactly(b, t, loc, DEFAULT_CONFIG);
    KeptOutsideIsCovered(b, t, mb, mt);
    EmptyDiffLeavesCovered(b, t, mb, mt);
    IncludedIsSound(v, b, t, mb, mt);
  }

  // ----- Breaking changes the diff does not see

  const BY_REFERENCE := ObjectType(false, [], [Entry("user", Reference("User"))])

  lemma ByReferenceIsKept()
    ensures KeptOutside(BY_REFERENCE, BY_REFERENCE) && Diff(BY_REFERENCE, BY_REFERENCE, [], DEFAULT_CONFIG) == []
  {
    GetEntry(BY_REFERENCE.properties, 0);
    SelfDiffEmpty(BY_REFERENCE, [], DEFAULT_CONFIG);
  }

  /** A component that changes behind a kept reference. */
  lemma ChangedComponentIsUnseen()
    ensures exists s: Schema, mb: Meaning, mt: Meaning, v ::
      KeptOutside(s, s) && Diff(s, s, [], DEFAULT_CONFIG) == [] && Valid(v, s, mb) && !Valid(v, s, mt)
  {
    var mb: Meaning, mt: Meaning := (n: Name, v: Json) => v.Str?, (n: Name, v: Json) => v.Num?;
    var v := Obj(map["user" := Str("")]);
    ByReferenceIsKept();
    ByReferenceMeans(v, mb);
    ByReferenceMeans(v, mt);
  }

  lemma ByReferenceMeans(v: Json, meaning: Meaning)
    requires v.Obj? && "user" in v.members
    ensures Valid(v, BY_REFERENCE, meaning) <==> meaning(Component("User"), v.members["user"])
  {
    assert BY_REFERENCE.properties[0] in BY_REFERENCE.properties;
  }

  /** An enum introduced where there was none. */
  lemma IntroducedEnumIsUnseen(mb: Meaning, mt: Meaning)
    ensures exists b, t: Schema, v ::
      Diff(b, t, [], DEFAULT_CONFIG) == [] && Valid(v, b, mb) && !Valid(v, t, mt) && b.StringType?
  {
    var b, t := ANY_STRING, StringType(false, [Some("ACTIVE")]);
    assert Diff(b, t, [], DEFAULT_CONFIG) == [];
    assert Valid(Str(""), b, mb) && !Valid(Str(""), t, mt);
  }

  /** A property declared where the base allowed anything under that name. */
  lemma DeclaredPropertyIsUnseen(mb: Meaning, mt: Meaning)
    ensures exists b, t: Schema, v ::
      Diff(b, t, [], DEFAULT_CONFIG) == [] && Valid(v, b, mb) && !Valid(v, t, mt) && b.ObjectType?
  {
    var b, t := ObjectType(false, [], []), ObjectType(false, [], [Entry("age", Item(ANY_INTEGER))]);
    var v := Obj(map["age" := Null]);
    assert Diff(b, t, [], DEFAULT_CONFIG) == [];
    assert t.properties[0] in t.properties && !ValidRef(v.members["age"], t.properties[0].value, mt);
    assert Valid(v, b, mb) && !Valid(v, t, mt);
  }

  /** Array items of another type. */
  lemma RetypedItemsAreUnseen(mb: Meaning, mt: Meaning)
    ensures exists b, t: Schema, v ::
      Diff(b, t, [], DEFAULT_CONFIG) == [] && Valid(v, b, mb) && !Valid(v, t, mt) && b.ArrayType?
  {
    var b, t := ArrayType(false, Some(Item(ANY_STRING))), ArrayType(false, Some(Item(ANY_INTEGER)));
    var e := Str("");
    assert Diff(b, t, [], DEFAULT_CONFIG) == [];
    assert e in [e] && ValidRef(e, b.items.value, mb) && !ValidRef(e, t.items.value, mt);
    assert Valid(Arr([e]), b, mb) && !Valid(Arr([e]), t, mt);
  }

  /** A value removed from an integer enum. */
  lemma RemovedIntegerIsUnseen(mb: Meaning, mt: Meaning)
    ensures exists b, t: Schema, v ::
      Diff(b, t, [], DEFAULT_CONFIG) == [] && Valid(v, b, mb) && !Valid(v, t, mt) && b.IntegerType?
  {
    var b, t := IntegerType(false, [Some(1), Some(2)]), IntegerType(false, [Some(1)]);
    assert Diff(b, t, [], DEFAULT_CONFIG) == [];
    assert (2 as real).Floor == 2;
    assert Valid(Num(2 as real), b, mb) && !Valid(Num(2 as real), t, mt);
  }

  /** Null no longer allowed. */
  lemma LostNullIsUnseen(mb: Meaning, mt: Meaning)
    ensures exists b, t: Schema, v ::
      Diff(b, t, [], DEFAULT_CONFIG) == [] && Valid(v, b, mb) && !Valid(v, t, mt) && b.BooleanType?
  {
    var b, t := BooleanType(true, []), BooleanType(false, []);
    assert Diff(b, t, [], DEFAULT_CONFIG) == [];
    assert Valid(Null, b, mb) && !Valid(Null, t, mt);
  }

  // ----- Responses: every value of the target must be one of the base

  /** What an empty report leaves open for the clients of a response, at every depth: null no longer
      avoided, no further enum value, no requirement and no property dropped, items included the
      other way. */
  ghost predicate CoveredBack(b: Schema, t: Schema, mb: Meaning, mt: Meaning)
    decreases b, 1
  {
    if Typed(b) && Typed(t)
    then (AllowsNull(t) ==> AllowsNull(b)) && (Inhabited(t, mt) ==> CoveredBackHere(b, t, mb, mt))
    else NamesIncluded(Item(t), Item(b), mt, mb)
  }

  ghost predicate CoveredBackHere(b: Schema, t: Schema, mb: Meaning, mt: Meaning)
    decreases b, 0
  {
    match (b, t)
    case (StringType(_, be), StringType(_, te)) => be != [] ==> forall x :: x in te && x.Some? ==> x in be
    case (NumberType(_, be), NumberType(_, te)) => ListIncluded(te, be)
    case (IntegerType(_, be), IntegerType(_, te)) => ListIncluded(te, be)
    case (BooleanType(_, be), BooleanType(_, te)) => BooleansIncluded(te, be)
    case (ArrayType(_, bi), ArrayType(_, ti)) => bi.Some? ==> IncludedRef(ti, bi.value, mt, mb)
    case (ObjectType(_, br, bp), ObjectType(_, tr, tp)) =>
      && (forall f :: f in br ==> f in tr)
      && forall p :: p in bp ==> CoveredBackRef(p.value, Get(tp, p.key), mb, mt)
    case _ => false
  }

  ghost predicate CoveredBackRef(b: ReferenceOr<Schema>, t: Option<ReferenceOr<Schema>>, mb: Meaning, mt: Meaning)
    decreases b, 0
  {
    match t
    case Some(r) => if r.Item? && b.Item? then CoveredBack(b.item, r.item, mb, mt) else NamesIncluded(r, b, mt, mb)
    case None => AcceptsAll(b, mb)
  }

  lemma {:induction false} EmptyDiffLeavesCoveredBack(b: Schema, t: Schema, mb: Meaning, mt: Meaning)
    requires Keeps(b, t, DEFAULT_CONFIG)
    ensures Included(t, b, mt, mb) <==> CoveredBack(b, t, mb, mt)
    decreases b, 1
  {
    if b.ObjectType? && t.ObjectType? {
      forall p | p in b.properties
        ensures IncludedRef(Get(t.properties, p.key), p.value, mt, mb) <==> CoveredBackRef(p.value, Get(t.properties, p.key), mb, mt)
      {
        EmptyDiffLeavesCoveredBackAt(p, Get(t.properties, p.key), mb, mt);
      }
    } else if b.StringType? && t.StringType? {
      assert b.enumeration != [] ==> b.enumeration[0] in t.enumeration;
    }
  }

  lemma {:induction false} EmptyDiffLeavesCoveredBackAt(p: Entry<string, ReferenceOr<Schema>>, t: Option<ReferenceOr<Schema>>, mb: Meaning, mt: Meaning)
    requires KeepsProperty(p, t, DEFAULT_CONFIG)
    ensures IncludedRef(t, p.value, mt, mb) <==> CoveredBackRef(p.value, t, mb, mt)
    decreases p, 0
  {
    if p.value.Item? && t.Some? && t.value.Item? {
      EmptyDiffLeavesCoveredBack(p.value.item, t.value.item, mb, mt);
    }
  }

  /** When an empty default report is safe for the clients of a response: every value the target may
      send is one the base allowed if and only if the base is covered in return. */
  lemma EmptyDiffIsSafeForClientsExactly(b: Schema, t: Schema, loc: Location, mb: Meaning, mt: Meaning)
    requires WellFormed(t) && Diff(b, t, loc, DEFAULT_CONFIG) == []
    ensures CoveredBack(b, t, mb, mt) <==> forall v :: Valid(v, t, mt) ==> Valid(v, b, mb)
  {
    EmptyDiffExactly(b, t, loc, DEFAULT_CONFIG);
    EmptyDiffLeavesCoveredBack(b, t, mb, mt);
    InclusionIsStructural(t, b, mt, mb);
  }

  /** The diff compares responses as it compares requests, so it misses a response field that may now
      be absent and reports one that may no longer be. */
  lemma ResponsesAreComparedAsRequests(mb: Meaning, mt: Meaning)
    ensures exists b, t: Schema, v :: Diff(b, t, [], DEFAULT_CONFIG) == [] && Valid(v, t, mt) && !Valid(v, b, mb)
    ensures exists b, t: Schema :: Diff(b, t, [], DEFAULT_CONFIG) != [] && forall v :: Valid(v, t, mt) ==> Valid(v, b, mb)
  {
    var loose, strict := ObjectType(false, [], []), ObjectType(false, ["id"], []);
    assert Diff(strict, loose, [], DEFAULT_CONFIG) == [];
    assert Valid(Obj(map[]), loose, mt) && !Valid(Obj(map[]), strict, mb) by {
      assert "id" in strict.required && "id" !in Obj(map[]).members;
    }
    EmptyRequired([], ["id"], [], DEFAULT_CONFIG);
    assert "id" in ["id"] && !Suppresses(DEFAULT_CONFIG, FieldMadeRequired("id"));
    assert Diff(loose, strict, [], DEFAULT_CONFIG) != [];
    assert forall v :: Valid(v, strict, mt) ==> Valid(v, loose, mb);
  }

  // ----- Alarms

  /** The member reached in a value by following property names. */
  ghost function At(v: Json, path: seq<string>): Option<Json> {
    if path == [] then Some(v)
    else if v.Obj? && path[0] in v.members then At(v.members[path[0]], path[1..])
    else None
  }

  /** The value shows what the finding says. */
  ghost predicate FallsUnder(w: Json, d: Detail) {
    match d
    case TypeChanged(from, to) => HasType(w, from) && !HasType(w, to)
    case EnumValueRemoved(x) => if x.Some? then w == Str(x.value) else w == Null
    case FieldMadeRequired(f) => w.Obj? && f !in w.members
    case _ => false
  }

  /** The value, valid for the base schema of a pair, falls under the finding and for that reason
      is rejected by the pair's target schema. */
  ghost predicate Breaks(w: Json, b: Schema, t: Schema, d: Detail, mb: Meaning, mt: Meaning) {
    Valid(w, b, mb) && FallsUnder(w, d) && !Valid(w, t, mt)
  }

  /** A schema reached by a property path through inline objects. */
  ghost function SchemaAt(b: Schema, path: seq<string>): Option<Schema> {
    if path == [] then Some(b)
    else if b.ObjectType? then
      var p := Get(b.properties, path[0]);
      if p.Some? && p.value.Item? then SchemaAt(p.value.item, path[1..]) else None
    else None
  }

  /** Something can stand at the path: at every object passed on the way, the other mandatory
      properties are satisfiable. */
  ghost predicate Populatable(b: Schema, path: seq<string>, meaning: Meaning)
    requires SchemaAt(b, path).Some?
    decreases |path|
  {
    path != [] ==>
      && Populatable(Get(b.properties, path[0]).value.item, path[1..], meaning)
      && forall p :: p in b.properties && p.key in b.required && p.key != path[0] ==> SatisfiableRef(p.value, meaning)
  }

  /** Whether a finding about a pair is a real one: not a widening from integer to number or a narrowing
      of whole numbers to integers, not the removal of the whole enum, and the removal of a null only
      where it was allowed. */
  ghost predicate Bites(b: Schema, t: Schema, d: Detail, mb: Meaning) {
    match d
    case TypeChanged(from, to) => Inhabited(b, mb) && !(from == "integer" && to == "number") && (b.NumberType? && to == "integer" ==> ListsFraction(b.numbers))
    case EnumValueRemoved(x) =>
      if x.Some? then t.StringType? && t.enumeration != [] else b.StringType? && b.nullable && !AllowsNull(t)
    case FieldMadeRequired(_) => Inhabited(b, mb)
    case _ => false
  }

  predicate ListsFraction(e: seq<Option<real>>) {
    e == [] || exists x :: x in e && x.Some? && !Whole(x.value)
  }

  /** A valid value with a chosen valid value at the path. */
  lemma {:induction false} Embed(b: Schema, path: seq<string>, w: Json, meaning: Meaning) returns (v: Json)
    requires WellFormed(b) && SchemaAt(b, path).Some? && Populatable(b, path, meaning)
    requires Valid(w, SchemaAt(b, path).value, meaning)
    ensures Valid(v, b, meaning) && At(v, path) == Some(w)
    decreases |path|
  {
    if path == [] {
      v := w;
    } else {
      var name := path[0];
      var below := Get(b.properties, name);
      var u := Embed(below.value.item, path[1..], w, meaning);
      var m := SampleMembers(b.properties, (set r | r in b.required) - {name}, meaning);
      v := Obj(m[name := u]);
      forall p | p in b.properties && p.key in v.members
        ensures ValidRef(v.members[p.key], p.value, meaning)
      {
        if p.key == name {
          var i :| 0 <= i < |b.properties| && b.properties[i] == p;
          GetEntry(b.properties, i);
        }
      }
    }
  }

  /** Conversely a valid value with something at the path shows the path populatable. */
  lemma {:induction false} Extract(b: Schema, path: seq<string>, v: Json, meaning: Meaning)
    requires SchemaAt(b, path).Some? && Valid(v, b, meaning) && At(v, path).Some?
    ensures Populatable(b, path, meaning) && Valid(At(v, path).value, SchemaAt(b, path).value, meaning)
    decreases |path|
  {
    if path != [] {
      var below := Get(b.properties, path[0]);
      var i :| 0 <= i < |b.properties| && b.properties[i].key == path[0] && b.properties[i].value == below.value;
      assert b.properties[i] in b.properties;
      Extract(below.value.item, path[1..], v.members[path[0]], meaning);
      forall p | p in b.properties && p.key in b.required && p.key != path[0]
        ensures SatisfiableRef(p.value, meaning)
      {
        ValidPropertyIsSatisfiable(v.members[p.key], p, meaning);
      }
    }
  }

  /** At the pair: the finding is real exactly when some base-valid value breaks. */
  lemma BitesExactly(b: Schema, t: Schema, loc: Location, c: Change, mb: Meaning, mt: Meaning)
    requires WellFormed(b) && c in LocalFindings(b, t, loc, DEFAULT_CONFIG)
    ensures Bites(b, t, c.detail, mb) <==> exists w :: Breaks(w, b, t, c.detail, mb, mt)
  {
    FindingFacts(b, t, loc, c);
    if Bites(b, t, c.detail, mb) {
      var w := BitingValue(b, t, loc, c, mb, mt);
    }
    if w :| Breaks(w, b, t, c.detail, mb, mt) {
      BrokenBites(b, t, loc, c, w, mb, mt);
    }
  }

  lemma BrokenBites(b: Schema, t: Schema, loc: Location, c: Change, w: Json, mb: Meaning, mt: Meaning)
    requires c in LocalFindings(b, t, loc, DEFAULT_CONFIG) && Breaks(w, b, t, c.detail, mb, mt)
    ensures Bites(b, t, c.detail, mb)
  {
    FindingFacts(b, t, loc, c);
    if !w.Null? { ValidIsInhabited(w, b, mb); }
  }

  lemma BitingValue(b: Schema, t: Schema, loc: Location, c: Change, mb: Meaning, mt: Meaning) returns (w: Json)
    requires WellFormed(b) && c in LocalFindings(b, t, loc, DEFAULT_CONFIG)
    requires Bites(b, t, c.detail, mb)
    ensures Breaks(w, b, t, c.detail, mb, mt)
  {
    FindingFacts(b, t, loc, c);
    if c.detail.EnumValueRemoved? {
      w := if c.detail.value.Some? then Str(c.detail.value.value) else Null;
    } else {
      w := Sample(b, mb);
      if b.NumberType? && c.detail.to == "integer" {
        w := Fraction(b, mb);
      }
      if Valid(w, t, mt) {
        ValidHasType(w, t, mt);
      }
    }
  }

  /** A number that is no integer. */
  lemma Fraction(s: Schema, meaning: Meaning) returns (w: Json)
    requires s.NumberType? && ListsFraction(s.numbers)
    ensures Valid(w, s, meaning) && HasType(w, "number") && !HasType(w, "integer")
  {
    w := Num(0.5);
    if s.numbers != [] {
      var x :| x in s.numbers && x.Some? && !Whole(x.value);
      w := Num(x.value);
    }
  }

  lemma ValidHasType(v: Json, s: Schema, meaning: Meaning)
    requires Typed(s) && Valid(v, s, meaning) && !v.Null?
    ensures HasType(v, TypeName(s))
  {
  }

  /** What is known of a pair that reports a finding. */
  lemma FindingFacts(b: Schema, t: Schema, loc: Location, c: Change)
    requires c in LocalFindings(b, t, loc, DEFAULT_CONFIG)
    ensures match c.detail
      case TypeChanged(from, to) => Typed(b) && Typed(t) && TypeName(b) == from && TypeName(t) == to && from != to
      case EnumValueRemoved(x) => b.StringType? && t.StringType? && x in b.enumeration && x !in t.enumeration
      case FieldMadeRequired(f) => b.ObjectType? && t.ObjectType? && f in t.required && f !in b.required
      case _ => false
  {
    if b.StringType? && t.StringType? {
      EnumSites(b.enumeration, t.enumeration, loc, DEFAULT_CONFIG);
    }
    if b.ObjectType? && t.ObjectType? {
      RequiredSites(b.required, t.required, loc, DEFAULT_CONFIG);
    }
  }

  /** The value has, at the path, a value that breaks under the finding. */
  ghost predicate Exposes(v: Json, path: seq<string>, b: Schema, t: Schema, d: Detail, mb: Meaning, mt: Meaning) {
    At(v, path).Some? && Breaks(At(v, path).value, b, t, d, mb, mt)
  }

  /** Which alarms are real: for a finding reported at a path, some value that the base accepts
      breaks there, if and only if the path is populatable and the finding bites. */
  lemma AlarmsExactly(b: Schema, t: Schema, path: seq<string>, loc: Location, c: Change, mb: Meaning, mt: Meaning)
    requires WellFormed(b) && ReportedAt(b, t, path, loc, DEFAULT_CONFIG, c)
    ensures SchemaAt(b, path).Some? && SchemaAt(t, path).Some?
    ensures Populatable(b, path, mb) && Bites(SchemaAt(b, path).value, SchemaAt(t, path).value, c.detail, mb) <==>
      exists v :: Valid(v, b, mb) && Exposes(v, path, SchemaAt(b, path).value, SchemaAt(t, path).value, c.detail, mb, mt)
  {
    PairSides(b, t, path);
    var s, u := SchemaAt(b, path).value, SchemaAt(t, path).value;
    BitesExactly(s, u, loc + path, c, mb, mt);
    if Populatable(b, path, mb) && Bites(s, u, c.detail, mb) {
      var w :| Breaks(w, s, u, c.detail, mb, mt);
      var v := Embed(b, path, w, mb);
      assert Exposes(v, path, s, u, c.detail, mb, mt);
    }
    if exists v :: Valid(v, b, mb) && Exposes(v, path, s, u, c.detail, mb, mt) {
      var v :| Valid(v, b, mb) && Exposes(v, path, s, u, c.detail, mb, mt);
      Extract(b, path, v, mb);
    }
  }

  /** A new required field is never a false alarm: on a populatable path to a satisfiable object it
      comes with a value that the base accepts and the target rejects. */
  lemma RequiredFieldAlarmsAreReal(b: Schema, t: Schema, path: seq<string>, loc: Location, c: Change, mb: Meaning, mt: Meaning) returns (v: Json)
    requires WellFormed(b) && ReportedAt(b, t, path, loc, DEFAULT_CONFIG, c) && c.detail.FieldMadeRequired?
    requires SchemaAt(b, path).Some? && Populatable(b, path, mb) && Inhabited(SchemaAt(b, path).value, mb)
    ensures Valid(v, b, mb) && !Valid(v, t, mt)
    ensures At(v, path).Some? && At(v, path).value.Obj? && c.detail.field !in At(v, path).value.members
  {
    AlarmsExactly(b, t, path, loc, c, mb, mt);
    var s, u := SchemaAt(b, path).value, SchemaAt(t, path).value;
    v :| Valid(v, b, mb) && Exposes(v, path, s, u, c.detail, mb, mt);
    RejectedBelow(t, path, v, mt);
  }

  /** Three kinds of false alarm: an integer widened to a number, an enum lifted altogether, and a null
      removed from an enum that is not nullable. */
  lemma FalseAlarms(mb: Meaning, mt: Meaning)
    ensures Diff(ANY_INTEGER, ANY_NUMBER, [], DEFAULT_CONFIG) != []
    ensures forall v :: Valid(v, ANY_INTEGER, mb) ==> Valid(v, ANY_NUMBER, mt)
    ensures Diff(StringType(false, [Some("A")]), ANY_STRING, [], DEFAULT_CONFIG) != []
    ensures forall v :: Valid(v, StringType(false, [Some("A")]), mb) ==> Valid(v, ANY_STRING, mt)
    ensures Diff(StringType(false, [Some("A"), None]), StringType(false, [Some("A")]), [], DEFAULT_CONFIG) != []
    ensures forall v :: Valid(v, StringType(false, [Some("A"), None]), mb) ==> Valid(v, StringType(false, [Some("A")]), mt)
  {
    assert TypeFindings(ANY_INTEGER, ANY_NUMBER, [], DEFAULT_CONFIG) != [];
    ReportedRemoval([Some("A")], [], Some("A"));
    ReportedRemoval([Some("A"), None], [Some("A")], None);
  }

  lemma ReportedRemoval(be: seq<Option<string>>, te: seq<Option<string>>, x: Option<string>)
    requires x in be && x !in te
    ensures Diff(StringType(false, be), StringType(false, te), [], DEFAULT_CONFIG) != []
  {
    EmptyEnums(be, te, [], DEFAULT_CONFIG);
    assert !Suppresses(DEFAULT_CONFIG, EnumValueRemoved(x));
  }

  lemma {:induction false} PairSides(b: Schema, t: Schema, path: seq<string>)
    requires PairAt(b, t, path).Some?
    ensures SchemaAt(b, path) == Some(PairAt(b, t, path).value.0) && SchemaAt(t, path) == Some(PairAt(b, t, path).value.1)
    ensures WellFormed(b) ==> WellFormed(PairAt(b, t, path).value.0)
    ensures WellFormed(t) ==> WellFormed(PairAt(b, t, path).value.1)
    decreases |path|
  {
    if path != [] {
      var bp, tp := Get(b.properties, path[0]), Get(t.properties, path[0]);
      var i :| 0 <= i < |b.properties| && b.properties[i].key == path[0] && b.properties[i].value == bp.value;
      var j :| 0 <= j < |t.properties| && t.properties[j].key == path[0] && t.properties[j].value == tp.value;
      PairSides(bp.value.item, tp.value.item, path[1..]);
    }
  }

  /** What a schema rejects at a path it rejects as a whole. */
  lemma {:induction false} RejectedBelow(t: Schema, path: seq<string>, v: Json, meaning: Meaning)
    requires SchemaAt(t, path).Some? && At(v, path).Some? && !Valid(At(v, path).value, SchemaAt(t, path).value, meaning)
    ensures !Valid(v, t, meaning)
    decreases |path|
  {
    if path != [] {
      var below := Get(t.properties, path[0]);
      var i :| 0 <= i < |t.properties| && t.properties[i].key == path[0] && t.properties[i].value == below.value;
      assert t.properties[i] in t.properties;
      RejectedBelow(below.value.item, path[1..], v.members[path[0]], meaning);
    }
  }

  // ----- Alarms about responses

  /** The value breaks the guarantee that the base gave by the keyword the finding is about. */
  ghost predicate BreaksGuarantee(w: Json, b: Schema, d: Detail) {
    match d
    case TypeChanged(from, to) => HasType(w, to) && !HasType(w, from)
    case EnumValueRemoved(_) => b.StringType? && b.enumeration != [] && if w.Null? then None !in b.enumeration else w.Str? && Some(w.text) !in b.enumeration
    case FieldMadeRequired(f) => w.Obj? && f in SchemaRequired(b) && f !in w.members
    case _ => false
  }

  ghost function SchemaRequired(b: Schema): seq<string> {
    if b.ObjectType? then b.required else []
  }

  /** The value, which the target may send, breaks the base's guarantee and so is no value of the base. */
  ghost predicate Surprises(w: Json, b: Schema, t: Schema, d: Detail, mb: Meaning, mt: Meaning) {
    Valid(w, t, mt) && BreaksGuarantee(w, b, d) && !Valid(w, b, mb)
  }

  /** Whether a finding about a pair of response schemas is a real one: a type changed, but not from
      number to integer or from integer to whole numbers, or an enum that also gained values or was
      lifted; never a required field. */
  ghost predicate BitesClients(b: Schema, t: Schema, d: Detail, mt: Meaning) {
    match d
    case TypeChanged(from, to) => Inhabited(t, mt) && !(from == "number" && to == "integer") && (t.NumberType? && from == "integer" ==> ListsFraction(t.numbers))
    case EnumValueRemoved(_) =>
      b.StringType? && t.StringType? && (t.enumeration == [] || exists x :: x in t.enumeration && x !in b.enumeration && (x.Some? || t.nullable))
    case _ => false
  }

  lemma BitesClientsExactly(b: Schema, t: Schema, loc: Location, c: Change, mb: Meaning, mt: Meaning)
    requires WellFormed(t) && c in LocalFindings(b, t, loc, DEFAULT_CONFIG)
    ensures BitesClients(b, t, c.detail, mt) <==> exists w :: Surprises(w, b, t, c.detail, mb, mt)
  {
    FindingFacts(b, t, loc, c);
    if BitesClients(b, t, c.detail, mt) {
      var w := SurprisingValue(b, t, loc, c, mb, mt);
    }
    if w :| Surprises(w, b, t, c.detail, mb, mt) {
      SurpriseBites(b, t, loc, c, w, mb, mt);
    }
  }

  lemma SurpriseBites(b: Schema, t: Schema, loc: Location, c: Change, w: Json, mb: Meaning, mt: Meaning)
    requires c in LocalFindings(b, t, loc, DEFAULT_CONFIG) && Surprises(w, b, t, c.detail, mb, mt)
    ensures BitesClients(b, t, c.detail, mt)
  {
    FindingFacts(b, t, loc, c);
    if !w.Null? { ValidIsInhabited(w, t, mt); }
  }

  lemma SurprisingValue(b: Schema, t: Schema, loc: Location, c: Change, mb: Meaning, mt: Meaning) returns (w: Json)
    requires WellFormed(t) && c in LocalFindings(b, t, loc, DEFAULT_CONFIG)
    requires BitesClients(b, t, c.detail, mt)
    ensures Surprises(w, b, t, c.detail, mb, mt)
  {
    FindingFacts(b, t, loc, c);
    if c.detail.TypeChanged? {
      w := Sample(t, mt);
      if t.NumberType? && c.detail.from == "integer" {
        w := Fraction(t, mt);
      }
      if Valid(w, b, mb) {
        ValidHasType(w, b, mb);
      }
    } else if t.enumeration == [] {
      var text := FreshText(b.enumeration);
      w := Str(text);
    } else {
      var x :| x in t.enumeration && x !in b.enumeration && (x.Some? || t.nullable);
      w := if x.Some? then Str(x.value) else Null;
    }
  }

  /** The value has, at the path, a value that surprises under the finding. */
  ghost predicate ShowsClients(v: Json, path: seq<string>, b: Schema, t: Schema, d: Detail, mb: Meaning, mt: Meaning) {
    At(v, path).Some? && Surprises(At(v, path).value, b, t, d, mb, mt)
  }

  /** Which alarms about a response are real: some value that the target may send breaks at the path
      what the base guaranteed there, if and only if the path is populatable and the finding bites clients. */
  lemma ResponseAlarmsExactly(b: Schema, t: Schema, path: seq<string>, loc: Location, c: Change, mb: Meaning, mt: Meaning)
    requires WellFormed(t) && ReportedAt(b, t, path, loc, DEFAULT_CONFIG, c)
    ensures SchemaAt(b, path).Some? && SchemaAt(t, path).Some?
    ensures Populatable(t, path, mt) && BitesClients(SchemaAt(b, path).value, SchemaAt(t, path).value, c.detail, mt) <==>
      exists v :: Valid(v, t, mt) && ShowsClients(v, path, SchemaAt(b, path).value, SchemaAt(t, path).value, c.detail, mb, mt)
  {
    PairSides(b, t, path);
    var s, u := SchemaAt(b, path).value, SchemaAt(t, path).value;
    BitesClientsExactly(s, u, loc + path, c, mb, mt);
    if Populatable(t, path, mt) && BitesClients(s, u, c.detail, mt) {
      var w :| Surprises(w, s, u, c.detail, mb, mt);
      var v := Embed(t, path, w, mt);
      assert ShowsClients(v, path, s, u, c.detail, mb, mt);
    }
    if exists v :: Valid(v, t, mt) && ShowsClients(v, path, s, u, c.detail, mb, mt) {
      var v :| Valid(v, t, mt) && ShowsClients(v, path, s, u, c.detail, mb, mt);
      Extract(t, path, v, mt);
    }
  }

  /** And a real one comes with a response that the base did not allow. */
  lemma RealResponseAlarmsBreakClients(b: Schema, t: Schema, path: seq<string>, loc: Location, c: Change, mb: Meaning, mt: Meaning) returns (v: Json)
    requires WellFormed(t) && ReportedAt(b, t, path, loc, DEFAULT_CONFIG, c)
    requires SchemaAt(b, path).Some? && SchemaAt(t, path).Some?
    requires Populatable(t, path, mt) && BitesClients(SchemaAt(b, path).value, SchemaAt(t, path).value, c.detail, mt)
    ensures Valid(v, t, mt) && !Valid(v, b, mb)
  {
    ResponseAlarmsExactly(b, t, path, loc, c, mb, mt);
    v :| Valid(v, t, mt) && ShowsClients(v, path, SchemaAt(b, path).value, SchemaAt(t, path).value, c.detail, mb, mt);
    RejectedBelow(b, path, v, mb);
  }
}
