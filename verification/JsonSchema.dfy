/** JSON values, which of them a schema accepts (type, nullable, enum, items, required and properties of
    the OpenAPI 3.0.3 Schema Object, section 4.7.24), and when one schema accepts all that another does. */
module JsonSchema {
  import opened Prelude
  import opened OpenApi
  import opened DiffLaws

  datatype Json =
    | Null
    | Bool(b: bool)
    | Num(n: real)
    | Str(text: string)
    | Arr(elements: seq<Json>)
    | Obj(members: map<string, Json>)

  /** What the diff cannot look into: components behind references, and composite schemas. */
  datatype Name = Component(uri: string) | Untyped(text: string)

  /** Which values a document gives to these names. Theorems hold for every meaning; the base and the
      target document each have their own. */
  type Meaning = (Name, Json) -> bool

  ghost predicate HasType(v: Json, typeName: string) {
    match typeName
    case "string" => v.Str?
    case "number" => v.Num?
    case "integer" => v.Num? && Whole(v.n)
    case "boolean" => v.Bool?
    case "array" => v.Arr?
    case "object" => v.Obj?
    case _ => false
  }

  predicate Whole(n: real) {
    n.Floor as real == n
  }

  /** The value passes the enum; an empty enum is no enum. */
  predicate Admits<T(==)>(e: seq<Option<T>>, x: T) {
    e == [] || Some(x) in e
  }

  /** A typed schema accepts null if it is nullable and its enum, if any, lists null. */
  predicate AllowsNull(s: Schema) {
    match s
    case StringType(nullable, e) => nullable && (e == [] || None in e)
    case NumberType(nullable, e) => nullable && (e == [] || None in e)
    case IntegerType(nullable, e) => nullable && (e == [] || None in e)
    case BooleanType(nullable, e) => nullable && (e == [] || None in e)
    case ArrayType(nullable, _) => nullable
    case ObjectType(nullable, _, _) => nullable
    case Composite(_) => false
  }

  ghost predicate Valid(v: Json, s: Schema, meaning: Meaning)
    decreases s, 1
  {
    match s
    case StringType(_, e) => if v.Null? then AllowsNull(s) else v.Str? && Admits(e, v.text)
    case NumberType(_, e) => if v.Null? then AllowsNull(s) else v.Num? && Admits(e, v.n)
    case IntegerType(_, e) => if v.Null? then AllowsNull(s) else v.Num? && Whole(v.n) && Admits(e, v.n.Floor)
    case BooleanType(_, e) => if v.Null? then AllowsNull(s) else v.Bool? && Admits(e, v.b)
    case ArrayType(_, items) =>
      if v.Null? then AllowsNull(s)
      else v.Arr? && (items.Some? ==> forall e :: e in v.elements ==> ValidRef(e, items.value, meaning))
    case ObjectType(_, required, props) =>
      if v.Null? then AllowsNull(s)
      else
        && v.Obj?
        && (forall r :: r in required ==> r in v.members)
        && forall p :: p in props && p.key in v.members ==> ValidRef(v.members[p.key], p.value, meaning)
    case Composite(text) => meaning(Untyped(text), v)
  }

  ghost predicate ValidRef(v: Json, r: ReferenceOr<Schema>, meaning: Meaning)
    decreases r, 0
  {
    match r
    case Reference(uri) => meaning(Component(uri), v)
    case Item(s) => Valid(v, s, meaning)
  }

  // ----- Which schemas accept anything

  ghost predicate ListsSome<T(!new)>(e: seq<Option<T>>) {
    e == [] || exists x :: x in e && x.Some?
  }

  /** Some value other than null may be accepted: no mandatory enum lists nothing but null, and no
      mandatory name is empty. */
  ghost predicate Inhabited(s: Schema, meaning: Meaning)
    decreases s, 1
  {
    match s
    case StringType(_, e) => ListsSome(e)
    case NumberType(_, e) => ListsSome(e)
    case IntegerType(_, e) => ListsSome(e)
    case BooleanType(_, e) => ListsSome(e)
    case ArrayType(_, _) => true
    case ObjectType(_, required, props) => forall p :: p in props && p.key in required ==> SatisfiableRef(p.value, meaning)
    case Composite(text) => exists v :: meaning(Untyped(text), v)
  }

  ghost predicate Satisfiable(s: Schema, meaning: Meaning)
    decreases s, 2
  {
    AllowsNull(s) || Inhabited(s, meaning)
  }

  ghost predicate SatisfiableRef(r: ReferenceOr<Schema>, meaning: Meaning)
    decreases r, 0
  {
    match r
    case Reference(uri) => exists v :: meaning(Component(uri), v)
    case Item(s) => Satisfiable(s, meaning)
  }

  lemma {:induction false} ValidIsInhabited(v: Json, s: Schema, meaning: Meaning)
    requires Valid(v, s, meaning) && (Typed(s) ==> !v.Null?)
    ensures Inhabited(s, meaning)
    decreases s, 0
  {
    if s.ObjectType? {
      forall p | p in s.properties && p.key in s.required
        ensures SatisfiableRef(p.value, meaning)
      {
        ValidPropertyIsSatisfiable(v.members[p.key], p, meaning);
      }
    }
  }

  lemma {:induction false} ValidIsSatisfiable(v: Json, s: Schema, meaning: Meaning)
    requires Valid(v, s, meaning)
    ensures Satisfiable(s, meaning)
    decreases s, 1
  {
    if !(Typed(s) && v.Null?) { ValidIsInhabited(v, s, meaning); }
  }

  lemma {:induction false} ValidPropertyIsSatisfiable(v: Json, p: Entry<string, ReferenceOr<Schema>>, meaning: Meaning)
    requires ValidRef(v, p.value, meaning)
    ensures SatisfiableRef(p.value, meaning)
    decreases p
  {
    if p.value.Item? { ValidIsSatisfiable(v, p.value.item, meaning); }
  }

  ghost predicate WellFormedRef(r: ReferenceOr<Schema>) {
    r.Item? ==> WellFormed(r.item)
  }

  lemma Listed<T(!new)>(e: seq<Option<T>>, free: T) returns (x: T)
    requires ListsSome(e)
    ensures Admits(e, x) && (e == [] ==> x == free)
  {
    if e == [] {
      x := free;
    } else {
      var y :| y in e && y.Some?;
      x := y.value;
    }
  }

  /** A value other than null that an inhabited schema accepts. */
  lemma {:induction false} Sample(s: Schema, meaning: Meaning) returns (v: Json)
    requires WellFormed(s) && Inhabited(s, meaning)
    ensures Valid(v, s, meaning) && (Typed(s) ==> HasType(v, TypeName(s)))
    ensures s.ObjectType? ==> v.members.Keys == set r | r in s.required
    decreases s, 1
  {
    match s
    case StringType(_, e) =>
      var x := Listed(e, "");
      v := Str(x);
    case NumberType(_, e) =>
      var x := Listed(e, 0.5);
      v := Num(x);
    case IntegerType(_, e) =>
      var x := Listed(e, 0);
      v := Num(x as real);
    case BooleanType(_, e) =>
      var x := Listed(e, true);
      v := Bool(x);
    case ArrayType(_, _) => v := Arr([]);
    case ObjectType(_, required, props) =>
      var m := SampleMembers(props, (set r | r in required), meaning);
      v := Obj(m);
    case Composite(text) => v :| meaning(Untyped(text), v);
  }

  /** Members for exactly the given names, each accepted by the property of that name, if any. */
  lemma {:induction false} SampleMembers(props: IndexMap<string, ReferenceOr<Schema>>, names: set<string>, meaning: Meaning)
    returns (m: map<string, Json>)
    requires UniqueKeys(props) && forall i :: 0 <= i < |props| ==> WellFormedRef(props[i].value)
    requires forall p :: p in props && p.key in names ==> SatisfiableRef(p.value, meaning)
    ensures m.Keys == names
    ensures forall p :: p in props && p.key in m ==> ValidRef(m[p.key], p.value, meaning)
    decreases props, 0
  {
    if props == [] {
      m := map name | name in names :: Null;
    } else {
      var n := |props| - 1;
      assert forall i :: 0 <= i < n ==> props[..n][i] == props[i];
      m := SampleMembers(props[..n], names, meaning);
      if props[n].key in names {
        assert props[n] in props;
        var v := SampleRef(props[n], meaning);
        m := m[props[n].key := v];
      }
    }
  }

  lemma {:induction false} SampleRef(p: Entry<string, ReferenceOr<Schema>>, meaning: Meaning) returns (v: Json)
    requires WellFormedRef(p.value) && SatisfiableRef(p.value, meaning)
    ensures ValidRef(v, p.value, meaning)
    decreases p, 0
  {
    match p.value
    case Reference(uri) => v :| meaning(Component(uri), v);
    case Item(s) =>
      if AllowsNull(s) { v := Null; } else { v := Sample(s, meaning); }
  }

  /** A schema is satisfiable if and only if it accepts some value. */
  lemma SatisfiableExact(s: Schema, meaning: Meaning)
    requires WellFormed(s)
    ensures Satisfiable(s, meaning) <==> exists v :: Valid(v, s, meaning)
  {
    if AllowsNull(s) {
      assert Valid(Null, s, meaning);
    } else if Inhabited(s, meaning) {
      var v := Sample(s, meaning);
      assert Valid(v, s, meaning);
    }
    if exists v :: Valid(v, s, meaning) {
      var v :| Valid(v, s, meaning);
      ValidIsSatisfiable(v, s, meaning);
    }
  }

  // ----- When one schema accepts all that another does

  /** Every value the first enum admits the second admits, for types with infinitely many values. */
  predicate ListIncluded<T(==)>(be: seq<Option<T>>, te: seq<Option<T>>) {
    te == [] || (be != [] && forall x :: x in be && x.Some? ==> x in te)
  }

  predicate BooleansIncluded(be: seq<Option<bool>>, te: seq<Option<bool>>) {
    (Admits(be, true) ==> Admits(te, true)) && (Admits(be, false) ==> Admits(te, false))
  }

  predicate IntegersIncluded(be: seq<Option<int>>, te: seq<Option<real>>) {
    te == [] || (be != [] && forall x :: x in be && x.Some? ==> Some(x.value as real) in te)
  }

  predicate NumbersIncluded(be: seq<Option<real>>, te: seq<Option<int>>) {
    be != [] && forall x :: x in be && x.Some? ==> Whole(x.value) && Admits(te, x.value.Floor)
  }

  /** Structural inclusion of a base schema under one meaning in a target schema under another:
      decided by the two trees, but for the names, where only the meanings can tell. */
  ghost predicate Included(b: Schema, t: Schema, mb: Meaning, mt: Meaning)
    decreases t, 1
  {
    if Typed(b) && Typed(t)
    then (AllowsNull(b) ==> AllowsNull(t)) && (Inhabited(b, mb) ==> IncludedHere(b, t, mb, mt))
    else NamesIncluded(Item(b), Item(t), mb, mt)
  }

  ghost predicate IncludedHere(b: Schema, t: Schema, mb: Meaning, mt: Meaning)
    decreases t, 0
  {
    match (b, t)
    case (StringType(_, be), StringType(_, te)) => ListIncluded(be, te)
    case (NumberType(_, be), NumberType(_, te)) => ListIncluded(be, te)
    case (IntegerType(_, be), IntegerType(_, te)) => ListIncluded(be, te)
    case (IntegerType(_, be), NumberType(_, te)) => IntegersIncluded(be, te)
    case (NumberType(_, be), IntegerType(_, te)) => NumbersIncluded(be, te)
    case (BooleanType(_, be), BooleanType(_, te)) => BooleansIncluded(be, te)
    case (ArrayType(_, bi), ArrayType(_, ti)) => ti.Some? ==> IncludedRef(bi, ti.value, mb, mt)
    case (ObjectType(_, br, bp), ObjectType(_, tr, tp)) =>
      && (forall r :: r in tr ==> r in br)
      && forall p :: p in tp ==> IncludedRef(Get(bp, p.key), p.value, mb, mt)
    case _ => false
  }

  /** Two items or properties. Where the base declares none it accepts every value, and no typed
      schema does. */
  ghost predicate IncludedRef(b: Option<ReferenceOr<Schema>>, t: ReferenceOr<Schema>, mb: Meaning, mt: Meaning)
    decreases t, 0
  {
    match b
    case Some(r) => if r.Item? && t.Item? then Included(r.item, t.item, mb, mt) else NamesIncluded(r, t, mb, mt)
    case None => AcceptsAll(t, mt)
  }

  /** Where a name stands on a side the values themselves decide. */
  ghost predicate NamesIncluded(b: ReferenceOr<Schema>, t: ReferenceOr<Schema>, mb: Meaning, mt: Meaning) {
    forall v :: ValidRef(v, b, mb) ==> ValidRef(v, t, mt)
  }

  /** Only a name can stand for every value. */
  ghost predicate AcceptsAll(r: ReferenceOr<Schema>, meaning: Meaning) {
    match r
    case Reference(uri) => forall v :: meaning(Component(uri), v)
    case Item(s) => s.Composite? && forall v :: meaning(Untyped(s.text), v)
  }

  lemma TypedRejects(s: Schema, meaning: Meaning) returns (v: Json)
    requires Typed(s)
    ensures !Valid(v, s, meaning)
  {
    v := if s.StringType? then Bool(true) else Str("");
  }

  lemma NameMeans(v: Json, r: ReferenceOr<Schema>, meaning: Meaning)
    requires r.Item? ==> r.item.Composite?
    ensures ValidRef(v, r, meaning) <==> meaning(if r.Reference? then Component(r.uri) else Untyped(r.item.text), v)
  {
    if r.Item? { assert ValidRef(v, r, meaning) <==> Valid(v, r.item, meaning); }
  }

  lemma AcceptsAllExactly(r: ReferenceOr<Schema>, meaning: Meaning)
    ensures AcceptsAll(r, meaning) <==> forall v :: ValidRef(v, r, meaning)
  {
    if r.Item? && Typed(r.item) {
      var v := TypedRejects(r.item, meaning);
      assert !ValidRef(v, r, meaning);
    } else {
      var name := if r.Reference? then Component(r.uri) else Untyped(r.item.text);
      if AcceptsAll(r, meaning) {
        forall v
          ensures ValidRef(v, r, meaning)
        {
          NameMeans(v, r, meaning);
        }
      } else {
        var v :| !meaning(name, v);
        NameMeans(v, r, meaning);
      }
    }
  }

  /** Structural inclusion is sound. */
  lemma {:induction false} IncludedIsSound(v: Json, b: Schema, t: Schema, mb: Meaning, mt: Meaning)
    requires Included(b, t, mb, mt) && Valid(v, b, mb)
    ensures Valid(v, t, mt)
    decreases t, 1
  {
    if !(Typed(b) && Typed(t)) {
      assert ValidRef(v, Item(b), mb) && ValidRef(v, Item(t), mt);
    } else if !v.Null? {
      ValidIsInhabited(v, b, mb);
      if b.ArrayType? && t.ArrayType? && t.items.Some? {
        forall e | e in v.elements
          ensures ValidRef(e, t.items.value, mt)
        {
          IncludedRefIsSound(e, b.items, t.items.value, mb, mt);
        }
      } else if b.ObjectType? && t.ObjectType? {
        forall p | p in t.properties && p.key in v.members
          ensures ValidRef(v.members[p.key], p.value, mt)
        {
          IncludedPropertyIsSound(v.members[p.key], Get(b.properties, p.key), p, mb, mt);
        }
      }
    }
  }

  lemma {:induction false} IncludedRefIsSound(v: Json, b: Option<ReferenceOr<Schema>>, t: ReferenceOr<Schema>, mb: Meaning, mt: Meaning)
    requires IncludedRef(b, t, mb, mt) && (b.Some? ==> ValidRef(v, b.value, mb))
    ensures ValidRef(v, t, mt)
    decreases t, 0
  {
    if b.None? {
      AcceptsAllExactly(t, mt);
    } else if b.value.Item? && t.Item? {
      IncludedIsSound(v, b.value.item, t.item, mb, mt);
    }
  }

  lemma {:induction false} IncludedPropertyIsSound(v: Json, b: Option<ReferenceOr<Schema>>, t: Entry<string, ReferenceOr<Schema>>, mb: Meaning, mt: Meaning)
    requires IncludedRef(b, t.value, mb, mt) && (b.Some? ==> ValidRef(v, b.value, mb))
    ensures ValidRef(v, t.value, mt)
    decreases t, 0
  {
    IncludedRefIsSound(v, b, t.value, mb, mt);
  }

  /** A text longer than every entry of an enum. */
  lemma {:induction false} FreshText(e: seq<Option<string>>) returns (text: string)
    ensures forall x :: x in e && x.Some? ==> |x.value| < |text|
  {
    if e == [] {
      text := "";
    } else {
      var n := |e| - 1;
      text := FreshText(e[..n]);
      assert e == e[..n] + [e[n]];
      if e[n].Some? { text := text + e[n].value + "x"; }
    }
  }

  /** An integer above every entry of an enum. */
  lemma {:induction false} FreshInteger(e: seq<Option<int>>) returns (k: int)
    ensures forall x :: x in e && x.Some? ==> x.value < k
  {
    if e == [] {
      k := 0;
    } else {
      var n := |e| - 1;
      k := FreshInteger(e[..n]);
      assert e == e[..n] + [e[n]];
      if e[n].Some? && e[n].value >= k { k := e[n].value + 1; }
    }
  }

  lemma {:induction false} FreshNumber(e: seq<Option<real>>) returns (k: int)
    ensures forall x :: x in e && x.Some? ==> x.value < k as real
  {
    if e == [] {
      k := 0;
    } else {
      var n := |e| - 1;
      k := FreshNumber(e[..n]);
      assert e == e[..n] + [e[n]];
      if e[n].Some? && e[n].value >= k as real { k := e[n].value.Floor + 1; }
    }
  }

  /** Structural inclusion is complete: where it fails, some value tells the schemas apart. */
  lemma {:induction false} Refute(b: Schema, t: Schema, mb: Meaning, mt: Meaning) returns (v: Json)
    requires WellFormed(b) && !Included(b, t, mb, mt)
    ensures Valid(v, b, mb) && !Valid(v, t, mt)
    decreases t, 2
  {
    if !(Typed(b) && Typed(t)) {
      v :| ValidRef(v, Item(b), mb) && !ValidRef(v, Item(t), mt);
    } else if AllowsNull(b) && !AllowsNull(t) {
      v := Null;
    } else {
      v := RefuteTyped(b, t, mb, mt);
    }
  }

  lemma {:induction false} RefuteTyped(b: Schema, t: Schema, mb: Meaning, mt: Meaning) returns (v: Json)
    requires WellFormed(b) && Typed(b) && Typed(t) && Inhabited(b, mb) && !IncludedHere(b, t, mb, mt)
    ensures Valid(v, b, mb) && !Valid(v, t, mt)
    decreases t, 1
  {
    v := Sample(b, mb);
    if b.ArrayType? && t.ArrayType? {
      var e := RefuteRef(b.items, t.items.value, mb, mt);
      v := Arr([e]);
      assert e in v.elements;
    } else if b.ObjectType? && t.ObjectType? {
      if !(exists r :: r in t.required && r !in b.required) {
        var p :| p in t.properties && !IncludedRef(Get(b.properties, p.key), p.value, mb, mt);
        v := RefuteProperty(b, v, p, mb, mt);
        assert !ValidRef(v.members[p.key], p.value, mt);
      }
    } else if TypeName(b) == TypeName(t) || ((b.NumberType? || b.IntegerType?) && (t.NumberType? || t.IntegerType?)) {
      v := RefuteEnum(b, t, mb, mt);
    }
  }

  lemma RefuteEnum(b: Schema, t: Schema, mb: Meaning, mt: Meaning) returns (v: Json)
    requires !b.ArrayType? && !b.ObjectType? && !b.Composite? && Inhabited(b, mb) && !IncludedHere(b, t, mb, mt)
    requires TypeName(b) == TypeName(t) || ((b.NumberType? || b.IntegerType?) && (t.NumberType? || t.IntegerType?))
    ensures Valid(v, b, mb) && !Valid(v, t, mt)
  {
    match (b, t)
    case (StringType(_, be), StringType(_, te)) =>
      var text := FreshText(te);
      if be != [] {
        var x :| x in be && x.Some? && x !in te;
        text := x.value;
      }
      v := Str(text);
    case (NumberType(_, be), NumberType(_, te)) =>
      var k := FreshNumber(te);
      v := Num(k as real);
      if be != [] {
        var x :| x in be && x.Some? && x !in te;
        v := Num(x.value);
      }
    case (IntegerType(_, be), IntegerType(_, te)) =>
      var k := FreshInteger(te);
      if be != [] {
        var x :| x in be && x.Some? && x !in te;
        k := x.value;
      }
      v := Num(k as real);
    case (IntegerType(_, be), NumberType(_, te)) =>
      var k := FreshNumber(te);
      if be != [] {
        var x :| x in be && x.Some? && Some(x.value as real) !in te;
        k := x.value;
      }
      v := Num(k as real);
    case (NumberType(_, be), IntegerType(_, te)) =>
      v := Num(0.5);
      if be != [] {
        var x :| x in be && x.Some? && !(Whole(x.value) && Admits(te, x.value.Floor));
        v := Num(x.value);
      }
    case (BooleanType(_, be), BooleanType(_, te)) =>
      v := Bool(Admits(be, true) && !Admits(te, true));
  }

  lemma {:induction false} RefuteRef(b: Option<ReferenceOr<Schema>>, t: ReferenceOr<Schema>, mb: Meaning, mt: Meaning) returns (v: Json)
    requires (b.Some? ==> WellFormedRef(b.value)) && !IncludedRef(b, t, mb, mt)
    ensures b.Some? ==> ValidRef(v, b.value, mb)
    ensures !ValidRef(v, t, mt)
    decreases t, 0
  {
    if b.None? {
      AcceptsAllExactly(t, mt);
      v :| !ValidRef(v, t, mt);
    } else if b.value.Item? && t.Item? {
      v := Refute(b.value.item, t.item, mb, mt);
    } else {
      v :| ValidRef(v, b.value, mb) && !ValidRef(v, t, mt);
    }
  }

  lemma {:induction false} RefuteProperty(b: Schema, sample: Json, t: Entry<string, ReferenceOr<Schema>>, mb: Meaning, mt: Meaning) returns (v: Json)
    requires b.ObjectType? && WellFormed(b) && sample.Obj? && Valid(sample, b, mb)
    requires !IncludedRef(Get(b.properties, t.key), t.value, mb, mt)
    ensures v.Obj? && Valid(v, b, mb) && t.key in v.members && !ValidRef(v.members[t.key], t.value, mt)
    decreases t, 0
  {
    var bp := Get(b.properties, t.key);
    assert bp.Some? ==> WellFormedRef(bp.value);
    var w := RefuteRef(bp, t.value, mb, mt);
    v := WithMember(b, sample, t.key, w, mb);
  }

  /** Setting a member to a value its property accepts keeps an object valid. */
  lemma WithMember(b: Schema, v: Json, key: string, w: Json, meaning: Meaning) returns (u: Json)
    requires b.ObjectType? && UniqueKeys(b.properties) && v.Obj? && Valid(v, b, meaning)
    requires Get(b.properties, key).Some? ==> ValidRef(w, Get(b.properties, key).value, meaning)
    ensures u == Obj(v.members[key := w]) && Valid(u, b, meaning)
  {
    u := Obj(v.members[key := w]);
    forall p | p in b.properties && p.key in u.members
      ensures ValidRef(u.members[p.key], p.value, meaning)
    {
      if p.key == key {
        var i :| 0 <= i < |b.properties| && b.properties[i] == p;
        GetEntry(b.properties, i);
      }
    }
  }

  /** Structural inclusion is exactly inclusion of the accepted values, references and composite
      schemas anywhere in the trees included. */
  lemma InclusionIsStructural(b: Schema, t: Schema, mb: Meaning, mt: Meaning)
    requires WellFormed(b)
    ensures Included(b, t, mb, mt) <==> forall v :: Valid(v, b, mb) ==> Valid(v, t, mt)
  {
    if Included(b, t, mb, mt) {
      forall v | Valid(v, b, mb)
        ensures Valid(v, t, mt)
      {
        IncludedIsSound(v, b, t, mb, mt);
      }
    } else {
      var v := Refute(b, t, mb, mt);
    }
  }

  /** The same for two declarations, of which the base's may be missing. */
  lemma RefInclusionIsStructural(b: Option<ReferenceOr<Schema>>, t: ReferenceOr<Schema>, mb: Meaning, mt: Meaning)
    requires b.Some? ==> WellFormedRef(b.value)
    ensures IncludedRef(b, t, mb, mt) <==> forall v :: (b.Some? ==> ValidRef(v, b.value, mb)) ==> ValidRef(v, t, mt)
  {
    if IncludedRef(b, t, mb, mt) {
      forall v | b.Some? ==> ValidRef(v, b.value, mb)
        ensures ValidRef(v, t, mt)
      {
        IncludedRefIsSound(v, b, t, mb, mt);
      }
    } else {
      var v := RefuteRef(b, t, mb, mt);
    }
  }
}
