/** How the schema diff reacts to the rule configuration, to safe growth of the target, to equal
    schemas and to two changes made one after the other. */
module DiffPolicy {
  import opened Prelude
  import opened OpenApi
  import opened SchemaDiff
  import DiffLaws

  /** The findings a configuration does not silence, in order. */
  function Kept(config: Config, changes: seq<Change>): seq<Change> {
    if changes == [] then []
    else
      var n := |changes| - 1;
      Kept(config, changes[..n]) + (if Suppresses(config, changes[n].detail) then [] else [changes[n]])
  }

  lemma {:induction false} KeptAppend(config: Config, a: seq<Change>, b: seq<Change>)
    ensures Kept(config, a + b) == Kept(config, a) + Kept(config, b)
  {
    if b == [] {
      assert a + b == a;
    } else {
      var n := |b| - 1;
      assert (a + b)[..|a + b| - 1] == a + b[..n];
      KeptAppend(config, a, b[..n]);
    }
  }

  lemma {:induction false} KeptCount(config: Config, changes: seq<Change>, c: Change)
    ensures multiset(Kept(config, changes))[c] == if Suppresses(config, c.detail) then 0 else multiset(changes)[c]
  {
    if changes != [] {
      var n := |changes| - 1;
      KeptCount(config, changes[..n], c);
      assert multiset(changes) == multiset(changes[..n]) + multiset([changes[n]]) by {
        assert changes == changes[..n] + [changes[n]];
      }
    }
  }

  lemma {:induction false} EnumsKept(bs: seq<Option<string>>, ts: seq<Option<string>>, loc: Location, config: Config)
    ensures EnumFindings(bs, ts, loc, config) == Kept(config, EnumFindings(bs, ts, loc, DEFAULT_CONFIG))
  {
    if bs != [] {
      var n := |bs| - 1;
      EnumsKept(bs[..n], ts, loc, config);
      KeptAppend(config, EnumFindings(bs[..n], ts, loc, DEFAULT_CONFIG),
        if bs[n] !in ts then [Change(Breaking, loc, EnumValueRemoved(bs[n]))] else []);
    }
  }

  lemma {:induction false} RequiredKept(bs: seq<string>, ts: seq<string>, loc: Location, config: Config)
    ensures RequiredFindings(bs, ts, loc, config) == Kept(config, RequiredFindings(bs, ts, loc, DEFAULT_CONFIG))
  {
    if ts != [] {
      var n := |ts| - 1;
      RequiredKept(bs, ts[..n], loc, config);
      KeptAppend(config, RequiredFindings(bs, ts[..n], loc, DEFAULT_CONFIG),
        if ts[n] !in bs then [Change(Breaking, loc + [ts[n]], FieldMadeRequired(ts[n]))] else []);
    }
  }

  lemma TypesKept(b: Schema, t: Schema, loc: Location, config: Config)
    ensures TypeFindings(b, t, loc, config) == Kept(config, TypeFindings(b, t, loc, DEFAULT_CONFIG))
  {
  }

  lemma EnumPartKept(b: Schema, t: Schema, loc: Location, config: Config)
    ensures EnumPart(b, t, loc, config) == Kept(config, EnumPart(b, t, loc, DEFAULT_CONFIG))
  {
    if b.StringType? && t.StringType? {
      EnumsKept(b.enumeration, t.enumeration, loc, config);
    }
  }

  lemma RequiredPartKept(b: Schema, t: Schema, loc: Location, config: Config)
    ensures RequiredPart(b, t, loc, config) == Kept(config, RequiredPart(b, t, loc, DEFAULT_CONFIG))
  {
    if b.ObjectType? && t.ObjectType? {
      RequiredKept(b.required, t.required, loc, config);
    }
  }

  lemma LocalKept(b: Schema, t: Schema, loc: Location, config: Config)
    ensures LocalFindings(b, t, loc, config) == Kept(config, LocalFindings(b, t, loc, DEFAULT_CONFIG))
  {
    TypesKept(b, t, loc, config);
    EnumPartKept(b, t, loc, config);
    RequiredPartKept(b, t, loc, config);
    var types, enums, required :=
      TypeFindings(b, t, loc, DEFAULT_CONFIG), EnumPart(b, t, loc, DEFAULT_CONFIG), RequiredPart(b, t, loc, DEFAULT_CONFIG);
    KeptAppend(config, types, enums);
    KeptAppend(config, types + enums, required);
  }

  /** Configuring is exactly filtering: the report under any configuration is the default report
      without the findings that configuration silences, in the same order. */
  lemma {:induction false} DiffKept(b: Schema, t: Schema, loc: Location, config: Config)
    ensures Diff(b, t, loc, config) == Kept(config, Diff(b, t, loc, DEFAULT_CONFIG))
    decreases b, 1
  {
    LocalKept(b, t, loc, config);
    if b.ObjectType? && t.ObjectType? {
      PropertiesKept(b.properties, t.properties, loc, config);
      KeptAppend(config, LocalFindings(b, t, loc, DEFAULT_CONFIG), DiffProperties(b.properties, t.properties, loc, DEFAULT_CONFIG));
    } else {
      KeptAppend(config, LocalFindings(b, t, loc, DEFAULT_CONFIG), []);
    }
  }

  lemma {:induction false} PropertiesKept(bp: IndexMap<string, ReferenceOr<Schema>>, tp: IndexMap<string, ReferenceOr<Schema>>,
                                          loc: Location, config: Config)
    ensures DiffProperties(bp, tp, loc, config) == Kept(config, DiffProperties(bp, tp, loc, DEFAULT_CONFIG))
    decreases bp, 0
  {
    if bp != [] {
      var n := |bp| - 1;
      PropertiesKept(bp[..n], tp, loc, config);
      PropertyKept(bp[n], Get(tp, bp[n].key), loc, config);
      KeptAppend(config, DiffProperties(bp[..n], tp, loc, DEFAULT_CONFIG), DiffProperty(bp[n], Get(tp, bp[n].key), loc, DEFAULT_CONFIG));
    }
  }

  lemma {:induction false} PropertyKept(b: Entry<string, ReferenceOr<Schema>>, t: Option<ReferenceOr<Schema>>,
                                        loc: Location, config: Config)
    ensures DiffProperty(b, t, loc, config) == Kept(config, DiffProperty(b, t, loc, DEFAULT_CONFIG))
    decreases b, 0
  {
    if b.value.Item? && t.Some? && t.value.Item? {
      DiffKept(b.value.item, t.value.item, loc + [b.key], config);
    }
  }

  /** `u` is `t` plus, at any depth, enum values the base enum lacks and properties the base object
      lacks. What the base never looks at may differ freely. */
  ghost predicate Grows(b: Schema, t: Schema, u: Schema)
    decreases b, 1
  {
    match (t, u)
    case (StringType(_, te), StringType(_, ue)) =>
      && (forall x :: x in te ==> x in ue)
      && (b.StringType? ==> forall x :: x in ue && x !in te ==> x !in b.enumeration)
    case (ObjectType(_, tr, tp), ObjectType(_, ur, up)) =>
      && tr == ur
      && (b.ObjectType? ==>
            forall i :: 0 <= i < |b.properties| ==> GrowsProperty(b.properties[i], Get(tp, b.properties[i].key), Get(up, b.properties[i].key)))
    case _ => !t.StringType? && !t.ObjectType? && TypeName(t) == TypeName(u)
  }

  ghost predicate GrowsProperty(b: Entry<string, ReferenceOr<Schema>>, t: Option<ReferenceOr<Schema>>, u: Option<ReferenceOr<Schema>>)
    decreases b, 0
  {
    match (t, u)
    case (None, None) => true
    case (Some(Reference(_)), Some(Reference(_))) => true
    case (Some(Item(ti)), Some(Item(ui))) => b.value.Item? ==> Grows(b.value.item, ti, ui)
    case _ => false
  }

  /** Safe growth of the target is invisible, at any depth and under any configuration. */
  lemma {:induction false} GrowthInvisible(b: Schema, t: Schema, u: Schema, loc: Location, config: Config)
    requires Grows(b, t, u)
    ensures Diff(b, t, loc, config) == Diff(b, u, loc, config)
    decreases b, 1
  {
    if b.StringType? && t.StringType? && u.StringType? {
      SameEnums(b.enumeration, t.enumeration, u.enumeration, loc, config);
    }
    if b.ObjectType? && t.ObjectType? && u.ObjectType? {
      GrowthInvisibleBelow(b.properties, t.properties, u.properties, loc, config);
    }
  }

  lemma {:induction false} SameEnums(bs: seq<Option<string>>, ts: seq<Option<string>>, us: seq<Option<string>>, loc: Location, config: Config)
    requires forall x :: x in bs ==> (x in ts <==> x in us)
    ensures EnumFindings(bs, ts, loc, config) == EnumFindings(bs, us, loc, config)
  {
    if bs != [] {
      SameEnums(bs[..|bs| - 1], ts, us, loc, config);
    }
  }

  lemma {:induction false} GrowthInvisibleBelow(bp: IndexMap<string, ReferenceOr<Schema>>, tp: IndexMap<string, ReferenceOr<Schema>>,
                                                up: IndexMap<string, ReferenceOr<Schema>>, loc: Location, config: Config)
    requires forall i :: 0 <= i < |bp| ==> GrowsProperty(bp[i], Get(tp, bp[i].key), Get(up, bp[i].key))
    ensures DiffProperties(bp, tp, loc, config) == DiffProperties(bp, up, loc, config)
    decreases bp, 0
  {
    if bp != [] {
      var n := |bp| - 1;
      GrowthInvisibleBelow(bp[..n], tp, up, loc, config);
      GrowthInvisibleAt(bp[n], Get(tp, bp[n].key), Get(up, bp[n].key), loc, config);
    }
  }

  lemma {:induction false} GrowthInvisibleAt(b: Entry<string, ReferenceOr<Schema>>, t: Option<ReferenceOr<Schema>>, u: Option<ReferenceOr<Schema>>,
                                             loc: Location, config: Config)
    requires GrowsProperty(b, t, u)
    ensures DiffProperty(b, t, loc, config) == DiffProperty(b, u, loc, config)
    decreases b, 0
  {
    if b.value.Item? && t.Some? && t.value.Item? {
      GrowthInvisible(b.value.item, t.value.item, u.value.item, loc + [b.key], config);
    }
  }

  /** A base property about which nothing is reported. */
  ghost predicate Silent(b: Entry<string, ReferenceOr<Schema>>, tp: IndexMap<string, ReferenceOr<Schema>>, loc: Location, config: Config) {
    DiffProperty(b, Get(tp, b.key), loc, config) == []
  }

  /** A diff of properties is empty exactly when each property's diff is. */
  lemma {:induction false} EmptyProperties(bp: IndexMap<string, ReferenceOr<Schema>>, tp: IndexMap<string, ReferenceOr<Schema>>,
                                           loc: Location, config: Config)
    ensures DiffProperties(bp, tp, loc, config) == [] <==> forall b :: b in bp ==> Silent(b, tp, loc, config)
  {
    if bp != [] {
      var n := |bp| - 1;
      EmptyProperties(bp[..n], tp, loc, config);
      SplitLast(bp);
      assert DiffProperties(bp, tp, loc, config) == [] <==> DiffProperties(bp[..n], tp, loc, config) == [] && Silent(bp[n], tp, loc, config);
    }
  }

  lemma SplitLast<T>(s: seq<T>)
    requires s != []
    ensures forall x :: x in s <==> x in s[..|s| - 1] || x == s[|s| - 1]
  {
    assert s == s[..|s| - 1] + [s[|s| - 1]];
  }

  lemma EmptyEnums(bs: seq<Option<string>>, ts: seq<Option<string>>, loc: Location, config: Config)
    ensures EnumFindings(bs, ts, loc, config) == [] <==>
      forall x :: x in bs && !Suppresses(config, EnumValueRemoved(x)) ==> x in ts
  {
    DiffLaws.EnumSites(bs, ts, loc, config);
    if x :| x in bs && !Suppresses(config, EnumValueRemoved(x)) && x !in ts {
      assert Change(Breaking, loc, EnumValueRemoved(x)) in EnumFindings(bs, ts, loc, config);
    }
    if EnumFindings(bs, ts, loc, config) != [] {
      var c := EnumFindings(bs, ts, loc, config)[0];
      assert c in EnumFindings(bs, ts, loc, config);
    }
  }

  lemma EmptyRequired(bs: seq<string>, ts: seq<string>, loc: Location, config: Config)
    ensures RequiredFindings(bs, ts, loc, config) == [] <==>
      forall f :: f in ts && !Suppresses(config, FieldMadeRequired(f)) ==> f in bs
  {
    DiffLaws.RequiredSites(bs, ts, loc, config);
    if f :| f in ts && !Suppresses(config, FieldMadeRequired(f)) && f !in bs {
      assert Change(Breaking, loc + [f], FieldMadeRequired(f)) in RequiredFindings(bs, ts, loc, config);
    }
    if RequiredFindings(bs, ts, loc, config) != [] {
      var c := RequiredFindings(bs, ts, loc, config)[0];
      assert c in RequiredFindings(bs, ts, loc, config);
    }
  }

  predicate EnforcesTypes(config: Config) {
    "type_change" !in config.ignoreRules && !config.allowTypeCoercion
  }

  predicate EnforcesEnums(config: Config) {
    "enum_removal" !in config.ignoreRules && !config.allowBreakingEnums
  }

  predicate EnforcesRequired(config: Config) {
    "new_required_field" !in config.ignoreRules
  }

  /** What the enforced rules demand of two typed schemas themselves: the same type, no enum value
      removed, no field newly required. */
  ghost predicate KeepsHere(b: Schema, t: Schema, config: Config) {
    Typed(b) && Typed(t) ==>
      && (EnforcesTypes(config) ==> TypeName(b) == TypeName(t))
      && (b.StringType? && t.StringType? && EnforcesEnums(config) ==> forall x :: x in b.enumeration ==> x in t.enumeration)
      && (b.ObjectType? && t.ObjectType? && EnforcesRequired(config) ==> forall f :: f in t.required ==> f in b.required)
  }

  /** And the same of every property inline in both. */
  ghost predicate Keeps(b: Schema, t: Schema, config: Config)
    decreases b, 1
  {
    && KeepsHere(b, t, config)
    && (b.ObjectType? && t.ObjectType? ==> forall p :: p in b.properties ==> KeepsProperty(p, Get(t.properties, p.key), config))
  }

  ghost predicate KeepsProperty(b: Entry<string, ReferenceOr<Schema>>, t: Option<ReferenceOr<Schema>>, config: Config)
    decreases b, 0
  {
    b.value.Item? && t.Some? && t.value.Item? ==> Keeps(b.value.item, t.value.item, config)
  }

  lemma EmptyLocallyExactly(b: Schema, t: Schema, loc: Location, config: Config)
    ensures LocalFindings(b, t, loc, config) == [] <==> KeepsHere(b, t, config)
  {
    if b.StringType? && t.StringType? {
      EmptyEnums(b.enumeration, t.enumeration, loc, config);
      assert forall x :: Suppresses(config, EnumValueRemoved(x)) <==> !EnforcesEnums(config);
    } else if b.ObjectType? && t.ObjectType? {
      EmptyRequired(b.required, t.required, loc, config);
      assert forall f :: Suppresses(config, FieldMadeRequired(f)) <==> !EnforcesRequired(config);
    }
  }

  /** The diff is empty if and only if the target keeps the base. */
  lemma {:induction false} EmptyDiffExactly(b: Schema, t: Schema, loc: Location, config: Config)
    ensures Diff(b, t, loc, config) == [] <==> Keeps(b, t, config)
    decreases b, 1
  {
    EmptyLocallyExactly(b, t, loc, config);
    if b.ObjectType? && t.ObjectType? {
      forall p | p in b.properties
        ensures Silent(p, t.properties, loc, config) <==> KeepsProperty(p, Get(t.properties, p.key), config)
      {
        EmptyPropertyExactly(p, Get(t.properties, p.key), loc, config);
      }
      EmptyProperties(b.properties, t.properties, loc, config);
    }
  }

  lemma {:induction false} EmptyPropertyExactly(b: Entry<string, ReferenceOr<Schema>>, t: Option<ReferenceOr<Schema>>, loc: Location, config: Config)
    ensures DiffProperty(b, t, loc, config) == [] <==> KeepsProperty(b, t, config)
    decreases b, 0
  {
    if b.value.Item? && t.Some? && t.value.Item? {
      EmptyDiffExactly(b.value.item, t.value.item, loc + [b.key], config);
    }
  }

  /** A schema never differs from itself. */
  lemma {:induction false} SelfDiffEmpty(s: Schema, loc: Location, config: Config)
    requires DiffLaws.WellFormed(s)
    ensures Diff(s, s, loc, config) == []
    decreases s
  {
    if s.StringType? {
      EmptyEnums(s.enumeration, s.enumeration, loc, config);
    } else if s.ObjectType? {
      EmptyRequired(s.required, s.required, loc, config);
      forall p | p in s.properties
        ensures Silent(p, s.properties, loc, config)
      {
        var i :| 0 <= i < |s.properties| && s.properties[i] == p;
        GetEntry(s.properties, i);
        if s.properties[i].value.Item? {
          SelfDiffEmpty(s.properties[i].value.item, loc + [s.properties[i].key], config);
        }
      }
      EmptyProperties(s.properties, s.properties, loc, config);
    }
  }

  /** The middle schema carries a type wherever both ends do, and keeps, inline, every property the
      two ends share inline, at every depth. */
  ghost predicate Bridges(a: Schema, b: Schema, c: Schema)
    decreases a
  {
    && Typed(b)
    && (a.ObjectType? && b.ObjectType? && c.ObjectType? ==>
          forall i :: 0 <= i < |a.properties| && a.properties[i].value.Item? ==>
            var cp := Get(c.properties, a.properties[i].key);
            cp.Some? && cp.value.Item? ==>
              var bp := Get(b.properties, a.properties[i].key);
              bp.Some? && bp.value.Item? && Bridges(a.properties[i].value.item, bp.value.item, cp.value.item))
  }

  /** Wherever the middle schema does not bridge A and C (it has no type there, or has dropped or
      outsourced the property), C keeps what A has. */
  ghost predicate Rejoins(a: Schema, b: Schema, c: Schema, config: Config)
    decreases a, 1
  {
    if !Typed(b) then Keeps(a, c, config)
    else a.ObjectType? && b.ObjectType? && c.ObjectType? ==>
      forall p :: p in a.properties ==> RejoinsAt(p, Get(b.properties, p.key), Get(c.properties, p.key), config)
  }

  ghost predicate RejoinsAt(a: Entry<string, ReferenceOr<Schema>>, b: Option<ReferenceOr<Schema>>, c: Option<ReferenceOr<Schema>>,
                            config: Config)
    decreases a, 0
  {
    if a.value.Item? && b.Some? && b.value.Item? && c.Some? && c.value.Item?
    then Rejoins(a.value.item, b.value.item, c.value.item, config)
    else KeepsProperty(a, c, config)
  }

  /** Keeping composes exactly across a middle schema that rejoins the ends. */
  lemma {:induction false} KeepingComposes(a: Schema, b: Schema, c: Schema, config: Config)
    requires EnforcesTypes(config) && Keeps(a, b, config) && Keeps(b, c, config)
    ensures Keeps(a, c, config) <==> Rejoins(a, b, c, config)
    decreases a
  {
    if Typed(b) && a.ObjectType? && c.ObjectType? {
      forall p | p in a.properties
        ensures KeepsProperty(p, Get(c.properties, p.key), config) <==> RejoinsAt(p, Get(b.properties, p.key), Get(c.properties, p.key), config)
      {
        var bp, cp := Get(b.properties, p.key), Get(c.properties, p.key);
        if p.value.Item? && bp.Some? && bp.value.Item? && cp.Some? && cp.value.Item? {
          var j :| 0 <= j < |b.properties| && b.properties[j].key == p.key && b.properties[j].value == bp.value;
          assert KeepsProperty(p, bp, config) && KeepsProperty(b.properties[j], cp, config);
          var i :| 0 <= i < |a.properties| && a.properties[i] == p;
          KeepingComposes(a.properties[i].value.item, bp.value.item, cp.value.item, config);
        }
      }
    }
  }

  /** When two compatible changes compose: with types enforced and empty diffs from A to B and from
      B to C, the diff from A to C is empty exactly when B rejoins them. */
  lemma CompatibleChangesCompose(a: Schema, b: Schema, c: Schema, loc: Location, config: Config)
    requires EnforcesTypes(config)
    requires Diff(a, b, loc, config) == [] && Diff(b, c, loc, config) == []
    ensures Diff(a, c, loc, config) == [] <==> Rejoins(a, b, c, config)
  {
    EmptyDiffExactly(a, b, loc, config);
    EmptyDiffExactly(b, c, loc, config);
    EmptyDiffExactly(a, c, loc, config);
    KeepingComposes(a, b, c, config);
  }

  /** In particular two compatible changes compose across a middle schema that bridges the ends. */
  lemma BridgedChangesCompose(a: Schema, b: Schema, c: Schema, loc: Location, config: Config)
    requires EnforcesTypes(config) && Bridges(a, b, c)
    requires Diff(a, b, loc, config) == [] && Diff(b, c, loc, config) == []
    ensures Diff(a, c, loc, config) == []
  {
    BridgesRejoin(a, b, c, config);
    CompatibleChangesCompose(a, b, c, loc, config);
  }

  lemma {:induction false} BridgesRejoin(a: Schema, b: Schema, c: Schema, config: Config)
    requires Bridges(a, b, c)
    ensures Rejoins(a, b, c, config)
    decreases a
  {
    if a.ObjectType? && b.ObjectType? && c.ObjectType? {
      forall p | p in a.properties
        ensures RejoinsAt(p, Get(b.properties, p.key), Get(c.properties, p.key), config)
      {
        var i :| 0 <= i < |a.properties| && a.properties[i] == p;
        var cp := Get(c.properties, p.key);
        if a.properties[i].value.Item? && cp.Some? && cp.value.Item? {
          BridgesRejoin(a.properties[i].value.item, Get(b.properties, p.key).value.item, cp.value.item, config);
        }
      }
    }
  }

  /** An object with one optional property, or with none. */
  function Aged(s: Schema): Schema {
    ObjectType(false, [], [Entry("age", Item(s))])
  }

  const AGELESS := ObjectType(false, [], [])

  lemma AgedKeeps(s: Schema, u: Schema)
    ensures Keeps(Aged(s), Aged(u), DEFAULT_CONFIG) ==> Keeps(s, u, DEFAULT_CONFIG)
  {
    GetEntry(Aged(u).properties, 0);
    var p := Aged(s).properties[0];
    assert p in Aged(s).properties;
    assert KeepsProperty(p, Get(Aged(u).properties, p.key), DEFAULT_CONFIG) ==> Keeps(s, u, DEFAULT_CONFIG);
  }

  lemma AgelessKeeps(s: Schema)
    ensures Keeps(Aged(s), AGELESS, DEFAULT_CONFIG) && Keeps(AGELESS, Aged(s), DEFAULT_CONFIG)
  {
  }

  /** Why the bridge is needed: the middle schema drops a property that returns with another type. */
  lemma DroppedPropertyDoesNotCompose()
    ensures exists a, b, c: Schema ::
      && Typed(a) && Typed(b) && Typed(c)
      && Diff(a, b, [], DEFAULT_CONFIG) == [] && Diff(b, c, [], DEFAULT_CONFIG) == [] && Diff(a, c, [], DEFAULT_CONFIG) != []
  {
    var a, c := Aged(ANY_INTEGER), Aged(ANY_STRING);
    AgelessKeeps(ANY_INTEGER);
    AgelessKeeps(ANY_STRING);
    AgedKeeps(ANY_INTEGER, ANY_STRING);
    EmptyDiffExactly(a, AGELESS, [], DEFAULT_CONFIG);
    EmptyDiffExactly(AGELESS, c, [], DEFAULT_CONFIG);
    EmptyDiffExactly(a, c, [], DEFAULT_CONFIG);
  }
}
