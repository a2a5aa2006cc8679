/** The recursive schema diff (engine/src/diff.rs, diff_schemas): the method that fills a
    vector, and the function that specifies it. */
module SchemaDiff {
  import opened Prelude
  import opened OpenApi

  /** The type-change finding of one schema pair. */
  function TypeFindings(b: Schema, t: Schema, loc: Location, config: Config): seq<Change> {
    var d := TypeChanged(TypeName(b), TypeName(t));
    if Typed(b) && Typed(t) && TypeName(b) != TypeName(t) && !Suppresses(config, d)
    then [Change(Breaking, loc, d)] else []
  }

  /** One finding per base enum value, in order, that the target enum lacks. */
  function EnumFindings(bs: seq<Option<string>>, ts: seq<Option<string>>, loc: Location, config: Config): seq<Change> {
    if bs == [] then []
    else
      var n := |bs| - 1;
      EnumFindings(bs[..n], ts, loc, config)
      + (if bs[n] !in ts && !Suppresses(config, EnumValueRemoved(bs[n]))
         then [Change(Breaking, loc, EnumValueRemoved(bs[n]))] else [])
  }

  /** One finding per target required name, in order, that the base does not require. */
  function RequiredFindings(bs: seq<string>, ts: seq<string>, loc: Location, config: Config): seq<Change> {
    if ts == [] then []
    else
      var n := |ts| - 1;
      RequiredFindings(bs, ts[..n], loc, config)
      + (if ts[n] !in bs && !Suppresses(config, FieldMadeRequired(ts[n]))
         then [Change(Breaking, loc + [ts[n]], FieldMadeRequired(ts[n]))] else [])
  }

  function EnumPart(b: Schema, t: Schema, loc: Location, config: Config): seq<Change> {
    if b.StringType? && t.StringType? then EnumFindings(b.enumeration, t.enumeration, loc, config) else []
  }

  function RequiredPart(b: Schema, t: Schema, loc: Location, config: Config): seq<Change> {
    if b.ObjectType? && t.ObjectType? then RequiredFindings(b.required, t.required, loc, config) else []
  }

  /** The findings about one schema pair itself, its properties aside. */
  function LocalFindings(b: Schema, t: Schema, loc: Location, config: Config): seq<Change> {
    TypeFindings(b, t, loc, config) + EnumPart(b, t, loc, config) + RequiredPart(b, t, loc, config)
  }

  function Diff(b: Schema, t: Schema, loc: Location, config: Config): seq<Change>
    decreases b, 1
  {
    LocalFindings(b, t, loc, config)
    + (if b.ObjectType? && t.ObjectType? then DiffProperties(b.properties, t.properties, loc, config) else [])
  }

  function DiffProperties(bp: IndexMap<string, ReferenceOr<Schema>>, tp: IndexMap<string, ReferenceOr<Schema>>,
                          loc: Location, config: Config): seq<Change>
    decreases bp, 0
  {
    if bp == [] then []
    else
      var n := |bp| - 1;
      DiffProperties(bp[..n], tp, loc, config) + DiffProperty(bp[n], Get(tp, bp[n].key), loc, config)
  }

  function DiffProperty(b: Entry<string, ReferenceOr<Schema>>, t: Option<ReferenceOr<Schema>>,
                        loc: Location, config: Config): seq<Change>
    decreases b, 0
  {
    if b.value.Item? && t.Some? && t.value.Item?
    then Diff(b.value.item, t.value.item, loc + [b.key], config) else []
  }

  function ResolveSchemaRef<T>(r: ReferenceOr<T>): Option<T> {
    if r.Item? then Some(r.item) else None
  }

  /** The enum block of the diff. */
  method DiffEnums(bs: seq<Option<string>>, ts: seq<Option<string>>, location: Location, config: Config)
    returns (changes: seq<Change>)
    ensures changes == EnumFindings(bs, ts, location, config) && OnlyBreaking(changes)
  {
    changes := [];
    if !config.allowBreakingEnums && "enum_removal" !in config.ignoreRules {
      for i := 0 to |bs|
        invariant changes == EnumFindings(bs[..i], ts, location, config) && OnlyBreaking(changes)
      {
        assert bs[..i + 1][..i] == bs[..i];
        if bs[i] !in ts {
          changes := changes + [Change(Breaking, location, EnumValueRemoved(bs[i]))];
        }
      }
      assert bs[..|bs|] == bs;
    } else {
      EnumsSilenced(bs, ts, location, config);
    }
  }

  /** The required-field block of the diff. */
  method DiffRequired(bs: seq<string>, ts: seq<string>, location: Location, config: Config)
    returns (changes: seq<Change>)
    ensures changes == RequiredFindings(bs, ts, location, config) && OnlyBreaking(changes)
  {
    changes := [];
    if "new_required_field" !in config.ignoreRules {
      for i := 0 to |ts|
        invariant changes == RequiredFindings(bs, ts[..i], location, config) && OnlyBreaking(changes)
      {
        assert ts[..i + 1][..i] == ts[..i];
        if ts[i] !in bs {
          changes := changes + [Change(Breaking, location + [ts[i]], FieldMadeRequired(ts[i]))];
        }
      }
      assert ts[..|ts|] == ts;
    } else {
      RequiredSilenced(bs, ts, location, config);
    }
  }

  /** The type block of the diff. */
  method DiffTypes(base: Schema, target: Schema, location: Location, config: Config)
    returns (changes: seq<Change>)
    requires Typed(base) && Typed(target)
    ensures changes == TypeFindings(base, target, location, config) && OnlyBreaking(changes)
  {
    changes := [];
    var bName, tName := TypeName(base), TypeName(target);
    if bName != tName && !config.allowTypeCoercion && "type_change" !in config.ignoreRules {
      changes := [Change(Breaking, location, TypeChanged(bName, tName))];
    }
  }

  /** The property block of the diff, which recurses. */
  method DiffCommonProperties(bp: IndexMap<string, ReferenceOr<Schema>>, tp: IndexMap<string, ReferenceOr<Schema>>,
                              location: Location, config: Config)
    returns (changes: seq<Change>)
    ensures changes == DiffProperties(bp, tp, location, config) && OnlyBreaking(changes)
    decreases bp, 0
  {
    changes := [];
    for i := 0 to |bp|
      invariant changes == DiffProperties(bp[..i], tp, location, config) && OnlyBreaking(changes)
    {
      assert bp[..i + 1][..i] == bp[..i];
      var sub := DiffCommonProperty(bp[i], Get(tp, bp[i].key), location, config);
      changes := changes + sub;
    }
    assert bp[..|bp|] == bp;
  }

  method DiffCommonProperty(b: Entry<string, ReferenceOr<Schema>>, t: Option<ReferenceOr<Schema>>,
                            location: Location, config: Config)
    returns (changes: seq<Change>)
    ensures changes == DiffProperty(b, t, location, config) && OnlyBreaking(changes)
    decreases b, 0
  {
    changes := [];
    if t.Some? {
      var bProp, tProp := ResolveSchemaRef(b.value), ResolveSchemaRef(t.value);
      if bProp.Some? && tProp.Some? {
        changes := DiffSchemas(b.value.item, tProp.value, location + [b.key], config);
      }
    }
  }

  method DiffSchemas(base: Schema, target: Schema, location: Location, config: Config)
    returns (changes: seq<Change>)
    ensures changes == Diff(base, target, location, config) && OnlyBreaking(changes)
    decreases base, 1
  {
    changes := [];
    if Typed(base) && Typed(target) {
      changes := DiffTypes(base, target, location, config);
      if base.StringType? && target.StringType? {
        var removed := DiffEnums(base.enumeration, target.enumeration, location, config);
        changes := changes + removed;
      }
      AddsNothing(TypeFindings(base, target, location, config));
      assert changes == TypeFindings(base, target, location, config) + EnumPart(base, target, location, config);
      if base.ObjectType? && target.ObjectType? {
        var added := DiffRequired(base.required, target.required, location, config);
        changes := changes + added;
        assert changes == LocalFindings(base, target, location, config);
        var sub := DiffCommonProperties(base.properties, target.properties, location, config);
        changes := changes + sub;
      } else {
        AddsNothing(changes);
      }
    }
  }

  lemma AddsNothing<T>(s: seq<T>)
    ensures s + [] == s
  {
  }

  lemma EnumsSilenced(bs: seq<Option<string>>, ts: seq<Option<string>>, loc: Location, config: Config)
    requires config.allowBreakingEnums || "enum_removal" in config.ignoreRules
    ensures EnumFindings(bs, ts, loc, config) == []
  {
  }

  lemma RequiredSilenced(bs: seq<string>, ts: seq<string>, loc: Location, config: Config)
    requires "new_required_field" in config.ignoreRules
    ensures RequiredFindings(bs, ts, loc, config) == []
  {
  }
}
