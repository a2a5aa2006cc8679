/** What the schema diff reports, stated without the recursion that computes it, and how the
    report reacts to configuration, to re-rooting and to safe growth of the target. */
module DiffLaws {
  import opened Prelude
  import opened OpenApi
  import opened SchemaDiff

  /** Property names are unique in every object of the tree, as in any IndexMap. */
  ghost predicate WellFormed(s: Schema)
    decreases s
  {
    match s
    case ArrayType(_, items) => items.Some? && items.value.Item? ==> WellFormed(items.value.item)
    case ObjectType(_, _, props) =>
      && UniqueKeys(props)
      && forall i :: 0 <= i < |props| && props[i].value.Item? ==> WellFormed(props[i].value.item)
    case _ => true
  }

  /** The pair of schemas found by following property names through inline objects on both sides. */
  ghost function PairAt(b: Schema, t: Schema, path: seq<string>): Option<(Schema, Schema)>
    decreases |path|, 0
  {
    if path == [] then Some((b, t))
    else if b.ObjectType? && t.ObjectType?
    then PairBelow(Get(b.properties, path[0]), Get(t.properties, path[0]), path[1..]) else None
  }

  ghost function PairBelow(b: Option<ReferenceOr<Schema>>, t: Option<ReferenceOr<Schema>>, path: seq<string>): Option<(Schema, Schema)>
    decreases |path|, 1
  {
    if b.Some? && b.value.Item? && t.Some? && t.value.Item? then PairAt(b.value.item, t.value.item, path) else None
  }

  /** The schema a finding is about: its location, without the field name a required-field finding appends. */
  function Site(c: Change): Location {
    if c.detail.FieldMadeRequired? && c.path != [] then c.path[..|c.path| - 1] else c.path
  }

  /** How often the pair found at a site, if any, reports a finding. */
  ghost function Share(pair: Option<(Schema, Schema)>, config: Config, c: Change): nat {
    if pair.Some? then multiset(LocalFindings(pair.value.0, pair.value.1, Site(c), config))[c] else 0
  }

  /** How often a finding must occur: as often as the pair at its site reports it, and never
      when no pair of inline schemas is there. */
  ghost function Expected(b: Schema, t: Schema, loc: Location, config: Config, c: Change): nat {
    if loc <= Site(c) then Share(PairAt(b, t, Site(c)[|loc|..]), config, c) else 0
  }

  lemma LocalSites(b: Schema, t: Schema, loc: Location, config: Config)
    ensures forall c :: c in LocalFindings(b, t, loc, config) ==> Site(c) == loc && c.severity == Breaking && !Suppresses(config, c.detail)
  {
    if b.StringType? && t.StringType? {
      EnumSites(b.enumeration, t.enumeration, loc, config);
    }
    if b.ObjectType? && t.ObjectType? {
      RequiredSites(b.required, t.required, loc, config);
    }
  }

  lemma {:induction false} EnumSites(bs: seq<Option<string>>, ts: seq<Option<string>>, loc: Location, config: Config)
    ensures forall c :: c in EnumFindings(bs, ts, loc, config) <==>
      c.detail.EnumValueRemoved? && c == Change(Breaking, loc, c.detail) && c.detail.value in bs && c.detail.value !in ts && !Suppresses(config, c.detail)
  {
    if bs != [] {
      var n := |bs| - 1;
      EnumSites(bs[..n], ts, loc, config);
      assert bs == bs[..n] + [bs[n]];
    }
  }

  lemma {:induction false} RequiredSites(bs: seq<string>, ts: seq<string>, loc: Location, config: Config)
    ensures forall c :: c in RequiredFindings(bs, ts, loc, config) <==>
      c.detail.FieldMadeRequired? && c == Change(Breaking, loc + [c.detail.field], c.detail) && c.detail.field in ts && c.detail.field !in bs && !Suppresses(config, c.detail)
  {
    if ts != [] {
      var n := |ts| - 1;
      RequiredSites(bs, ts[..n], loc, config);
      assert ts == ts[..n] + [ts[n]];
    }
  }

  /** The findings of a pair itself, with the rules and flags that silence them by name. */
  ghost predicate LocallyReported(b: Schema, t: Schema, loc: Location, config: Config, c: Change) {
    c.severity == Breaking &&
    match c.detail
    case TypeChanged(from, to) =>
      && c.path == loc && Typed(b) && Typed(t) && from == TypeName(b) && to == TypeName(t) && from != to
      && "type_change" !in config.ignoreRules && !config.allowTypeCoercion
    case EnumValueRemoved(x) =>
      && c.path == loc && b.StringType? && t.StringType? && x in b.enumeration && x !in t.enumeration
      && "enum_removal" !in config.ignoreRules && !config.allowBreakingEnums
    case FieldMadeRequired(f) =>
      && c.path == loc + [f] && b.ObjectType? && t.ObjectType? && f in t.required && f !in b.required
      && "new_required_field" !in config.ignoreRules
    case _ => false
  }

  lemma LocalMembers(b: Schema, t: Schema, loc: Location, config: Config, c: Change)
    ensures c in LocalFindings(b, t, loc, config) <==> LocallyReported(b, t, loc, config, c)
  {
    if b.StringType? && t.StringType? {
      EnumSites(b.enumeration, t.enumeration, loc, config);
    }
    if b.ObjectType? && t.ObjectType? {
      RequiredSites(b.required, t.required, loc, config);
    }
  }

  /** Exactly what the diff reports, with multiplicities: each pair of inline schemas reached by a
      common property path contributes its own findings once, and nothing else is reported. */
  lemma {:induction false} DiffIsExact(b: Schema, t: Schema, loc: Location, config: Config, c: Change)
    requires WellFormed(b)
    ensures multiset(Diff(b, t, loc, config))[c] == Expected(b, t, loc, config, c)
    decreases b, 1
  {
    LocalCount(b, t, loc, config, c);
    ExpectedSplits(b, t, loc, config, c);
    if b.ObjectType? && t.ObjectType? {
      PropertiesAreExact(b.properties, t.properties, loc, config, c);
    }
  }

  /** A site is the pair itself or lies under exactly one property of it. */
  lemma ExpectedSplits(b: Schema, t: Schema, loc: Location, config: Config, c: Change)
    ensures Expected(b, t, loc, config, c) ==
      if loc == Site(c) then Share(Some((b, t)), config, c)
      else if loc < Site(c) && b.ObjectType? && t.ObjectType? then
        var name := Site(c)[|loc|];
        ExpectedBelow(Get(b.properties, name), Get(t.properties, name), loc + [name], config, c)
      else 0
  {
    if loc < Site(c) {
      FirstSegment(loc, Site(c));
    }
  }

  /** A proper prefix, the segment after it and the rest. */
  lemma FirstSegment(loc: Location, site: Location)
    requires loc < site
    ensures loc + [site[|loc|]] <= site
    ensures var path := site[|loc|..]; path != [] && path[0] == site[|loc|] && path[1..] == site[|loc + [site[|loc|]]|..]
  {
  }

  /** The pair's own findings all sit at the pair. */
  lemma LocalCount(b: Schema, t: Schema, loc: Location, config: Config, c: Change)
    ensures multiset(LocalFindings(b, t, loc, config))[c] == if loc == Site(c) then Share(Some((b, t)), config, c) else 0
  {
    LocalSites(b, t, loc, config);
    if c !in LocalFindings(b, t, loc, config) {
      assert multiset(LocalFindings(b, t, loc, config))[c] == 0;
    }
  }

  /** The properties' share: only the property named by the next segment contributes. */
  ghost function ExpectedBelow(b: Option<ReferenceOr<Schema>>, t: Option<ReferenceOr<Schema>>,
                               loc: Location, config: Config, c: Change): nat {
    if loc <= Site(c) then Share(PairBelow(b, t, Site(c)[|loc|..]), config, c) else 0
  }

  lemma {:induction false} PropertiesAreExact(bp: IndexMap<string, ReferenceOr<Schema>>, tp: IndexMap<string, ReferenceOr<Schema>>,
                                              loc: Location, config: Config, c: Change)
    requires UniqueKeys(bp) && forall i :: 0 <= i < |bp| && bp[i].value.Item? ==> WellFormed(bp[i].value.item)
    ensures multiset(DiffProperties(bp, tp, loc, config))[c] ==
      if loc < Site(c) then
        var name := Site(c)[|loc|];
        ExpectedBelow(Get(bp, name), Get(tp, name), loc + [name], config, c)
      else 0
    decreases bp, 0
  {
    if bp != [] {
      var n := |bp| - 1;
      PropertiesAreExact(bp[..n], tp, loc, config, c);
      PropertyIsExact(bp[n], Get(tp, bp[n].key), loc, config, c);
      PropertyElsewhere(bp[n], Get(tp, bp[n].key), loc, config, c);
      if loc < Site(c) {
        GetLast(bp, Site(c)[|loc|]);
      }
    }
  }

  lemma PropertyElsewhere(b: Entry<string, ReferenceOr<Schema>>, t: Option<ReferenceOr<Schema>>,
                          loc: Location, config: Config, c: Change)
    ensures !(loc < Site(c) && Site(c)[|loc|] == b.key) ==> ExpectedBelow(Some(b.value), t, loc + [b.key], config, c) == 0
  {
    if loc + [b.key] <= Site(c) {
      assert Site(c)[|loc|] == (loc + [b.key])[|loc|];
    }
  }

  lemma {:induction false} PropertyIsExact(b: Entry<string, ReferenceOr<Schema>>, t: Option<ReferenceOr<Schema>>,
                                           loc: Location, config: Config, c: Change)
    requires b.value.Item? ==> WellFormed(b.value.item)
    ensures multiset(DiffProperty(b, t, loc, config))[c] == ExpectedBelow(Some(b.value), t, loc + [b.key], config, c)
    decreases b, 0
  {
    if b.value.Item? && t.Some? && t.value.Item? {
      DiffIsExact(b.value.item, t.value.item, loc + [b.key], config, c);
    }
  }

  /** Splitting off the last entry of a map with unique keys. */
  lemma GetLast<K, V>(m: IndexMap<K, V>, key: K)
    requires UniqueKeys(m) && m != []
    ensures Get(m, key) == if m[|m| - 1].key == key then Some(m[|m| - 1].value) else Get(m[..|m| - 1], key)
    ensures m[|m| - 1].key == key ==> Get(m[..|m| - 1], key) == None
  {
    var n := |m| - 1;
    if m[n].key == key {
      GetEntry(m, n);
      assert !HasKey(m[..n], key);
    } else {
      assert m[..n] + [m[n]] == m;
      GetElsewhere(m[..n], m[n], key);
    }
  }

  /** The pair reached by a property path reports a finding at that path. */
  ghost predicate ReportedAt(b: Schema, t: Schema, path: seq<string>, loc: Location, config: Config, c: Change) {
    var pair := PairAt(b, t, path);
    pair.Some? && c in LocalFindings(pair.value.0, pair.value.1, loc + path, config)
  }

  /** Membership form: a finding is reported if and only if some property path leads, through inline
      objects of both schemas, to a pair that reports it there. */
  lemma DiffMembers(b: Schema, t: Schema, loc: Location, config: Config, c: Change)
    requires WellFormed(b)
    ensures c in Diff(b, t, loc, config) <==> exists path :: ReportedAt(b, t, path, loc, config, c)
  {
    DiffIsExact(b, t, loc, config, c);
    Occurs(Diff(b, t, loc, config), c);
    ExpectedExactly(b, t, loc, config, c);
  }

  lemma ExpectedExactly(b: Schema, t: Schema, loc: Location, config: Config, c: Change)
    ensures Expected(b, t, loc, config, c) > 0 <==> exists path :: ReportedAt(b, t, path, loc, config, c)
  {
    if Expected(b, t, loc, config, c) > 0 {
      ExpectedIsReported(b, t, loc, config, c);
    }
    if path :| ReportedAt(b, t, path, loc, config, c) {
      ReportedIsExpected(b, t, path, loc, config, c);
    }
  }

  lemma Occurs(changes: seq<Change>, c: Change)
    ensures c in changes <==> multiset(changes)[c] > 0
  {
  }

  lemma ExpectedIsReported(b: Schema, t: Schema, loc: Location, config: Config, c: Change)
    requires Expected(b, t, loc, config, c) > 0
    ensures ReportedAt(b, t, Site(c)[|loc|..], loc, config, c)
  {
    assert Site(c) == loc + Site(c)[|loc|..];
  }

  lemma ReportedIsExpected(b: Schema, t: Schema, path: seq<string>, loc: Location, config: Config, c: Change)
    requires ReportedAt(b, t, path, loc, config, c)
    ensures Expected(b, t, loc, config, c) > 0
  {
    var pair := PairAt(b, t, path);
    LocalSites(pair.value.0, pair.value.1, loc + path, config);
    TailOf(loc, path);
    Occurs(LocalFindings(pair.value.0, pair.value.1, loc + path, config), c);
    assert Share(pair, config, c) > 0;
  }

  lemma TailOf<T>(a: seq<T>, b: seq<T>)
    ensures a <= a + b && (a + b)[|a|..] == b
  {
  }

  /** Moves every location under a new root. */
  function Reroot(root: Location, changes: seq<Change>): (r: seq<Change>)
    ensures |r| == |changes|
  {
    seq(|changes|, i requires 0 <= i < |changes| => changes[i].(path := root + changes[i].path))
  }

  lemma RerootAppend(root: Location, a: seq<Change>, b: seq<Change>)
    ensures Reroot(root, a + b) == Reroot(root, a) + Reroot(root, b)
  {
  }

  lemma {:induction false} LocalReroot(b: Schema, t: Schema, root: Location, loc: Location, config: Config)
    ensures LocalFindings(b, t, root + loc, config) == Reroot(root, LocalFindings(b, t, loc, config))
  {
    if b.StringType? && t.StringType? {
      EnumReroot(b.enumeration, t.enumeration, root, loc, config);
    }
    if b.ObjectType? && t.ObjectType? {
      RequiredReroot(b.required, t.required, root, loc, config);
    }
  }

  lemma {:induction false} EnumReroot(bs: seq<Option<string>>, ts: seq<Option<string>>, root: Location, loc: Location, config: Config)
    ensures EnumFindings(bs, ts, root + loc, config) == Reroot(root, EnumFindings(bs, ts, loc, config))
  {
    if bs != [] {
      EnumReroot(bs[..|bs| - 1], ts, root, loc, config);
    }
  }

  lemma {:induction false} RequiredReroot(bs: seq<string>, ts: seq<string>, root: Location, loc: Location, config: Config)
    ensures RequiredFindings(bs, ts, root + loc, config) == Reroot(root, RequiredFindings(bs, ts, loc, config))
  {
    if ts != [] {
      var n := |ts| - 1;
      RequiredReroot(bs, ts[..n], root, loc, config);
      assert root + (loc + [ts[n]]) == (root + loc) + [ts[n]];
    }
  }

  /** Diffing at another location changes nothing but the common prefix of every path. */
  lemma {:induction false} DiffReroot(b: Schema, t: Schema, root: Location, loc: Location, config: Config)
    ensures Diff(b, t, root + loc, config) == Reroot(root, Diff(b, t, loc, config))
    decreases b, 1
  {
    LocalReroot(b, t, root, loc, config);
    if b.ObjectType? && t.ObjectType? {
      PropertiesReroot(b.properties, t.properties, root, loc, config);
      RerootAppend(root, LocalFindings(b, t, loc, config), DiffProperties(b.properties, t.properties, loc, config));
    }
  }

  lemma {:induction false} PropertiesReroot(bp: IndexMap<string, ReferenceOr<Schema>>, tp: IndexMap<string, ReferenceOr<Schema>>,
                                            root: Location, loc: Location, config: Config)
    ensures DiffProperties(bp, tp, root + loc, config) == Reroot(root, DiffProperties(bp, tp, loc, config))
    decreases bp, 0
  {
    if bp != [] {
      var n := |bp| - 1;
      PropertiesReroot(bp[..n], tp, root, loc, config);
      PropertyReroot(bp[n], Get(tp, bp[n].key), root, loc, config);
      RerootAppend(root, DiffProperties(bp[..n], tp, loc, config), DiffProperty(bp[n], Get(tp, bp[n].key), loc, config));
    }
  }

  lemma {:induction false} PropertyReroot(b: Entry<string, ReferenceOr<Schema>>, t: Option<ReferenceOr<Schema>>,
                                          root: Location, loc: Location, config: Config)
    ensures DiffProperty(b, t, root + loc, config) == Reroot(root, DiffProperty(b, t, loc, config))
    decreases b, 0
  {
    if b.value.Item? && t.Some? && t.value.Item? {
      assert root + (loc + [b.key]) == (root + loc) + [b.key];
      DiffReroot(b.value.item, t.value.item, root, loc + [b.key], config);
    }
  }

  /** Schema nodes and enum entries of a tree, array items aside. */
  function BaseSize(s: Schema): nat
    decreases s, 1
  {
    1 + (if s.StringType? then |s.enumeration| else if s.ObjectType? then BaseSizes(s.properties) else 0)
  }

  function BaseSizes(props: IndexMap<string, ReferenceOr<Schema>>): nat
    decreases props, 0
  {
    if props == [] then 0 else BaseSizes(props[..|props| - 1]) + BaseSizeRef(props[|props| - 1])
  }

  function BaseSizeRef(p: Entry<string, ReferenceOr<Schema>>): nat
    decreases p, 0
  {
    if p.value.Item? then BaseSize(p.value.item) else 0
  }

  function Names(props: IndexMap<string, ReferenceOr<Schema>>): set<string> {
    set p | p in props :: p.key
  }

  /** Required entries of a tree, array items aside. */
  function RequiredSize(s: Schema): nat
    decreases s, 1
  {
    if s.ObjectType? then |s.required| + RequiredSizes(s.properties, Names(s.properties)) else 0
  }

  /** The share of the properties with the given names. */
  function RequiredSizes(props: IndexMap<string, ReferenceOr<Schema>>, names: set<string>): nat
    decreases props, 0
  {
    if props == [] then 0
    else
      var n := |props| - 1;
      RequiredSizes(props[..n], names) + (if props[n].key in names then RequiredSizeRef(props[n]) else 0)
  }

  function RequiredSizeRef(p: Entry<string, ReferenceOr<Schema>>): nat
    decreases p, 0
  {
    if p.value.Item? then RequiredSize(p.value.item) else 0
  }

  function RequiredSizeOf(r: Option<ReferenceOr<Schema>>): nat {
    if r.Some? && r.value.Item? then RequiredSize(r.value.item) else 0
  }

  lemma {:induction false} EnumBound(bs: seq<Option<string>>, ts: seq<Option<string>>, loc: Location, config: Config)
    ensures |EnumFindings(bs, ts, loc, config)| <= |bs|
  {
    if bs != [] { EnumBound(bs[..|bs| - 1], ts, loc, config); }
  }

  lemma {:induction false} RequiredBound(bs: seq<string>, ts: seq<string>, loc: Location, config: Config)
    ensures |RequiredFindings(bs, ts, loc, config)| <= |ts|
  {
    if ts != [] { RequiredBound(bs, ts[..|ts| - 1], loc, config); }
  }

  /** The report is never longer than the base's nodes and enum entries plus the target's required entries. */
  lemma {:induction false} DiffBound(b: Schema, t: Schema, loc: Location, config: Config)
    requires WellFormed(b)
    ensures |Diff(b, t, loc, config)| <= BaseSize(b) + RequiredSize(t)
    decreases b, 1
  {
    if b.StringType? && t.StringType? {
      EnumBound(b.enumeration, t.enumeration, loc, config);
    }
    if b.ObjectType? && t.ObjectType? {
      RequiredBound(b.required, t.required, loc, config);
      PropertiesBound(b.properties, t.properties, loc, config);
      RequiredSizesMonotone(t.properties, Names(b.properties), Names(t.properties));
    }
  }

  lemma {:induction false} PropertiesBound(bp: IndexMap<string, ReferenceOr<Schema>>, tp: IndexMap<string, ReferenceOr<Schema>>,
                                           loc: Location, config: Config)
    requires UniqueKeys(bp) && forall i :: 0 <= i < |bp| && bp[i].value.Item? ==> WellFormed(bp[i].value.item)
    ensures |DiffProperties(bp, tp, loc, config)| <= BaseSizes(bp) + RequiredSizes(tp, Names(bp))
    decreases bp, 0
  {
    if bp != [] {
      var n := |bp| - 1;
      var names := Names(bp[..n]);
      PropertiesBound(bp[..n], tp, loc, config);
      PropertyBound(bp[n], Get(tp, bp[n].key), loc, config);
      NamesOfAll(bp);
      RequiredSizesAdd(tp, names, bp[n].key);
    }
  }

  lemma NamesOfAll(bp: IndexMap<string, ReferenceOr<Schema>>)
    requires UniqueKeys(bp) && bp != []
    ensures Names(bp) == Names(bp[..|bp| - 1]) + {bp[|bp| - 1].key}
    ensures bp[|bp| - 1].key !in Names(bp[..|bp| - 1])
  {
    assert bp == bp[..|bp| - 1] + [bp[|bp| - 1]];
  }

  lemma {:induction false} PropertyBound(b: Entry<string, ReferenceOr<Schema>>, t: Option<ReferenceOr<Schema>>,
                                         loc: Location, config: Config)
    requires b.value.Item? ==> WellFormed(b.value.item)
    ensures |DiffProperty(b, t, loc, config)| <= BaseSizeRef(b) + RequiredSizeOf(t)
    decreases b, 0
  {
    if b.value.Item? && t.Some? && t.value.Item? {
      DiffBound(b.value.item, t.value.item, loc + [b.key], config);
    }
  }

  lemma {:induction false} RequiredSizesMonotone(props: IndexMap<string, ReferenceOr<Schema>>, small: set<string>, names: set<string>)
    requires forall p :: p in props ==> p.key in names
    ensures RequiredSizes(props, small) <= RequiredSizes(props, names)
  {
    if props != [] {
      assert props[|props| - 1] in props;
      RequiredSizesMonotone(props[..|props| - 1], small, names);
    }
  }

  lemma {:induction false} RequiredSizesAdd(props: IndexMap<string, ReferenceOr<Schema>>, names: set<string>, name: string)
    requires name !in names
    ensures RequiredSizes(props, names + {name}) >= RequiredSizes(props, names) + RequiredSizeOf(Get(props, name))
  {
    if HasKey(props, name) {
      var i :| 0 <= i < |props| && props[i].key == name && Some(props[i].value) == Get(props, name);
      RequiredSizesAt(props, names, i);
    } else {
      RequiredSizesGrow(props, names, name);
    }
  }

  lemma {:induction false} RequiredSizesGrow(props: IndexMap<string, ReferenceOr<Schema>>, names: set<string>, name: string)
    ensures RequiredSizes(props, names + {name}) >= RequiredSizes(props, names)
  {
    if props != [] { RequiredSizesGrow(props[..|props| - 1], names, name); }
  }

  lemma {:induction false} RequiredSizesAt(props: IndexMap<string, ReferenceOr<Schema>>, names: set<string>, i: nat)
    requires i < |props| && props[i].key !in names
    ensures RequiredSizes(props, names + {props[i].key}) >= RequiredSizes(props, names) + RequiredSizeRef(props[i])
  {
    var n := |props| - 1;
    if i == n {
      RequiredSizesGrow(props[..n], names, props[i].key);
    } else {
      assert props[..n][i] == props[i];
      RequiredSizesAt(props[..n], names, i);
    }
  }
}
