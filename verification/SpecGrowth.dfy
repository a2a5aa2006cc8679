/** Safe additions to the target are invisible to the whole comparison. */
module SpecGrowth {
  import opened Prelude
  import opened OpenApi
  import opened SpecDiff
  import opened DiffPolicy
  import SpecLaws

  /** `u` is `t` with additions only where `b` is not looking, at each level of a document. */
  ghost predicate SlotGrows(b: Option<ReferenceOr<Schema>>, t: Option<Option<ReferenceOr<Schema>>>, u: Option<Option<ReferenceOr<Schema>>>) {
    match (t, u)
    case (None, None) => true
    case (Some(ts), Some(us)) =>
      if ts.Some? && ts.value.Item?
      then us.Some? && us.value.Item? && (b.Some? && b.value.Item? ==> Grows(b.value.item, ts.value.item, us.value.item))
      else ts == us
    case _ => false
  }

  ghost predicate ContentGrows(b: Content, t: Content, u: Content) {
    forall m :: m in b ==> SlotGrows(m.value, Get(t, m.key), Get(u, m.key))
  }

  ghost predicate ContentRefGrows(b: ReferenceOr<Content>, t: Option<ReferenceOr<Content>>, u: Option<ReferenceOr<Content>>) {
    match (t, u)
    case (None, None) => true
    case (Some(Reference(_)), Some(Reference(_))) => true
    case (Some(Item(tc)), Some(Item(uc))) => b.Item? ==> ContentGrows(b.item, tc, uc)
    case _ => false
  }

  /** New names are optional and unknown to the base; old names keep their declaration, schemas aside. */
  ghost predicate ParametersGrow(b: seq<ReferenceOr<Parameter>>, t: seq<ReferenceOr<Parameter>>, u: seq<ReferenceOr<Parameter>>) {
    var bm, tm, um := ParameterMap(b), ParameterMap(t), ParameterMap(u);
    && (forall name :: name in tm ==> name in um && um[name].(schema := tm[name].schema) == tm[name])
    && (forall name :: name in um && name !in tm ==> name !in bm && !um[name].required)
  }

  ghost predicate MethodGrows(b: Option<Operation>, t: Option<Operation>, u: Option<Operation>) {
    b.Some? ==>
      match (t, u)
      case (None, None) => true
      case (Some(to), Some(uo)) =>
        && ParametersGrow(b.value.parameters, to.parameters, uo.parameters)
        && (forall r :: r in b.value.responses ==> ContentRefGrows(r.value, Get(to.responses, r.key), Get(uo.responses, r.key)))
        && (b.value.requestBody.Some? ==> ContentRefGrows(ContentOf(b.value.requestBody).value, ContentOf(to.requestBody), ContentOf(uo.requestBody)))
      case _ => false
  }

  ghost predicate OperationGrows(b: PathItem, t: PathItem, u: PathItem, k: nat)
    requires k < 5
  {
    MethodGrows(Operations(b)[k].1, Operations(t)[k].1, Operations(u)[k].1)
  }

  ghost predicate PathGrows(b: ReferenceOr<PathItem>, t: Option<ReferenceOr<PathItem>>, u: Option<ReferenceOr<PathItem>>) {
    match (t, u)
    case (None, None) => true
    case (Some(Reference(_)), Some(Reference(_))) => true
    case (Some(Item(ti)), Some(Item(ui))) =>
      b.Item? ==> forall k: nat :: k < 5 ==> OperationGrows(b.item, ti, ui, k)
    case _ => false
  }

  ghost predicate DocumentGrows(base: Document, target: Document, grown: Document) {
    forall p :: p in base.paths ==> PathGrows(p.value, Get(target.paths, p.key), Get(grown.paths, p.key))
  }

  lemma {:induction false} ContentUnmoved(b: Content, t: Content, u: Content, loc: Location, perMedia: bool, config: Config)
    requires ContentGrows(b, t, u)
    ensures ContentFindings(b, t, loc, perMedia, config) == ContentFindings(b, u, loc, perMedia, config)
  {
    if b != [] {
      var n := |b| - 1;
      SplitLast(b);
      ContentUnmoved(b[..n], t, u, loc, perMedia, config);
      SlotUnmoved(b[n].value, Get(t, b[n].key), Get(u, b[n].key), MediaLocation(loc, b[n].key, perMedia), config);
    }
  }

  lemma SlotUnmoved(b: Option<ReferenceOr<Schema>>, t: Option<Option<ReferenceOr<Schema>>>, u: Option<Option<ReferenceOr<Schema>>>,
                    loc: Location, config: Config)
    requires SlotGrows(b, t, u)
    ensures MediaFindings(b, t, loc, config) == MediaFindings(b, u, loc, config)
  {
    if b.Some? && b.value.Item? && t.Some? && t.value.Some? && t.value.value.Item? {
      GrowthInvisible(b.value.item, t.value.value.item, u.value.value.item, loc, config);
    }
  }

  lemma ResponseUnmoved(b: Entry<StatusCode, ReferenceOr<Content>>, t: Option<ReferenceOr<Content>>, u: Option<ReferenceOr<Content>>,
                        loc: Location, config: Config)
    requires ContentRefGrows(b.value, t, u)
    ensures ResponseFinding(b, t, loc, config) == ResponseFinding(b, u, loc, config)
  {
    if b.value.Item? && t.Some? && t.value.Item? {
      ContentUnmoved(b.value.item, t.value.item, u.value.item, loc + ["responses", StatusText(b.key)], true, config);
    }
  }

  lemma {:induction false} ResponsesUnmoved(b: IndexMap<StatusCode, ReferenceOr<Content>>, t: IndexMap<StatusCode, ReferenceOr<Content>>,
                                            u: IndexMap<StatusCode, ReferenceOr<Content>>, loc: Location, config: Config)
    requires forall r :: r in b ==> ContentRefGrows(r.value, Get(t, r.key), Get(u, r.key))
    ensures ResponseFindings(b, t, loc, config) == ResponseFindings(b, u, loc, config)
  {
    if b != [] {
      var n := |b| - 1;
      SplitLast(b);
      ResponsesUnmoved(b[..n], t, u, loc, config);
      ResponseUnmoved(b[n], Get(t, b[n].key), Get(u, b[n].key), loc, config);
    }
  }

  lemma RequestUnmoved(b: Option<ReferenceOr<Content>>, t: Option<ReferenceOr<Content>>, u: Option<ReferenceOr<Content>>, loc: Location, config: Config)
    requires b.Some? ==> ContentRefGrows(b.value, t, u)
    ensures RequestFindings(b, t, loc, config) == RequestFindings(b, u, loc, config)
  {
    if b.Some? && b.value.Item? && t.Some? && t.value.Item? {
      ContentUnmoved(b.value.item, t.value.item, u.value.item, loc + ["requestBody"], false, config);
    }
  }

  lemma ParametersUnmoved(b: seq<ReferenceOr<Parameter>>, t: seq<ReferenceOr<Parameter>>, u: seq<ReferenceOr<Parameter>>, loc: Location, config: Config)
    requires ParametersGrow(b, t, u)
    ensures ParameterFindings(b, t, loc, config) == ParameterFindings(b, u, loc, config)
  {
    var bm, tm, um := ParameterMap(b), ParameterMap(t), ParameterMap(u);
    assert RemovedParameters(bm, tm, bm.Keys, loc, config) == RemovedParameters(bm, um, bm.Keys, loc, config) by {
      assert forall name :: IsRemoved(bm, tm, name, config) <==> IsRemoved(bm, um, name, config);
    }
    assert RequiredParameters(bm, tm, tm.Keys, loc, config) == RequiredParameters(bm, um, um.Keys, loc, config) by {
      assert forall name :: IsNewlyRequired(bm, tm, name, config) <==> IsNewlyRequired(bm, um, name, config);
    }
  }

  lemma MethodUnmoved(b: Option<Operation>, t: Option<Operation>, u: Option<Operation>, loc: Location, config: Config)
    requires MethodGrows(b, t, u)
    ensures MethodFindings(b, t, loc, config) == MethodFindings(b, u, loc, config)
  {
    if b.Some? && t.Some? {
      ParametersUnmoved(b.value.parameters, t.value.parameters, u.value.parameters, loc, config);
      ResponsesUnmoved(b.value.responses, t.value.responses, u.value.responses, loc, config);
      RequestUnmoved(ContentOf(b.value.requestBody), ContentOf(t.value.requestBody), ContentOf(u.value.requestBody), loc, config);
    }
  }

  lemma MethodUnmovedAt(b: PathItem, t: PathItem, u: PathItem, k: nat, loc: Location, config: Config)
    requires k < 5 && OperationGrows(b, t, u, k)
    ensures SpecLaws.MethodFindingsAt(b, t, k, loc, config) == SpecLaws.MethodFindingsAt(b, u, k, loc, config)
  {
    MethodUnmoved(Operations(b)[k].1, Operations(t)[k].1, Operations(u)[k].1, loc + [Operations(b)[k].0], config);
  }

  lemma ItemUnmoved(b: PathItem, t: PathItem, u: PathItem, loc: Location, config: Config)
    requires forall k: nat :: k < 5 ==> OperationGrows(b, t, u, k)
    ensures ItemFindings(b, t, 5, loc, config) == ItemFindings(b, u, 5, loc, config)
  {
    SpecLaws.ItemUnfolds(b, t, loc, config);
    SpecLaws.ItemUnfolds(b, u, loc, config);
    MethodUnmovedAt(b, t, u, 0, loc, config);
    MethodUnmovedAt(b, t, u, 1, loc, config);
    MethodUnmovedAt(b, t, u, 2, loc, config);
    MethodUnmovedAt(b, t, u, 3, loc, config);
    MethodUnmovedAt(b, t, u, 4, loc, config);
  }

  lemma {:induction false} PathsUnmoved(b: IndexMap<string, ReferenceOr<PathItem>>, t: IndexMap<string, ReferenceOr<PathItem>>,
                                        u: IndexMap<string, ReferenceOr<PathItem>>, config: Config)
    requires forall p :: p in b ==> PathGrows(p.value, Get(t, p.key), Get(u, p.key))
    ensures PathsFindings(b, t, config) == PathsFindings(b, u, config)
  {
    if b != [] {
      var n := |b| - 1;
      SplitLast(b);
      PathsUnmoved(b[..n], t, u, config);
      var ti, ui := Get(t, b[n].key), Get(u, b[n].key);
      if b[n].value.Item? && ti.Some? && ti.value.Item? {
        ItemUnmoved(b[n].value.item, ti.value.item, ui.value.item, ["paths", b[n].key], config);
      }
    }
  }

  /** Safe additions are invisible: whatever the target gains where the base is not looking (paths,
      methods, response codes, media types, optional parameters, properties, enum values), at any
      depth and under any configuration, the findings stay the same. */
  lemma SafeAdditionsInvisible(base: Document, target: Document, grown: Document, config: Config)
    requires DocumentGrows(base, target, grown)
    ensures DocumentFindings(base, target, config) == DocumentFindings(base, grown, config)
  {
    PathsUnmoved(base.paths, target.paths, grown.paths, config);
  }

  /** Nor does the summary change. */
  lemma SummaryUnmoved(base: Document, target: Document, grown: Document, config: Config, before: Report, after: Report)
    requires DocumentGrows(base, target, grown)
    requires IsComparison(base, target, config, before) && IsComparison(base, grown, config, after)
    ensures before.breaking == after.breaking && before.dangerous == after.dangerous && before.additive == after.additive
    ensures multiset(before.changes) == multiset(after.changes)
  {
    SafeAdditionsInvisible(base, target, grown, config);
    NoneDangerous(before.changes);
    NoneDangerous(after.changes);
    assert |multiset(before.changes)| == |before.changes| && |multiset(after.changes)| == |after.changes|;
  }

  // ----- The additions themselves

  lemma {:induction false} GrowsReflexive(b: Schema, t: Schema)
    ensures Grows(b, t, t)
    decreases b
  {
    if b.ObjectType? && t.ObjectType? {
      forall i | 0 <= i < |b.properties|
        ensures GrowsProperty(b.properties[i], Get(t.properties, b.properties[i].key), Get(t.properties, b.properties[i].key))
      {
        var found := Get(t.properties, b.properties[i].key);
        if b.properties[i].value.Item? && found.Some? && found.value.Item? {
          GrowsReflexive(b.properties[i].value.item, found.value.item);
        }
      }
    }
  }

  /** Declaring a property that the base object lacks, without requiring it, is growth. */
  lemma AddedPropertyGrows(b: Schema, t: Schema, p: Entry<string, ReferenceOr<Schema>>)
    requires b.ObjectType? && t.ObjectType? && !HasKey(b.properties, p.key)
    ensures Grows(b, t, t.(properties := t.properties + [p]))
  {
    GrowsReflexive(b, t);
    forall i | 0 <= i < |b.properties|
      ensures Get(t.properties + [p], b.properties[i].key) == Get(t.properties, b.properties[i].key)
    {
      assert HasKey(b.properties, b.properties[i].key);
      GetElsewhere(t.properties, p, b.properties[i].key);
    }
  }

  /** Allowing an enum value that the base enum lacks is growth. */
  lemma AddedEnumValueGrows(b: Schema, t: Schema, x: Option<string>)
    requires t.StringType? && (b.StringType? ==> x !in b.enumeration)
    ensures Grows(b, t, t.(enumeration := t.enumeration + [x]))
  {
  }

  /** Replacing the value of an entry. */
  lemma GetReplaced<K, V>(m: IndexMap<K, V>, i: nat, v: V, key: K)
    requires UniqueKeys(m) && i < |m|
    ensures Get(m[i := Entry(m[i].key, v)], key) == if key == m[i].key then Some(v) else Get(m, key)
  {
    var n := m[i := Entry(m[i].key, v)];
    assert forall j :: 0 <= j < |m| ==> n[j].key == m[j].key;
    assert UniqueKeys(n);
    if j: nat :| j < |m| && m[j].key == key {
      GetEntry(m, j);
      GetEntry(n, j);
    } else {
      assert !HasKey(m, key) && !HasKey(n, key);
    }
  }

  /** Growth of a nested property is growth of the object. */
  lemma NestedGrowthGrows(b: Schema, t: Schema, i: nat, u: Schema)
    requires b.ObjectType? && t.ObjectType? && UniqueKeys(t.properties) && i < |t.properties| && t.properties[i].value.Item?
    requires forall p :: p in b.properties && p.key == t.properties[i].key && p.value.Item? ==> Grows(p.value.item, t.properties[i].value.item, u)
    ensures Grows(b, t, t.(properties := t.properties[i := Entry(t.properties[i].key, Item(u))]))
  {
    GrowsReflexive(b, t);
    var up := t.properties[i := Entry(t.properties[i].key, Item(u))];
    forall j | 0 <= j < |b.properties|
      ensures GrowsProperty(b.properties[j], Get(t.properties, b.properties[j].key), Get(up, b.properties[j].key))
    {
      assert b.properties[j] in b.properties;
      GetReplaced(t.properties, i, Item(u), b.properties[j].key);
      GetEntry(t.properties, i);
    }
  }

  lemma SlotGrowsReflexive(b: Option<ReferenceOr<Schema>>, t: Option<Option<ReferenceOr<Schema>>>)
    ensures SlotGrows(b, t, t)
  {
    if b.Some? && b.value.Item? && t.Some? && t.value.Some? && t.value.value.Item? {
      GrowsReflexive(b.value.item, t.value.value.item);
    }
  }

  /** Adding a media type that the base body lacks. */
  lemma AddedMediaGrows(b: Content, t: Content, m: Entry<string, Option<ReferenceOr<Schema>>>)
    requires !HasKey(b, m.key)
    ensures ContentGrows(b, t, t + [m])
  {
    forall e | e in b
      ensures SlotGrows(e.value, Get(t, e.key), Get(t + [m], e.key))
    {
      var i :| 0 <= i < |b| && b[i] == e;
      GetElsewhere(t, m, e.key);
      SlotGrowsReflexive(e.value, Get(t, e.key));
    }
  }

  lemma ContentRefGrowsReflexive(b: ReferenceOr<Content>, t: Option<ReferenceOr<Content>>)
    ensures ContentRefGrows(b, t, t)
  {
    if b.Item? && t.Some? && t.value.Item? {
      forall e | e in b.item
        ensures SlotGrows(e.value, Get(t.value.item, e.key), Get(t.value.item, e.key))
      {
        SlotGrowsReflexive(e.value, Get(t.value.item, e.key));
      }
    }
  }

  lemma MethodGrowsReflexive(b: Option<Operation>, t: Option<Operation>)
    ensures MethodGrows(b, t, t)
  {
    if b.Some? && t.Some? {
      forall r | r in b.value.responses
        ensures ContentRefGrows(r.value, Get(t.value.responses, r.key), Get(t.value.responses, r.key))
      {
        ContentRefGrowsReflexive(r.value, Get(t.value.responses, r.key));
      }
      if b.value.requestBody.Some? {
        ContentRefGrowsReflexive(ContentOf(b.value.requestBody).value, ContentOf(t.value.requestBody));
      }
    }
  }

  /** Adding a response code that the base operation lacks. */
  lemma AddedResponseGrows(b: Operation, t: Operation, r: Entry<StatusCode, ReferenceOr<Content>>)
    requires !HasKey(b.responses, r.key)
    ensures MethodGrows(Some(b), Some(t), Some(t.(responses := t.responses + [r])))
  {
    MethodGrowsReflexive(Some(b), Some(t));
    forall e | e in b.responses
      ensures ContentRefGrows(e.value, Get(t.responses, e.key), Get(t.responses + [r], e.key))
    {
      var i :| 0 <= i < |b.responses| && b.responses[i] == e;
      GetElsewhere(t.responses, r, e.key);
      ContentRefGrowsReflexive(e.value, Get(t.responses, e.key));
    }
  }

  /** A grown request body, required or not, makes a grown operation. */
  lemma ChangedBodyGrows(b: Operation, t: Operation, u: RequestBody)
    requires t.requestBody.Some? && t.requestBody.value.Item?
    requires b.requestBody.Some? && b.requestBody.value.Item? ==>
      ContentGrows(b.requestBody.value.item.content, t.requestBody.value.item.content, u.content)
    ensures MethodGrows(Some(b), Some(t), Some(t.(requestBody := Some(Item(u)))))
  {
    MethodGrowsReflexive(Some(b), Some(t));
  }

  /** So do grown response bodies. */
  lemma ChangedResponseGrows(b: Operation, t: Operation, i: nat, u: Content)
    requires UniqueKeys(t.responses) && i < |t.responses| && t.responses[i].value.Item?
    requires forall r :: r in b.responses && r.key == t.responses[i].key && r.value.Item? ==> ContentGrows(r.value.item, t.responses[i].value.item, u)
    ensures MethodGrows(Some(b), Some(t), Some(t.(responses := t.responses[i := Entry(t.responses[i].key, Item(u))])))
  {
    MethodGrowsReflexive(Some(b), Some(t));
    var ur := t.responses[i := Entry(t.responses[i].key, Item(u))];
    forall r | r in b.responses
      ensures ContentRefGrows(r.value, Get(t.responses, r.key), Get(ur, r.key))
    {
      GetReplaced(t.responses, i, Item(u), r.key);
      GetEntry(t.responses, i);
      ContentRefGrowsReflexive(r.value, Get(t.responses, r.key));
    }
  }

  /** And a grown parameter list. */
  lemma ChangedParametersGrow(b: Operation, t: Operation, u: seq<ReferenceOr<Parameter>>)
    requires ParametersGrow(b.parameters, t.parameters, u)
    ensures MethodGrows(Some(b), Some(t), Some(t.(parameters := u)))
  {
    MethodGrowsReflexive(Some(b), Some(t));
  }

  /** Adding a method that the base item lacks, or growing one. */
  lemma ChangedMethodGrows(b: PathItem, t: PathItem, u: PathItem, k: nat)
    requires k < 5 && (Operations(b)[k].1.None? || OperationGrows(b, t, u, k))
    requires forall j: nat :: j < 5 && j != k ==> Operations(u)[j].1 == Operations(t)[j].1
    ensures PathGrows(Item(b), Some(Item(t)), Some(Item(u)))
  {
    forall j: nat | j < 5
      ensures OperationGrows(b, t, u, j)
    {
      MethodGrowsReflexive(Operations(b)[j].1, Operations(t)[j].1);
    }
  }

  /** A grown path item makes a grown document. */
  lemma ChangedPathGrows(base: Document, target: Document, i: nat, u: PathItem)
    requires UniqueKeys(target.paths) && i < |target.paths| && target.paths[i].value.Item?
    requires forall p :: p in base.paths && p.key == target.paths[i].key ==> PathGrows(p.value, Some(target.paths[i].value), Some(Item(u)))
    ensures DocumentGrows(base, target, Document(target.paths[i := Entry(target.paths[i].key, Item(u))]))
  {
    forall p | p in base.paths
      ensures PathGrows(p.value, Get(target.paths, p.key), Get(target.paths[i := Entry(target.paths[i].key, Item(u))], p.key))
    {
      GetReplaced(target.paths, i, Item(u), p.key);
      GetEntry(target.paths, i);
      if p.key != target.paths[i].key { PathGrowsReflexive(p.value, Get(target.paths, p.key)); }
    }
  }

  lemma PathGrowsReflexive(b: ReferenceOr<PathItem>, t: Option<ReferenceOr<PathItem>>)
    ensures PathGrows(b, t, t)
  {
    if b.Item? && t.Some? && t.value.Item? {
      forall j: nat | j < 5
        ensures OperationGrows(b.item, t.value.item, t.value.item, j)
      {
        MethodGrowsReflexive(Operations(b.item)[j].1, Operations(t.value.item)[j].1);
      }
    }
  }

  /** Inserting, anywhere in the list, an optional parameter under a name neither document declares. */
  lemma {:induction false} InsertedParameterGrows(b: seq<ReferenceOr<Parameter>>, t1: seq<ReferenceOr<Parameter>>, t2: seq<ReferenceOr<Parameter>>, p: Parameter)
    requires !p.required && p.name !in ParameterMap(b) && p.name !in ParameterMap(t1 + t2)
    ensures ParametersGrow(b, t1 + t2, t1 + [Item(p)] + t2)
  {
    InsertedParameter(t1, t2, p);
  }

  /** What one more declaration does to the map. */
  lemma DeclaredLast(params: seq<ReferenceOr<Parameter>>, p: ReferenceOr<Parameter>)
    ensures ParameterMap(params + [p]) == if p.Item? then ParameterMap(params)[p.item.name := p.item] else ParameterMap(params)
  {
    assert (params + [p])[..|params|] == params;
  }

  lemma {:induction false} InsertedParameter(t1: seq<ReferenceOr<Parameter>>, t2: seq<ReferenceOr<Parameter>>, p: Parameter)
    requires p.name !in ParameterMap(t1 + t2)
    ensures ParameterMap(t1 + [Item(p)] + t2) == ParameterMap(t1 + t2)[p.name := p]
  {
    if t2 == [] {
      assert t1 + t2 == t1 && t1 + [Item(p)] + t2 == t1 + [Item(p)];
      DeclaredLast(t1, Item(p));
    } else {
      var front, last := t2[..|t2| - 1], t2[|t2| - 1];
      assert t1 + t2 == (t1 + front) + [last];
      assert t1 + [Item(p)] + t2 == (t1 + [Item(p)] + front) + [last];
      DeclaredLast(t1 + front, last);
      DeclaredLast(t1 + [Item(p)] + front, last);
      InsertedParameter(t1, front, p);
    }
  }

  /** Adding a path that the base lacks changes nothing in the report. */
  lemma AddedPathInvisible(base: Document, target: Document, p: Entry<string, ReferenceOr<PathItem>>, config: Config)
    requires !HasKey(base.paths, p.key)
    ensures DocumentFindings(base, target, config) == DocumentFindings(base, Document(target.paths + [p]), config)
  {
    AddedPathElsewhere(base.paths, target.paths, p, config);
  }

  lemma {:induction false} AddedPathElsewhere(b: IndexMap<string, ReferenceOr<PathItem>>, t: IndexMap<string, ReferenceOr<PathItem>>,
                                              p: Entry<string, ReferenceOr<PathItem>>, config: Config)
    requires !HasKey(b, p.key)
    ensures PathsFindings(b, t, config) == PathsFindings(b, t + [p], config)
  {
    if b != [] {
      var n := |b| - 1;
      assert forall i :: 0 <= i < n ==> b[..n][i] == b[i];
      AddedPathElsewhere(b[..n], t, p, config);
      GetElsewhere(t, p, b[n].key);
    }
  }
}
