/** What the comparison of two documents reports, finding by finding, without its loops: the
    document-level counterpart of DiffMembers. */
module SpecMembers {
  import opened Prelude
  import opened OpenApi
  import opened SpecDiff
  import opened DiffLaws
  import DiffPolicy
  import SpecLaws

  /** The schemas of one media type, inline in both, report the finding at some property path. */
  ghost predicate MediaReports(b: Option<ReferenceOr<Schema>>, t: Option<Option<ReferenceOr<Schema>>>, loc: Location, config: Config, c: Change) {
    && b.Some? && b.value.Item? && t.Some? && t.value.Some? && t.value.value.Item?
    && exists path :: ReportedAt(b.value.item, t.value.value.item, path, loc, config, c)
  }

  /** A media type of a response reports, at its own location. */
  ghost predicate ResponseContentReports(b: Content, t: Content, loc: Location, config: Config, c: Change) {
    exists m :: m in b && MediaReports(m.value, Get(t, m.key), loc + ["content", m.key], config, c)
  }

  /** A media type of a request body reports, at the body's location. */
  ghost predicate BodyContentReports(b: Content, t: Content, loc: Location, config: Config, c: Change) {
    exists m :: m in b && MediaReports(m.value, Get(t, m.key), loc, config, c)
  }

  /** A response code is gone, or a media type of it reports. */
  ghost predicate ResponseReports(b: Entry<StatusCode, ReferenceOr<Content>>, t: Option<ReferenceOr<Content>>, loc: Location, config: Config, c: Change) {
    var here := loc + ["responses", StatusText(b.key)];
    if t.None? then c == Change(Breaking, here, ResponseRemoved) && "removed_response" !in config.ignoreRules
    else b.value.Item? && t.value.Item? && ResponseContentReports(b.value.item, t.value.item, here, config, c)
  }

  function ParameterLocation(loc: Location, p: Parameter): Location {
    loc + ["parameters", KindText(p.kind), p.name]
  }

  /** The name of the base's last declaration is gone. */
  ghost predicate RemovalReported(b: seq<ReferenceOr<Parameter>>, t: seq<ReferenceOr<Parameter>>, p: Parameter, loc: Location, config: Config, c: Change) {
    && c == Change(Breaking, ParameterLocation(loc, p), ParameterRemoved(p.kind, p.name))
    && LastIs(b, p) && Undeclared(t, p.name) && "removed_parameter" !in config.ignoreRules
  }

  /** The target's last declaration requires what the base's last declaration of the name did not. */
  ghost predicate NewlyRequiredReported(b: seq<ReferenceOr<Parameter>>, t: seq<ReferenceOr<Parameter>>, p: Parameter, loc: Location, config: Config, c: Change) {
    && c == Change(Breaking, ParameterLocation(loc, p), ParameterMadeRequired(p.kind, p.name))
    && LastIs(t, p) && p.required && "new_required_field" !in config.ignoreRules
    && exists q :: LastIs(b, q) && q.name == p.name && !q.required
  }

  /** The target's last declaration requires a name that the base does not declare. */
  ghost predicate AdditionReported(b: seq<ReferenceOr<Parameter>>, t: seq<ReferenceOr<Parameter>>, p: Parameter, loc: Location, config: Config, c: Change) {
    && c == Change(Breaking, ParameterLocation(loc, p), RequiredParameterAdded(p.kind, p.name))
    && LastIs(t, p) && p.required && "new_required_field" !in config.ignoreRules
    && Undeclared(b, p.name)
  }

  ghost predicate ParameterReports(b: seq<ReferenceOr<Parameter>>, t: seq<ReferenceOr<Parameter>>, p: Parameter, loc: Location, config: Config, c: Change) {
    RemovalReported(b, t, p, loc, config, c) || NewlyRequiredReported(b, t, p, loc, config, c) || AdditionReported(b, t, p, loc, config, c)
  }

  ghost predicate BodyReports(b: Option<ReferenceOr<Content>>, t: Option<ReferenceOr<Content>>, loc: Location, config: Config, c: Change) {
    && b.Some? && b.value.Item? && t.Some? && t.value.Item?
    && BodyContentReports(b.value.item, t.value.item, loc + ["requestBody"], config, c)
  }

  ghost predicate OperationReports(b: Operation, t: Operation, loc: Location, config: Config, c: Change) {
    || (exists p :: ParameterReports(b.parameters, t.parameters, p, loc, config, c))
    || (exists r :: r in b.responses && ResponseReports(r, Get(t.responses, r.key), loc, config, c))
    || BodyReports(ContentOf(b.requestBody), ContentOf(t.requestBody), loc, config, c)
  }

  /** A method is gone, or its operations report. */
  ghost predicate MethodReports(b: Option<Operation>, t: Option<Operation>, loc: Location, config: Config, c: Change) {
    b.Some? &&
      if t.None? then c == Change(Breaking, loc, MethodRemoved) && "removed_method" !in config.ignoreRules
      else OperationReports(b.value, t.value, loc, config, c)
  }

  ghost predicate SomeMethodReports(b: PathItem, t: PathItem, loc: Location, config: Config, c: Change) {
    || MethodReports(b.get, t.get, loc + ["get"], config, c)
    || MethodReports(b.post, t.post, loc + ["post"], config, c)
    || MethodReports(b.put, t.put, loc + ["put"], config, c)
    || MethodReports(b.delete, t.delete, loc + ["delete"], config, c)
    || MethodReports(b.patch, t.patch, loc + ["patch"], config, c)
  }

  /** A path is gone, or one of its five compared methods reports. */
  ghost predicate PathReports(b: Entry<string, ReferenceOr<PathItem>>, t: Option<ReferenceOr<PathItem>>, config: Config, c: Change) {
    var here := ["paths", b.key];
    if t.None? then c == Change(Breaking, here, EndpointRemoved) && "removed_endpoint" !in config.ignoreRules
    else b.value.Item? && t.value.Item? && SomeMethodReports(b.value.item, t.value.item, here, config, c)
  }

  ghost predicate ContentReports(b: Content, t: Content, loc: Location, perMedia: bool, config: Config, c: Change) {
    if perMedia then ResponseContentReports(b, t, loc, config, c) else BodyContentReports(b, t, loc, config, c)
  }

  lemma {:induction false} ContentMembers(b: Content, t: Content, loc: Location, perMedia: bool, config: Config, c: Change)
    requires forall m :: m in b ==> SpecLaws.SlotWellFormed(m.value)
    ensures c in ContentFindings(b, t, loc, perMedia, config) <==> ContentReports(b, t, loc, perMedia, config, c)
  {
    if b != [] {
      var n := |b| - 1;
      DiffPolicy.SplitLast(b);
      ContentMembers(b[..n], t, loc, perMedia, config, c);
      MediaMembers(b[n].value, Get(t, b[n].key), MediaLocation(loc, b[n].key, perMedia), config, c);
      ContentReportsLast(b, t, loc, perMedia, config, c);
    }
  }

  lemma ContentReportsLast(b: Content, t: Content, loc: Location, perMedia: bool, config: Config, c: Change)
    requires b != []
    ensures var n := |b| - 1; ContentReports(b, t, loc, perMedia, config, c) <==>
      ContentReports(b[..n], t, loc, perMedia, config, c)
      || MediaReports(b[n].value, Get(t, b[n].key), MediaLocation(loc, b[n].key, perMedia), config, c)
  {
    DiffPolicy.SplitLast(b);
  }

  lemma MediaMembers(b: Option<ReferenceOr<Schema>>, t: Option<Option<ReferenceOr<Schema>>>, loc: Location, config: Config, c: Change)
    requires SpecLaws.SlotWellFormed(b)
    ensures c in MediaFindings(b, t, loc, config) <==> MediaReports(b, t, loc, config, c)
  {
    if b.Some? && b.value.Item? && t.Some? && t.value.Some? && t.value.value.Item? {
      DiffMembers(b.value.item, t.value.value.item, loc, config, c);
    }
  }

  lemma ResponseMembers(b: Entry<StatusCode, ReferenceOr<Content>>, t: Option<ReferenceOr<Content>>, loc: Location, config: Config, c: Change)
    requires SpecLaws.ContentWellFormed(b.value)
    ensures c in ResponseFinding(b, t, loc, config) <==> ResponseReports(b, t, loc, config, c)
  {
    if b.value.Item? && t.Some? && t.value.Item? {
      ContentMembers(b.value.item, t.value.item, loc + ["responses", StatusText(b.key)], true, config, c);
    }
  }

  ghost predicate SomeResponseReports(b: IndexMap<StatusCode, ReferenceOr<Content>>, t: IndexMap<StatusCode, ReferenceOr<Content>>,
                                      loc: Location, config: Config, c: Change) {
    exists r :: r in b && ResponseReports(r, Get(t, r.key), loc, config, c)
  }

  lemma {:induction false} ResponsesMembers(b: IndexMap<StatusCode, ReferenceOr<Content>>, t: IndexMap<StatusCode, ReferenceOr<Content>>,
                                            loc: Location, config: Config, c: Change)
    requires forall r :: r in b ==> SpecLaws.ContentWellFormed(r.value)
    ensures c in ResponseFindings(b, t, loc, config) <==> SomeResponseReports(b, t, loc, config, c)
  {
    if b != [] {
      var n := |b| - 1;
      DiffPolicy.SplitLast(b);
      ResponsesMembers(b[..n], t, loc, config, c);
      ResponseMembers(b[n], Get(t, b[n].key), loc, config, c);
      assert SomeResponseReports(b, t, loc, config, c) <==>
        SomeResponseReports(b[..n], t, loc, config, c) || ResponseReports(b[n], Get(t, b[n].key), loc, config, c);
    }
  }

  lemma RemovedMembers(b: seq<ReferenceOr<Parameter>>, t: seq<ReferenceOr<Parameter>>, loc: Location, config: Config, c: Change)
    ensures var bm, tm := ParameterMap(b), ParameterMap(t);
      c in RemovedParameters(bm, tm, bm.Keys, loc, config) <==> exists p :: RemovalReported(b, t, p, loc, config, c)
  {
    var bm, tm := ParameterMap(b), ParameterMap(t);
    if c in RemovedParameters(bm, tm, bm.Keys, loc, config) {
      var name :| name in bm && IsRemoved(bm, tm, name, config) && c == RemovedParameter(bm[name], loc);
      LastDeclarationWins(b, name);
      MapHoldsLast(b, bm[name]);
      MapHoldsLast(t, bm[name]);
      assert RemovalReported(b, t, bm[name], loc, config, c);
    }
    if p :| RemovalReported(b, t, p, loc, config, c) {
      MapHoldsLast(b, p);
      MapHoldsLast(t, p);
      assert IsRemoved(bm, tm, p.name, config) && c == RemovedParameter(bm[p.name], loc);
    }
  }

  lemma RequiredMembers(b: seq<ReferenceOr<Parameter>>, t: seq<ReferenceOr<Parameter>>, loc: Location, config: Config, c: Change)
    ensures var bm, tm := ParameterMap(b), ParameterMap(t);
      c in RequiredParameters(bm, tm, tm.Keys, loc, config) <==>
        exists p :: NewlyRequiredReported(b, t, p, loc, config, c) || AdditionReported(b, t, p, loc, config, c)
  {
    var bm, tm := ParameterMap(b), ParameterMap(t);
    if c in RequiredParameters(bm, tm, tm.Keys, loc, config) {
      var name :| name in tm && IsNewlyRequired(bm, tm, name, config) && c == RequiredParameter(tm[name], name in bm, loc);
      LastDeclarationWins(t, name);
      RequirementIs(b, t, tm[name], loc, config, c);
    }
    if p :| NewlyRequiredReported(b, t, p, loc, config, c) || AdditionReported(b, t, p, loc, config, c) {
      RequirementIs(b, t, p, loc, config, c);
      assert IsNewlyRequired(bm, tm, p.name, config) && c == RequiredParameter(tm[p.name], p.name in bm, loc);
    }
  }

  lemma RequirementIs(b: seq<ReferenceOr<Parameter>>, t: seq<ReferenceOr<Parameter>>, p: Parameter, loc: Location, config: Config, c: Change)
    ensures var bm, tm := ParameterMap(b), ParameterMap(t);
      NewlyRequiredReported(b, t, p, loc, config, c) || AdditionReported(b, t, p, loc, config, c) <==>
        p.name in tm && tm[p.name] == p && IsNewlyRequired(bm, tm, p.name, config) && c == RequiredParameter(p, p.name in bm, loc)
  {
    var bm := ParameterMap(b);
    MapHoldsLast(t, p);
    MapHoldsLast(b, p);
    LastDeclarationWins(b, p.name);
    if p.name in bm { MapHoldsLast(b, bm[p.name]); }
    if q :| LastIs(b, q) && q.name == p.name { MapHoldsLast(b, q); }
  }

  lemma ParameterMembers(b: seq<ReferenceOr<Parameter>>, t: seq<ReferenceOr<Parameter>>, loc: Location, config: Config, c: Change)
    ensures c in ParameterFindings(b, t, loc, config) <==> exists p :: ParameterReports(b, t, p, loc, config, c)
  {
    var bm, tm := ParameterMap(b), ParameterMap(t);
    var removed, required := RemovedParameters(bm, tm, bm.Keys, loc, config), RequiredParameters(bm, tm, tm.Keys, loc, config);
    assert c in multiset(removed) + multiset(required) <==> c in removed || c in required;
    RemovedMembers(b, t, loc, config, c);
    RequiredMembers(b, t, loc, config, c);
    if p :| RemovalReported(b, t, p, loc, config, c) { assert ParameterReports(b, t, p, loc, config, c); }
    if p :| NewlyRequiredReported(b, t, p, loc, config, c) || AdditionReported(b, t, p, loc, config, c) { assert ParameterReports(b, t, p, loc, config, c); }
  }

  /** Which of the two requirement findings is reported, under every configuration that does not ignore
      the rule: both when the last declaration of the name in the target is of the kind and requires it,
      one if the last declaration in the base is optional, the other if the base does not declare it. */
  lemma RequirementFindingsExactly(b: seq<ReferenceOr<Parameter>>, t: seq<ReferenceOr<Parameter>>, kind: ParameterKind, name: string,
                                   loc: Location, config: Config)
    requires "new_required_field" !in config.ignoreRules
    ensures Change(Breaking, loc + ["parameters", KindText(kind), name], ParameterMadeRequired(kind, name)) in ParameterFindings(b, t, loc, config) <==>
      (exists p :: LastIs(t, p) && p.kind == kind && p.name == name && p.required) && exists q :: LastIs(b, q) && q.name == name && !q.required
    ensures Change(Breaking, loc + ["parameters", KindText(kind), name], RequiredParameterAdded(kind, name)) in ParameterFindings(b, t, loc, config) <==>
      (exists p :: LastIs(t, p) && p.kind == kind && p.name == name && p.required) && Undeclared(b, name)
  {
    var made := Change(Breaking, loc + ["parameters", KindText(kind), name], ParameterMadeRequired(kind, name));
    var added := Change(Breaking, loc + ["parameters", KindText(kind), name], RequiredParameterAdded(kind, name));
    ParameterMembers(b, t, loc, config, made);
    ParameterMembers(b, t, loc, config, added);
    if p :| LastIs(t, p) && p.kind == kind && p.name == name && p.required {
      if exists q :: LastIs(b, q) && q.name == name && !q.required { assert ParameterReports(b, t, p, loc, config, made); }
      if Undeclared(b, name) { assert ParameterReports(b, t, p, loc, config, added); }
    }
  }

  lemma BodyMembers(b: Option<ReferenceOr<Content>>, t: Option<ReferenceOr<Content>>, loc: Location, config: Config, c: Change)
    requires b.Some? ==> SpecLaws.ContentWellFormed(b.value)
    ensures c in RequestFindings(b, t, loc, config) <==> BodyReports(b, t, loc, config, c)
  {
    if b.Some? && b.value.Item? && t.Some? && t.value.Item? {
      ContentMembers(b.value.item, t.value.item, loc + ["requestBody"], false, config, c);
    }
  }

  lemma MethodMembers(b: Option<Operation>, t: Option<Operation>, loc: Location, config: Config, c: Change)
    requires SpecLaws.OperationWellFormed(b)
    ensures c in MethodFindings(b, t, loc, config) <==> MethodReports(b, t, loc, config, c)
  {
    if b.Some? && t.Some? {
      ParameterMembers(b.value.parameters, t.value.parameters, loc, config, c);
      ResponsesMembers(b.value.responses, t.value.responses, loc, config, c);
      BodyMembers(ContentOf(b.value.requestBody), ContentOf(t.value.requestBody), loc, config, c);
      assert SomeResponseReports(b.value.responses, t.value.responses, loc, config, c) <==>
        exists r :: r in b.value.responses && ResponseReports(r, Get(t.value.responses, r.key), loc, config, c);
    }
  }

  lemma MethodMembersAt(b: PathItem, t: PathItem, k: nat, loc: Location, config: Config, c: Change)
    requires k < 5 && SpecLaws.ItemWellFormed(b)
    ensures c in SpecLaws.MethodFindingsAt(b, t, k, loc, config) <==>
      MethodReports(Operations(b)[k].1, Operations(t)[k].1, loc + [Operations(b)[k].0], config, c)
  {
    assert SpecLaws.MethodWellFormed(b, k);
    MethodMembers(Operations(b)[k].1, Operations(t)[k].1, loc + [Operations(b)[k].0], config, c);
  }

  lemma ItemMembers(b: PathItem, t: PathItem, loc: Location, config: Config, c: Change)
    requires SpecLaws.ItemWellFormed(b)
    ensures c in ItemFindings(b, t, 5, loc, config) <==> SomeMethodReports(b, t, loc, config, c)
  {
    SpecLaws.ItemUnfolds(b, t, loc, config);
    MethodMembersAt(b, t, 0, loc, config, c);
    MethodMembersAt(b, t, 1, loc, config, c);
    MethodMembersAt(b, t, 2, loc, config, c);
    MethodMembersAt(b, t, 3, loc, config, c);
    MethodMembersAt(b, t, 4, loc, config, c);
  }

  lemma PathMembers(b: Entry<string, ReferenceOr<PathItem>>, t: Option<ReferenceOr<PathItem>>, config: Config, c: Change)
    requires b.value.Item? ==> SpecLaws.ItemWellFormed(b.value.item)
    ensures c in PathFindings(b, t, config) <==> PathReports(b, t, config, c)
  {
    if b.value.Item? && t.Some? && t.value.Item? {
      ItemMembers(b.value.item, t.value.item, ["paths", b.key], config, c);
    }
  }

  ghost predicate SomePathReports(b: IndexMap<string, ReferenceOr<PathItem>>, t: IndexMap<string, ReferenceOr<PathItem>>, config: Config, c: Change) {
    exists p :: p in b && PathReports(p, Get(t, p.key), config, c)
  }

  lemma {:induction false} PathsMembers(b: IndexMap<string, ReferenceOr<PathItem>>, t: IndexMap<string, ReferenceOr<PathItem>>, config: Config, c: Change)
    requires forall p :: p in b && p.value.Item? ==> SpecLaws.ItemWellFormed(p.value.item)
    ensures c in PathsFindings(b, t, config) <==> SomePathReports(b, t, config, c)
  {
    if b != [] {
      var n := |b| - 1;
      DiffPolicy.SplitLast(b);
      PathsMembers(b[..n], t, config, c);
      PathMembers(b[n], Get(t, b[n].key), config, c);
      assert SomePathReports(b, t, config, c) <==> SomePathReports(b[..n], t, config, c) || PathReports(b[n], Get(t, b[n].key), config, c);
    }
  }

  /** A finding is reported if and only if some path of the base is gone, or one of its methods is, or
      a parameter, a response code, or a pair of schemas below one of its bodies reports it. */
  lemma DocumentMembers(base: Document, target: Document, config: Config, c: Change)
    requires SpecLaws.DocumentWellFormed(base)
    ensures c in DocumentFindings(base, target, config) <==>
      exists p :: p in base.paths && PathReports(p, Get(target.paths, p.key), config, c)
  {
    PathsMembers(base.paths, target.paths, config, c);
    assert SomePathReports(base.paths, target.paths, config, c) <==>
      exists p :: p in base.paths && PathReports(p, Get(target.paths, p.key), config, c);
  }

  // ----- Removed methods

  /** Both documents have the path inline, the base with the operation and the target without. */
  ghost predicate Dropped(base: Document, target: Document, path: string, of: PathItem -> Option<Operation>) {
    var b, t := Get(base.paths, path), Get(target.paths, path);
    b.Some? && b.value.Item? && t.Some? && t.value.Item? && of(b.value.item).Some? && of(t.value.item).None?
  }

  lemma OnlyMethodsAreRemoved(b: Operation, t: Operation, loc: Location, config: Config, c: Change)
    requires OperationReports(b, t, loc, config, c)
    ensures !c.detail.MethodRemoved?
  {
    if r :| r in b.responses && ResponseReports(r, Get(t.responses, r.key), loc, config, c) {
      var u := Get(t.responses, r.key);
      if u.Some? {
        var m :| m in r.value.item && MediaReports(m.value, Get(u.value.item, m.key), loc + ["responses", StatusText(r.key)] + ["content", m.key], config, c);
        SchemasReportNoMethod(m.value, Get(u.value.item, m.key), loc + ["responses", StatusText(r.key)] + ["content", m.key], config, c);
      }
    }
    if BodyReports(ContentOf(b.requestBody), ContentOf(t.requestBody), loc, config, c) {
      var bc, tc := ContentOf(b.requestBody).value.item, ContentOf(t.requestBody).value.item;
      var m :| m in bc && MediaReports(m.value, Get(tc, m.key), loc + ["requestBody"], config, c);
      SchemasReportNoMethod(m.value, Get(tc, m.key), loc + ["requestBody"], config, c);
    }
  }

  lemma SchemasReportNoMethod(b: Option<ReferenceOr<Schema>>, t: Option<Option<ReferenceOr<Schema>>>, loc: Location, config: Config, c: Change)
    requires MediaReports(b, t, loc, config, c)
    ensures !c.detail.MethodRemoved?
  {
    var path :| ReportedAt(b.value.item, t.value.value.item, path, loc, config, c);
    var pair := PairAt(b.value.item, t.value.value.item, path);
    LocalMembers(pair.value.0, pair.value.1, loc + path, config, c);
  }

  lemma MethodRemovedHere(b: Option<Operation>, t: Option<Operation>, loc: Location, config: Config, c: Change)
    requires c.detail.MethodRemoved?
    ensures MethodReports(b, t, loc, config, c) <==>
      b.Some? && t.None? && c == Change(Breaking, loc, MethodRemoved) && "removed_method" !in config.ignoreRules
  {
    if b.Some? && t.Some? && OperationReports(b.value, t.value, loc, config, c) { OnlyMethodsAreRemoved(b.value, t.value, loc, config, c); }
  }

  lemma ItemRemovals(b: PathItem, t: PathItem, here: Location, name: string, config: Config)
    requires "removed_method" !in config.ignoreRules
    ensures SomeMethodReports(b, t, here, config, Change(Breaking, here + [name], MethodRemoved)) <==>
      || (name == "get" && b.get.Some? && t.get.None?)
      || (name == "post" && b.post.Some? && t.post.None?)
      || (name == "put" && b.put.Some? && t.put.None?)
      || (name == "delete" && b.delete.Some? && t.delete.None?)
      || (name == "patch" && b.patch.Some? && t.patch.None?)
  {
    var c := Change(Breaking, here + [name], MethodRemoved);
    assert forall other: string :: here + [name] == here + [other] ==> (here + [name])[|here|] == (here + [other])[|here|];
    MethodRemovedHere(b.get, t.get, here + ["get"], config, c);
    MethodRemovedHere(b.post, t.post, here + ["post"], config, c);
    MethodRemovedHere(b.put, t.put, here + ["put"], config, c);
    MethodRemovedHere(b.delete, t.delete, here + ["delete"], config, c);
    MethodRemovedHere(b.patch, t.patch, here + ["patch"], config, c);
  }

  lemma RemovalAtPath(base: Document, target: Document, path: string, name: string, config: Config)
    requires SpecLaws.DocumentWellFormed(base) && "removed_method" !in config.ignoreRules
    ensures Change(Breaking, ["paths", path, name], MethodRemoved) in DocumentFindings(base, target, config) <==>
      var b, t := Get(base.paths, path), Get(target.paths, path);
      && b.Some? && b.value.Item? && t.Some? && t.value.Item?
      && SomeMethodReports(b.value.item, t.value.item, ["paths", path], config, Change(Breaking, ["paths", path] + [name], MethodRemoved))
  {
    var c := Change(Breaking, ["paths", path, name], MethodRemoved);
    assert ["paths", path] + [name] == ["paths", path, name];
    DocumentMembers(base, target, config, c);
    var b := Get(base.paths, path);
    if b.Some? {
      var i :| 0 <= i < |base.paths| && base.paths[i].key == path && base.paths[i].value == b.value;
      assert base.paths[i] in base.paths && base.paths[i] == Entry(path, b.value);
    }
    if p :| p in base.paths && PathReports(p, Get(target.paths, p.key), config, c) {
      ReportedUnderPath(p, Get(target.paths, p.key), config, c);
      SpecLaws.GetOwn(base.paths, p);
    }
  }

  /** A removed method is reported under its own path. */
  lemma ReportedUnderPath(p: Entry<string, ReferenceOr<PathItem>>, t: Option<ReferenceOr<PathItem>>, config: Config, c: Change)
    requires PathReports(p, t, config, c) && c.detail.MethodRemoved?
    ensures |c.path| == 3 && c.path[1] == p.key && t.Some?
  {
    var here := ["paths", p.key];
    var b, u := p.value.item, t.value.item;
    MethodRemovedHere(b.get, u.get, here + ["get"], config, c);
    MethodRemovedHere(b.post, u.post, here + ["post"], config, c);
    MethodRemovedHere(b.put, u.put, here + ["put"], config, c);
    MethodRemovedHere(b.delete, u.delete, here + ["delete"], config, c);
    MethodRemovedHere(b.patch, u.patch, here + ["patch"], config, c);
  }

  /** Each of the five methods is reported as removed, under its own name, exactly when it is. */
  lemma RemovedMethodsExactly(base: Document, target: Document, path: string, config: Config)
    requires SpecLaws.DocumentWellFormed(base) && "removed_method" !in config.ignoreRules
    ensures Change(Breaking, ["paths", path, "get"], MethodRemoved) in DocumentFindings(base, target, config) <==>
      Dropped(base, target, path, (item: PathItem) => item.get)
    ensures Change(Breaking, ["paths", path, "post"], MethodRemoved) in DocumentFindings(base, target, config) <==>
      Dropped(base, target, path, (item: PathItem) => item.post)
    ensures Change(Breaking, ["paths", path, "put"], MethodRemoved) in DocumentFindings(base, target, config) <==>
      Dropped(base, target, path, (item: PathItem) => item.put)
    ensures Change(Breaking, ["paths", path, "delete"], MethodRemoved) in DocumentFindings(base, target, config) <==>
      Dropped(base, target, path, (item: PathItem) => item.delete)
    ensures Change(Breaking, ["paths", path, "patch"], MethodRemoved) in DocumentFindings(base, target, config) <==>
      Dropped(base, target, path, (item: PathItem) => item.patch)
  {
    RemovedMethod(base, target, path, "get", config);
    RemovedMethod(base, target, path, "post", config);
    RemovedMethod(base, target, path, "put", config);
    RemovedMethod(base, target, path, "delete", config);
    RemovedMethod(base, target, path, "patch", config);
  }

  lemma RemovedMethod(base: Document, target: Document, path: string, name: string, config: Config)
    requires SpecLaws.DocumentWellFormed(base) && "removed_method" !in config.ignoreRules
    ensures Change(Breaking, ["paths", path, name], MethodRemoved) in DocumentFindings(base, target, config) <==>
      || (name == "get" && Dropped(base, target, path, (item: PathItem) => item.get))
      || (name == "post" && Dropped(base, target, path, (item: PathItem) => item.post))
      || (name == "put" && Dropped(base, target, path, (item: PathItem) => item.put))
      || (name == "delete" && Dropped(base, target, path, (item: PathItem) => item.delete))
      || (name == "patch" && Dropped(base, target, path, (item: PathItem) => item.patch))
  {
    RemovalAtPath(base, target, path, name, config);
    var b, t := Get(base.paths, path), Get(target.paths, path);
    if b.Some? && b.value.Item? && t.Some? && t.value.Item? {
      ItemRemovals(b.value.item, t.value.item, ["paths", path], name, config);
    }
  }
}
