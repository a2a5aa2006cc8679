/** Laws of the whole comparison of two documents: when its report is empty, how it reacts to the
    rule configuration and to safe additions, and what an empty report promises about bodies. */
module SpecLaws {
  import opened Prelude
  import opened OpenApi
  import opened SpecDiff
  import opened DiffPolicy
  import DiffLaws
  import JsonSchema
  import Compatibility

  // ----- Suppression is filtering

  /** `m` is `full` without the findings the configuration silences, multiplicities kept. */
  ghost predicate Filters(m: multiset<Change>, full: multiset<Change>, config: Config) {
    forall c :: m[c] == if Suppresses(config, c.detail) then 0 else full[c]
  }

  lemma FiltersSum(m1: multiset<Change>, f1: multiset<Change>, m2: multiset<Change>, f2: multiset<Change>, config: Config)
    requires Filters(m1, f1, config) && Filters(m2, f2, config)
    ensures Filters(m1 + m2, f1 + f2, config)
  {
  }

  lemma KeptFilters(kept: seq<Change>, changes: seq<Change>, config: Config)
    requires kept == Kept(config, changes)
    ensures Filters(multiset(kept), multiset(changes), config)
  {
    forall c
      ensures multiset(kept)[c] == if Suppresses(config, c.detail) then 0 else multiset(changes)[c]
    {
      KeptCount(config, changes, c);
    }
  }

  lemma {:induction false} ContentKept(b: Content, t: Content, loc: Location, perMedia: bool, config: Config)
    ensures ContentFindings(b, t, loc, perMedia, config) == Kept(config, ContentFindings(b, t, loc, perMedia, DEFAULT_CONFIG))
  {
    if b != [] {
      var n := |b| - 1;
      var bs, ts, here := b[n].value, Get(t, b[n].key), MediaLocation(loc, b[n].key, perMedia);
      ContentKept(b[..n], t, loc, perMedia, config);
      MediaKept(bs, ts, here, config);
      KeptAppend(config, ContentFindings(b[..n], t, loc, perMedia, DEFAULT_CONFIG), MediaFindings(bs, ts, here, DEFAULT_CONFIG));
    }
  }

  lemma MediaKept(b: Option<ReferenceOr<Schema>>, t: Option<Option<ReferenceOr<Schema>>>, loc: Location, config: Config)
    ensures MediaFindings(b, t, loc, config) == Kept(config, MediaFindings(b, t, loc, DEFAULT_CONFIG))
  {
    if b.Some? && b.value.Item? && t.Some? && t.value.Some? && t.value.value.Item? {
      DiffKept(b.value.item, t.value.value.item, loc, config);
    }
  }

  lemma ResponseKept(b: Entry<StatusCode, ReferenceOr<Content>>, t: Option<ReferenceOr<Content>>, loc: Location, config: Config)
    ensures ResponseFinding(b, t, loc, config) == Kept(config, ResponseFinding(b, t, loc, DEFAULT_CONFIG))
  {
    if b.value.Item? && t.Some? && t.value.Item? {
      ContentKept(b.value.item, t.value.item, loc + ["responses", StatusText(b.key)], true, config);
    }
  }

  lemma {:induction false} ResponsesKept(b: IndexMap<StatusCode, ReferenceOr<Content>>, t: IndexMap<StatusCode, ReferenceOr<Content>>,
                                         loc: Location, config: Config)
    ensures ResponseFindings(b, t, loc, config) == Kept(config, ResponseFindings(b, t, loc, DEFAULT_CONFIG))
  {
    if b != [] {
      var n := |b| - 1;
      ResponsesKept(b[..n], t, loc, config);
      ResponseKept(b[n], Get(t, b[n].key), loc, config);
      KeptAppend(config, ResponseFindings(b[..n], t, loc, DEFAULT_CONFIG), ResponseFinding(b[n], Get(t, b[n].key), loc, DEFAULT_CONFIG));
    }
  }

  lemma RequestKept(b: Option<ReferenceOr<Content>>, t: Option<ReferenceOr<Content>>, loc: Location, config: Config)
    ensures RequestFindings(b, t, loc, config) == Kept(config, RequestFindings(b, t, loc, DEFAULT_CONFIG))
  {
    if b.Some? && b.value.Item? && t.Some? && t.value.Item? {
      ContentKept(b.value.item, t.value.item, loc + ["requestBody"], false, config);
    }
  }

  lemma ParametersFilter(b: seq<ReferenceOr<Parameter>>, t: seq<ReferenceOr<Parameter>>, loc: Location, config: Config)
    ensures Filters(ParameterFindings(b, t, loc, config), ParameterFindings(b, t, loc, DEFAULT_CONFIG), config)
  {
    var bm, tm := ParameterMap(b), ParameterMap(t);
    RemovedFilter(bm, tm, loc, config);
    RequiredFilter(bm, tm, loc, config);
    FiltersSum(multiset(RemovedParameters(bm, tm, bm.Keys, loc, config)), multiset(RemovedParameters(bm, tm, bm.Keys, loc, DEFAULT_CONFIG)),
               multiset(RequiredParameters(bm, tm, tm.Keys, loc, config)), multiset(RequiredParameters(bm, tm, tm.Keys, loc, DEFAULT_CONFIG)), config);
  }

  lemma RemovedFilter(bm: map<string, Parameter>, tm: map<string, Parameter>, loc: Location, config: Config)
    ensures Filters(multiset(RemovedParameters(bm, tm, bm.Keys, loc, config)), multiset(RemovedParameters(bm, tm, bm.Keys, loc, DEFAULT_CONFIG)), config)
  {
    var kept, full := RemovedParameters(bm, tm, bm.Keys, loc, config), RemovedParameters(bm, tm, bm.Keys, loc, DEFAULT_CONFIG);
    assert forall c :: c in kept <==> c in full && !Suppresses(config, c.detail) by {
      assert forall name :: IsRemoved(bm, tm, name, config) <==>
        IsRemoved(bm, tm, name, DEFAULT_CONFIG) && !Suppresses(config, RemovedParameter(bm[name], loc).detail);
    }
  }

  lemma RequiredFilter(bm: map<string, Parameter>, tm: map<string, Parameter>, loc: Location, config: Config)
    ensures Filters(multiset(RequiredParameters(bm, tm, tm.Keys, loc, config)), multiset(RequiredParameters(bm, tm, tm.Keys, loc, DEFAULT_CONFIG)), config)
  {
    var kept, full := RequiredParameters(bm, tm, tm.Keys, loc, config), RequiredParameters(bm, tm, tm.Keys, loc, DEFAULT_CONFIG);
    assert forall c :: c in kept <==> c in full && !Suppresses(config, c.detail) by {
      assert forall name :: IsNewlyRequired(bm, tm, name, config) <==>
        IsNewlyRequired(bm, tm, name, DEFAULT_CONFIG) && !Suppresses(config, RequiredParameter(tm[name], name in bm, loc).detail);
    }
  }

  lemma OperationFilters(b: Operation, t: Operation, loc: Location, config: Config)
    ensures Filters(OperationFindings(b, t, loc, config), OperationFindings(b, t, loc, DEFAULT_CONFIG), config)
  {
    ParametersFilter(b.parameters, t.parameters, loc, config);
    ResponsesKept(b.responses, t.responses, loc, config);
    RequestKept(ContentOf(b.requestBody), ContentOf(t.requestBody), loc, config);
    var p, pd := ParameterFindings(b.parameters, t.parameters, loc, config), ParameterFindings(b.parameters, t.parameters, loc, DEFAULT_CONFIG);
    var r, rd := ResponseFindings(b.responses, t.responses, loc, config), ResponseFindings(b.responses, t.responses, loc, DEFAULT_CONFIG);
    var q, qd := RequestFindings(ContentOf(b.requestBody), ContentOf(t.requestBody), loc, config), RequestFindings(ContentOf(b.requestBody), ContentOf(t.requestBody), loc, DEFAULT_CONFIG);
    KeptFilters(r, rd, config);
    KeptFilters(q, qd, config);
    FiltersSum(p, pd, multiset(r), multiset(rd), config);
    FiltersSum(p + multiset(r), pd + multiset(rd), multiset(q), multiset(qd), config);
  }

  lemma MethodFilters(b: Option<Operation>, t: Option<Operation>, loc: Location, config: Config)
    ensures Filters(MethodFindings(b, t, loc, config), MethodFindings(b, t, loc, DEFAULT_CONFIG), config)
  {
    if b.Some? && t.Some? { OperationFilters(b.value, t.value, loc, config); }
  }

  lemma MethodFiltersAt(b: PathItem, t: PathItem, k: nat, loc: Location, config: Config)
    requires k < 5
    ensures Filters(MethodFindingsAt(b, t, k, loc, config), MethodFindingsAt(b, t, k, loc, DEFAULT_CONFIG), config)
  {
    MethodFilters(Operations(b)[k].1, Operations(t)[k].1, loc + [Operations(b)[k].0], config);
  }

  lemma ItemFilters(b: PathItem, t: PathItem, loc: Location, config: Config)
    ensures Filters(ItemFindings(b, t, 5, loc, config), ItemFindings(b, t, 5, loc, DEFAULT_CONFIG), config)
  {
    ItemUnfolds(b, t, loc, config);
    ItemUnfolds(b, t, loc, DEFAULT_CONFIG);
    MethodFiltersAt(b, t, 0, loc, config);
    MethodFiltersAt(b, t, 1, loc, config);
    MethodFiltersAt(b, t, 2, loc, config);
    MethodFiltersAt(b, t, 3, loc, config);
    MethodFiltersAt(b, t, 4, loc, config);
    FiveFilter(MethodFindingsAt(b, t, 0, loc, config), MethodFindingsAt(b, t, 0, loc, DEFAULT_CONFIG),
               MethodFindingsAt(b, t, 1, loc, config), MethodFindingsAt(b, t, 1, loc, DEFAULT_CONFIG),
               MethodFindingsAt(b, t, 2, loc, config), MethodFindingsAt(b, t, 2, loc, DEFAULT_CONFIG),
               MethodFindingsAt(b, t, 3, loc, config), MethodFindingsAt(b, t, 3, loc, DEFAULT_CONFIG),
               MethodFindingsAt(b, t, 4, loc, config), MethodFindingsAt(b, t, 4, loc, DEFAULT_CONFIG), config);
  }

  lemma FiveFilter(a: multiset<Change>, af: multiset<Change>, b: multiset<Change>, bf: multiset<Change>,
                   c: multiset<Change>, cf: multiset<Change>, d: multiset<Change>, df: multiset<Change>,
                   e: multiset<Change>, ef: multiset<Change>, config: Config)
    requires Filters(a, af, config) && Filters(b, bf, config) && Filters(c, cf, config) && Filters(d, df, config) && Filters(e, ef, config)
    ensures Filters(a + b + c + d + e, af + bf + cf + df + ef, config)
  {
    FiltersSum(a, af, b, bf, config);
    FiltersSum(a + b, af + bf, c, cf, config);
    FiltersSum(a + b + c, af + bf + cf, d, df, config);
    FiltersSum(a + b + c + d, af + bf + cf + df, e, ef, config);
  }

  lemma PathFilters(b: Entry<string, ReferenceOr<PathItem>>, t: Option<ReferenceOr<PathItem>>, config: Config)
    ensures Filters(PathFindings(b, t, config), PathFindings(b, t, DEFAULT_CONFIG), config)
  {
    if b.value.Item? && t.Some? && t.value.Item? { ItemFilters(b.value.item, t.value.item, ["paths", b.key], config); }
  }

  lemma {:induction false} PathsFilter(b: IndexMap<string, ReferenceOr<PathItem>>, t: IndexMap<string, ReferenceOr<PathItem>>, config: Config)
    ensures Filters(PathsFindings(b, t, config), PathsFindings(b, t, DEFAULT_CONFIG), config)
  {
    if b != [] {
      var n := |b| - 1;
      PathsFilter(b[..n], t, config);
      PathFilters(b[n], Get(t, b[n].key), config);
      FiltersSum(PathsFindings(b[..n], t, config), PathsFindings(b[..n], t, DEFAULT_CONFIG),
                 PathFindings(b[n], Get(t, b[n].key), config), PathFindings(b[n], Get(t, b[n].key), DEFAULT_CONFIG), config);
    }
  }

  /** Suppression is exactly filtering, for every configuration and every pair of documents. */
  lemma SuppressionIsFiltering(base: Document, target: Document, config: Config)
    ensures Filters(DocumentFindings(base, target, config), DocumentFindings(base, target, DEFAULT_CONFIG), config)
  {
    PathsFilter(base.paths, target.paths, config);
  }

  /** Hence a configuration that silences more never reports more. */
  lemma SilencingMoreReportsLess(base: Document, target: Document, weaker: Config, stronger: Config)
    requires forall d :: Suppresses(weaker, d) ==> Suppresses(stronger, d)
    ensures DocumentFindings(base, target, stronger) <= DocumentFindings(base, target, weaker)
  {
    SuppressionIsFiltering(base, target, weaker);
    SuppressionIsFiltering(base, target, stronger);
    var less, more := DocumentFindings(base, target, stronger), DocumentFindings(base, target, weaker);
    assert forall c :: less[c] <= more[c];
  }

  /** The two flags are shorthands: each is equivalent to ignoring its rule. */
  lemma CoercionFlagIsARule(base: Document, target: Document, c: Config)
    ensures DocumentFindings(base, target, c.(allowTypeCoercion := true)) ==
      DocumentFindings(base, target, c.(ignoreRules := c.ignoreRules + ["type_change"], allowTypeCoercion := false))
  {
    var flag, rule := c.(allowTypeCoercion := true), c.(ignoreRules := c.ignoreRules + ["type_change"], allowTypeCoercion := false);
    forall d
      ensures Suppresses(flag, d) <==> Suppresses(rule, d)
    {
      assert RuleTag(d) in rule.ignoreRules <==> RuleTag(d) in c.ignoreRules || RuleTag(d) == "type_change";
    }
    SameSilence(base, target, flag, rule);
  }

  lemma EnumFlagIsARule(base: Document, target: Document, c: Config)
    ensures DocumentFindings(base, target, c.(allowBreakingEnums := true)) ==
      DocumentFindings(base, target, c.(ignoreRules := c.ignoreRules + ["enum_removal"], allowBreakingEnums := false))
  {
    var flag, rule := c.(allowBreakingEnums := true), c.(ignoreRules := c.ignoreRules + ["enum_removal"], allowBreakingEnums := false);
    forall d
      ensures Suppresses(flag, d) <==> Suppresses(rule, d)
    {
      assert RuleTag(d) in rule.ignoreRules <==> RuleTag(d) in c.ignoreRules || RuleTag(d) == "enum_removal";
    }
    SameSilence(base, target, flag, rule);
  }

  lemma SameSilence(base: Document, target: Document, one: Config, other: Config)
    requires forall d :: Suppresses(one, d) <==> Suppresses(other, d)
    ensures DocumentFindings(base, target, one) == DocumentFindings(base, target, other)
  {
    SilencingMoreReportsLess(base, target, one, other);
    SilencingMoreReportsLess(base, target, other, one);
  }

  // ----- When the default report is empty

  ghost predicate SlotKeeps(b: Option<ReferenceOr<Schema>>, t: Option<Option<ReferenceOr<Schema>>>) {
    b.Some? && b.value.Item? && t.Some? && t.value.Some? && t.value.value.Item? ==>
      Keeps(b.value.item, t.value.value.item, DEFAULT_CONFIG)
  }

  ghost predicate ContentKeeps(b: Content, t: Content) {
    forall m :: m in b ==> SlotKeeps(m.value, Get(t, m.key))
  }

  ghost predicate ParametersKeep(b: seq<ReferenceOr<Parameter>>, t: seq<ReferenceOr<Parameter>>) {
    var bm, tm := ParameterMap(b), ParameterMap(t);
    && (forall name :: name in bm ==> name in tm)
    && (forall name :: name in tm && tm[name].required ==> name in bm && bm[name].required)
  }

  ghost predicate ResponseKeeps(b: Entry<StatusCode, ReferenceOr<Content>>, t: Option<ReferenceOr<Content>>) {
    t.Some? && (b.value.Item? && t.value.Item? ==> ContentKeeps(b.value.item, t.value.item))
  }

  ghost predicate BodyKeeps(b: Option<ReferenceOr<Content>>, t: Option<ReferenceOr<Content>>) {
    b.Some? && b.value.Item? && t.Some? && t.value.Item? ==> ContentKeeps(b.value.item, t.value.item)
  }

  ghost predicate MethodKeeps(b: Option<Operation>, t: Option<Operation>) {
    b.Some? ==>
      && t.Some?
      && ParametersKeep(b.value.parameters, t.value.parameters)
      && (forall r :: r in b.value.responses ==> ResponseKeeps(r, Get(t.value.responses, r.key)))
      && BodyKeeps(ContentOf(b.value.requestBody), ContentOf(t.value.requestBody))
  }

  ghost predicate PathKeeps(b: Entry<string, ReferenceOr<PathItem>>, t: Option<ReferenceOr<PathItem>>) {
    t.Some? && (b.value.Item? && t.value.Item? ==> MethodsKeep(b.value.item, t.value.item))
  }

  /** The target keeps every path, method, response code and parameter of the base, requires no
      parameter that the base does not require, and differs in no compared schema. */
  ghost predicate DocumentKeeps(base: Document, target: Document) {
    PathsKeep(base.paths, target.paths)
  }

  lemma SlotEmpty(b: Option<ReferenceOr<Schema>>, t: Option<Option<ReferenceOr<Schema>>>, loc: Location)
    ensures MediaFindings(b, t, loc, DEFAULT_CONFIG) == [] <==> SlotKeeps(b, t)
  {
    if b.Some? && b.value.Item? && t.Some? && t.value.Some? && t.value.value.Item? {
      EmptyDiffExactly(b.value.item, t.value.value.item, loc, DEFAULT_CONFIG);
    }
  }

  lemma {:induction false} ContentEmpty(b: Content, t: Content, loc: Location, perMedia: bool)
    ensures ContentFindings(b, t, loc, perMedia, DEFAULT_CONFIG) == [] <==> ContentKeeps(b, t)
  {
    if b != [] {
      ContentEmpty(b[..|b| - 1], t, loc, perMedia);
      ContentEmptyStep(b, t, loc, perMedia);
    }
  }

  lemma ContentEmptyStep(b: Content, t: Content, loc: Location, perMedia: bool)
    requires b != []
    requires ContentFindings(b[..|b| - 1], t, loc, perMedia, DEFAULT_CONFIG) == [] <==> ContentKeeps(b[..|b| - 1], t)
    ensures ContentFindings(b, t, loc, perMedia, DEFAULT_CONFIG) == [] <==> ContentKeeps(b, t)
  {
    var n := |b| - 1;
    SlotEmpty(b[n].value, Get(t, b[n].key), MediaLocation(loc, b[n].key, perMedia));
    SplitLast(b);
    assert ContentKeeps(b, t) <==> ContentKeeps(b[..n], t) && SlotKeeps(b[n].value, Get(t, b[n].key));
  }

  lemma ResponseEmpty(b: Entry<StatusCode, ReferenceOr<Content>>, t: Option<ReferenceOr<Content>>, loc: Location)
    ensures ResponseFinding(b, t, loc, DEFAULT_CONFIG) == [] <==> ResponseKeeps(b, t)
  {
    if b.value.Item? && t.Some? && t.value.Item? {
      ContentEmpty(b.value.item, t.value.item, loc + ["responses", StatusText(b.key)], true);
    }
  }

  lemma {:induction false} ResponsesEmpty(b: IndexMap<StatusCode, ReferenceOr<Content>>, t: IndexMap<StatusCode, ReferenceOr<Content>>, loc: Location)
    ensures ResponseFindings(b, t, loc, DEFAULT_CONFIG) == [] <==> forall r :: r in b ==> ResponseKeeps(r, Get(t, r.key))
  {
    if b != [] {
      var n := |b| - 1;
      ResponsesEmpty(b[..n], t, loc);
      ResponseEmpty(b[n], Get(t, b[n].key), loc);
      SplitLast(b);
      ResponseStep(b, n, t, loc, DEFAULT_CONFIG);
      assert b[..n + 1] == b;
    }
  }

  lemma ParametersEmpty(b: seq<ReferenceOr<Parameter>>, t: seq<ReferenceOr<Parameter>>, loc: Location)
    ensures ParameterFindings(b, t, loc, DEFAULT_CONFIG) == multiset{} <==> ParametersKeep(b, t)
  {
    var bm, tm := ParameterMap(b), ParameterMap(t);
    var removed, required := RemovedParameters(bm, tm, bm.Keys, loc, DEFAULT_CONFIG), RequiredParameters(bm, tm, tm.Keys, loc, DEFAULT_CONFIG);
    assert multiset(removed) + multiset(required) == multiset{} <==> removed == {} && required == {} by {
      if c :| c in removed { assert c in multiset(removed) + multiset(required); }
      if c :| c in required { assert c in multiset(removed) + multiset(required); }
    }
    if name :| name in bm && name !in tm {
      assert RemovedParameter(bm[name], loc) in removed;
    }
    if name :| name in tm && tm[name].required && (name in bm ==> !bm[name].required) {
      assert RequiredParameter(tm[name], name in bm, loc) in required;
    }
  }

  lemma MethodEmpty(b: Option<Operation>, t: Option<Operation>, loc: Location)
    ensures MethodFindings(b, t, loc, DEFAULT_CONFIG) == multiset{} <==> MethodKeeps(b, t)
  {
    if b.Some? && t.Some? {
      ParametersEmpty(b.value.parameters, t.value.parameters, loc);
      ResponsesEmpty(b.value.responses, t.value.responses, loc);
      RequestEmpty(ContentOf(b.value.requestBody), ContentOf(t.value.requestBody), loc);
      SumEmpty(ParameterFindings(b.value.parameters, t.value.parameters, loc, DEFAULT_CONFIG),
               ResponseFindings(b.value.responses, t.value.responses, loc, DEFAULT_CONFIG),
               RequestFindings(ContentOf(b.value.requestBody), ContentOf(t.value.requestBody), loc, DEFAULT_CONFIG));
    }
  }

  lemma RequestEmpty(b: Option<ReferenceOr<Content>>, t: Option<ReferenceOr<Content>>, loc: Location)
    ensures RequestFindings(b, t, loc, DEFAULT_CONFIG) == [] <==> BodyKeeps(b, t)
  {
    if b.Some? && b.value.Item? && t.Some? && t.value.Item? {
      ContentEmpty(b.value.item, t.value.item, loc + ["requestBody"], false);
    }
  }

  lemma UnionEmpty(m: multiset<Change>, n: multiset<Change>)
    ensures m + n == multiset{} <==> m == multiset{} && n == multiset{}
  {
    assert |m + n| == |m| + |n|;
  }

  lemma SumEmpty(m: multiset<Change>, a: seq<Change>, b: seq<Change>)
    ensures m + multiset(a) + multiset(b) == multiset{} <==> m == multiset{} && a == [] && b == []
  {
    assert |m + multiset(a) + multiset(b)| == |m| + |a| + |b|;
  }

  /** One of the five compared methods. */
  ghost predicate OperationKeeps(b: PathItem, t: PathItem, k: nat)
    requires k < 5
  {
    MethodKeeps(Operations(b)[k].1, Operations(t)[k].1)
  }

  ghost predicate MethodsKeep(b: PathItem, t: PathItem) {
    && MethodKeeps(b.get, t.get) && MethodKeeps(b.post, t.post) && MethodKeeps(b.put, t.put)
    && MethodKeeps(b.delete, t.delete) && MethodKeeps(b.patch, t.patch)
  }

  lemma MethodKept(b: PathItem, t: PathItem, k: nat)
    requires MethodsKeep(b, t) && k < 5
    ensures OperationKeeps(b, t, k)
  {
    assert k == 0 || k == 1 || k == 2 || k == 3 || k == 4;
  }

  ghost function MethodFindingsAt(b: PathItem, t: PathItem, k: nat, loc: Location, config: Config): multiset<Change>
    requires k < 5
  {
    MethodFindings(Operations(b)[k].1, Operations(t)[k].1, loc + [Operations(b)[k].0], config)
  }

  /** The findings of an item, method by method. */
  lemma ItemUnfolds(b: PathItem, t: PathItem, loc: Location, config: Config)
    ensures ItemFindings(b, t, 5, loc, config) ==
      MethodFindingsAt(b, t, 0, loc, config) + MethodFindingsAt(b, t, 1, loc, config) + MethodFindingsAt(b, t, 2, loc, config)
      + MethodFindingsAt(b, t, 3, loc, config) + MethodFindingsAt(b, t, 4, loc, config)
  {
    assert ItemFindings(b, t, 1, loc, config) == MethodFindingsAt(b, t, 0, loc, config);
    assert ItemFindings(b, t, 2, loc, config) == ItemFindings(b, t, 1, loc, config) + MethodFindingsAt(b, t, 1, loc, config);
    assert ItemFindings(b, t, 3, loc, config) == ItemFindings(b, t, 2, loc, config) + MethodFindingsAt(b, t, 2, loc, config);
    assert ItemFindings(b, t, 4, loc, config) == ItemFindings(b, t, 3, loc, config) + MethodFindingsAt(b, t, 3, loc, config);
  }

  lemma MethodEmptyAt(b: PathItem, t: PathItem, k: nat, loc: Location)
    requires k < 5
    ensures MethodFindingsAt(b, t, k, loc, DEFAULT_CONFIG) == multiset{} <==> OperationKeeps(b, t, k)
  {
    MethodEmpty(Operations(b)[k].1, Operations(t)[k].1, loc + [Operations(b)[k].0]);
  }

  lemma ItemEmpty(b: PathItem, t: PathItem, loc: Location)
    ensures ItemFindings(b, t, 5, loc, DEFAULT_CONFIG) == multiset{} <==> MethodsKeep(b, t)
  {
    ItemUnfolds(b, t, loc, DEFAULT_CONFIG);
    FiveEmpty(MethodFindingsAt(b, t, 0, loc, DEFAULT_CONFIG), MethodFindingsAt(b, t, 1, loc, DEFAULT_CONFIG),
              MethodFindingsAt(b, t, 2, loc, DEFAULT_CONFIG), MethodFindingsAt(b, t, 3, loc, DEFAULT_CONFIG),
              MethodFindingsAt(b, t, 4, loc, DEFAULT_CONFIG));
    MethodEmptyAt(b, t, 0, loc);
    MethodEmptyAt(b, t, 1, loc);
    MethodEmptyAt(b, t, 2, loc);
    MethodEmptyAt(b, t, 3, loc);
    MethodEmptyAt(b, t, 4, loc);
  }

  lemma FiveEmpty(a: multiset<Change>, b: multiset<Change>, c: multiset<Change>, d: multiset<Change>, e: multiset<Change>)
    ensures a + b + c + d + e == multiset{} <==>
      a == multiset{} && b == multiset{} && c == multiset{} && d == multiset{} && e == multiset{}
  {
    UnionEmpty(a, b);
    UnionEmpty(a + b, c);
    UnionEmpty(a + b + c, d);
    UnionEmpty(a + b + c + d, e);
  }

  lemma PathEmpty(b: Entry<string, ReferenceOr<PathItem>>, t: Option<ReferenceOr<PathItem>>)
    ensures PathFindings(b, t, DEFAULT_CONFIG) == multiset{} <==> PathKeeps(b, t)
  {
    if b.value.Item? && t.Some? && t.value.Item? { ItemEmpty(b.value.item, t.value.item, ["paths", b.key]); }
  }

  ghost predicate PathsKeep(b: IndexMap<string, ReferenceOr<PathItem>>, t: IndexMap<string, ReferenceOr<PathItem>>) {
    forall p :: p in b ==> PathKeeps(p, Get(t, p.key))
  }

  lemma {:induction false} PathsEmpty(b: IndexMap<string, ReferenceOr<PathItem>>, t: IndexMap<string, ReferenceOr<PathItem>>)
    ensures PathsFindings(b, t, DEFAULT_CONFIG) == multiset{} <==> PathsKeep(b, t)
  {
    if b != [] {
      PathsEmpty(b[..|b| - 1], t);
      PathsEmptyStep(b, t);
    }
  }

  lemma PathsEmptyStep(b: IndexMap<string, ReferenceOr<PathItem>>, t: IndexMap<string, ReferenceOr<PathItem>>)
    requires b != [] && (PathsFindings(b[..|b| - 1], t, DEFAULT_CONFIG) == multiset{} <==> PathsKeep(b[..|b| - 1], t))
    ensures PathsFindings(b, t, DEFAULT_CONFIG) == multiset{} <==> PathsKeep(b, t)
  {
    var n := |b| - 1;
    PathEmpty(b[n], Get(t, b[n].key));
    UnionEmpty(PathsFindings(b[..n], t, DEFAULT_CONFIG), PathFindings(b[n], Get(t, b[n].key), DEFAULT_CONFIG));
    PathsKeepStep(b, t);
  }

  lemma PathsKeepStep(b: IndexMap<string, ReferenceOr<PathItem>>, t: IndexMap<string, ReferenceOr<PathItem>>)
    requires b != []
    ensures PathsKeep(b, t) <==> PathsKeep(b[..|b| - 1], t) && PathKeeps(b[|b| - 1], Get(t, b[|b| - 1].key))
  {
    SplitLast(b);
  }

  /** The default report is empty if and only if the target keeps the base. */
  lemma EmptyReportExactly(base: Document, target: Document)
    ensures DocumentFindings(base, target, DEFAULT_CONFIG) == multiset{} <==> DocumentKeeps(base, target)
  {
    PathsEmpty(base.paths, target.paths);
  }

  /** Hence a comparison counts no BREAKING finding if and only if the target keeps the base. */
  lemma CleanReportExactly(base: Document, target: Document, report: Report)
    requires IsComparison(base, target, DEFAULT_CONFIG, report)
    ensures report.breaking == |report.changes| && report.dangerous == 0 && report.additive == 0
    ensures report.breaking == 0 <==> DocumentKeeps(base, target)
  {
    NoneDangerous(report.changes);
    EmptyReportExactly(base, target);
    assert |report.changes| == |DocumentFindings(base, target, DEFAULT_CONFIG)|;
  }

  // ----- A document against itself

  ghost predicate SlotWellFormed(s: Option<ReferenceOr<Schema>>) {
    s.Some? && s.value.Item? ==> DiffLaws.WellFormed(s.value.item)
  }

  ghost predicate ContentWellFormed(c: ReferenceOr<Content>) {
    c.Item? ==> UniqueKeys(c.item) && forall m :: m in c.item ==> SlotWellFormed(m.value)
  }

  ghost predicate OperationWellFormed(op: Option<Operation>) {
    op.Some? ==>
      && UniqueKeys(op.value.responses)
      && (forall r :: r in op.value.responses ==> ContentWellFormed(r.value))
      && (op.value.requestBody.Some? ==> ContentWellFormed(ContentOf(op.value.requestBody).value))
  }

  ghost predicate MethodWellFormed(item: PathItem, k: nat) {
    k < 5 ==> OperationWellFormed(Operations(item)[k].1)
  }

  ghost predicate ItemWellFormed(item: PathItem) {
    forall k :: MethodWellFormed(item, k)
  }

  /** Keys are unique in every map of the document. */
  ghost predicate DocumentWellFormed(d: Document) {
    && UniqueKeys(d.paths)
    && forall p :: p in d.paths && p.value.Item? ==> ItemWellFormed(p.value.item)
  }

  lemma GetOwn<K, V>(m: IndexMap<K, V>, e: Entry<K, V>)
    requires UniqueKeys(m) && e in m
    ensures Get(m, e.key) == Some(e.value)
  {
    var i :| 0 <= i < |m| && m[i] == e;
    GetEntry(m, i);
  }

  lemma ContentKeepsItself(c: ReferenceOr<Content>)
    requires ContentWellFormed(c) && c.Item?
    ensures ContentKeeps(c.item, c.item)
  {
    forall m | m in c.item
      ensures SlotKeeps(m.value, Get(c.item, m.key))
    {
      GetOwn(c.item, m);
      if m.value.Some? && m.value.value.Item? {
        SelfDiffEmpty(m.value.value.item, [], DEFAULT_CONFIG);
        EmptyDiffExactly(m.value.value.item, m.value.value.item, [], DEFAULT_CONFIG);
      }
    }
  }

  lemma MethodKeepsItself(op: Option<Operation>)
    requires OperationWellFormed(op)
    ensures MethodKeeps(op, op)
  {
    if op.Some? {
      forall r | r in op.value.responses
        ensures ResponseKeeps(r, Get(op.value.responses, r.key))
      {
        GetOwn(op.value.responses, r);
        if r.value.Item? { ContentKeepsItself(r.value); }
      }
      if op.value.requestBody.Some? && op.value.requestBody.value.Item? {
        ContentKeepsItself(ContentOf(op.value.requestBody).value);
      }
    }
  }

  lemma OperationKeepsItself(item: PathItem, k: nat)
    requires k < 5 && ItemWellFormed(item)
    ensures OperationKeeps(item, item, k)
  {
    assert MethodWellFormed(item, k);
    MethodKeepsItself(Operations(item)[k].1);
  }

  lemma ItemKeepsItself(item: PathItem)
    requires ItemWellFormed(item)
    ensures MethodsKeep(item, item)
  {
    OperationKeepsItself(item, 0);
    OperationKeepsItself(item, 1);
    OperationKeepsItself(item, 2);
    OperationKeepsItself(item, 3);
    OperationKeepsItself(item, 4);
  }

  /** Comparing a document with itself reports nothing, under any configuration. */
  lemma SelfComparisonEmpty(d: Document, config: Config)
    requires DocumentWellFormed(d)
    ensures DocumentFindings(d, d, config) == multiset{}
  {
    forall p | p in d.paths
      ensures PathKeeps(p, Get(d.paths, p.key))
    {
      GetOwn(d.paths, p);
      if p.value.Item? {
        ItemKeepsItself(p.value.item);
      }
    }
    EmptyReportExactly(d, d);
    SilencingMoreReportsLess(d, d, DEFAULT_CONFIG, config);
  }

  // ----- What an empty report promises about bodies

  /** A media type of two bodies, with a schema on each side. */
  ghost predicate ComparedMedia(b: ReferenceOr<Content>, t: ReferenceOr<Content>, media: Entry<string, Option<ReferenceOr<Schema>>>,
                                bs: Schema, ts: Schema) {
    && b.Item? && t.Item?
    && media in b.item && media.value == Some(Item(bs))
    && Get(t.item, media.key) == Some(Some(Item(ts)))
  }

  /** A method of a path of both documents. */
  ghost predicate ComparedOperations(base: Document, target: Document, p: Entry<string, ReferenceOr<PathItem>>, k: nat,
                                     b: Operation, t: Operation) {
    && p in base.paths && p.value.Item? && k < 5
    && var found := Get(target.paths, p.key);
    && found.Some? && found.value.Item?
    && Operations(p.value.item)[k].1 == Some(b) && Operations(found.value.item)[k].1 == Some(t)
  }

  lemma EmptyReportKeepsOperations(base: Document, target: Document, p: Entry<string, ReferenceOr<PathItem>>, k: nat, b: Operation, t: Operation)
    requires DocumentFindings(base, target, DEFAULT_CONFIG) == multiset{} && ComparedOperations(base, target, p, k, b, t)
    ensures MethodKeeps(Some(b), Some(t))
  {
    EmptyReportExactly(base, target);
    assert PathKeeps(p, Get(target.paths, p.key));
    MethodKept(p.value.item, Get(target.paths, p.key).value.item, k);
  }

  /** From an empty report on whole documents: a compared request body stays acceptable, value for
      value, exactly when its target schema is covered. */
  lemma EmptyReportKeepsBodies(base: Document, target: Document, p: Entry<string, ReferenceOr<PathItem>>, k: nat, b: Operation, t: Operation,
                               media: Entry<string, Option<ReferenceOr<Schema>>>, bs: Schema, ts: Schema,
                               mb: JsonSchema.Meaning, mt: JsonSchema.Meaning)
    requires DocumentFindings(base, target, DEFAULT_CONFIG) == multiset{} && ComparedOperations(base, target, p, k, b, t)
    requires b.requestBody.Some? && t.requestBody.Some? && ComparedMedia(ContentOf(b.requestBody).value, ContentOf(t.requestBody).value, media, bs, ts)
    requires DiffLaws.WellFormed(bs) && DiffLaws.WellFormed(ts)
    ensures Compatibility.Covered(bs, ts, mb, mt) <==> forall v :: JsonSchema.Valid(v, bs, mb) ==> JsonSchema.Valid(v, ts, mt)
  {
    EmptyReportKeepsOperations(base, target, p, k, b, t);
    assert SlotKeeps(media.value, Get(t.requestBody.value.item.content, media.key));
    EmptyDiffExactly(bs, ts, [], DEFAULT_CONFIG);
    Compatibility.EmptyDiffIsSafeExactlyWhenCovered(bs, ts, [], mb, mt);
  }

  /** And a compared response stays within what clients were promised exactly when its base schema is
      covered in return. */
  lemma EmptyReportKeepsResponses(base: Document, target: Document, p: Entry<string, ReferenceOr<PathItem>>, k: nat, b: Operation, t: Operation,
                                  r: Entry<StatusCode, ReferenceOr<Content>>,
                                  media: Entry<string, Option<ReferenceOr<Schema>>>, bs: Schema, ts: Schema,
                                  mb: JsonSchema.Meaning, mt: JsonSchema.Meaning)
    requires DocumentFindings(base, target, DEFAULT_CONFIG) == multiset{} && ComparedOperations(base, target, p, k, b, t)
    requires r in b.responses && Get(t.responses, r.key).Some? && ComparedMedia(r.value, Get(t.responses, r.key).value, media, bs, ts)
    requires DiffLaws.WellFormed(ts)
    ensures Compatibility.CoveredBack(bs, ts, mb, mt) <==> forall v :: JsonSchema.Valid(v, ts, mt) ==> JsonSchema.Valid(v, bs, mb)
  {
    EmptyReportKeepsOperations(base, target, p, k, b, t);
    assert ResponseKeeps(r, Get(t.responses, r.key));
    assert SlotKeeps(media.value, Get(Get(t.responses, r.key).value.item, media.key));
    EmptyDiffExactly(bs, ts, [], DEFAULT_CONFIG);
    Compatibility.EmptyDiffIsSafeForClientsExactly(bs, ts, [], mb, mt);
  }
}
