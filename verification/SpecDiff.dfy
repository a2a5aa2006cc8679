/** The comparison of two documents (engine/src/diff.rs, compare_specs and its helpers): shared
    accumulators filled in nested loops, and the findings they must hold at the end. */
module SpecDiff {
  import opened Prelude
  import opened OpenApi
  import opened SchemaDiff

  /** The accumulators that every helper receives as mutable references. */
  class Tally {
    var changes: seq<Change>
    var breaking: nat
    var additive: nat

    constructor ()
      ensures changes == [] && breaking == 0 && additive == 0
    {
      changes, breaking, additive := [], 0, 0;
    }

    /** The running counters agree with a recount of the findings. */
    ghost predicate Recounted()
      reads this
    {
      breaking == Count(changes, Breaking) && additive == Count(changes, Additive)
    }

    /** In addition, every finding so far is BREAKING. */
    ghost predicate Counted()
      reads this
    {
      Recounted() && OnlyBreaking(changes)
    }

    /** Pushes one BREAKING finding and bumps the counter. */
    method PushBreaking(path: Location, detail: Detail)
      requires Counted()
      modifies this
      ensures Counted() && changes == old(changes) + [Change(Breaking, path, detail)]
    {
      changes := changes + [Change(Breaking, path, detail)];
      breaking := breaking + 1;
      assert changes[..|changes| - 1] == old(changes);
    }

    /** Recounts the severities of a local report, then appends it. */
    method Absorb(local: seq<Change>)
      requires Recounted()
      modifies this
      ensures Recounted() && changes == old(changes) + local
    {
      for i := 0 to |local|
        invariant changes == old(changes)
        invariant breaking == old(breaking) + Count(local[..i], Breaking)
        invariant additive == old(additive) + Count(local[..i], Additive)
      {
        assert local[..i + 1][..i] == local[..i];
        if local[i].severity == Breaking { breaking := breaking + 1; }
        if local[i].severity == Additive { additive := additive + 1; }
      }
      assert local[..|local|] == local;
      CountAppend(changes, local, Breaking);
      CountAppend(changes, local, Additive);
      changes := changes + local;
    }
  }

  // ----- Parameters

  /** Parameters by name; references are skipped and the last occurrence of a name wins. */
  function ParameterMap(params: seq<ReferenceOr<Parameter>>): map<string, Parameter> {
    if params == [] then map[]
    else
      var n := |params| - 1;
      var m := ParameterMap(params[..n]);
      if params[n].Item? then m[params[n].item.name := params[n].item] else m
  }

  ghost predicate DeclaredAt(params: seq<ReferenceOr<Parameter>>, i: int, name: string) {
    0 <= i < |params| && params[i].Item? && params[i].item.name == name
  }

  ghost predicate LastDeclared(params: seq<ReferenceOr<Parameter>>, i: int, name: string) {
    DeclaredAt(params, i, name) && forall j :: i < j ==> !DeclaredAt(params, j, name)
  }

  /** The map holds exactly the declared names, each with its last declaration. */
  lemma {:induction false} LastDeclarationWins(params: seq<ReferenceOr<Parameter>>, name: string)
    ensures name !in ParameterMap(params) ==> forall i :: !DeclaredAt(params, i, name)
    ensures name in ParameterMap(params) ==> exists i :: LastDeclared(params, i, name) && ParameterMap(params)[name] == params[i].item
  {
    if params != [] {
      var n := |params| - 1;
      if DeclaredAt(params, n, name) {
        assert LastDeclared(params, n, name);
      } else {
        LastDeclarationWins(params[..n], name);
        assert forall i :: DeclaredAt(params[..n], i, name) <==> DeclaredAt(params, i, name);
        if name in ParameterMap(params) {
          var i :| LastDeclared(params[..n], i, name) && ParameterMap(params[..n])[name] == params[..n][i].item;
          assert LastDeclared(params, i, name);
        }
      }
    }
  }

  /** The parameter is the last declaration of its name. */
  ghost predicate LastIs(params: seq<ReferenceOr<Parameter>>, p: Parameter) {
    exists i :: LastDeclared(params, i, p.name) && params[i].item == p
  }

  ghost predicate Undeclared(params: seq<ReferenceOr<Parameter>>, name: string) {
    forall i :: !DeclaredAt(params, i, name)
  }

  lemma MapHoldsLast(params: seq<ReferenceOr<Parameter>>, p: Parameter)
    ensures LastIs(params, p) <==> p.name in ParameterMap(params) && ParameterMap(params)[p.name] == p
    ensures Undeclared(params, p.name) <==> p.name !in ParameterMap(params)
  {
    LastDeclarationWins(params, p.name);
    if p.name in ParameterMap(params) {
      var i :| LastDeclared(params, i, p.name) && ParameterMap(params)[p.name] == params[i].item;
      if j :| LastDeclared(params, j, p.name) && params[j].item == p {
        assert DeclaredAt(params, i, p.name) && DeclaredAt(params, j, p.name);
      }
    }
    if i :| LastDeclared(params, i, p.name) && params[i].item == p {
      assert DeclaredAt(params, i, p.name);
    }
  }

  function RemovedParameter(p: Parameter, loc: Location): Change {
    Change(Breaking, loc + ["parameters", KindText(p.kind), p.name], ParameterRemoved(p.kind, p.name))
  }

  function RequiredParameter(p: Parameter, known: bool, loc: Location): Change {
    Change(Breaking, loc + ["parameters", KindText(p.kind), p.name],
           if known then ParameterMadeRequired(p.kind, p.name) else RequiredParameterAdded(p.kind, p.name))
  }

  predicate IsRemoved(bm: map<string, Parameter>, tm: map<string, Parameter>, name: string, config: Config) {
    name in bm && name !in tm && "removed_parameter" !in config.ignoreRules
  }

  predicate IsNewlyRequired(bm: map<string, Parameter>, tm: map<string, Parameter>, name: string, config: Config) {
    name in tm && tm[name].required && (name in bm ==> !bm[name].required) && "new_required_field" !in config.ignoreRules
  }

  ghost function RemovedParameters(bm: map<string, Parameter>, tm: map<string, Parameter>, names: set<string>,
                                   loc: Location, config: Config): set<Change> {
    set name | name in names && IsRemoved(bm, tm, name, config) :: RemovedParameter(bm[name], loc)
  }

  ghost function RequiredParameters(bm: map<string, Parameter>, tm: map<string, Parameter>, names: set<string>,
                                    loc: Location, config: Config): set<Change> {
    set name | name in names && IsNewlyRequired(bm, tm, name, config) :: RequiredParameter(tm[name], name in bm, loc)
  }

  /** The parameter findings: one per removed name, and one per name whose last target declaration is
      required while its last base declaration is absent or optional. */
  ghost function ParameterFindings(b: seq<ReferenceOr<Parameter>>, t: seq<ReferenceOr<Parameter>>,
                                   loc: Location, config: Config): multiset<Change> {
    var bm, tm := ParameterMap(b), ParameterMap(t);
    multiset(RemovedParameters(bm, tm, bm.Keys, loc, config)) + multiset(RequiredParameters(bm, tm, tm.Keys, loc, config))
  }

  ghost predicate NamedByKey(m: map<string, Parameter>) {
    forall name :: name in m ==> m[name].name == name
  }

  method CollectParameters(params: seq<ReferenceOr<Parameter>>) returns (m: map<string, Parameter>)
    ensures m == ParameterMap(params) && NamedByKey(m)
  {
    m := map[];
    for i := 0 to |params|
      invariant m == ParameterMap(params[..i]) && NamedByKey(m)
    {
      assert params[..i + 1][..i] == params[..i];
      if params[i].Item? { m := m[params[i].item.name := params[i].item]; }
    }
    assert params[..|params|] == params;
  }

  /** For every order in which the two hash maps may be traversed. */
  method DiffParameters(b: seq<ReferenceOr<Parameter>>, t: seq<ReferenceOr<Parameter>>, loc: Location, config: Config, tally: Tally)
    requires tally.Counted()
    modifies tally
    ensures tally.Counted() && old(tally.changes) <= tally.changes
    ensures multiset(tally.changes) == multiset(old(tally.changes)) + ParameterFindings(b, t, loc, config)
  {
    var bm := CollectParameters(b);
    var tm := CollectParameters(t);
    ReportRemoved(bm, tm, loc, config, tally);
    ReportRequired(bm, tm, loc, config, tally);
  }

  lemma RemovedGrows(bm: map<string, Parameter>, tm: map<string, Parameter>, done: set<string>, name: string, loc: Location, config: Config)
    requires name !in done && name in bm && NamedByKey(bm)
    ensures multiset(RemovedParameters(bm, tm, done + {name}, loc, config)) ==
      multiset(RemovedParameters(bm, tm, done, loc, config))
      + if IsRemoved(bm, tm, name, config) then multiset{RemovedParameter(bm[name], loc)} else multiset{}
  {
    var before := RemovedParameters(bm, tm, done, loc, config);
    var c := RemovedParameter(bm[name], loc);
    assert forall d :: d in before ==> d.detail.name != name;
    assert RemovedParameters(bm, tm, done + {name}, loc, config) == if IsRemoved(bm, tm, name, config) then before + {c} else before;
  }

  lemma RequiredGrows(bm: map<string, Parameter>, tm: map<string, Parameter>, done: set<string>, name: string, loc: Location, config: Config)
    requires name !in done && name in tm && NamedByKey(tm)
    ensures multiset(RequiredParameters(bm, tm, done + {name}, loc, config)) ==
      multiset(RequiredParameters(bm, tm, done, loc, config))
      + if IsNewlyRequired(bm, tm, name, config) then multiset{RequiredParameter(tm[name], name in bm, loc)} else multiset{}
  {
    var before := RequiredParameters(bm, tm, done, loc, config);
    var c := RequiredParameter(tm[name], name in bm, loc);
    assert forall d :: d in before ==> d.detail.name != name;
    assert RequiredParameters(bm, tm, done + {name}, loc, config) == if IsNewlyRequired(bm, tm, name, config) then before + {c} else before;
  }

  method ReportRemoved(bm: map<string, Parameter>, tm: map<string, Parameter>, loc: Location, config: Config, tally: Tally)
    requires tally.Counted() && NamedByKey(bm)
    modifies tally
    ensures tally.Counted() && old(tally.changes) <= tally.changes
    ensures multiset(tally.changes) == multiset(old(tally.changes)) + multiset(RemovedParameters(bm, tm, bm.Keys, loc, config))
  {
    var todo := bm.Keys;
    ghost var done: set<string> := {};
    while todo != {}
      invariant todo !! done && todo + done == bm.Keys && tally.Counted() && old(tally.changes) <= tally.changes
      invariant multiset(tally.changes) == multiset(old(tally.changes)) + multiset(RemovedParameters(bm, tm, done, loc, config))
    {
      var name :| name in todo;
      ReportIfRemoved(bm, tm, name, loc, config, tally, multiset(old(tally.changes)), done);
      todo, done := todo - {name}, done + {name};
    }
  }

  /** One pass of the loop: the names done so far have added their findings to `before`. */
  method ReportIfRemoved(bm: map<string, Parameter>, tm: map<string, Parameter>, name: string, loc: Location, config: Config, tally: Tally,
                       ghost before: multiset<Change>, ghost done: set<string>)
    requires tally.Counted() && NamedByKey(bm) && name in bm && name !in done
    requires multiset(tally.changes) == before + multiset(RemovedParameters(bm, tm, done, loc, config))
    modifies tally
    ensures tally.Counted() && old(tally.changes) <= tally.changes
    ensures multiset(tally.changes) == before + multiset(RemovedParameters(bm, tm, done + {name}, loc, config))
  {
    RemovedGrows(bm, tm, done, name, loc, config);
    var p := bm[name];
    if name !in tm && "removed_parameter" !in config.ignoreRules {
      tally.PushBreaking(loc + ["parameters", KindText(p.kind), p.name], ParameterRemoved(p.kind, p.name));
    }
  }

  method ReportRequired(bm: map<string, Parameter>, tm: map<string, Parameter>, loc: Location, config: Config, tally: Tally)
    requires tally.Counted() && NamedByKey(tm)
    modifies tally
    ensures tally.Counted() && old(tally.changes) <= tally.changes
    ensures multiset(tally.changes) == multiset(old(tally.changes)) + multiset(RequiredParameters(bm, tm, tm.Keys, loc, config))
  {
    var todo := tm.Keys;
    ghost var done: set<string> := {};
    while todo != {}
      invariant todo !! done && todo + done == tm.Keys && tally.Counted() && old(tally.changes) <= tally.changes
      invariant multiset(tally.changes) == multiset(old(tally.changes)) + multiset(RequiredParameters(bm, tm, done, loc, config))
    {
      var name :| name in todo;
      ReportIfRequired(bm, tm, name, loc, config, tally, multiset(old(tally.changes)), done);
      todo, done := todo - {name}, done + {name};
    }
  }

  /** One pass of the loop: the names done so far have added their findings to `before`. */
  method ReportIfRequired(bm: map<string, Parameter>, tm: map<string, Parameter>, name: string, loc: Location, config: Config, tally: Tally,
                       ghost before: multiset<Change>, ghost done: set<string>)
    requires tally.Counted() && NamedByKey(tm) && name in tm && name !in done
    requires multiset(tally.changes) == before + multiset(RequiredParameters(bm, tm, done, loc, config))
    modifies tally
    ensures tally.Counted() && old(tally.changes) <= tally.changes
    ensures multiset(tally.changes) == before + multiset(RequiredParameters(bm, tm, done + {name}, loc, config))
  {
    RequiredGrows(bm, tm, done, name, loc, config);
    var p := tm[name];
    if p.required {
      if name in bm {
        if !bm[name].required && "new_required_field" !in config.ignoreRules {
          tally.PushBreaking(loc + ["parameters", KindText(p.kind), p.name], ParameterMadeRequired(p.kind, p.name));
        }
      } else if "new_required_field" !in config.ignoreRules {
        tally.PushBreaking(loc + ["parameters", KindText(p.kind), p.name], RequiredParameterAdded(p.kind, p.name));
      }
    }
  }

  // ----- Media types, responses and request bodies

  function MediaFindings(b: Option<ReferenceOr<Schema>>, t: Option<Option<ReferenceOr<Schema>>>, loc: Location, config: Config): seq<Change> {
    if b.Some? && b.value.Item? && t.Some? && t.value.Some? && t.value.value.Item?
    then Diff(b.value.item, t.value.value.item, loc, config) else []
  }

  /** Responses put the media type in the location, request bodies do not. */
  function MediaLocation(loc: Location, media: string, perMedia: bool): Location {
    if perMedia then loc + ["content", media] else loc
  }

  /** Findings for the media types of one body. */
  function ContentFindings(b: Content, t: Content, loc: Location, perMedia: bool, config: Config): seq<Change> {
    if b == [] then []
    else
      var n := |b| - 1;
      ContentFindings(b[..n], t, loc, perMedia, config)
      + MediaFindings(b[n].value, Get(t, b[n].key), MediaLocation(loc, b[n].key, perMedia), config)
  }

  method DiffMedia(b: Option<ReferenceOr<Schema>>, t: Option<Option<ReferenceOr<Schema>>>, loc: Location, config: Config, tally: Tally)
    requires tally.Counted()
    modifies tally
    ensures tally.Counted() && tally.changes == old(tally.changes) + MediaFindings(b, t, loc, config)
  {
    if t.Some? {
      if b.Some? && b.value.Item? && t.value.Some? && t.value.value.Item? {
        var local := DiffSchemas(b.value.item, t.value.value.item, loc, config);
        tally.Absorb(local);
      }
    }
  }

  lemma ContentStep(b: Content, i: nat, t: Content, loc: Location, perMedia: bool, config: Config)
    requires i < |b|
    ensures ContentFindings(b[..i + 1], t, loc, perMedia, config) ==
      ContentFindings(b[..i], t, loc, perMedia, config)
      + MediaFindings(b[i].value, Get(t, b[i].key), MediaLocation(loc, b[i].key, perMedia), config)
  {
    assert b[..i + 1][..i] == b[..i];
  }

  method DiffContent(b: Content, t: Content, loc: Location, perMedia: bool, config: Config, tally: Tally)
    requires tally.Counted()
    modifies tally
    ensures tally.Counted() && tally.changes == old(tally.changes) + ContentFindings(b, t, loc, perMedia, config)
  {
    for i := 0 to |b|
      invariant tally.Counted()
      invariant tally.changes == old(tally.changes) + ContentFindings(b[..i], t, loc, perMedia, config)
    {
      ContentStep(b, i, t, loc, perMedia, config);
      AppendAssociates(old(tally.changes), ContentFindings(b[..i], t, loc, perMedia, config),
                       MediaFindings(b[i].value, Get(t, b[i].key), MediaLocation(loc, b[i].key, perMedia), config));
      DiffMedia(b[i].value, Get(t, b[i].key), MediaLocation(loc, b[i].key, perMedia), config, tally);
    }
    assert b[..|b|] == b;
  }

  function ResponseFinding(b: Entry<StatusCode, ReferenceOr<Content>>, t: Option<ReferenceOr<Content>>, loc: Location, config: Config): seq<Change> {
    var here := loc + ["responses", StatusText(b.key)];
    if t.None? then (if "removed_response" in config.ignoreRules then [] else [Change(Breaking, here, ResponseRemoved)])
    else if b.value.Item? && t.value.Item? then ContentFindings(b.value.item, t.value.item, here, true, config)
    else []
  }

  function ResponseFindings(b: IndexMap<StatusCode, ReferenceOr<Content>>, t: IndexMap<StatusCode, ReferenceOr<Content>>,
                            loc: Location, config: Config): seq<Change> {
    if b == [] then []
    else
      var n := |b| - 1;
      ResponseFindings(b[..n], t, loc, config) + ResponseFinding(b[n], Get(t, b[n].key), loc, config)
  }

  method DiffResponse(b: Entry<StatusCode, ReferenceOr<Content>>, t: Option<ReferenceOr<Content>>, loc: Location, config: Config, tally: Tally)
    requires tally.Counted()
    modifies tally
    ensures tally.Counted() && tally.changes == old(tally.changes) + ResponseFinding(b, t, loc, config)
  {
    var here := loc + ["responses", StatusText(b.key)];
    if t.Some? {
      if b.value.Item? && t.value.Item? {
        DiffContent(b.value.item, t.value.item, here, true, config, tally);
      }
    } else if "removed_response" !in config.ignoreRules {
      tally.PushBreaking(here, ResponseRemoved);
    }
  }

  lemma ResponseStep(b: IndexMap<StatusCode, ReferenceOr<Content>>, i: nat, t: IndexMap<StatusCode, ReferenceOr<Content>>,
                     loc: Location, config: Config)
    requires i < |b|
    ensures ResponseFindings(b[..i + 1], t, loc, config) ==
      ResponseFindings(b[..i], t, loc, config) + ResponseFinding(b[i], Get(t, b[i].key), loc, config)
  {
    assert b[..i + 1][..i] == b[..i];
  }

  method DiffResponses(b: IndexMap<StatusCode, ReferenceOr<Content>>, t: IndexMap<StatusCode, ReferenceOr<Content>>,
                       loc: Location, config: Config, tally: Tally)
    requires tally.Counted()
    modifies tally
    ensures tally.Counted() && tally.changes == old(tally.changes) + ResponseFindings(b, t, loc, config)
  {
    for i := 0 to |b|
      invariant tally.Counted()
      invariant tally.changes == old(tally.changes) + ResponseFindings(b[..i], t, loc, config)
    {
      ResponseStep(b, i, t, loc, config);
      AppendAssociates(old(tally.changes), ResponseFindings(b[..i], t, loc, config), ResponseFinding(b[i], Get(t, b[i].key), loc, config));
      DiffResponse(b[i], Get(t, b[i].key), loc, config, tally);
    }
    assert b[..|b|] == b;
  }

  function RequestFindings(b: Option<ReferenceOr<Content>>, t: Option<ReferenceOr<Content>>, loc: Location, config: Config): seq<Change> {
    if b.Some? && b.value.Item? && t.Some? && t.value.Item?
    then ContentFindings(b.value.item, t.value.item, loc + ["requestBody"], false, config) else []
  }

  // ----- Operations, path items and documents

  ghost function OperationFindings(b: Operation, t: Operation, loc: Location, config: Config): multiset<Change> {
    ParameterFindings(b.parameters, t.parameters, loc, config)
    + multiset(ResponseFindings(b.responses, t.responses, loc, config))
    + multiset(RequestFindings(ContentOf(b.requestBody), ContentOf(t.requestBody), loc, config))
  }

  method DiffOperation(b: Operation, t: Operation, loc: Location, config: Config, tally: Tally)
    requires tally.Counted()
    modifies tally
    ensures tally.Counted() && old(tally.changes) <= tally.changes
    ensures multiset(tally.changes) == multiset(old(tally.changes)) + OperationFindings(b, t, loc, config)
  {
    DiffParameters(b.parameters, t.parameters, loc, config, tally);
    DiffResponses(b.responses, t.responses, loc, config, tally);
    if b.requestBody.Some? && t.requestBody.Some? {
      if b.requestBody.value.Item? && t.requestBody.value.Item? {
        DiffContent(b.requestBody.value.item.content, t.requestBody.value.item.content, loc + ["requestBody"], false, config, tally);
      }
    }
  }

  /** The five compared methods of a path item, in the order of comparison. */
  function Operations(item: PathItem): (ops: seq<(string, Option<Operation>)>)
    ensures |ops| == 5
  {
    [("get", item.get), ("post", item.post), ("put", item.put), ("delete", item.delete), ("patch", item.patch)]
  }

  ghost function MethodFindings(b: Option<Operation>, t: Option<Operation>, loc: Location, config: Config): multiset<Change> {
    if b.Some? && t.Some? then OperationFindings(b.value, t.value, loc, config)
    else if b.Some? && "removed_method" !in config.ignoreRules then multiset{Change(Breaking, loc, MethodRemoved)}
    else multiset{}
  }

  /** Findings of the first k compared methods. */
  ghost function ItemFindings(b: PathItem, t: PathItem, k: nat, loc: Location, config: Config): multiset<Change>
    requires k <= 5
  {
    if k == 0 then multiset{}
    else
      var (name, op) := Operations(b)[k - 1];
      ItemFindings(b, t, k - 1, loc, config) + MethodFindings(op, Operations(t)[k - 1].1, loc + [name], config)
  }

  ghost function PathFindings(b: Entry<string, ReferenceOr<PathItem>>, t: Option<ReferenceOr<PathItem>>, config: Config): multiset<Change> {
    var here := ["paths", b.key];
    if t.None? then
      if "removed_endpoint" in config.ignoreRules then multiset{} else multiset{Change(Breaking, here, EndpointRemoved)}
    else if b.value.Item? && t.value.Item? then ItemFindings(b.value.item, t.value.item, 5, here, config)
    else multiset{}
  }

  ghost function PathsFindings(b: IndexMap<string, ReferenceOr<PathItem>>, t: IndexMap<string, ReferenceOr<PathItem>>, config: Config): multiset<Change> {
    if b == [] then multiset{}
    else
      var n := |b| - 1;
      PathsFindings(b[..n], t, config) + PathFindings(b[n], Get(t, b[n].key), config)
  }

  ghost function DocumentFindings(base: Document, target: Document, config: Config): multiset<Change> {
    PathsFindings(base.paths, target.paths, config)
  }

  /** What the comparison unwraps: a path in both documents is an inline item in both. */
  ghost predicate SharedPathsInline(base: Document, target: Document) {
    AllSharedInline(base.paths, target.paths)
  }

  ghost predicate AllSharedInline(b: IndexMap<string, ReferenceOr<PathItem>>, t: IndexMap<string, ReferenceOr<PathItem>>) {
    forall p :: p in b ==> SharedInline(p, Get(t, p.key))
  }

  predicate SharedInline(b: Entry<string, ReferenceOr<PathItem>>, t: Option<ReferenceOr<PathItem>>) {
    t.Some? ==> b.value.Item? && t.value.Item?
  }

  method DiffMethod(b: Option<Operation>, t: Option<Operation>, loc: Location, config: Config, tally: Tally)
    requires tally.Counted()
    modifies tally
    ensures tally.Counted() && old(tally.changes) <= tally.changes
    ensures multiset(tally.changes) == multiset(old(tally.changes)) + MethodFindings(b, t, loc, config)
  {
    if b.Some? && t.None? {
      if "removed_method" !in config.ignoreRules {
        tally.PushBreaking(loc, MethodRemoved);
      }
    } else if b.Some? && t.Some? {
      DiffOperation(b.value, t.value, loc, config, tally);
    }
  }

  method DiffItem(b: PathItem, t: PathItem, loc: Location, config: Config, tally: Tally)
    requires tally.Counted()
    modifies tally
    ensures tally.Counted() && old(tally.changes) <= tally.changes
    ensures multiset(tally.changes) == multiset(old(tally.changes)) + ItemFindings(b, t, 5, loc, config)
  {
    var bOps, tOps := Operations(b), Operations(t);
    for k := 0 to 5
      invariant tally.Counted() && old(tally.changes) <= tally.changes
      invariant multiset(tally.changes) == multiset(old(tally.changes)) + ItemFindings(b, t, k, loc, config)
    {
      DiffMethod(bOps[k].1, tOps[k].1, loc + [bOps[k].0], config, tally);
    }
  }

  datatype Report = Report(breaking: nat, dangerous: nat, additive: nat, changes: seq<Change>)

  /** The summary agrees with the findings. */
  predicate WellCounted(r: Report) {
    && r.breaking == Count(r.changes, Breaking)
    && r.dangerous == Count(r.changes, Dangerous)
    && r.additive == Count(r.changes, Additive)
  }

  /** What a comparison returns: the findings of the documents with their multiplicities, all BREAKING, and a summary
      that agrees with them. */
  ghost predicate IsComparison(base: Document, target: Document, config: Config, r: Report) {
    multiset(r.changes) == DocumentFindings(base, target, config) && OnlyBreaking(r.changes) && WellCounted(r)
  }

  lemma PathsStep(b: IndexMap<string, ReferenceOr<PathItem>>, i: nat, t: IndexMap<string, ReferenceOr<PathItem>>, config: Config)
    requires i < |b|
    ensures PathsFindings(b[..i + 1], t, config) == PathsFindings(b[..i], t, config) + PathFindings(b[i], Get(t, b[i].key), config)
  {
    assert b[..i + 1][..i] == b[..i];
  }

  method DiffPath(b: Entry<string, ReferenceOr<PathItem>>, t: Option<ReferenceOr<PathItem>>, config: Config, tally: Tally)
    requires tally.Counted() && (t.Some? ==> b.value.Item? && t.value.Item?)
    modifies tally
    ensures tally.Counted()
    ensures multiset(tally.changes) == multiset(old(tally.changes)) + PathFindings(b, t, config)
  {
    if t.None? {
      if "removed_endpoint" !in config.ignoreRules {
        tally.PushBreaking(["paths", b.key], EndpointRemoved);
      }
    } else {
      DiffItem(b.value.item, t.value.item, ["paths", b.key], config, tally);
    }
  }

  lemma SharedStep(b: IndexMap<string, ReferenceOr<PathItem>>, i: nat, t: IndexMap<string, ReferenceOr<PathItem>>)
    requires i < |b|
    ensures AllSharedInline(b[..i], t) && SharedInline(b[i], Get(t, b[i].key)) ==> AllSharedInline(b[..i + 1], t)
    ensures AllSharedInline(b, t) ==> SharedInline(b[i], Get(t, b[i].key))
  {
    assert b[..i + 1] == b[..i] + [b[i]] && b[i] in b;
  }

  /** The first path in both documents that is not inline in both stops the comparison. */
  method CompareSpecs(base: Document, target: Document, config: Config) returns (report: Option<Report>)
    ensures report.None? <==> !SharedPathsInline(base, target)
    ensures report.Some? ==> IsComparison(base, target, config, report.value)
  {
    var tally := new Tally();
    for i := 0 to |base.paths|
      invariant tally.Counted() && AllSharedInline(base.paths[..i], target.paths)
      invariant multiset(tally.changes) == PathsFindings(base.paths[..i], target.paths, config)
    {
      var b, t := base.paths[i], Get(target.paths, base.paths[i].key);
      SharedStep(base.paths, i, target.paths);
      if t.Some? && !(b.value.Item? && t.value.Item?) { return None; }
      PathsStep(base.paths, i, target.paths, config);
      DiffPath(b, t, config, tally);
    }
    assert base.paths[..|base.paths|] == base.paths;
    NoneDangerous(tally.changes);
    report := Some(Report(tally.breaking, 0, tally.additive, tally.changes));
  }

  /** A path item behind the same reference in both documents is enough. */
  lemma SharedReferenceStops()
    ensures var d := Document([Entry("/users", Reference("users.yaml"))]); !SharedPathsInline(d, d)
  {
    var d := Document([Entry("/users", Reference("users.yaml"))]);
    assert d.paths[0] in d.paths && !SharedInline(d.paths[0], Get(d.paths, d.paths[0].key));
  }
}
