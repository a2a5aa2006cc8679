/** How often the comparison of two documents reports a finding: the document-level counterpart of
    DiffIsExact. */
module SpecCounts {
  import opened Prelude
  import opened OpenApi
  import opened SpecDiff
  import opened SpecMembers
  import DiffLaws
  import SpecLaws

  /** As often as the pair of inline schemas at the finding's site reports it. */
  ghost function MediaTimes(b: Option<ReferenceOr<Schema>>, t: Option<Option<ReferenceOr<Schema>>>, loc: Location, config: Config, c: Change): nat {
    if b.Some? && b.value.Item? && t.Some? && t.value.Some? && t.value.value.Item?
    then DiffLaws.Expected(b.value.item, t.value.value.item, loc, config, c) else 0
  }

  /** Summed over the media types of a response, each at its own location. */
  ghost function ResponseContentTimes(b: Content, t: Content, loc: Location, config: Config, c: Change): nat {
    if b == [] then 0
    else
      var m := b[|b| - 1];
      ResponseContentTimes(b[..|b| - 1], t, loc, config, c) + MediaTimes(m.value, Get(t, m.key), loc + ["content", m.key], config, c)
  }

  /** Summed over the media types of a request body, all at the body's location. */
  ghost function BodyContentTimes(b: Content, t: Content, loc: Location, config: Config, c: Change): nat {
    if b == [] then 0
    else
      var m := b[|b| - 1];
      BodyContentTimes(b[..|b| - 1], t, loc, config, c) + MediaTimes(m.value, Get(t, m.key), loc, config, c)
  }

  ghost function Once(b: bool): nat {
    if b then 1 else 0
  }

  ghost function ResponseTimes(b: Entry<StatusCode, ReferenceOr<Content>>, t: Option<ReferenceOr<Content>>, loc: Location, config: Config, c: Change): nat {
    var here := loc + ["responses", StatusText(b.key)];
    if t.None? then Once(c == Change(Breaking, here, ResponseRemoved) && "removed_response" !in config.ignoreRules)
    else if b.value.Item? && t.value.Item? then ResponseContentTimes(b.value.item, t.value.item, here, config, c)
    else 0
  }

  ghost function ResponsesTimes(b: IndexMap<StatusCode, ReferenceOr<Content>>, t: IndexMap<StatusCode, ReferenceOr<Content>>,
                                loc: Location, config: Config, c: Change): nat {
    if b == [] then 0
    else ResponsesTimes(b[..|b| - 1], t, loc, config, c) + ResponseTimes(b[|b| - 1], Get(t, b[|b| - 1].key), loc, config, c)
  }

  ghost function BodyTimes(b: Option<ReferenceOr<Content>>, t: Option<ReferenceOr<Content>>, loc: Location, config: Config, c: Change): nat {
    if b.Some? && b.value.Item? && t.Some? && t.value.Item?
    then BodyContentTimes(b.value.item, t.value.item, loc + ["requestBody"], config, c) else 0
  }

  ghost function ParameterTimes(b: seq<ReferenceOr<Parameter>>, t: seq<ReferenceOr<Parameter>>, loc: Location, config: Config, c: Change): nat {
    Once(exists p :: ParameterReports(b, t, p, loc, config, c))
  }

  ghost function MethodTimes(b: Option<Operation>, t: Option<Operation>, loc: Location, config: Config, c: Change): nat {
    if b.None? then 0
    else if t.None? then Once(c == Change(Breaking, loc, MethodRemoved) && "removed_method" !in config.ignoreRules)
    else
      ParameterTimes(b.value.parameters, t.value.parameters, loc, config, c)
      + ResponsesTimes(b.value.responses, t.value.responses, loc, config, c)
      + BodyTimes(ContentOf(b.value.requestBody), ContentOf(t.value.requestBody), loc, config, c)
  }

  ghost function PathTimes(b: Entry<string, ReferenceOr<PathItem>>, t: Option<ReferenceOr<PathItem>>, config: Config, c: Change): nat {
    var here := ["paths", b.key];
    if t.None? then Once(c == Change(Breaking, here, EndpointRemoved) && "removed_endpoint" !in config.ignoreRules)
    else if b.value.Item? && t.value.Item? then
      var bi, ti := b.value.item, t.value.item;
      MethodTimes(bi.get, ti.get, here + ["get"], config, c) + MethodTimes(bi.post, ti.post, here + ["post"], config, c)
      + MethodTimes(bi.put, ti.put, here + ["put"], config, c) + MethodTimes(bi.delete, ti.delete, here + ["delete"], config, c)
      + MethodTimes(bi.patch, ti.patch, here + ["patch"], config, c)
    else 0
  }

  ghost function PathsTimes(b: IndexMap<string, ReferenceOr<PathItem>>, t: IndexMap<string, ReferenceOr<PathItem>>, config: Config, c: Change): nat {
    if b == [] then 0 else PathsTimes(b[..|b| - 1], t, config, c) + PathTimes(b[|b| - 1], Get(t, b[|b| - 1].key), config, c)
  }

  lemma MediaCounted(b: Option<ReferenceOr<Schema>>, t: Option<Option<ReferenceOr<Schema>>>, loc: Location, config: Config, c: Change)
    requires SpecLaws.SlotWellFormed(b)
    ensures multiset(MediaFindings(b, t, loc, config))[c] == MediaTimes(b, t, loc, config, c)
  {
    if b.Some? && b.value.Item? && t.Some? && t.value.Some? && t.value.value.Item? {
      DiffLaws.DiffIsExact(b.value.item, t.value.value.item, loc, config, c);
    }
  }

  lemma {:induction false} ContentCounted(b: Content, t: Content, loc: Location, perMedia: bool, config: Config, c: Change)
    requires forall m :: m in b ==> SpecLaws.SlotWellFormed(m.value)
    ensures multiset(ContentFindings(b, t, loc, perMedia, config))[c] ==
      if perMedia then ResponseContentTimes(b, t, loc, config, c) else BodyContentTimes(b, t, loc, config, c)
  {
    if b != [] {
      var m := b[|b| - 1];
      ContentCounted(b[..|b| - 1], t, loc, perMedia, config, c);
      MediaCounted(m.value, Get(t, m.key), MediaLocation(loc, m.key, perMedia), config, c);
    }
  }

  lemma ResponseCounted(b: Entry<StatusCode, ReferenceOr<Content>>, t: Option<ReferenceOr<Content>>, loc: Location, config: Config, c: Change)
    requires SpecLaws.ContentWellFormed(b.value)
    ensures multiset(ResponseFinding(b, t, loc, config))[c] == ResponseTimes(b, t, loc, config, c)
  {
    if b.value.Item? && t.Some? && t.value.Item? {
      ContentCounted(b.value.item, t.value.item, loc + ["responses", StatusText(b.key)], true, config, c);
    }
  }

  lemma {:induction false} ResponsesCounted(b: IndexMap<StatusCode, ReferenceOr<Content>>, t: IndexMap<StatusCode, ReferenceOr<Content>>,
                                            loc: Location, config: Config, c: Change)
    requires forall r :: r in b ==> SpecLaws.ContentWellFormed(r.value)
    ensures multiset(ResponseFindings(b, t, loc, config))[c] == ResponsesTimes(b, t, loc, config, c)
  {
    if b != [] {
      var r := b[|b| - 1];
      ResponsesCounted(b[..|b| - 1], t, loc, config, c);
      ResponseCounted(r, Get(t, r.key), loc, config, c);
    }
  }

  lemma BodyCounted(b: Option<ReferenceOr<Content>>, t: Option<ReferenceOr<Content>>, loc: Location, config: Config, c: Change)
    requires b.Some? ==> SpecLaws.ContentWellFormed(b.value)
    ensures multiset(RequestFindings(b, t, loc, config))[c] == BodyTimes(b, t, loc, config, c)
  {
    if b.Some? && b.value.Item? && t.Some? && t.value.Item? {
      ContentCounted(b.value.item, t.value.item, loc + ["requestBody"], false, config, c);
    }
  }

  lemma ParametersCounted(b: seq<ReferenceOr<Parameter>>, t: seq<ReferenceOr<Parameter>>, loc: Location, config: Config, c: Change)
    ensures ParameterFindings(b, t, loc, config)[c] == ParameterTimes(b, t, loc, config, c)
  {
    var bm, tm := ParameterMap(b), ParameterMap(t);
    var removed, required := RemovedParameters(bm, tm, bm.Keys, loc, config), RequiredParameters(bm, tm, tm.Keys, loc, config);
    ParameterMembers(b, t, loc, config, c);
    assert multiset(removed)[c] == (if c in removed then 1 else 0) && multiset(required)[c] == if c in required then 1 else 0;
    assert !(c in removed && c in required);
    assert c in multiset(removed) + multiset(required) <==> c in removed || c in required;
  }

  lemma MethodCounted(b: Option<Operation>, t: Option<Operation>, loc: Location, config: Config, c: Change)
    requires SpecLaws.OperationWellFormed(b)
    ensures MethodFindings(b, t, loc, config)[c] == MethodTimes(b, t, loc, config, c)
  {
    if b.Some? && t.Some? {
      ParametersCounted(b.value.parameters, t.value.parameters, loc, config, c);
      ResponsesCounted(b.value.responses, t.value.responses, loc, config, c);
      BodyCounted(ContentOf(b.value.requestBody), ContentOf(t.value.requestBody), loc, config, c);
    }
  }

  lemma MethodCountedAt(b: PathItem, t: PathItem, k: nat, loc: Location, config: Config, c: Change)
    requires k < 5 && SpecLaws.ItemWellFormed(b)
    ensures SpecLaws.MethodFindingsAt(b, t, k, loc, config)[c] ==
      MethodTimes(Operations(b)[k].1, Operations(t)[k].1, loc + [Operations(b)[k].0], config, c)
  {
    assert SpecLaws.MethodWellFormed(b, k);
    MethodCounted(Operations(b)[k].1, Operations(t)[k].1, loc + [Operations(b)[k].0], config, c);
  }

  lemma PathCounted(b: Entry<string, ReferenceOr<PathItem>>, t: Option<ReferenceOr<PathItem>>, config: Config, c: Change)
    requires b.value.Item? ==> SpecLaws.ItemWellFormed(b.value.item)
    ensures PathFindings(b, t, config)[c] == PathTimes(b, t, config, c)
  {
    if b.value.Item? && t.Some? && t.value.Item? {
      var bi, ti, here := b.value.item, t.value.item, ["paths", b.key];
      SpecLaws.ItemUnfolds(bi, ti, here, config);
      MethodCountedAt(bi, ti, 0, here, config, c);
      MethodCountedAt(bi, ti, 1, here, config, c);
      MethodCountedAt(bi, ti, 2, here, config, c);
      MethodCountedAt(bi, ti, 3, here, config, c);
      MethodCountedAt(bi, ti, 4, here, config, c);
    }
  }

  lemma {:induction false} PathsCounted(b: IndexMap<string, ReferenceOr<PathItem>>, t: IndexMap<string, ReferenceOr<PathItem>>, config: Config, c: Change)
    requires forall p :: p in b && p.value.Item? ==> SpecLaws.ItemWellFormed(p.value.item)
    ensures PathsFindings(b, t, config)[c] == PathsTimes(b, t, config, c)
  {
    if b != [] {
      var p := b[|b| - 1];
      PathsCounted(b[..|b| - 1], t, config, c);
      PathCounted(p, Get(t, p.key), config, c);
    }
  }

  /** Exactly how often a finding is reported: once for each path, method, response code or parameter
      that causes it, and for schemas as often as the pairs at its site report it. */
  lemma DocumentIsExact(base: Document, target: Document, config: Config, c: Change)
    requires SpecLaws.DocumentWellFormed(base)
    ensures DocumentFindings(base, target, config)[c] == PathsTimes(base.paths, target.paths, config, c)
  {
    PathsCounted(base.paths, target.paths, config, c);
  }
}
