/** Requests, which of them a document accepts, and when an empty report means that every request
    written to the base document stays acceptable. */
module Requests {
  import opened Prelude
  import opened OpenApi
  import opened SpecDiff
  import opened DiffPolicy
  import opened JsonSchema
  import opened ParameterKeys
  import Compatibility
  import SpecLaws
  import DiffLaws

  /** What a document keeps apart from its paths: parameters and request bodies behind references, and
      the meaning of schema names. */
  datatype Components = Components(
    parameters: string -> Option<Parameter>, bodies: string -> Option<RequestBody>, meaning: Meaning)

  datatype Payload = Payload(media: string, value: Json)

  /** A request to one of the eight methods of a path, with a value for each parameter it gives. */
  datatype Request = Request(path: string, verb: nat, arguments: map<Key, Json>, body: Option<Payload>)

  /** The eight methods of a path item, the five compared ones first. */
  function AllOperations(item: PathItem): (ops: seq<Option<Operation>>)
    ensures |ops| == 8 && forall k :: 0 <= k < 5 ==> ops[k] == Operations(item)[k].1
  {
    [item.get, item.post, item.put, item.delete, item.patch, item.head, item.options, item.trace]
  }

  /** What an operation declares, references resolved. */
  datatype Endpoint = Endpoint(parameters: map<Key, Parameter>, body: Option<RequestBody>)

  function ResolvedBody(body: Option<ReferenceOr<RequestBody>>, c: Components): Option<RequestBody> {
    match body
    case None => None
    case Some(Item(b)) => Some(b)
    case Some(Reference(uri)) => c.bodies(uri)
  }

  function DeclaredAt(item: PathItem, op: Operation, c: Components): Declared {
    Declared(item.parameters, op.parameters, c.parameters)
  }

  function EndpointOf(item: PathItem, op: Operation, c: Components): Endpoint {
    Endpoint(KeyMap(DeclaredAt(item, op, c)), ResolvedBody(op.requestBody, c))
  }

  // ----- Acceptance

  /** A value for a declared schema; without a schema every value will do. */
  ghost predicate SlotValid(v: Json, slot: Option<ReferenceOr<Schema>>, meaning: Meaning) {
    slot.Some? ==> ValidRef(v, slot.value, meaning)
  }

  /** Only declared parameters are given, the required ones are, and their values are valid. */
  ghost predicate ArgumentsAccepted(arguments: map<Key, Json>, ps: map<Key, Parameter>, meaning: Meaning) {
    && (forall key :: key in arguments ==> key in ps && SlotValid(arguments[key], ps[key].schema, meaning))
    && (forall key :: key in ps && ps[key].required ==> key in arguments)
  }

  ghost predicate MediaAccepted(p: Payload, content: Content, meaning: Meaning) {
    var slot := Get(content, p.media);
    slot.Some? && SlotValid(p.value, slot.value, meaning)
  }

  predicate BodyOptional(body: Option<RequestBody>) {
    body.None? || !body.value.required
  }

  ghost predicate BodyAccepted(payload: Option<Payload>, body: Option<RequestBody>, meaning: Meaning) {
    match payload
    case None => BodyOptional(body)
    case Some(p) => body.Some? && MediaAccepted(p, body.value.content, meaning)
  }

  ghost predicate EndpointAccepts(arguments: map<Key, Json>, payload: Option<Payload>, e: Endpoint, meaning: Meaning) {
    ArgumentsAccepted(arguments, e.parameters, meaning) && BodyAccepted(payload, e.body, meaning)
  }

  ghost predicate OperationAccepts(q: Request, item: PathItem, c: Components) {
    && q.verb < 8 && AllOperations(item)[q.verb].Some?
    && EndpointAccepts(q.arguments, q.body, EndpointOf(item, AllOperations(item)[q.verb].value, c), c.meaning)
  }

  /** The document accepts the request. */
  ghost predicate Accepts(q: Request, d: Document, c: Components) {
    var found := Get(d.paths, q.path);
    found.Some? && found.value.Item? && OperationAccepts(q, found.value.item, c)
  }

  // ----- When one endpoint accepts all that another does

  ghost predicate SlotSatisfiable(slot: Option<ReferenceOr<Schema>>, meaning: Meaning) {
    slot.Some? ==> SatisfiableRef(slot.value, meaning)
  }

  ghost predicate SlotWellFormed(slot: Option<ReferenceOr<Schema>>) {
    slot.Some? ==> WellFormedRef(slot.value)
  }

  /** Between slots that the diff compared only what it leaves open needs to hold. */
  ghost predicate SlotIncluded(b: Option<ReferenceOr<Schema>>, t: Option<ReferenceOr<Schema>>, mb: Meaning, mt: Meaning, compared: bool) {
    t.Some? ==> if compared then Compatibility.CoveredRef(b, t.value, mb, mt) else IncludedRef(b, t.value, mb, mt)
  }

  /** No parameter of the base that can be given is removed or accepts less, and none is newly required. */
  ghost predicate ParametersIncluded(b: map<Key, Parameter>, t: map<Key, Parameter>, mb: Meaning, mt: Meaning) {
    && (forall key :: key in b && SlotSatisfiable(b[key].schema, mb) ==> key in t && SlotIncluded(b[key].schema, t[key].schema, mb, mt, false))
    && (forall key :: key in t && t[key].required ==> key in b && b[key].required)
  }

  ghost predicate MediaOffered(body: RequestBody, media: string, meaning: Meaning) {
    Get(body.content, media).Some? && SlotSatisfiable(Get(body.content, media).value, meaning)
  }

  ghost predicate MediaIncluded(b: RequestBody, t: Option<RequestBody>, media: string, mb: Meaning, mt: Meaning, compared: bool) {
    MediaOffered(b, media, mb) ==>
      t.Some? && Get(t.value.content, media).Some? && SlotIncluded(Get(b.content, media).value, Get(t.value.content, media).value, mb, mt, compared)
  }

  /** The body stays optional if it was, and every media type that can be sent stays and accepts as much. */
  ghost predicate BodyIncluded(b: Option<RequestBody>, t: Option<RequestBody>, mb: Meaning, mt: Meaning, compared: bool) {
    && (BodyOptional(b) ==> BodyOptional(t))
    && (b.Some? ==> forall media :: MediaIncluded(b.value, t, media, mb, mt, compared))
  }

  /** Some request can be written. */
  ghost predicate Usable(e: Endpoint, meaning: Meaning) {
    && (forall key :: key in e.parameters && e.parameters[key].required ==> SlotSatisfiable(e.parameters[key].schema, meaning))
    && (BodyOptional(e.body) || exists media :: MediaOffered(e.body.value, media, meaning))
  }

  ghost predicate EndpointIncluded(b: Endpoint, t: Endpoint, mb: Meaning, mt: Meaning, compared: bool) {
    ParametersIncluded(b.parameters, t.parameters, mb, mt) && BodyIncluded(b.body, t.body, mb, mt, compared)
  }

  ghost predicate EndpointWellFormed(e: Endpoint) {
    && (forall key :: key in e.parameters ==> SlotWellFormed(e.parameters[key].schema))
    && (e.body.Some? ==> forall media :: Get(e.body.value.content, media).Some? ==> SlotWellFormed(Get(e.body.value.content, media).value))
  }

  lemma SlotKeepsValues(v: Json, b: Option<ReferenceOr<Schema>>, t: Option<ReferenceOr<Schema>>, mb: Meaning, mt: Meaning)
    requires SlotIncluded(b, t, mb, mt, false) && SlotValid(v, b, mb)
    ensures SlotValid(v, t, mt)
  {
    if t.Some? { IncludedRefIsSound(v, b, t.value, mb, mt); }
  }

  lemma SlotRefuted(b: Option<ReferenceOr<Schema>>, t: Option<ReferenceOr<Schema>>, mb: Meaning, mt: Meaning) returns (v: Json)
    requires SlotWellFormed(b) && !SlotIncluded(b, t, mb, mt, false)
    ensures SlotValid(v, b, mb) && !SlotValid(v, t, mt)
  {
    v := RefuteRef(b, t.value, mb, mt);
  }

  lemma SlotSample(slot: Option<ReferenceOr<Schema>>, meaning: Meaning) returns (v: Json)
    requires SlotWellFormed(slot) && SlotSatisfiable(slot, meaning)
    ensures SlotValid(v, slot, meaning)
  {
    v := Null;
    if slot.Some? { v := SampleRef(Entry("", slot.value), meaning); }
  }

  lemma ValidSlotIsSatisfiable(v: Json, slot: Option<ReferenceOr<Schema>>, meaning: Meaning)
    requires SlotValid(v, slot, meaning)
    ensures SlotSatisfiable(slot, meaning)
  {
    if slot.Some? { ValidPropertyIsSatisfiable(v, Entry("", slot.value), meaning); }
  }

  ghost predicate SomeValue(slot: Option<ReferenceOr<Schema>>, meaning: Meaning) {
    exists v :: SlotValid(v, slot, meaning)
  }

  ghost function ValueOf(slot: Option<ReferenceOr<Schema>>, meaning: Meaning): Json
    requires SomeValue(slot, meaning)
  {
    var v :| SlotValid(v, slot, meaning); v
  }

  /** Arguments for the required parameters and no other. */
  lemma SampleArguments(e: Endpoint, meaning: Meaning) returns (arguments: map<Key, Json>)
    requires EndpointWellFormed(e) && Usable(e, meaning)
    ensures ArgumentsAccepted(arguments, e.parameters, meaning)
    ensures forall key :: key in arguments <==> key in e.parameters && e.parameters[key].required
  {
    var ps := e.parameters;
    forall key | key in ps && ps[key].required
      ensures SomeValue(ps[key].schema, meaning)
    {
      var v := SlotSample(ps[key].schema, meaning);
    }
    arguments := map key | key in ps && ps[key].required :: ValueOf(ps[key].schema, meaning);
  }

  lemma SamplePayload(e: Endpoint, meaning: Meaning) returns (payload: Option<Payload>)
    requires EndpointWellFormed(e) && Usable(e, meaning)
    ensures BodyAccepted(payload, e.body, meaning)
  {
    payload := None;
    if !BodyOptional(e.body) {
      var media :| MediaOffered(e.body.value, media, meaning);
      var v := SlotSample(Get(e.body.value.content, media).value, meaning);
      payload := Some(Payload(media, v));
    }
  }

  lemma AcceptingIsUsable(arguments: map<Key, Json>, payload: Option<Payload>, e: Endpoint, meaning: Meaning)
    requires EndpointAccepts(arguments, payload, e, meaning)
    ensures Usable(e, meaning)
  {
    forall key | key in e.parameters && e.parameters[key].required
      ensures SlotSatisfiable(e.parameters[key].schema, meaning)
    {
      ValidSlotIsSatisfiable(arguments[key], e.parameters[key].schema, meaning);
    }
    if payload.Some? {
      ValidSlotIsSatisfiable(payload.value.value, Get(e.body.value.content, payload.value.media).value, meaning);
      assert MediaOffered(e.body.value, payload.value.media, meaning);
    }
  }

  lemma UnusableAcceptsNothing(arguments: map<Key, Json>, payload: Option<Payload>, e: Endpoint, meaning: Meaning)
    requires !Usable(e, meaning)
    ensures !EndpointAccepts(arguments, payload, e, meaning)
  {
    if EndpointAccepts(arguments, payload, e, meaning) { AcceptingIsUsable(arguments, payload, e, meaning); }
  }

  lemma EndpointKeepsRequests(arguments: map<Key, Json>, payload: Option<Payload>, b: Endpoint, t: Endpoint, mb: Meaning, mt: Meaning)
    requires EndpointIncluded(b, t, mb, mt, false) && EndpointAccepts(arguments, payload, b, mb)
    ensures EndpointAccepts(arguments, payload, t, mt)
  {
    forall key | key in arguments
      ensures key in t.parameters && SlotValid(arguments[key], t.parameters[key].schema, mt)
    {
      ValidSlotIsSatisfiable(arguments[key], b.parameters[key].schema, mb);
      SlotKeepsValues(arguments[key], b.parameters[key].schema, t.parameters[key].schema, mb, mt);
    }
    if payload.Some? {
      var p := payload.value;
      ValidSlotIsSatisfiable(p.value, Get(b.body.value.content, p.media).value, mb);
      assert MediaIncluded(b.body.value, t.body, p.media, mb, mt, false);
      SlotKeepsValues(p.value, Get(b.body.value.content, p.media).value, Get(t.body.value.content, p.media).value, mb, mt);
    }
  }

  /** Where the parameters are not included, arguments tell the endpoints apart. */
  lemma RefuteArguments(b: Endpoint, t: Endpoint, mb: Meaning, mt: Meaning) returns (arguments: map<Key, Json>)
    requires EndpointWellFormed(b) && Usable(b, mb) && !ParametersIncluded(b.parameters, t.parameters, mb, mt)
    ensures ArgumentsAccepted(arguments, b.parameters, mb) && !ArgumentsAccepted(arguments, t.parameters, mt)
  {
    arguments := SampleArguments(b, mb);
    var bs, ts := b.parameters, t.parameters;
    if key :| key in bs && SlotSatisfiable(bs[key].schema, mb) && !(key in ts && SlotIncluded(bs[key].schema, ts[key].schema, mb, mt, false)) {
      var v;
      if key in ts {
        v := SlotRefuted(bs[key].schema, ts[key].schema, mb, mt);
      } else {
        v := SlotSample(bs[key].schema, mb);
      }
      arguments := arguments[key := v];
    } else {
      var key :| key in ts && ts[key].required && !(key in bs && bs[key].required);
      assert key !in arguments;
    }
  }

  lemma RefutePayload(b: Endpoint, t: Endpoint, mb: Meaning, mt: Meaning) returns (payload: Option<Payload>)
    requires EndpointWellFormed(b) && !BodyIncluded(b.body, t.body, mb, mt, false)
    ensures BodyAccepted(payload, b.body, mb) && !BodyAccepted(payload, t.body, mt)
  {
    payload := None;
    if BodyOptional(b.body) ==> BodyOptional(t.body) {
      var media :| !MediaIncluded(b.body.value, t.body, media, mb, mt, false);
      var slot := Get(b.body.value.content, media).value;
      var v;
      if t.body.Some? && Get(t.body.value.content, media).Some? {
        v := SlotRefuted(slot, Get(t.body.value.content, media).value, mb, mt);
      } else {
        v := SlotSample(slot, mb);
      }
      payload := Some(Payload(media, v));
    }
  }

  ghost predicate RequestsKept(b: Endpoint, t: Endpoint, mb: Meaning, mt: Meaning) {
    forall arguments, payload :: EndpointAccepts(arguments, payload, b, mb) ==> EndpointAccepts(arguments, payload, t, mt)
  }

  /** An endpoint accepts every request that another does if and only if no request can be written to
      the other or parameters and body are included. */
  lemma EndpointInclusionIsStructural(b: Endpoint, t: Endpoint, mb: Meaning, mt: Meaning)
    requires EndpointWellFormed(b)
    ensures (Usable(b, mb) ==> EndpointIncluded(b, t, mb, mt, false)) <==> RequestsKept(b, t, mb, mt)
  {
    if Usable(b, mb) ==> EndpointIncluded(b, t, mb, mt, false) {
      forall arguments, payload | EndpointAccepts(arguments, payload, b, mb)
        ensures EndpointAccepts(arguments, payload, t, mt)
      {
        AcceptingIsUsable(arguments, payload, b, mb);
        EndpointKeepsRequests(arguments, payload, b, t, mb, mt);
      }
    } else {
      var arguments := SampleArguments(b, mb);
      var payload := SamplePayload(b, mb);
      if ParametersIncluded(b.parameters, t.parameters, mb, mt) {
        payload := RefutePayload(b, t, mb, mt);
      } else {
        arguments := RefuteArguments(b, t, mb, mt);
      }
      assert EndpointAccepts(arguments, payload, b, mb) && !EndpointAccepts(arguments, payload, t, mt);
    }
  }

  // ----- From an empty report

  /** The diff compares the bodies of the first five methods where both are inline. */
  predicate BodiesCompared(b: Operation, t: Operation, k: nat) {
    k < 5 && b.requestBody.Some? && b.requestBody.value.Item? && t.requestBody.Some? && t.requestBody.value.Item?
  }

  /** What an empty report leaves open at one method of a path: no parameter that can be given removed,
      restricted or newly required under its location and name, the body no more required than it was,
      every media type kept, every body covered; and all of a method that is not compared. */
  ghost predicate MethodCovered(b: PathItem, t: PathItem, k: nat, cb: Components, ct: Components)
    requires k < 8
  {
    var bo, to := AllOperations(b)[k], AllOperations(t)[k];
    bo.Some? && Usable(EndpointOf(b, bo.value, cb), cb.meaning) ==>
      to.Some? && EndpointIncluded(EndpointOf(b, bo.value, cb), EndpointOf(t, to.value, ct), cb.meaning, ct.meaning, BodiesCompared(bo.value, to.value, k))
  }

  ghost predicate ItemCovered(b: PathItem, t: PathItem, cb: Components, ct: Components) {
    forall k: nat :: k < 8 ==> MethodCovered(b, t, k, cb, ct)
  }

  ghost predicate PathCovered(p: Entry<string, ReferenceOr<PathItem>>, target: Document, cb: Components, ct: Components) {
    var found := Get(target.paths, p.key);
    p.value.Item? && found.Some? && found.value.Item? ==> ItemCovered(p.value.item, found.value.item, cb, ct)
  }

  ghost predicate DocumentCovered(base: Document, target: Document, cb: Components, ct: Components) {
    forall p :: p in base.paths ==> PathCovered(p, target, cb, ct)
  }

  /** Every schema that a request can meet has unique property names. */
  ghost predicate MethodWellFormed(item: PathItem, k: nat, c: Components)
    requires k < 8
  {
    var op := AllOperations(item)[k];
    op.Some? ==> EndpointWellFormed(EndpointOf(item, op.value, c))
  }

  ghost predicate RequestsWellFormed(d: Document, c: Components) {
    && UniqueKeys(d.paths)
    && forall p :: p in d.paths && p.value.Item? ==> forall k: nat :: k < 8 ==> MethodWellFormed(p.value.item, k, c)
  }

  /** A slot the report is silent about: what is left open decides inclusion. */
  lemma ComparedSlot(b: Option<ReferenceOr<Schema>>, t: Option<ReferenceOr<Schema>>, mb: Meaning, mt: Meaning)
    requires SpecLaws.SlotKeeps(b, Some(t)) && SlotWellFormed(t)
    ensures SlotIncluded(b, t, mb, mt, true) <==> SlotIncluded(b, t, mb, mt, false)
  {
    if b.Some? && b.value.Item? && t.Some? && t.value.Item? {
      Compatibility.EmptyDiffLeavesCovered(b.value.item, t.value.item, mb, mt);
    }
  }

  lemma ComparedBody(b: RequestBody, t: RequestBody, mb: Meaning, mt: Meaning)
    requires SpecLaws.ContentKeeps(b.content, t.content)
    requires forall media :: Get(t.content, media).Some? ==> SlotWellFormed(Get(t.content, media).value)
    ensures BodyIncluded(Some(b), Some(t), mb, mt, true) <==> BodyIncluded(Some(b), Some(t), mb, mt, false)
  {
    forall media
      ensures MediaIncluded(b, Some(t), media, mb, mt, true) <==> MediaIncluded(b, Some(t), media, mb, mt, false)
    {
      var bs, ts := Get(b.content, media), Get(t.content, media);
      if bs.Some? && ts.Some? {
        var i :| 0 <= i < |b.content| && b.content[i].key == media && b.content[i].value == bs.value;
        assert b.content[i] in b.content;
        ComparedSlot(bs.value, ts.value, mb, mt);
      }
    }
  }

  /** At one method: an empty report makes what it leaves open decide. */
  lemma MethodCoveredExactly(b: PathItem, t: PathItem, k: nat, cb: Components, ct: Components)
    requires k < 8 && MethodWellFormed(b, k, cb) && MethodWellFormed(t, k, ct)
    requires k < 5 ==> SpecLaws.MethodKeeps(AllOperations(b)[k], AllOperations(t)[k])
    ensures MethodCovered(b, t, k, cb, ct) <==>
      forall q: Request :: q.verb == k && OperationAccepts(q, b, cb) ==> OperationAccepts(q, t, ct)
  {
    var bo, to := AllOperations(b)[k], AllOperations(t)[k];
    if bo.Some? {
      var be := EndpointOf(b, bo.value, cb);
      if to.Some? {
        var te := EndpointOf(t, to.value, ct);
        if BodiesCompared(bo.value, to.value, k) {
          ComparedBody(bo.value.requestBody.value.item, to.value.requestBody.value.item, cb.meaning, ct.meaning);
        }
        EndpointInclusionIsStructural(be, te, cb.meaning, ct.meaning);
        RequestsOfMethod(b, t, k, cb, ct);
      } else if Usable(be, cb.meaning) {
        var arguments := SampleArguments(be, cb.meaning);
        var payload := SamplePayload(be, cb.meaning);
        var q := Request("", k, arguments, payload);
        assert OperationAccepts(q, b, cb) && !OperationAccepts(q, t, ct);
      } else {
        forall q: Request | q.verb == k
          ensures !OperationAccepts(q, b, cb)
        {
          UnusableAcceptsNothing(q.arguments, q.body, be, cb.meaning);
        }
      }
    }
  }

  /** Requests to one method are arguments and payloads. */
  lemma RequestsOfMethod(b: PathItem, t: PathItem, k: nat, cb: Components, ct: Components)
    requires k < 8 && AllOperations(b)[k].Some? && AllOperations(t)[k].Some?
    ensures RequestsKept(EndpointOf(b, AllOperations(b)[k].value, cb), EndpointOf(t, AllOperations(t)[k].value, ct), cb.meaning, ct.meaning) <==>
      forall q: Request :: q.verb == k && OperationAccepts(q, b, cb) ==> OperationAccepts(q, t, ct)
  {
    var be, te := EndpointOf(b, AllOperations(b)[k].value, cb), EndpointOf(t, AllOperations(t)[k].value, ct);
    if forall q: Request :: q.verb == k && OperationAccepts(q, b, cb) ==> OperationAccepts(q, t, ct) {
      forall arguments, payload | EndpointAccepts(arguments, payload, be, cb.meaning)
        ensures EndpointAccepts(arguments, payload, te, ct.meaning)
      {
        var q := Request("", k, arguments, payload);
        assert OperationAccepts(q, b, cb);
      }
    }
  }

  ghost predicate ItemKeepsRequests(b: PathItem, t: PathItem, cb: Components, ct: Components) {
    forall q: Request :: OperationAccepts(q, b, cb) ==> OperationAccepts(q, t, ct)
  }

  lemma ItemCoveredExactly(b: PathItem, t: PathItem, cb: Components, ct: Components)
    requires forall k: nat :: k < 8 ==> MethodWellFormed(b, k, cb) && MethodWellFormed(t, k, ct)
    requires SpecLaws.MethodsKeep(b, t)
    ensures ItemCovered(b, t, cb, ct) <==> ItemKeepsRequests(b, t, cb, ct)
  {
    forall k: nat | k < 8
      ensures MethodCovered(b, t, k, cb, ct) <==>
        forall q: Request :: q.verb == k && OperationAccepts(q, b, cb) ==> OperationAccepts(q, t, ct)
    {
      if k < 5 { SpecLaws.MethodKept(b, t, k); }
      MethodCoveredExactly(b, t, k, cb, ct);
    }
    if ItemCovered(b, t, cb, ct) {
      forall q: Request | OperationAccepts(q, b, cb)
        ensures OperationAccepts(q, t, ct)
      {
        assert MethodCovered(b, t, q.verb, cb, ct);
      }
    }
  }

  /** The report of a completed comparison is empty, and schemas have unique property names. */
  ghost predicate CleanComparison(base: Document, target: Document, cb: Components, ct: Components) {
    && SharedPathsInline(base, target) && DocumentFindings(base, target, DEFAULT_CONFIG) == multiset{}
    && RequestsWellFormed(base, cb) && RequestsWellFormed(target, ct)
  }

  lemma PathCoveredExactly(base: Document, target: Document, p: Entry<string, ReferenceOr<PathItem>>, cb: Components, ct: Components)
    requires CleanComparison(base, target, cb, ct) && p in base.paths
    ensures var found := Get(target.paths, p.key);
      && p.value.Item? && found.Some? && found.value.Item? && Get(base.paths, p.key) == Some(p.value)
      && (PathCovered(p, target, cb, ct) <==> ItemKeepsRequests(p.value.item, found.value.item, cb, ct))
  {
    SpecLaws.EmptyReportExactly(base, target);
    SpecLaws.GetOwn(base.paths, p);
    var found := Get(target.paths, p.key);
    assert SpecLaws.PathKeeps(p, found) && SharedInline(p, found);
    var i :| 0 <= i < |target.paths| && target.paths[i].key == p.key && target.paths[i].value == found.value;
    assert target.paths[i] in target.paths;
    ItemCoveredExactly(p.value.item, found.value.item, cb, ct);
  }

  lemma CoveredKeepsRequests(base: Document, target: Document, cb: Components, ct: Components, q: Request)
    requires CleanComparison(base, target, cb, ct) && DocumentCovered(base, target, cb, ct) && Accepts(q, base, cb)
    ensures Accepts(q, target, ct)
  {
    var found := Get(base.paths, q.path);
    var i :| 0 <= i < |base.paths| && base.paths[i].key == q.path && base.paths[i].value == found.value;
    var p := base.paths[i];
    assert p in base.paths && PathCovered(p, target, cb, ct);
    PathCoveredExactly(base, target, p, cb, ct);
  }

  ghost predicate RequestsStay(base: Document, target: Document, cb: Components, ct: Components) {
    forall q: Request :: Accepts(q, base, cb) ==> Accepts(q, target, ct)
  }

  lemma RequestsStayAtPath(base: Document, target: Document, cb: Components, ct: Components, p: Entry<string, ReferenceOr<PathItem>>)
    requires CleanComparison(base, target, cb, ct) && RequestsStay(base, target, cb, ct) && p in base.paths
    ensures PathCovered(p, target, cb, ct)
  {
    PathCoveredExactly(base, target, p, cb, ct);
    forall q: Request | OperationAccepts(q, p.value.item, cb)
      ensures OperationAccepts(q, Get(target.paths, p.key).value.item, ct)
    {
      var here := q.(path := p.key);
      assert Accepts(here, base, cb);
    }
  }

  /** What an empty report is worth: every request that the base accepts is accepted by the target if
      and only if the target is covered. */
  lemma EmptyReportKeepsRequestsExactly(base: Document, target: Document, cb: Components, ct: Components)
    requires CleanComparison(base, target, cb, ct)
    ensures DocumentCovered(base, target, cb, ct) <==> RequestsStay(base, target, cb, ct)
  {
    if DocumentCovered(base, target, cb, ct) {
      forall q: Request | Accepts(q, base, cb)
        ensures Accepts(q, target, ct)
      {
        CoveredKeepsRequests(base, target, cb, ct, q);
      }
    }
    if RequestsStay(base, target, cb, ct) {
      forall p | p in base.paths
        ensures PathCovered(p, target, cb, ct)
      {
        RequestsStayAtPath(base, target, cb, ct, p);
      }
    }
  }

  ghost predicate SchemasIncluded(b: map<Key, Parameter>, t: map<Key, Parameter>, mb: Meaning, mt: Meaning) {
    forall key :: key in b && key in t ==> SlotIncluded(b[key].schema, t[key].schema, mb, mt, false)
  }

  /** The parameters' part of it, where every parameter can be given: each name shows its removals and
      requirements, and no schema accepts less. */
  lemma ParametersIncludedExactly(b: Declared, t: Declared, loc: Location, mb: Meaning, mt: Meaning)
    requires ParameterFindings(b.own, t.own, loc, DEFAULT_CONFIG) == multiset{}
    requires forall key :: key in KeyMap(b) ==> SlotSatisfiable(KeyMap(b)[key].schema, mb)
    ensures ParametersIncluded(KeyMap(b), KeyMap(t), mb, mt) <==>
      (forall name :: RemovalsShow(b, t, name) && RequirementsShow(b, t, name)) && SchemasIncluded(KeyMap(b), KeyMap(t), mb, mt)
  {
    SilenceExactly(b, t, loc);
    if ParametersIncluded(KeyMap(b), KeyMap(t), mb, mt) {
      assert forall key :: !KeyRemoved(b, t, key) && !KeyRequired(b, t, key);
    }
    if forall key :: !KeyRemoved(b, t, key) && !KeyRequired(b, t, key) {
      assert forall key :: key in KeyMap(b) ==> !KeyRemoved(b, t, key);
      assert forall key :: key in KeyMap(t) ==> !KeyRequired(b, t, key);
    }
  }

  // ----- Breaking changes of requests that the diff does not see

  /** A media type dropped beside a kept one, and a body that becomes mandatory. */
  lemma DroppedMediaIsUnseen(loc: Location)
    ensures var b, t := [Entry("application/json", None), Entry("application/xml", None)], [Entry("application/json", None)];
      var bodies := (c: Content, required: bool) => Some(Item(RequestBody(required, c)));
      && RequestFindings(ContentOf(bodies(b, false)), ContentOf(bodies(t, true)), loc, DEFAULT_CONFIG) == []
      && (forall v, m :: BodyAccepted(Some(Payload("application/xml", v)), Some(RequestBody(false, b)), m))
      && (forall v, m :: !BodyAccepted(Some(Payload("application/xml", v)), Some(RequestBody(true, t)), m))
      && (forall m :: BodyAccepted(None, Some(RequestBody(false, b)), m) && !BodyAccepted(None, Some(RequestBody(true, t)), m))
  {
    var b: Content, t: Content := [Entry("application/json", None), Entry("application/xml", None)], [Entry("application/json", None)];
    assert b[1..] == [Entry("application/xml", None)] && t[1..] == [];
    assert Get(b, "application/xml") == Some(None) && Get(t, "application/xml") == None;
    SpecLaws.ContentEmpty(b, t, loc + ["requestBody"], false);
  }
}
