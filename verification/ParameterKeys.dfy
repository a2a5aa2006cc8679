/** Parameters as the code compares them, by name and among the inline declarations of an operation,
    against parameters as OpenAPI 3.0.3 declares them: identified by location and name (section
    4.7.12), also by reference, and also for all methods of a path item (section 4.7.9). */
module ParameterKeys {
  import opened OpenApi
  import opened SpecDiff
  import opened Prelude

  datatype Key = Key(kind: ParameterKind, name: string)

  function KeyOf(p: Parameter): Key {
    Key(p.kind, p.name)
  }

  /** What a document says about the parameters of one operation: those of its path item, its own, and
      what references resolve to, if to anything. */
  datatype Declared = Declared(
    shared: seq<ReferenceOr<Parameter>>, own: seq<ReferenceOr<Parameter>>, resolve: string -> Option<Parameter>)

  function Resolved(r: ReferenceOr<Parameter>, resolve: string -> Option<Parameter>): Option<Parameter> {
    match r
    case Item(p) => Some(p)
    case Reference(uri) => resolve(uri)
  }

  /** Parameters by location and name, the last declaration winning. */
  function Keyed(params: seq<ReferenceOr<Parameter>>, resolve: string -> Option<Parameter>): map<Key, Parameter> {
    if params == [] then map[]
    else
      var n := |params| - 1;
      var m := Keyed(params[..n], resolve);
      var p := Resolved(params[n], resolve);
      if p.Some? then m[KeyOf(p.value) := p.value] else m
  }

  /** The operation's own declarations override those of the path item. */
  function KeyMap(d: Declared): map<Key, Parameter> {
    Keyed(d.shared + d.own, d.resolve)
  }

  /** An entry declares the key. */
  predicate Declares(params: seq<ReferenceOr<Parameter>>, resolve: string -> Option<Parameter>, i: nat, key: Key) {
    i < |params| && Resolved(params[i], resolve).Some? && KeyOf(Resolved(params[i], resolve).value) == key
  }

  /** And no later one does. */
  ghost predicate DeclaresLast(params: seq<ReferenceOr<Parameter>>, resolve: string -> Option<Parameter>, i: nat, key: Key) {
    Declares(params, resolve, i, key) && forall j: nat :: i < j ==> !Declares(params, resolve, j, key)
  }

  /** The map holds exactly the declared keys, each with its last declaration. */
  lemma {:induction false} KeyedExactly(params: seq<ReferenceOr<Parameter>>, resolve: string -> Option<Parameter>, key: Key)
    ensures key !in Keyed(params, resolve) ==> forall i: nat :: !Declares(params, resolve, i, key)
    ensures key in Keyed(params, resolve) ==>
      exists i: nat :: DeclaresLast(params, resolve, i, key) && Keyed(params, resolve)[key] == Resolved(params[i], resolve).value
  {
    if params != [] {
      var n := |params| - 1;
      if Declares(params, resolve, n, key) {
        assert DeclaresLast(params, resolve, n, key);
      } else {
        KeyedExactly(params[..n], resolve, key);
        assert forall i: nat :: Declares(params[..n], resolve, i, key) <==> Declares(params, resolve, i, key);
        if key in Keyed(params, resolve) {
          var i: nat :| DeclaresLast(params[..n], resolve, i, key) && Keyed(params[..n], resolve)[key] == Resolved(params[..n][i], resolve).value;
          assert DeclaresLast(params, resolve, i, key);
        }
      }
    }
  }

  /** Later declarations override earlier ones. */
  lemma {:induction false} KeyedAppend(a: seq<ReferenceOr<Parameter>>, b: seq<ReferenceOr<Parameter>>, resolve: string -> Option<Parameter>)
    ensures Keyed(a + b, resolve) == Keyed(a, resolve) + Keyed(b, resolve)
  {
    if b == [] {
      assert a + b == a;
    } else {
      assert (a + b)[..|a + b| - 1] == a + b[..|b| - 1];
      KeyedAppend(a, b[..|b| - 1], resolve);
    }
  }

  /** An inline declaration is a declaration: the last one of a name has its key in the map. */
  lemma {:induction false} InlineIsDeclared(shared: seq<ReferenceOr<Parameter>>, own: seq<ReferenceOr<Parameter>>,
                                            resolve: string -> Option<Parameter>, name: string)
    ensures name in ParameterMap(own) ==> ParameterMap(own)[name].name == name && KeyOf(ParameterMap(own)[name]) in Keyed(shared + own, resolve)
  {
    if own != [] {
      var n := |own| - 1;
      InlineIsDeclared(shared, own[..n], resolve, name);
      assert (shared + own)[..|shared + own| - 1] == shared + own[..n];
    }
  }

  /** The key is removed. */
  predicate KeyRemoved(b: Declared, t: Declared, key: Key) {
    key in KeyMap(b) && key !in KeyMap(t)
  }

  /** The key is newly required. */
  predicate KeyRequired(b: Declared, t: Declared, key: Key) {
    key in KeyMap(t) && KeyMap(t)[key].required && !(key in KeyMap(b) && KeyMap(b)[key].required)
  }

  function Finding(loc: Location, key: Key, detail: Detail): Change {
    Change(Breaking, loc + ["parameters", KindText(key.kind), key.name], detail)
  }

  ghost predicate RemovalReported(b: Declared, t: Declared, key: Key, loc: Location) {
    Finding(loc, key, ParameterRemoved(key.kind, key.name)) in ParameterFindings(b.own, t.own, loc, DEFAULT_CONFIG)
  }

  ghost predicate RequirementReported(b: Declared, t: Declared, key: Key, loc: Location) {
    || Finding(loc, key, ParameterMadeRequired(key.kind, key.name)) in ParameterFindings(b.own, t.own, loc, DEFAULT_CONFIG)
    || Finding(loc, key, RequiredParameterAdded(key.kind, key.name)) in ParameterFindings(b.own, t.own, loc, DEFAULT_CONFIG)
  }

  /** The key is that of the last inline declaration of its name. */
  predicate IsLast(own: seq<ReferenceOr<Parameter>>, key: Key) {
    key.name in ParameterMap(own) && ParameterMap(own)[key.name].kind == key.kind
  }

  /** And that declaration requires it. */
  predicate IsLastRequired(own: seq<ReferenceOr<Parameter>>, key: Key) {
    IsLast(own, key) && ParameterMap(own)[key.name].required
  }

  /** The last inline declaration of the name, if any, is optional. */
  predicate LastOptional(own: seq<ReferenceOr<Parameter>>, name: string) {
    name in ParameterMap(own) ==> !ParameterMap(own)[name].required
  }

  /** A removal is reported for exactly the keys that are their name's last in the base, the name
      being declared nowhere inline in the target. */
  lemma RemovalReportedExactly(b: Declared, t: Declared, key: Key, loc: Location)
    ensures RemovalReported(b, t, key, loc) <==> IsLast(b.own, key) && key.name !in ParameterMap(t.own)
  {
    var bm, tm := ParameterMap(b.own), ParameterMap(t.own);
    var removed, required := RemovedParameters(bm, tm, bm.Keys, loc, DEFAULT_CONFIG), RequiredParameters(bm, tm, tm.Keys, loc, DEFAULT_CONFIG);
    var c := Finding(loc, key, ParameterRemoved(key.kind, key.name));
    assert c in multiset(removed) + multiset(required) <==> c in removed || c in required;
    if c in removed {
      var name :| name in bm && IsRemoved(bm, tm, name, DEFAULT_CONFIG) && c == RemovedParameter(bm[name], loc);
      InlineIsDeclared(b.shared, b.own, b.resolve, name);
    }
    if IsLast(b.own, key) && key.name !in tm {
      InlineIsDeclared(b.shared, b.own, b.resolve, key.name);
      assert IsRemoved(bm, tm, key.name, DEFAULT_CONFIG) && c == RemovedParameter(bm[key.name], loc);
    }
  }

  /** A requirement is reported for exactly the keys that are their name's last in the target and
      required there, the name's last inline declaration in the base being optional or absent: in the
      one case as made required, in the other as added. */
  lemma RequirementReportedExactly(b: Declared, t: Declared, key: Key, loc: Location)
    ensures RequirementReported(b, t, key, loc) <==> IsLastRequired(t.own, key) && LastOptional(b.own, key.name)
    ensures Finding(loc, key, ParameterMadeRequired(key.kind, key.name)) in ParameterFindings(b.own, t.own, loc, DEFAULT_CONFIG) <==>
      IsLastRequired(t.own, key) && key.name in ParameterMap(b.own) && !ParameterMap(b.own)[key.name].required
    ensures Finding(loc, key, RequiredParameterAdded(key.kind, key.name)) in ParameterFindings(b.own, t.own, loc, DEFAULT_CONFIG) <==>
      IsLastRequired(t.own, key) && key.name !in ParameterMap(b.own)
  {
    var bm, tm := ParameterMap(b.own), ParameterMap(t.own);
    var removed, required := RemovedParameters(bm, tm, bm.Keys, loc, DEFAULT_CONFIG), RequiredParameters(bm, tm, tm.Keys, loc, DEFAULT_CONFIG);
    var made, added := Finding(loc, key, ParameterMadeRequired(key.kind, key.name)), Finding(loc, key, RequiredParameterAdded(key.kind, key.name));
    assert forall c :: c in multiset(removed) + multiset(required) <==> c in removed || c in required;
    InlineIsDeclared(t.shared, t.own, t.resolve, key.name);
    forall c | c in {made, added} && c in required
      ensures IsLastRequired(t.own, key) && LastOptional(b.own, key.name) && c == RequiredParameter(tm[key.name], key.name in bm, loc)
    {
      var name :| name in tm && IsNewlyRequired(bm, tm, name, DEFAULT_CONFIG) && c == RequiredParameter(tm[name], name in bm, loc);
      InlineIsDeclared(t.shared, t.own, t.resolve, name);
    }
    if IsLastRequired(t.own, key) && LastOptional(b.own, key.name) {
      assert IsNewlyRequired(bm, tm, key.name, DEFAULT_CONFIG);
      assert RequiredParameter(tm[key.name], key.name in bm, loc) in required;
    }
  }

  // ----- When nothing goes unreported

  /** The locations under which a document declares a name. */
  function Kinds(d: Declared, name: string): set<ParameterKind> {
    set key | key in KeyMap(d) && key.name == name :: key.kind
  }

  /** The name loses no location, or one only: that of its last inline declaration in the base, while
      the target does not declare the name inline at all. */
  ghost predicate RemovalsShow(b: Declared, t: Declared, name: string) {
    || Kinds(b, name) <= Kinds(t, name)
    || (name in ParameterMap(b.own) && Kinds(b, name) - Kinds(t, name) == {ParameterMap(b.own)[name].kind} && name !in ParameterMap(t.own))
  }

  /** The name is newly required, if at all, as its last inline declaration in the target says, its
      last inline declaration in the base being optional or absent. */
  predicate RequirementsShow(b: Declared, t: Declared, name: string) {
    forall key :: key in KeyMap(t) && key.name == name && KeyRequired(b, t, key) ==> IsLastRequired(t.own, key) && LastOptional(b.own, name)
  }

  ghost predicate Shown(b: Declared, t: Declared, key: Key, loc: Location) {
    && (KeyRemoved(b, t, key) ==> RemovalReported(b, t, key, loc))
    && (KeyRequired(b, t, key) ==> RequirementReported(b, t, key, loc))
  }

  ghost predicate NothingUnreported(b: Declared, t: Declared, loc: Location) {
    forall key :: Shown(b, t, key, loc)
  }

  lemma InKinds(d: Declared, kind: ParameterKind, name: string)
    ensures kind in Kinds(d, name) <==> Key(kind, name) in KeyMap(d)
  {
  }

  lemma RemovalsOfName(b: Declared, t: Declared, name: string, loc: Location)
    ensures RemovalsShow(b, t, name) <==> forall kind :: KeyRemoved(b, t, Key(kind, name)) ==> RemovalReported(b, t, Key(kind, name), loc)
  {
    var lost := Kinds(b, name) - Kinds(t, name);
    forall kind
      ensures KeyRemoved(b, t, Key(kind, name)) <==> kind in lost
      ensures RemovalReported(b, t, Key(kind, name), loc) <==> IsLast(b.own, Key(kind, name)) && name !in ParameterMap(t.own)
    {
      RemovalReportedExactly(b, t, Key(kind, name), loc);
      InKinds(b, kind, name);
      InKinds(t, kind, name);
    }
    if forall kind :: KeyRemoved(b, t, Key(kind, name)) ==> RemovalReported(b, t, Key(kind, name), loc) {
      assert forall kind :: kind in lost ==> KeyRemoved(b, t, Key(kind, name)) && IsLast(b.own, Key(kind, name));
      if kind :| kind in lost {
        assert lost == {kind};
      }
    }
  }

  lemma RequirementsOfName(b: Declared, t: Declared, name: string, loc: Location)
    ensures RequirementsShow(b, t, name) <==> forall kind :: KeyRequired(b, t, Key(kind, name)) ==> RequirementReported(b, t, Key(kind, name), loc)
  {
    forall kind
      ensures RequirementReported(b, t, Key(kind, name), loc) <==> IsLastRequired(t.own, Key(kind, name)) && LastOptional(b.own, name)
    {
      RequirementReportedExactly(b, t, Key(kind, name), loc);
    }
    assert forall key :: key in KeyMap(t) && key.name == name ==> key == Key(key.kind, name);
  }

  /** When the code reports every removal and every new requirement: exactly when each name shows both. */
  lemma NothingUnreportedExactly(b: Declared, t: Declared, loc: Location)
    ensures NothingUnreported(b, t, loc) <==> forall name :: RemovalsShow(b, t, name) && RequirementsShow(b, t, name)
  {
    forall name
      ensures RemovalsShow(b, t, name) && RequirementsShow(b, t, name) <==> forall kind :: Shown(b, t, Key(kind, name), loc)
    {
      RemovalsOfName(b, t, name, loc);
      RequirementsOfName(b, t, name, loc);
      if forall kind :: Shown(b, t, Key(kind, name), loc) {
        assert forall kind :: Shown(b, t, Key(kind, name), loc) && (KeyRemoved(b, t, Key(kind, name)) ==> RemovalReported(b, t, Key(kind, name), loc));
        assert forall kind :: Shown(b, t, Key(kind, name), loc) && (KeyRequired(b, t, Key(kind, name)) ==> RequirementReported(b, t, Key(kind, name), loc));
      }
    }
    if forall name :: RemovalsShow(b, t, name) && RequirementsShow(b, t, name) {
      forall key: Key
        ensures Shown(b, t, key, loc)
      {
        assert RemovalsShow(b, t, key.name) && RequirementsShow(b, t, key.name);
        assert Shown(b, t, Key(key.kind, key.name), loc);
      }
    }
  }

  /** When a report is silent about parameters: nothing was removed or newly required if and only if
      each name shows both. */
  lemma SilenceExactly(b: Declared, t: Declared, loc: Location)
    requires ParameterFindings(b.own, t.own, loc, DEFAULT_CONFIG) == multiset{}
    ensures (forall key :: !KeyRemoved(b, t, key) && !KeyRequired(b, t, key)) <==>
      forall name :: RemovalsShow(b, t, name) && RequirementsShow(b, t, name)
  {
    NothingUnreportedExactly(b, t, loc);
    assert forall key :: Shown(b, t, key, loc) <==> !KeyRemoved(b, t, key) && !KeyRequired(b, t, key);
  }

  /** What is reported is declared. */
  lemma ReportedIsDeclared(b: Declared, t: Declared, key: Key, loc: Location)
    ensures RemovalReported(b, t, key, loc) ==> key in KeyMap(b)
    ensures RequirementReported(b, t, key, loc) ==> key in KeyMap(t)
  {
    RemovalReportedExactly(b, t, key, loc);
    RequirementReportedExactly(b, t, key, loc);
    InlineIsDeclared(b.shared, b.own, b.resolve, key.name);
    InlineIsDeclared(t.shared, t.own, t.resolve, key.name);
  }

  // ----- When nothing is reported that did not happen

  /** The path item or a reference of the operation declares the key. */
  ghost predicate Elsewhere(d: Declared, key: Key) {
    || (exists i: nat :: Declares(d.shared, d.resolve, i, key))
    || (exists i: nat :: Declares(d.own, d.resolve, i, key) && d.own[i].Reference?)
  }

  /** Where a removal of the name is reported, the target declares its key nowhere else either. */
  ghost predicate RemovalsTrue(b: Declared, t: Declared, name: string) {
    name in ParameterMap(b.own) && name !in ParameterMap(t.own) ==> !Elsewhere(t, Key(ParameterMap(b.own)[name].kind, name))
  }

  /** A reference that comes last for the key declares it, as required or as optional. */
  ghost predicate ByReference(d: Declared, key: Key, required: bool) {
    exists i: nat :: DeclaresLast(d.own, d.resolve, i, key) && d.own[i].Reference? && Resolved(d.own[i], d.resolve).value.required == required
  }

  /** The path item requires the key and the operation says nothing of it. */
  ghost predicate RequiredByPathItem(d: Declared, key: Key) {
    && (exists i: nat :: DeclaresLast(d.shared, d.resolve, i, key) && Resolved(d.shared[i], d.resolve).value.required)
    && forall i: nat :: !Declares(d.own, d.resolve, i, key)
  }

  /** An inline declaration requires the key, and a later one of its name, under another location,
      hides it from a comparison by name. */
  ghost predicate RequiredInShadow(d: Declared, key: Key) {
    exists i: nat, j: nat :: DeclaresLast(d.own, d.resolve, i, key) && d.own[i].Item? && d.own[i].item.required && i < j && LastDeclared(d.own, j, key.name)
  }

  /** Where a requirement of the name is reported, no later reference in the target lifts it, and the
      base did not require the key by its path item, by a reference or in the shadow of another one. */
  ghost predicate RequirementsTrue(b: Declared, t: Declared, name: string) {
    name in ParameterMap(t.own) && ParameterMap(t.own)[name].required && LastOptional(b.own, name) ==>
      var key := Key(ParameterMap(t.own)[name].kind, name);
      !ByReference(t, key, false) && !RequiredByPathItem(b, key) && !ByReference(b, key, true) && !RequiredInShadow(b, key)
  }

  /** A key is declared if it is declared elsewhere or inline, and then its name is. */
  lemma DeclaredElsewhereOrInline(d: Declared, key: Key)
    ensures key in KeyMap(d) && key.name !in ParameterMap(d.own) ==> Elsewhere(d, key)
    ensures Elsewhere(d, key) ==> key in KeyMap(d)
  {
    KeyedAppend(d.shared, d.own, d.resolve);
    KeyedExactly(d.shared, d.resolve, key);
    KeyedExactly(d.own, d.resolve, key);
    LastDeclarationWins(d.own, key.name);
    if i: nat :| Declares(d.own, d.resolve, i, key) && d.own[i].Item? {
      assert DeclaredAt(d.own, i, key.name);
    }
  }

  lemma RemovalsTrueExactly(b: Declared, t: Declared, loc: Location)
    ensures (forall key :: RemovalReported(b, t, key, loc) ==> KeyRemoved(b, t, key)) <==> forall name :: RemovalsTrue(b, t, name)
  {
    forall key
      ensures RemovalReported(b, t, key, loc) <==> IsLast(b.own, key) && key.name !in ParameterMap(t.own)
      ensures RemovalReported(b, t, key, loc) ==> (KeyRemoved(b, t, key) <==> !Elsewhere(t, key))
    {
      RemovalReportedExactly(b, t, key, loc);
      ReportedIsDeclared(b, t, key, loc);
      DeclaredElsewhereOrInline(t, key);
    }
    if forall key :: RemovalReported(b, t, key, loc) ==> KeyRemoved(b, t, key) {
      forall name
        ensures RemovalsTrue(b, t, name)
      {
        if name in ParameterMap(b.own) { assert RemovalReported(b, t, Key(ParameterMap(b.own)[name].kind, name), loc) ==> KeyRemoved(b, t, Key(ParameterMap(b.own)[name].kind, name)); }
      }
    }
    if forall name :: RemovalsTrue(b, t, name) {
      forall key | RemovalReported(b, t, key, loc)
        ensures KeyRemoved(b, t, key)
      {
        assert RemovalsTrue(b, t, key.name) && key == Key(ParameterMap(b.own)[key.name].kind, key.name);
      }
    }
  }

  /** The last of several declarations of a key is unique. */
  lemma OneLast(params: seq<ReferenceOr<Parameter>>, resolve: string -> Option<Parameter>, i: nat, j: nat, key: Key)
    requires DeclaresLast(params, resolve, i, key) && DeclaresLast(params, resolve, j, key)
    ensures i == j
  {
  }

  /** Whether the target keeps a requirement that its last inline declaration states. */
  lemma LiftedExactly(t: Declared, key: Key)
    requires IsLastRequired(t.own, key)
    ensures key in KeyMap(t) && (KeyMap(t)[key].required <==> !ByReference(t, key, false))
  {
    InlineIsDeclared([], t.own, t.resolve, key.name);
    assert [] + t.own == t.own;
    KeyedAppend(t.shared, t.own, t.resolve);
    KeyedExactly(t.own, t.resolve, key);
    var i: nat :| DeclaresLast(t.own, t.resolve, i, key) && Keyed(t.own, t.resolve)[key] == Resolved(t.own[i], t.resolve).value;
    if t.own[i].Item? { LastOfKeyIsLastOfName(t, key, i); }
    if j: nat :| DeclaresLast(t.own, t.resolve, j, key) && t.own[j].Reference? && !Resolved(t.own[j], t.resolve).value.required {
      OneLast(t.own, t.resolve, i, j, key);
    }
  }

  /** Where a name's last inline declaration is of the key, the key's own last one, if inline, is it. */
  lemma LastOfKeyIsLastOfName(d: Declared, key: Key, i: nat)
    requires IsLast(d.own, key) && DeclaresLast(d.own, d.resolve, i, key) && d.own[i].Item?
    ensures ParameterMap(d.own)[key.name] == d.own[i].item
  {
    LastDeclarationWins(d.own, key.name);
    var j :| LastDeclared(d.own, j, key.name) && ParameterMap(d.own)[key.name] == d.own[j].item;
    assert DeclaredAt(d.own, i, key.name) && DeclaredAt(d.own, j, key.name);
    assert Declares(d.own, d.resolve, j, key);
  }

  /** Whether the base required a key although the last inline declaration of its name does not. */
  lemma RequiredElsewhereExactly(b: Declared, key: Key)
    requires LastOptional(b.own, key.name)
    ensures key in KeyMap(b) && KeyMap(b)[key].required <==> RequiredByPathItem(b, key) || ByReference(b, key, true) || RequiredInShadow(b, key)
  {
    KeyedAppend(b.shared, b.own, b.resolve);
    KeyedExactly(b.own, b.resolve, key);
    if key in Keyed(b.own, b.resolve) {
      var i: nat :| DeclaresLast(b.own, b.resolve, i, key) && Keyed(b.own, b.resolve)[key] == Resolved(b.own[i], b.resolve).value;
      RequiredByOperation(b, key, i);
    } else {
      RequiredByPathItemExactly(b, key);
    }
  }

  lemma RequiredByPathItemExactly(b: Declared, key: Key)
    requires key !in Keyed(b.own, b.resolve)
    ensures key in Keyed(b.shared, b.resolve) && Keyed(b.shared, b.resolve)[key].required <==> RequiredByPathItem(b, key)
    ensures !ByReference(b, key, true) && !RequiredInShadow(b, key)
  {
    KeyedExactly(b.own, b.resolve, key);
    KeyedExactly(b.shared, b.resolve, key);
    if key in Keyed(b.shared, b.resolve) {
      var i: nat :| DeclaresLast(b.shared, b.resolve, i, key) && Keyed(b.shared, b.resolve)[key] == Resolved(b.shared[i], b.resolve).value;
      if j: nat :| DeclaresLast(b.shared, b.resolve, j, key) && Resolved(b.shared[j], b.resolve).value.required {
        OneLast(b.shared, b.resolve, i, j, key);
      }
    }
  }

  lemma RequiredByOperation(b: Declared, key: Key, i: nat)
    requires LastOptional(b.own, key.name) && DeclaresLast(b.own, b.resolve, i, key)
    ensures Resolved(b.own[i], b.resolve).value.required <==> ByReference(b, key, true) || RequiredInShadow(b, key)
    ensures !RequiredByPathItem(b, key)
  {
    var required := Resolved(b.own[i], b.resolve).value.required;
    if required && b.own[i].Item? {
      LastDeclarationWins(b.own, key.name);
      assert DeclaredAt(b.own, i, key.name);
      var j :| LastDeclared(b.own, j, key.name) && ParameterMap(b.own)[key.name] == b.own[j].item;
      assert i < j;
    }
    if j: nat :| DeclaresLast(b.own, b.resolve, j, key) && (b.own[j].Item? ==> b.own[j].item.required) && Resolved(b.own[j], b.resolve).value.required {
      OneLast(b.own, b.resolve, i, j, key);
    }
  }

  lemma RequirementsTrueExactly(b: Declared, t: Declared, loc: Location)
    ensures (forall key :: RequirementReported(b, t, key, loc) ==> KeyRequired(b, t, key)) <==> forall name :: RequirementsTrue(b, t, name)
  {
    forall key
      ensures RequirementReported(b, t, key, loc) <==> IsLastRequired(t.own, key) && LastOptional(b.own, key.name)
      ensures RequirementReported(b, t, key, loc) ==>
        (KeyRequired(b, t, key) <==> !ByReference(t, key, false) && !RequiredByPathItem(b, key) && !ByReference(b, key, true) && !RequiredInShadow(b, key))
    {
      RequirementReportedExactly(b, t, key, loc);
      if IsLastRequired(t.own, key) && LastOptional(b.own, key.name) {
        LiftedExactly(t, key);
        RequiredElsewhereExactly(b, key);
      }
    }
    if forall key :: RequirementReported(b, t, key, loc) ==> KeyRequired(b, t, key) {
      forall name
        ensures RequirementsTrue(b, t, name)
      {
        if name in ParameterMap(t.own) {
          var key := Key(ParameterMap(t.own)[name].kind, name);
          assert RequirementReported(b, t, key, loc) ==> KeyRequired(b, t, key);
        }
      }
    }
    if forall name :: RequirementsTrue(b, t, name) {
      forall key | RequirementReported(b, t, key, loc)
        ensures KeyRequired(b, t, key)
      {
        assert RequirementsTrue(b, t, key.name) && key == Key(ParameterMap(t.own)[key.name].kind, key.name);
      }
    }
  }

  ghost predicate NotSpurious(b: Declared, t: Declared, key: Key, loc: Location) {
    && (RemovalReported(b, t, key, loc) ==> KeyRemoved(b, t, key))
    && (RequirementReported(b, t, key, loc) ==> KeyRequired(b, t, key))
  }

  ghost predicate NothingSpurious(b: Declared, t: Declared, loc: Location) {
    forall key :: NotSpurious(b, t, key, loc)
  }

  /** When the code reports no removal and no requirement that did not happen: exactly when, for each
      name it reports, references, the path items and shadowed declarations say nothing to the contrary. */
  lemma NothingSpuriousExactly(b: Declared, t: Declared, loc: Location)
    ensures NothingSpurious(b, t, loc) <==> forall name :: RemovalsTrue(b, t, name) && RequirementsTrue(b, t, name)
  {
    RemovalsTrueExactly(b, t, loc);
    RequirementsTrueExactly(b, t, loc);
    if NothingSpurious(b, t, loc) {
      assert forall key :: RemovalReported(b, t, key, loc) ==> NotSpurious(b, t, key, loc);
      assert forall key :: RequirementReported(b, t, key, loc) ==> NotSpurious(b, t, key, loc);
    }
  }

  /** References and the path item declare nothing that the operation does not declare inline. */
  predicate InlineSays(d: Declared) {
    KeyMap(d) == Keyed(d.own, uri => None)
  }

  /** No name stands under two locations, within a document or across the two. */
  predicate NamesUnshared(b: Declared, t: Declared) {
    forall key, other :: key in KeyMap(b) + KeyMap(t) && other in KeyMap(b) + KeyMap(t) && key.name == other.name ==> key == other
  }

  /** The two maps of the inline declarations: a name is declared if some key with it is, and its last
      declaration is the last one of its own key. */
  lemma {:induction false} MapsAgree(own: seq<ReferenceOr<Parameter>>)
    ensures var m := Keyed(own, uri => None); forall key :: key in m ==> KeyOf(m[key]) == key && key.name in ParameterMap(own)
    ensures var m := Keyed(own, uri => None); forall name :: name in ParameterMap(own) ==>
      var p := ParameterMap(own)[name];
      p.name == name && KeyOf(p) in m && m[KeyOf(p)] == p
  {
    if own != [] { MapsAgree(own[..|own| - 1]); }
  }

  /** In particular all that is reported is true and all that is true is reported when the inline
      declarations say everything and no name is shared between locations. */
  lemma NamesSuffice(b: Declared, t: Declared, key: Key, loc: Location)
    requires InlineSays(b) && InlineSays(t) && NamesUnshared(b, t)
    ensures RemovalReported(b, t, key, loc) <==> KeyRemoved(b, t, key)
    ensures RequirementReported(b, t, key, loc) <==> KeyRequired(b, t, key)
  {
    MapsAgree(b.own);
    MapsAgree(t.own);
    RemovalReportedExactly(b, t, key, loc);
    RequirementReportedExactly(b, t, key, loc);
    if key.name in ParameterMap(b.own) { assert KeyOf(ParameterMap(b.own)[key.name]) in KeyMap(b) + KeyMap(t); }
    if key.name in ParameterMap(t.own) { assert KeyOf(ParameterMap(t.own)[key.name]) in KeyMap(b) + KeyMap(t); }
    assert key in KeyMap(b) || key in KeyMap(t) ==> key in KeyMap(b) + KeyMap(t);
  }

  // ----- The ways to fail

  function Inline(own: seq<ReferenceOr<Parameter>>): Declared {
    Declared([], own, uri => None)
  }

  lemma OneParameter(r: ReferenceOr<Parameter>, resolve: string -> Option<Parameter>)
    ensures ParameterMap([r]) == if r.Item? then map[r.item.name := r.item] else map[]
    ensures Keyed([r], resolve) == if Resolved(r, resolve).Some? then map[KeyOf(Resolved(r, resolve).value) := Resolved(r, resolve).value] else map[]
  {
    assert [r][..0] == [];
  }

  lemma TwoParameters(p: Parameter, q: Parameter, resolve: string -> Option<Parameter>)
    ensures ParameterMap([Item(p), Item(q)]) == map[p.name := p][q.name := q]
    ensures Keyed([Item(p), Item(q)], resolve) == map[KeyOf(p) := p][KeyOf(q) := q]
  {
    OneParameter(Item(p), resolve);
    assert [Item(p), Item(q)][..1] == [Item(p)];
  }

  lemma NothingShared(own: seq<ReferenceOr<Parameter>>)
    ensures KeyMap(Inline(own)) == Keyed(own, Inline(own).resolve)
  {
    assert [] + own == own;
  }

  /** A required header that joins a required query parameter of the same name goes unreported. */
  lemma RequiredHeaderIsUnseen(loc: Location)
    ensures var q, h := Parameter(Query, "id", true, None), Parameter(Header, "id", true, None);
      var b, t := Inline([Item(q)]), Inline([Item(q), Item(h)]);
      ParameterFindings(b.own, t.own, loc, DEFAULT_CONFIG) == multiset{} && KeyRequired(b, t, Key(Header, "id"))
  {
    var q, h := Parameter(Query, "id", true, None), Parameter(Header, "id", true, None);
    var b, t := Inline([Item(q)]), Inline([Item(q), Item(h)]);
    OneParameter(Item(q), b.resolve);
    TwoParameters(q, h, t.resolve);
    NothingShared(b.own);
    NothingShared(t.own);
    var bm, tm := ParameterMap(b.own), ParameterMap(t.own);
    assert RemovedParameters(bm, tm, bm.Keys, loc, DEFAULT_CONFIG) == {};
    assert RequiredParameters(bm, tm, tm.Keys, loc, DEFAULT_CONFIG) == {};
  }

  /** A query parameter removed beside a header of the same name goes unreported. */
  lemma RemovedQueryIsUnseen(loc: Location)
    ensures var q, h := Parameter(Query, "id", false, None), Parameter(Header, "id", false, None);
      var b, t := Inline([Item(q), Item(h)]), Inline([Item(h)]);
      ParameterFindings(b.own, t.own, loc, DEFAULT_CONFIG) == multiset{} && KeyRemoved(b, t, Key(Query, "id"))
  {
    var q, h := Parameter(Query, "id", false, None), Parameter(Header, "id", false, None);
    var b, t := Inline([Item(q), Item(h)]), Inline([Item(h)]);
    OneParameter(Item(h), t.resolve);
    TwoParameters(q, h, b.resolve);
    NothingShared(b.own);
    NothingShared(t.own);
    var bm, tm := ParameterMap(b.own), ParameterMap(t.own);
    assert RemovedParameters(bm, tm, bm.Keys, loc, DEFAULT_CONFIG) == {};
    assert RequiredParameters(bm, tm, tm.Keys, loc, DEFAULT_CONFIG) == {};
  }

  /** A required header that comes by reference, or for the whole path item, goes unreported. */
  lemma RequirementElsewhereIsUnseen(uri: string, loc: Location)
    ensures var h := Parameter(Header, "id", true, None);
      var b, byRef, byPath := Inline([]), Declared([], [Reference(uri)], u => Some(h)), Declared([Item(h)], [], u => None);
      && ParameterFindings(b.own, byRef.own, loc, DEFAULT_CONFIG) == multiset{} && KeyRequired(b, byRef, Key(Header, "id"))
      && ParameterFindings(b.own, byPath.own, loc, DEFAULT_CONFIG) == multiset{} && KeyRequired(b, byPath, Key(Header, "id"))
  {
    var h := Parameter(Header, "id", true, None);
    var byRef, byPath := Declared([], [Reference(uri)], u => Some(h)), Declared([Item(h)], [], u => None);
    OneParameter(Reference(uri), byRef.resolve);
    OneParameter(Item(h), byPath.resolve);
    NothingShared([]);
    assert byRef.shared + byRef.own == [Reference(uri)] && byPath.shared + byPath.own == [Item(h)];
    assert RequiredParameters(map[], map[], {}, loc, DEFAULT_CONFIG) == {} && RemovedParameters(map[], map[], {}, loc, DEFAULT_CONFIG) == {};
  }

  /** A parameter that only moves behind a reference is reported as removed. */
  lemma MovedParameterIsReported(uri: string, loc: Location)
    ensures var q := Parameter(Query, "id", false, None);
      var b, t := Inline([Item(q)]), Declared([], [Reference(uri)], u => Some(q));
      RemovalReported(b, t, Key(Query, "id"), loc) && KeyMap(b) == KeyMap(t)
  {
    var q := Parameter(Query, "id", false, None);
    var b, t := Inline([Item(q)]), Declared([], [Reference(uri)], u => Some(q));
    OneParameter(Item(q), b.resolve);
    OneParameter(Reference(uri), t.resolve);
    NothingShared(b.own);
    assert t.shared + t.own == t.own;
    RemovalReportedExactly(b, t, Key(Query, "id"), loc);
  }

  /** A parameter that stays required is reported as newly so, an optional one of its name being gone. */
  lemma KeptRequirementIsReported(loc: Location)
    ensures var q, h := Parameter(Query, "id", true, None), Parameter(Header, "id", false, None);
      var b, t := Inline([Item(q), Item(h)]), Inline([Item(q)]);
      RequirementReported(b, t, Key(Query, "id"), loc) && forall key :: !KeyRequired(b, t, key)
  {
    var q, h := Parameter(Query, "id", true, None), Parameter(Header, "id", false, None);
    var b, t := Inline([Item(q), Item(h)]), Inline([Item(q)]);
    OneParameter(Item(q), t.resolve);
    TwoParameters(q, h, b.resolve);
    NothingShared(b.own);
    NothingShared(t.own);
    RequirementReportedExactly(b, t, Key(Query, "id"), loc);
  }
}
