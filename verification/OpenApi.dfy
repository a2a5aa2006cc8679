/** The parts of an OpenAPI document, of the rule configuration and of a finding that the diff looks at. */
module OpenApi {
  import opened Prelude

  datatype ReferenceOr<T> = Reference(uri: string) | Item(item: T)

  /** A schema. `Composite` stands for every schema kind that carries no `type` keyword
      (oneOf, allOf, anyOf, not, any), named by its text. A null in an enum is `None`. */
  datatype Schema =
    | StringType(nullable: bool, enumeration: seq<Option<string>>)
    | NumberType(nullable: bool, numbers: seq<Option<real>>)
    | IntegerType(nullable: bool, integers: seq<Option<int>>)
    | BooleanType(nullable: bool, booleans: seq<Option<bool>>)
    | ArrayType(nullable: bool, items: Option<ReferenceOr<Schema>>)
    | ObjectType(nullable: bool, required: seq<string>, properties: IndexMap<string, ReferenceOr<Schema>>)
    | Composite(text: string)

  const ANY_STRING := StringType(false, [])
  const ANY_NUMBER := NumberType(false, [])
  const ANY_INTEGER := IntegerType(false, [])

  predicate Typed(s: Schema) {
    !s.Composite?
  }

  function TypeName(s: Schema): string {
    match s
    case StringType(_, _) => "string"
    case NumberType(_, _) => "number"
    case IntegerType(_, _) => "integer"
    case BooleanType(_, _) => "boolean"
    case ArrayType(_, _) => "array"
    case ObjectType(_, _, _) => "object"
    case Composite(_) => ""
  }

  datatype ParameterKind = Query | Header | Path | Cookie
  datatype Parameter = Parameter(kind: ParameterKind, name: string, required: bool, schema: Option<ReferenceOr<Schema>>)

  datatype StatusCode = Code(code: nat) | Range(digit: nat)

  /** Media types, each with the schema it declares, if any. */
  type Content = IndexMap<string, Option<ReferenceOr<Schema>>>

  datatype RequestBody = RequestBody(required: bool, content: Content)

  datatype Operation = Operation(
    parameters: seq<ReferenceOr<Parameter>>,
    responses: IndexMap<StatusCode, ReferenceOr<Content>>,
    requestBody: Option<ReferenceOr<RequestBody>>)

  /** The parameters of a path item hold for all its methods. */
  datatype PathItem = PathItem(
    get: Option<Operation>, post: Option<Operation>, put: Option<Operation>,
    delete: Option<Operation>, patch: Option<Operation>,
    head: Option<Operation>, options: Option<Operation>, trace: Option<Operation>,
    parameters: seq<ReferenceOr<Parameter>>)

  /** The media types of a request body, if it is there. */
  function ContentOf(body: Option<ReferenceOr<RequestBody>>): Option<ReferenceOr<Content>> {
    match body
    case None => None
    case Some(Reference(uri)) => Some(Reference(uri))
    case Some(Item(b)) => Some(Item(b.content))
  }

  datatype Document = Document(paths: IndexMap<string, ReferenceOr<PathItem>>)

  datatype Config = Config(
    ignoreRules: seq<string>, allowBreakingEnums: bool, allowTypeCoercion: bool, strictMode: bool)

  const DEFAULT_CONFIG := Config([], false, false, false)

  datatype Severity = Breaking | Dangerous | Additive

  /** What a finding says; the human-readable texts are functions of this and of its location. */
  datatype Detail =
    | EndpointRemoved
    | MethodRemoved
    | ParameterRemoved(kind: ParameterKind, name: string)
    | ParameterMadeRequired(kind: ParameterKind, name: string)
    | RequiredParameterAdded(kind: ParameterKind, name: string)
    | ResponseRemoved
    | TypeChanged(from: string, to: string)
    | EnumValueRemoved(value: Option<string>)
    | FieldMadeRequired(field: string)
    | CodePattern(pattern: string) // of the code migration checks, which no rule tag silences

  /** A location is the sequence of its segments; `Render` gives the dotted text. */
  type Location = seq<string>

  datatype Change = Change(severity: Severity, path: Location, detail: Detail)

  /** The rule tag that `ignore_rules` uses for a finding. */
  function RuleTag(d: Detail): string {
    match d
    case EndpointRemoved => "removed_endpoint"
    case MethodRemoved => "removed_method"
    case ParameterRemoved(_, _) => "removed_parameter"
    case ParameterMadeRequired(_, _) => "new_required_field"
    case RequiredParameterAdded(_, _) => "new_required_field"
    case ResponseRemoved => "removed_response"
    case TypeChanged(_, _) => "type_change"
    case EnumValueRemoved(_) => "enum_removal"
    case FieldMadeRequired(_) => "new_required_field"
    case CodePattern(_) => ""
  }

  /** When a configuration silences a finding. */
  predicate Suppresses(config: Config, d: Detail) {
    || RuleTag(d) in config.ignoreRules
    || (d.TypeChanged? && config.allowTypeCoercion)
    || (d.EnumValueRemoved? && config.allowBreakingEnums)
  }

  function Count(changes: seq<Change>, severity: Severity): nat {
    if changes == [] then 0
    else Count(changes[..|changes| - 1], severity) + (if changes[|changes| - 1].severity == severity then 1 else 0)
  }

  lemma CountAppend(a: seq<Change>, b: seq<Change>, severity: Severity)
    ensures Count(a + b, severity) == Count(a, severity) + Count(b, severity)
  {
    if b == [] {
      assert a + b == a;
    } else {
      var n := |b| - 1;
      assert (a + b)[..|a + b| - 1] == a + b[..n];
      CountAppend(a, b[..n], severity);
    }
  }

  ghost predicate OnlyBreaking(changes: seq<Change>) {
    forall c :: c in changes ==> c.severity == Breaking
  }

  /** A severity is counted at least once exactly when a finding carries it. */
  lemma {:induction false} CountPositive(changes: seq<Change>, severity: Severity)
    ensures Count(changes, severity) > 0 <==> exists c :: c in changes && c.severity == severity
  {
    if changes != [] {
      var n := |changes| - 1;
      CountPositive(changes[..n], severity);
      assert changes == changes[..n] + [changes[n]];
      if changes[n].severity == severity {
        assert changes[n] in changes;
      }
    }
  }

  lemma {:induction false} NoneDangerous(changes: seq<Change>)
    requires OnlyBreaking(changes)
    ensures Count(changes, Dangerous) == 0 && Count(changes, Additive) == 0 && Count(changes, Breaking) == |changes|
  {
    if changes != [] {
      NoneDangerous(changes[..|changes| - 1]);
    }
  }

  /** The dotted text of a location. */
  function Render(path: Location): string {
    if path == [] then ""
    else if |path| == 1 then path[0]
    else Render(path[..|path| - 1]) + "." + path[|path| - 1]
  }

  function Decimal(n: nat): string {
    if n < 10 then ["0123456789"[n]] else Decimal(n / 10) + ["0123456789"[n % 10]]
  }

  function StatusText(code: StatusCode): string {
    match code
    case Code(c) => Decimal(c)
    case Range(d) => Decimal(d) + "XX"
  }

  function KindText(kind: ParameterKind): string {
    match kind
    case Query => "query"
    case Header => "header"
    case Path => "path"
    case Cookie => "cookie"
  }

  /** The rule of each kind of finding, by the name that `ignore_rules` uses. */
  lemma RulesByName(config: Config, d: Detail)
    ensures Suppresses(config, d) <==>
      match d
      case EndpointRemoved => "removed_endpoint" in config.ignoreRules
      case MethodRemoved => "removed_method" in config.ignoreRules
      case ParameterRemoved(_, _) => "removed_parameter" in config.ignoreRules
      case ParameterMadeRequired(_, _) => "new_required_field" in config.ignoreRules
      case RequiredParameterAdded(_, _) => "new_required_field" in config.ignoreRules
      case ResponseRemoved => "removed_response" in config.ignoreRules
      case TypeChanged(_, _) => "type_change" in config.ignoreRules || config.allowTypeCoercion
      case EnumValueRemoved(_) => "enum_removal" in config.ignoreRules || config.allowBreakingEnums
      case FieldMadeRequired(_) => "new_required_field" in config.ignoreRules
      case CodePattern(_) => "" in config.ignoreRules
  {
  }

  /** The number a decimal text stands for. */
  function Parsed(s: string): int {
    if s == "" then 0 else 10 * Parsed(s[..|s| - 1]) + (s[|s| - 1] as int - '0' as int)
  }

  /** Decimal texts are digits and stand for their numbers. */
  lemma {:induction false} DecimalIsRight(n: nat)
    ensures Parsed(Decimal(n)) == n && Decimal(n) != "" && forall c :: c in Decimal(n) ==> '0' <= c <= '9'
  {
    var digit := ["0123456789"[n % 10]];
    if n < 10 {
      assert Decimal(n) == digit && digit[..0] == "";
    } else {
      DecimalIsRight(n / 10);
      assert Decimal(n) == Decimal(n / 10) + digit && Decimal(n)[..|Decimal(n)| - 1] == Decimal(n / 10);
    }
  }

  lemma RangeText(d: nat)
    ensures var text := StatusText(Range(d)); |text| >= 2 && text[..|text| - 2] == Decimal(d) && text[|text| - 2..] == "XX"
  {
  }

  lemma CodeText(n: nat)
    ensures 'X' !in StatusText(Code(n))
  {
    DecimalIsRight(n);
  }

  /** Status codes have different texts. */
  lemma StatusTextsDiffer(a: StatusCode, b: StatusCode)
    requires StatusText(a) == StatusText(b)
    ensures a == b
  {
    match (a, b)
    case (Code(m), Code(n)) =>
      DecimalIsRight(m);
      DecimalIsRight(n);
    case (Range(m), Range(n)) =>
      RangeText(m);
      RangeText(n);
      DecimalIsRight(m);
      DecimalIsRight(n);
    case (Code(m), Range(n)) =>
      CodeText(m);
      RangeText(n);
    case (Range(m), Code(n)) =>
      CodeText(n);
      RangeText(m);
  }

  lemma KindTexts()
    ensures KindText(Query) == "query" && KindText(Header) == "header" && KindText(Path) == "path" && KindText(Cookie) == "cookie"
  {
  }

  /** Places of a severity. */
  function Places(changes: seq<Change>, severity: Severity): set<nat> {
    set i: nat | i < |changes| && changes[i].severity == severity
  }

  lemma {:induction false} CountIsRight(changes: seq<Change>, severity: Severity)
    ensures Count(changes, severity) == |Places(changes, severity)|
  {
    if changes != [] {
      var n := |changes| - 1;
      CountIsRight(changes[..n], severity);
      assert Places(changes, severity) == Places(changes[..n], severity) + if changes[n].severity == severity then {n} else {};
    }
  }
}
