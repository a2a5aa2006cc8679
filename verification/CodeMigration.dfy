/** The migration walks (engine/src/code_diff.rs): recursive walks that push findings into a shared
    vector, and the preorder fold they amount to. */
module CodeMigration {
  import opened Prelude
  import opened OpenApi
  import opened SpecDiff
  import opened SyntaxTree

  /** The three walks. The Python walk consults a regular expression on broken except clauses; which
      texts it matches is a parameter. */
  datatype Language = Python(oldExcept: string -> bool) | Go | TypeScript

  const REMOVED_BUILTINS: set<string> := {"xrange", "raw_input", "unicode"}
  const REMOVED_DICT_METHODS: set<string> := {"iteritems", "iterkeys", "itervalues", "has_key"}
  const LEGACY_MODULES: set<string> := {"urllib2", "httplib", "urlparse", "ConfigParser", "Queue", "cPickle", "StringIO"}

  function LinePath(line: nat): Location {
    ["line:L" + Decimal(line)]
  }

  function At(n: Node, pattern: string): Change {
    Change(Breaking, LinePath(n.row + 1), CodePattern(pattern))
  }

  /** apply(f, args) is reported unless its argument list is there and has no comma. */
  predicate ReportsApply(call: Node) {
    match ChildByField(call, "arguments")
    case None => true
    case Some(args) => ',' in StripSuffix(StripPrefix(Trim(args.text), "("), ')')
  }

  function BuiltinFindings(n: Node, function_: Node): seq<Change> {
    if function_.text in REMOVED_BUILTINS then [At(n, function_.text)]
    else if function_.text == "apply" && ReportsApply(n) then [At(n, "apply")]
    else []
  }

  function AttributeFindings(n: Node, function_: Node): seq<Change> {
    var attribute := ChildByField(function_, "attribute");
    if function_.kind.Attribute? && attribute.Some? && attribute.value.text in REMOVED_DICT_METHODS
    then [At(n, attribute.value.text)] else []
  }

  function CallFindings(n: Node): seq<Change> {
    var function_ := ChildByField(n, "function");
    if function_.None? then [] else BuiltinFindings(n, function_.value) + AttributeFindings(n, function_.value)
  }

  predicate OldExceptClause(text: string) {
    ',' in text && !Contains(text, " as ")
    && CountChar(Trim(StripSuffix(Trim(StripPrefix(Trim(text), "except")), ':')), ',') == 1
  }

  function ModuleFindings(n: Node, module_: string): seq<Change> {
    if module_ in LEGACY_MODULES then [At(n, module_)] else []
  }

  /** The module a child of an import statement names, if it names one. */
  function ImportedModule(child: Node): Option<string> {
    if child.kind.DottedName? then Some(child.text)
    else if child.kind.AliasedImport? && ChildByField(child, "name").Some? then Some(ChildByField(child, "name").value.text)
    else None
  }

  function ImportFindings(n: Node, children: seq<Node>): seq<Change> {
    if children == [] then []
    else
      var k := |children| - 1;
      ImportFindings(n, children[..k])
      + (if ImportedModule(children[k]).Some? then ModuleFindings(n, ImportedModule(children[k]).value) else [])
  }

  function ErrorFindings(n: Node, oldExcept: string -> bool): seq<Change> {
    var trimmed := Trim(n.text);
    if "print " <= trimmed || "print\t" <= trimmed then [At(n, "print")]
    else if Contains(trimmed, "except ") && ',' in trimmed && !Contains(trimmed, " as ") && oldExcept(trimmed) then [At(n, "except")]
    else []
  }

  /** The findings of one node, in the order they are pushed. */
  function NodeFindings(language: Language, n: Node): seq<Change> {
    match language
    case Python(oldExcept) =>
      (match n.kind
       case PrintStatement => [At(n, "print")]
       case Call => CallFindings(n)
       case ExceptClause => if OldExceptClause(n.text) then [At(n, "except")] else []
       case ImportStatement => ImportFindings(n, n.children)
       case ImportFromStatement =>
         var m := ChildByField(n, "module_name");
         if m.Some? then ModuleFindings(n, m.value.text) else []
       case IntegerLiteral => if n.text != [] && n.text[|n.text| - 1] in {'L', 'l'} then [At(n, "long")] else []
       case ErrorNode => ErrorFindings(n, oldExcept)
       case _ => [])
    case Go =>
      if n.kind.ImportSpec? && StripAll(Trim(n.text), '"') == "io/ioutil" then [At(n, "ioutil").(severity := Dangerous)] else []
    case TypeScript =>
      if n.kind.VariableDeclaration? && "var " <= n.text then [At(n, "var").(severity := Dangerous)] else []
  }

  /** The findings of a sequence of nodes, one node after the other. */
  function Fold(language: Language, nodes: seq<Node>): seq<Change> {
    if nodes == [] then []
    else
      var k := |nodes| - 1;
      Fold(language, nodes[..k]) + NodeFindings(language, nodes[k])
  }

  lemma {:induction false} FoldAppend(language: Language, a: seq<Node>, b: seq<Node>)
    ensures Fold(language, a + b) == Fold(language, a) + Fold(language, b)
  {
    if b == [] {
      assert a + b == a;
    } else {
      var k := |b| - 1;
      assert (a + b)[..|a + b| - 1] == a + b[..k] && (a + b)[|a + b| - 1] == b[k];
      FoldAppend(language, a, b[..k]);
      AppendAssociates(Fold(language, a), Fold(language, b[..k]), NodeFindings(language, b[k]));
    }
  }

  lemma FoldOne(language: Language, n: Node)
    ensures Fold(language, [n]) == NodeFindings(language, n)
  {
    assert [n][..0] == [] && [n][0] == n;
    EmptyBefore(NodeFindings(language, n));
  }

  lemma EmptyBefore<T>(s: seq<T>)
    ensures [] + s == s
  {
  }

  // ----- The Python walk, with its running counter

  method VisitCall(n: Node, tally: Tally)
    requires tally.Counted()
    modifies tally
    ensures tally.Counted() && tally.changes == old(tally.changes) + CallFindings(n)
  {
    var function_ := ChildByField(n, "function");
    if function_.Some? {
      VisitBuiltin(n, function_.value, tally);
      VisitAttribute(n, function_.value, tally);
    }
  }

  method VisitBuiltin(n: Node, f: Node, tally: Tally)
    requires tally.Counted()
    modifies tally
    ensures tally.Counted() && tally.changes == old(tally.changes) + BuiltinFindings(n, f)
  {
    if f.text in REMOVED_BUILTINS {
      tally.PushBreaking(LinePath(n.row + 1), CodePattern(f.text));
    } else if f.text == "apply" {
      if ReportsApply(n) { tally.PushBreaking(LinePath(n.row + 1), CodePattern("apply")); }
    }
  }

  method VisitAttribute(n: Node, f: Node, tally: Tally)
    requires tally.Counted()
    modifies tally
    ensures tally.Counted() && tally.changes == old(tally.changes) + AttributeFindings(n, f)
  {
    if f.kind.Attribute? {
      var attribute := ChildByField(f, "attribute");
      if attribute.Some? && attribute.value.text in REMOVED_DICT_METHODS {
        tally.PushBreaking(LinePath(n.row + 1), CodePattern(attribute.value.text));
      }
    }
  }

  method CheckLegacyModule(n: Node, module_: string, tally: Tally)
    requires tally.Counted()
    modifies tally
    ensures tally.Counted() && tally.changes == old(tally.changes) + ModuleFindings(n, module_)
  {
    if module_ in LEGACY_MODULES {
      tally.PushBreaking(LinePath(n.row + 1), CodePattern(module_));
    }
  }

  method VisitImport(n: Node, tally: Tally)
    requires tally.Counted()
    modifies tally
    ensures tally.Counted() && tally.changes == old(tally.changes) + ImportFindings(n, n.children)
  {
    for i := 0 to |n.children|
      invariant tally.Counted() && tally.changes == old(tally.changes) + ImportFindings(n, n.children[..i])
    {
      assert n.children[..i + 1][..i] == n.children[..i];
      var m := ImportedModule(n.children[i]);
      if m.Some? { CheckLegacyModule(n, m.value, tally); }
    }
    assert n.children[..|n.children|] == n.children;
  }

  method VisitPython(n: Node, oldExcept: string -> bool, tally: Tally)
    requires tally.Counted()
    modifies tally
    ensures tally.Counted() && tally.changes == old(tally.changes) + NodeFindings(Python(oldExcept), n)
  {
    match n.kind
    case PrintStatement => tally.PushBreaking(LinePath(n.row + 1), CodePattern("print"));
    case Call => VisitCall(n, tally);
    case ExceptClause =>
      if OldExceptClause(n.text) { tally.PushBreaking(LinePath(n.row + 1), CodePattern("except")); }
    case ImportStatement => VisitImport(n, tally);
    case ImportFromStatement =>
      var m := ChildByField(n, "module_name");
      if m.Some? { CheckLegacyModule(n, m.value.text, tally); }
    case IntegerLiteral =>
      if n.text != [] && n.text[|n.text| - 1] in {'L', 'l'} { tally.PushBreaking(LinePath(n.row + 1), CodePattern("long")); }
    case ErrorNode =>
      var findings := ErrorFindings(n, oldExcept);
      if findings != [] { tally.PushBreaking(findings[0].path, findings[0].detail); }
    case _ =>
  }

  method WalkPython(n: Node, oldExcept: string -> bool, tally: Tally)
    requires tally.Counted()
    modifies tally
    ensures tally.Counted() && tally.changes == old(tally.changes) + Fold(Python(oldExcept), Preorder(n))
    decreases n, 1
  {
    VisitPython(n, oldExcept, tally);
    WalkPythonAll(n.children, oldExcept, tally);
    NodeStep(Python(oldExcept), n, old(tally.changes));
  }

  /** The loop over the children of a node. */
  method WalkPythonAll(children: seq<Node>, oldExcept: string -> bool, tally: Tally)
    requires tally.Counted()
    modifies tally
    ensures tally.Counted() && tally.changes == old(tally.changes) + Fold(Python(oldExcept), PreorderAll(children))
    decreases children, 0
  {
    for i := 0 to |children|
      invariant tally.Counted() && tally.changes == old(tally.changes) + Fold(Python(oldExcept), PreorderAll(children[..i]))
    {
      WalkPython(children[i], oldExcept, tally);
      ChildStep(Python(oldExcept), children, i, old(tally.changes));
    }
    assert children[..|children|] == children;
  }

  lemma ChildStep(language: Language, children: seq<Node>, i: nat, here: seq<Change>)
    requires i < |children|
    ensures (here + Fold(language, PreorderAll(children[..i]))) + Fold(language, Preorder(children[i]))
      == here + Fold(language, PreorderAll(children[..i + 1]))
  {
    assert children[..i + 1][..i] == children[..i];
    FoldAppend(language, PreorderAll(children[..i]), Preorder(children[i]));
    AppendAssociates(here, Fold(language, PreorderAll(children[..i])), Fold(language, Preorder(children[i])));
  }

  lemma NodeStep(language: Language, n: Node, before: seq<Change>)
    ensures (before + NodeFindings(language, n)) + Fold(language, PreorderAll(n.children)) == before + Fold(language, Preorder(n))
  {
    FoldAppend(language, [n], PreorderAll(n.children));
    FoldOne(language, n);
    AppendAssociates(before, NodeFindings(language, n), Fold(language, PreorderAll(n.children)));
  }

  /** What a check of a tree returns: the fold over the whole tree, and a summary that agrees with it. */
  ghost predicate IsMigration(language: Language, root: Node, r: Report) {
    r.changes == Fold(language, Preorder(root)) && WellCounted(r)
  }

  method CheckPython(root: Node, oldExcept: string -> bool) returns (report: Report)
    ensures IsMigration(Python(oldExcept), root, report)
  {
    var tally := new Tally();
    WalkPython(root, oldExcept, tally);
    NoneDangerous(tally.changes);
    report := Report(tally.breaking, 0, 0, tally.changes);
  }

  // ----- The Go and TypeScript walks, counted afterwards

  method VisitOther(language: Language, n: Node, tally: Tally)
    requires !language.Python?
    modifies tally`changes
    ensures tally.changes == old(tally.changes) + NodeFindings(language, n)
  {
    if language.Go? {
      if n.kind.ImportSpec? && StripAll(Trim(n.text), '"') == "io/ioutil" {
        tally.changes := tally.changes + [Change(Dangerous, LinePath(n.row + 1), CodePattern("ioutil"))];
      }
    } else {
      if n.kind.VariableDeclaration? && "var " <= n.text {
        tally.changes := tally.changes + [Change(Dangerous, LinePath(n.row + 1), CodePattern("var"))];
      }
    }
  }

  method WalkOther(language: Language, n: Node, tally: Tally)
    requires !language.Python?
    modifies tally`changes
    ensures tally.changes == old(tally.changes) + Fold(language, Preorder(n))
    decreases n, 1
  {
    VisitOther(language, n, tally);
    WalkOtherAll(language, n.children, tally);
    NodeStep(language, n, old(tally.changes));
  }

  /** The loop over the children of a node. */
  method WalkOtherAll(language: Language, children: seq<Node>, tally: Tally)
    requires !language.Python?
    modifies tally`changes
    ensures tally.changes == old(tally.changes) + Fold(language, PreorderAll(children))
    decreases children, 0
  {
    for i := 0 to |children|
      invariant tally.changes == old(tally.changes) + Fold(language, PreorderAll(children[..i]))
    {
      WalkOther(language, children[i], tally);
      ChildStep(language, children, i, old(tally.changes));
    }
    assert children[..|children|] == children;
  }

  method CheckOther(language: Language, root: Node) returns (report: Report)
    requires !language.Python?
    ensures IsMigration(language, root, report)
  {
    var tally := new Tally();
    WalkOther(language, root, tally);
    var c := tally.changes;
    report := Report(Count(c, Breaking), Count(c, Dangerous), Count(c, Additive), c);
  }

  // ----- What the fold reports

  ghost predicate OnLines(changes: seq<Change>, lines: seq<nat>) {
    && |lines| == |changes|
    && (forall i :: 0 <= i < |changes| ==> changes[i].path == LinePath(lines[i]))
    && (forall i, j :: 0 <= i < j < |lines| ==> lines[i] <= lines[j])
  }

  lemma {:induction false} ImportLines(n: Node, children: seq<Node>)
    ensures forall c :: c in ImportFindings(n, children) ==> c.path == LinePath(n.row + 1)
  {
    if children != [] { ImportLines(n, children[..|children| - 1]); }
  }

  lemma CallLines(n: Node)
    ensures forall c :: c in CallFindings(n) ==> c.path == LinePath(n.row + 1)
  {
  }

  lemma ErrorLines(n: Node, oldExcept: string -> bool)
    ensures forall c :: c in ErrorFindings(n, oldExcept) ==> c.path == LinePath(n.row + 1)
  {
  }

  lemma NodeLines(language: Language, n: Node)
    ensures forall c :: c in NodeFindings(language, n) ==> c.path == LinePath(n.row + 1)
  {
    if language.Python? {
      ImportLines(n, n.children);
      CallLines(n);
      ErrorLines(n, language.oldExcept);
    }
  }

  lemma FoldLast(language: Language, nodes: seq<Node>)
    requires nodes != []
    ensures Fold(language, nodes) == Fold(language, nodes[..|nodes| - 1]) + NodeFindings(language, nodes[|nodes| - 1])
  {
  }

  /** Findings of one line after findings of lines up to it. */
  lemma LinesAppend(before: seq<Change>, lines: seq<nat>, here: seq<Change>, line: nat)
    requires OnLines(before, lines) && forall i :: 0 <= i < |lines| ==> lines[i] <= line
    requires forall c :: c in here ==> c.path == LinePath(line)
    ensures OnLines(before + here, lines + seq(|here|, i => line))
  {
  }

  lemma {:induction false} FoldLines(language: Language, nodes: seq<Node>, from: nat, to: nat) returns (lines: seq<nat>)
    requires RowsRise(nodes, from, to)
    ensures OnLines(Fold(language, nodes), lines) && forall i :: 0 <= i < |lines| ==> lines[i] <= to + 1
  {
    lines := [];
    if nodes != [] {
      var last := nodes[|nodes| - 1];
      lines := FoldLines(language, nodes[..|nodes| - 1], from, last.row);
      NodeLines(language, last);
      FoldLast(language, nodes);
      LinesAppend(Fold(language, nodes[..|nodes| - 1]), lines, NodeFindings(language, last), last.row + 1);
      lines := lines + seq(|NodeFindings(language, last)|, i => last.row + 1);
    }
  }

  /** On a well-placed tree the walks report line numbers that never fall. */
  lemma ReportedLinesRise(language: Language, root: Node) returns (lines: seq<nat>)
    requires WellPlaced(root)
    ensures OnLines(Fold(language, Preorder(root)), lines)
  {
    PreorderRises(root);
    lines := FoldLines(language, Preorder(root), root.row, root.endRow);
  }

  ghost predicate Reports(language: Language, n: Node, c: Change) {
    c in NodeFindings(language, n)
  }

  ghost predicate SomeReports(language: Language, nodes: seq<Node>, c: Change) {
    exists n :: n in nodes && Reports(language, n, c)
  }

  lemma SomeReportsLast(language: Language, nodes: seq<Node>, c: Change)
    requires nodes != []
    ensures SomeReports(language, nodes, c) <==> SomeReports(language, nodes[..|nodes| - 1], c) || Reports(language, nodes[|nodes| - 1], c)
  {
    assert nodes == nodes[..|nodes| - 1] + [nodes[|nodes| - 1]];
  }

  lemma InConcatenation<T>(a: seq<T>, b: seq<T>, x: T)
    ensures x in a + b <==> x in a || x in b
  {
  }

  /** A finding is reported if and only if some node of the tree reports it. */
  lemma {:induction false} FoldMembers(language: Language, nodes: seq<Node>, c: Change)
    ensures c in Fold(language, nodes) <==> SomeReports(language, nodes, c)
  {
    if nodes != [] {
      FoldMembers(language, nodes[..|nodes| - 1], c);
      FoldLast(language, nodes);
      SomeReportsLast(language, nodes, c);
      InConcatenation(Fold(language, nodes[..|nodes| - 1]), NodeFindings(language, nodes[|nodes| - 1]), c);
    }
  }

  // ----- What each node reports, by its kind and its texts

  predicate Calls(n: Node, text: string) {
    ChildByField(n, "function").Some? && ChildByField(n, "function").value.text == text
  }

  predicate CallsAttribute(n: Node, text: string) {
    var f := ChildByField(n, "function");
    f.Some? && f.value.kind.Attribute? && ChildByField(f.value, "attribute").Some? && ChildByField(f.value, "attribute").value.text == text
  }

  predicate StartsWithPrint(text: string) {
    "print " <= Trim(text) || "print\t" <= Trim(text)
  }

  predicate Imports(child: Node, name: string) {
    || (child.kind.DottedName? && child.text == name)
    || (child.kind.AliasedImport? && ChildByField(child, "name").Some? && ChildByField(child, "name").value.text == name)
  }

  function ImportCount(children: seq<Node>, name: string): nat {
    if children == [] then 0 else ImportCount(children[..|children| - 1], name) + if Imports(children[|children| - 1], name) then 1 else 0
  }

  /** How often a Python node reports a pattern. */
  function PythonTimes(n: Node, oldExcept: string -> bool, x: string): nat {
    match x
    case "print" => if n.kind.PrintStatement? || (n.kind.ErrorNode? && StartsWithPrint(n.text)) then 1 else 0
    case "xrange" => if n.kind.Call? && Calls(n, x) then 1 else 0
    case "raw_input" => if n.kind.Call? && Calls(n, x) then 1 else 0
    case "unicode" => if n.kind.Call? && Calls(n, x) then 1 else 0
    case "apply" =>
      var arguments := ChildByField(n, "arguments");
      if n.kind.Call? && Calls(n, x) && (arguments.None? || ',' in arguments.value.text) then 1 else 0
    case "iteritems" => if n.kind.Call? && CallsAttribute(n, x) then 1 else 0
    case "iterkeys" => if n.kind.Call? && CallsAttribute(n, x) then 1 else 0
    case "itervalues" => if n.kind.Call? && CallsAttribute(n, x) then 1 else 0
    case "has_key" => if n.kind.Call? && CallsAttribute(n, x) then 1 else 0
    case "except" =>
      if n.kind.ExceptClause? && multiset(n.text)[','] == 1 && !Contains(n.text, " as ") then 1
      else if n.kind.ErrorNode? && !StartsWithPrint(n.text) && BrokenExcept(Trim(n.text), oldExcept) then 1
      else 0
    case "urllib2" => ModuleTimes(n, x)
    case "httplib" => ModuleTimes(n, x)
    case "urlparse" => ModuleTimes(n, x)
    case "ConfigParser" => ModuleTimes(n, x)
    case "Queue" => ModuleTimes(n, x)
    case "cPickle" => ModuleTimes(n, x)
    case "StringIO" => ModuleTimes(n, x)
    case "long" => if n.kind.IntegerLiteral? && n.text != "" && n.text[|n.text| - 1] in "Ll" then 1 else 0
    case _ => 0
  }

  predicate BrokenExcept(trimmed: string, oldExcept: string -> bool) {
    Contains(trimmed, "except ") && ',' in trimmed && !Contains(trimmed, " as ") && oldExcept(trimmed)
  }

  /** Once for each import of the module, under either kind of import statement. */
  function ModuleTimes(n: Node, x: string): nat {
    if n.kind.ImportStatement? then ImportCount(n.children, x)
    else if n.kind.ImportFromStatement? && ChildByField(n, "module_name").Some? && ChildByField(n, "module_name").value.text == x then 1
    else 0
  }

  /** How often a node reports a finding. */
  function Times(language: Language, n: Node, c: Change): nat {
    if !c.detail.CodePattern? || c.path != ["line:L" + Decimal(n.row + 1)] then 0
    else match language
      case Python(oldExcept) => if c.severity == Breaking then PythonTimes(n, oldExcept, c.detail.pattern) else 0
      case Go =>
        if c.severity == Dangerous && c.detail.pattern == "ioutil" && n.kind.ImportSpec? && StripAll(Trim(n.text), '"') == "io/ioutil" then 1 else 0
      case TypeScript =>
        if c.severity == Dangerous && c.detail.pattern == "var" && n.kind.VariableDeclaration? && "var " <= n.text then 1 else 0
  }

  function TotalTimes(language: Language, nodes: seq<Node>, c: Change): nat {
    if nodes == [] then 0 else TotalTimes(language, nodes[..|nodes| - 1], c) + Times(language, nodes[|nodes| - 1], c)
  }

  /** The finding of a pattern at a node. */
  predicate IsAt(c: Change, n: Node, x: string) {
    c == Change(Breaking, ["line:L" + Decimal(n.row + 1)], CodePattern(x))
  }

  lemma AtIs(n: Node, x: string, c: Change)
    ensures multiset([At(n, x)])[c] == if IsAt(c, n, x) then 1 else 0
  {
  }

  /** Stripping parentheses and blanks loses no comma. */
  lemma ApplyExactly(n: Node)
    ensures ReportsApply(n) <==> ChildByField(n, "arguments").None? || ',' in ChildByField(n, "arguments").value.text
  {
    var arguments := ChildByField(n, "arguments");
    if arguments.Some? {
      CommasOfStripped(arguments.value.text, "(", ')');
    }
  }

  lemma CommasOfTrim(s: string)
    ensures multiset(Trim(s))[','] == multiset(s)[',']
  {
    var before, after := TrimIsRight(s);
    assert ',' !in before && ',' !in after;
    assert multiset(s) == multiset(before) + multiset(Trim(s)) + multiset(after);
  }

  lemma CommasOfStripped(s: string, prefix: string, c: char)
    requires ',' !in prefix && c != ','
    ensures ',' in StripSuffix(StripPrefix(Trim(s), prefix), c) <==> ',' in s
    ensures multiset(StripSuffix(StripPrefix(Trim(s), prefix), c))[','] == multiset(s)[',']
  {
    CommasOfTrim(s);
    CommasOfPrefix(Trim(s), prefix);
    CommasOfSuffix(StripPrefix(Trim(s), prefix), c);
  }

  lemma CommasOfPrefix(s: string, prefix: string)
    requires ',' !in prefix
    ensures multiset(StripPrefix(s, prefix))[','] == multiset(s)[',']
  {
    if prefix <= s { assert s == prefix + s[|prefix|..]; }
  }

  lemma CommasOfSuffix(s: string, c: char)
    requires c != ','
    ensures multiset(StripSuffix(s, c))[','] == multiset(s)[',']
  {
    if s != [] && s[|s| - 1] == c { assert s == s[..|s| - 1] + [c]; }
  }

  lemma OldExceptExactly(text: string)
    ensures OldExceptClause(text) <==> multiset(text)[','] == 1 && !Contains(text, " as ")
  {
    var a := StripPrefix(Trim(text), "except");
    var b := StripSuffix(Trim(a), ':');
    CommasOfTrim(text);
    CommasOfPrefix(Trim(text), "except");
    CommasOfTrim(a);
    CommasOfSuffix(Trim(a), ':');
    CommasOfTrim(b);
    CountCharIsRight(Trim(b), ',');
    assert ',' in text <==> multiset(text)[','] > 0;
  }

  lemma BuiltinTimes(n: Node, f: Node, c: Change)
    requires n.kind.Call? && ChildByField(n, "function") == Some(f)
    ensures multiset(BuiltinFindings(n, f))[c] ==
      if (f.text in {"xrange", "raw_input", "unicode"} || (f.text == "apply" && ReportsApply(n))) && IsAt(c, n, f.text) then 1 else 0
  {
    AtIs(n, f.text, c);
  }

  lemma AttributeTimes(n: Node, f: Node, c: Change)
    requires n.kind.Call? && ChildByField(n, "function") == Some(f)
    ensures multiset(AttributeFindings(n, f))[c] ==
      if c.detail.CodePattern? && c.detail.pattern in {"iteritems", "iterkeys", "itervalues", "has_key"} && CallsAttribute(n, c.detail.pattern)
         && IsAt(c, n, c.detail.pattern)
      then 1 else 0
  {
    var attribute := ChildByField(f, "attribute");
    if attribute.Some? { AtIs(n, attribute.value.text, c); }
  }

  /** A Python node reports a finding as often as it should. */
  ghost predicate Agrees(n: Node, oldExcept: string -> bool, c: Change) {
    multiset(NodeFindings(Python(oldExcept), n))[c] == Times(Python(oldExcept), n, c)
  }

  lemma CallTimes(n: Node, oldExcept: string -> bool, c: Change)
    requires n.kind.Call?
    ensures Agrees(n, oldExcept, c)
  {
    var f := ChildByField(n, "function");
    if f.Some? {
      BuiltinTimes(n, f.value, c);
      AttributeTimes(n, f.value, c);
      ApplyExactly(n);
    }
  }

  predicate LegacyName(x: string) {
    x in {"urllib2", "httplib", "urlparse", "ConfigParser", "Queue", "cPickle", "StringIO"}
  }

  lemma ModuleIs(n: Node, m: string, c: Change)
    ensures multiset(ModuleFindings(n, m))[c] == if LegacyName(m) && IsAt(c, n, m) then 1 else 0
  {
    AtIs(n, m, c);
  }

  lemma {:induction false} ImportTimes(n: Node, children: seq<Node>, c: Change)
    ensures multiset(ImportFindings(n, children))[c] ==
      if c.detail.CodePattern? && LegacyName(c.detail.pattern) && IsAt(c, n, c.detail.pattern) then ImportCount(children, c.detail.pattern) else 0
  {
    if children != [] {
      var k := |children| - 1;
      ImportTimes(n, children[..k], c);
      var m := ImportedModule(children[k]);
      if m.Some? { ModuleIs(n, m.value, c); }
    }
  }

  lemma ErrorTimes(n: Node, oldExcept: string -> bool, c: Change)
    requires n.kind.ErrorNode?
    ensures Agrees(n, oldExcept, c)
  {
    AtIs(n, "print", c);
    AtIs(n, "except", c);
  }

  lemma ImportsReportModules(n: Node, oldExcept: string -> bool, c: Change)
    requires n.kind.ImportStatement? || n.kind.ImportFromStatement?
    ensures Times(Python(oldExcept), n, c) ==
      if c.detail.CodePattern? && LegacyName(c.detail.pattern) && IsAt(c, n, c.detail.pattern) then ModuleTimes(n, c.detail.pattern) else 0
  {
  }

  lemma ImportStatementTimes(n: Node, oldExcept: string -> bool, c: Change)
    requires n.kind.ImportStatement?
    ensures Agrees(n, oldExcept, c)
  {
    ImportsReportModules(n, oldExcept, c);
    ImportTimes(n, n.children, c);
  }

  lemma FromStatementTimes(n: Node, oldExcept: string -> bool, c: Change)
    requires n.kind.ImportFromStatement?
    ensures Agrees(n, oldExcept, c)
  {
    ImportsReportModules(n, oldExcept, c);
    var m := ChildByField(n, "module_name");
    if m.Some? { ModuleIs(n, m.value.text, c); }
  }

  lemma ExceptTimes(n: Node, oldExcept: string -> bool, c: Change)
    requires n.kind.ExceptClause?
    ensures Agrees(n, oldExcept, c)
  {
    OldExceptExactly(n.text);
    AtIs(n, "except", c);
  }

  lemma LiteralTimes(n: Node, oldExcept: string -> bool, c: Change)
    requires n.kind.PrintStatement? || n.kind.IntegerLiteral?
    ensures Agrees(n, oldExcept, c)
  {
    AtIs(n, "print", c);
    AtIs(n, "long", c);
  }

  predicate Quiet(kind: Kind) {
    && !kind.Call? && !kind.ErrorNode? && !kind.ImportStatement? && !kind.ImportFromStatement?
    && !kind.ExceptClause? && !kind.PrintStatement? && !kind.IntegerLiteral?
  }

  lemma QuietTimes(n: Node, oldExcept: string -> bool, c: Change)
    requires Quiet(n.kind)
    ensures Agrees(n, oldExcept, c)
  {
  }

  lemma PythonTimesExactly(n: Node, oldExcept: string -> bool, c: Change)
    ensures Agrees(n, oldExcept, c)
  {
    if Quiet(n.kind) { QuietTimes(n, oldExcept, c); }
    else if n.kind.Call? { CallTimes(n, oldExcept, c); }
    else if n.kind.ErrorNode? { ErrorTimes(n, oldExcept, c); }
    else if n.kind.ExceptClause? { ExceptTimes(n, oldExcept, c); }
    else if n.kind.PrintStatement? || n.kind.IntegerLiteral? { LiteralTimes(n, oldExcept, c); }
    else if n.kind.ImportStatement? { ImportStatementTimes(n, oldExcept, c); }
    else { FromStatementTimes(n, oldExcept, c); }
  }

  lemma OtherTimesExactly(language: Language, n: Node, c: Change)
    requires !language.Python?
    ensures multiset(NodeFindings(language, n))[c] == Times(language, n, c)
  {
  }

  lemma NodeTimesExactly(language: Language, n: Node, c: Change)
    ensures multiset(NodeFindings(language, n))[c] == Times(language, n, c)
  {
    if language.Python? {
      PythonTimesExactly(n, language.oldExcept, c);
    } else {
      OtherTimesExactly(language, n, c);
    }
  }

  lemma {:induction false} FoldTimes(language: Language, nodes: seq<Node>, c: Change)
    ensures multiset(Fold(language, nodes))[c] == TotalTimes(language, nodes, c)
  {
    if nodes != [] {
      FoldTimes(language, nodes[..|nodes| - 1], c);
      FoldLast(language, nodes);
      NodeTimesExactly(language, nodes[|nodes| - 1], c);
    }
  }

  /** What a check reports, with multiplicities: each node of the tree reports a finding as often as
      the rules for its kind and its texts say, and nothing else is reported. */
  lemma CheckIsExact(language: Language, root: Node, report: Report, c: Change)
    requires IsMigration(language, root, report)
    ensures multiset(report.changes)[c] == TotalTimes(language, Preorder(root), c)
  {
    FoldTimes(language, Preorder(root), c);
  }
}
