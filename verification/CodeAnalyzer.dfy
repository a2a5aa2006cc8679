/** The fact-collecting walks (engine/src/analyzer.rs): recursive walks that update an analysis in
    place, with a scan of the dependencies found so far before each new one. */
module CodeAnalyzer {
  import opened SyntaxTree

  datatype Language = Python | Go | JavaScript

  const PYTHON_CALLS: set<string> := {"subprocess.run", "os.system", "subprocess.Popen", "subprocess.call", "subprocess.check_output"}
  const GO_CALLS: set<string> := {"exec.Command", "exec.CommandContext"}
  const JAVASCRIPT_CALLS: set<string> :=
    {"child_process.exec", "child_process.spawn", "exec", "spawn", "child_process.execSync", "child_process.spawnSync"}

  /** What one node contributes: imported names in order, counts, entry points and system calls. */
  datatype Facts = Facts(names: seq<string>, functions: nat, classes: nat, entrypoints: seq<string>, calls: seq<string>)

  const NOTHING := Facts([], 0, 0, [], [])

  function Texts(nodes: seq<Node>): seq<string> {
    if nodes == [] then []
    else
      var k := |nodes| - 1;
      Texts(nodes[..k]) + (if nodes[k].kind.DottedName? then [Before(nodes[k].text, '.')] else [])
  }

  function CalleeIn(n: Node, names: set<string>): seq<string> {
    var f := ChildByField(n, "function");
    if f.Some? && f.value.text in names then [f.value.text] else []
  }

  /** The text tests for being run as a script. */
  predicate MainGuard(text: string) {
    Contains(text, "__name__ == \"__main__\"") || Contains(text, "__name__ == '__main__'")
  }

  function PythonFacts(n: Node, systemCalls: set<string>): Facts {
    Facts(
      if n.kind.ImportStatement? || n.kind.ImportFromStatement? then Texts(n.children) else [],
      if n.kind.FunctionDefinition? then 1 else 0,
      if n.kind.ClassDefinition? then 1 else 0,
      if n.kind.IfStatement? && MainGuard(n.text) then ["python_main"] else [],
      if n.kind.Call? then CalleeIn(n, systemCalls) else [])
  }

  function GoMain(n: Node): seq<string> {
    var name := ChildByField(n, "name");
    if name.Some? && name.value.text == "main" then ["go_main"] else []
  }

  function ImportPath(n: Node): seq<string> {
    var path := ChildByField(n, "path");
    if path.Some? && StripAll(path.value.text, '"') != "" then [StripAll(path.value.text, '"')] else []
  }

  function GoFacts(n: Node, systemCalls: set<string>): Facts {
    Facts(
      if n.kind.ImportSpec? then ImportPath(n) else [],
      if n.kind.FunctionDeclaration? then 1 else 0,
      if n.kind.TypeDeclaration? && Contains(n.text, "struct") then 1 else 0,
      if n.kind.FunctionDeclaration? then GoMain(n) else [],
      if n.kind.CallExpression? then CalleeIn(n, systemCalls) else [])
  }

  /** A quoted module path that is not a relative one. */
  function PackageName(quoted: string): seq<string> {
    var cleaned := StripAll(StripAll(quoted, '\''), '"');
    if cleaned != "" && cleaned[0] == '.' then [] else [cleaned]
  }

  function ImportedPackage(n: Node): seq<string> {
    var source := ChildByField(n, "source");
    if source.Some? then PackageName(source.value.text) else []
  }

  predicate CallsRequire(n: Node) {
    var f := ChildByField(n, "function");
    f.Some? && f.value.text == "require"
  }

  function RequiredPackage(n: Node): seq<string> {
    var arguments := ChildByField(n, "arguments");
    if arguments.None? then []
    else
      var first := FirstNamed(arguments.value.children);
      if first.Some? && first.value.kind.StringLiteral? then PackageName(first.value.text) else []
  }

  function JavaScriptFacts(n: Node, systemCalls: set<string>): Facts {
    Facts(
      if n.kind.ImportStatement? then ImportedPackage(n)
      else if n.kind.CallExpression? && CallsRequire(n) then RequiredPackage(n) else [],
      if n.kind.FunctionDeclaration? || n.kind.ArrowFunction? then 1 else 0,
      if n.kind.ClassDeclaration? then 1 else 0,
      [],
      if n.kind.CallExpression? && !CallsRequire(n) then CalleeIn(n, systemCalls) else [])
  }

  function NodeFacts(language: Language, n: Node): Facts {
    match language
    case Python => PythonFacts(n, PYTHON_CALLS)
    case Go => GoFacts(n, GO_CALLS)
    case JavaScript => JavaScriptFacts(n, JAVASCRIPT_CALLS)
  }

  /** The facts of a sequence of nodes, one node after the other. */
  function Sum(language: Language, nodes: seq<Node>): Facts {
    if nodes == [] then NOTHING
    else
      var k := |nodes| - 1;
      Plus(Sum(language, nodes[..k]), NodeFacts(language, nodes[k]))
  }

  function Plus(a: Facts, b: Facts): Facts {
    Facts(a.names + b.names, a.functions + b.functions, a.classes + b.classes, a.entrypoints + b.entrypoints, a.calls + b.calls)
  }

  lemma PlusAssociates(a: Facts, b: Facts, c: Facts)
    ensures Plus(Plus(a, b), c) == Plus(a, Plus(b, c)) && Plus(NOTHING, a) == a && Plus(a, NOTHING) == a
  {
  }

  lemma {:induction false} SumAppend(language: Language, a: seq<Node>, b: seq<Node>)
    ensures Sum(language, a + b) == Plus(Sum(language, a), Sum(language, b))
  {
    if b == [] {
      assert a + b == a;
      PlusAssociates(Sum(language, a), NOTHING, NOTHING);
    } else {
      var k := |b| - 1;
      assert (a + b)[..|a + b| - 1] == a + b[..k] && (a + b)[|a + b| - 1] == b[k];
      SumAppend(language, a, b[..k]);
      PlusAssociates(Sum(language, a), Sum(language, b[..k]), NodeFacts(language, b[k]));
    }
  }

  /** The first occurrences of a sequence of names, in order. */
  function FirstOccurrences(names: seq<string>): seq<string> {
    if names == [] then []
    else
      var k := |names| - 1;
      FirstOccurrences(names[..k]) + (if names[k] in names[..k] then [] else [names[k]])
  }

  lemma {:induction false} SameNames(names: seq<string>)
    ensures forall x :: x in FirstOccurrences(names) <==> x in names
  {
    if names != [] {
      var k := |names| - 1;
      SameNames(names[..k]);
      assert names == names[..k] + [names[k]];
    }
  }

  /** x occurs before y occurs at all. */
  ghost predicate Earlier(names: seq<string>, x: string, y: string) {
    exists i :: 0 <= i < |names| && names[i] == x && y !in names[..i + 1]
  }

  /** Dependencies are distinct, the same names as imported, and ordered by first import. */
  lemma {:induction false} FirstOccurrencesAreRight(names: seq<string>)
    ensures forall x :: x in FirstOccurrences(names) <==> x in names
    ensures forall i, j :: 0 <= i < j < |FirstOccurrences(names)| ==>
      FirstOccurrences(names)[i] != FirstOccurrences(names)[j] && Earlier(names, FirstOccurrences(names)[i], FirstOccurrences(names)[j])
  {
    SameNames(names);
    if names != [] {
      var k := |names| - 1;
      var r, q := FirstOccurrences(names), FirstOccurrences(names[..k]);
      FirstOccurrencesAreRight(names[..k]);
      forall i, j | 0 <= i < j < |r|
        ensures r[i] != r[j] && Earlier(names, r[i], r[j])
      {
        if j < |q| {
          var e :| 0 <= e < k && names[..k][e] == q[i] && q[j] !in names[..k][..e + 1];
          assert names[..e + 1] == names[..k][..e + 1] && names[e] == q[i];
        } else {
          assert q[i] in names[..k];
          var e :| 0 <= e < k && names[..k][e] == q[i];
          assert names[..e + 1] == names[..k][..e + 1];
          assert names[k] !in names[..e + 1];
        }
      }
    }
  }

  class CodeAnalysis {
    var dependencies: seq<string>
    var functionCount: nat
    var classCount: nat
    var entrypoints: seq<string>
    var systemCalls: seq<string>

    constructor ()
      ensures Reflects(NOTHING)
    {
      dependencies, functionCount, classCount, entrypoints, systemCalls := [], 0, 0, [], [];
    }

    /** The analysis holds exactly these facts, each dependency once. */
    ghost predicate Reflects(f: Facts)
      reads this
    {
      && dependencies == FirstOccurrences(f.names)
      && functionCount == f.functions && classCount == f.classes
      && entrypoints == f.entrypoints && systemCalls == f.calls
    }

    /** Scans the dependencies and pushes a name that is not among them. */
    method AddDependency(name: string, ghost names: seq<string>)
      requires dependencies == FirstOccurrences(names)
      modifies this`dependencies
      ensures dependencies == FirstOccurrences(names + [name])
    {
      var known := false;
      for i := 0 to |dependencies|
        invariant known <==> name in dependencies[..i]
      {
        if dependencies[i] == name { known := true; }
      }
      SameNames(names);
      assert (names + [name])[..|names|] == names;
      if !known { dependencies := dependencies + [name]; }
    }

    /** Adds the first segment of every dotted name among the children of an import. */
    method AddModules(children: seq<Node>, ghost names: seq<string>)
      requires dependencies == FirstOccurrences(names)
      modifies this`dependencies
      ensures dependencies == FirstOccurrences(names + Texts(children))
    {
      assert names + [] == names;
      for i := 0 to |children|
        invariant dependencies == FirstOccurrences(names + Texts(children[..i]))
      {
        assert children[..i + 1][..i] == children[..i];
        if children[i].kind.DottedName? {
          AddDependency(Before(children[i].text, '.'), names + Texts(children[..i]));
          assert names + Texts(children[..i + 1]) == names + Texts(children[..i]) + [Before(children[i].text, '.')];
        } else {
          assert Texts(children[..i + 1]) == Texts(children[..i]);
        }
      }
      assert children[..|children|] == children;
    }

    /** Adds a quoted module path, quotes removed, unless it is a relative one. */
    method AddPackage(quoted: string, ghost names: seq<string>)
      requires dependencies == FirstOccurrences(names)
      modifies this`dependencies
      ensures dependencies == FirstOccurrences(names + PackageName(quoted))
    {
      var cleaned := StripAll(StripAll(quoted, '\''), '"');
      if cleaned == "" || cleaned[0] != '.' {
        AddDependency(cleaned, names);
      } else {
        assert names + [] == names;
      }
    }

    /** Records the callee of a call that is one of the given system calls. */
    method AddCall(n: Node, names: set<string>)
      modifies this`systemCalls
      ensures systemCalls == old(systemCalls) + CalleeIn(n, names)
    {
      var f := ChildByField(n, "function");
      if f.Some? && f.value.text in names { systemCalls := systemCalls + [f.value.text]; }
    }

    method VisitPython(n: Node, calls: set<string>, ghost names: seq<string>)
      requires dependencies == FirstOccurrences(names)
      modifies this
      ensures dependencies == FirstOccurrences(names + PythonFacts(n, calls).names)
      ensures functionCount == old(functionCount) + PythonFacts(n, calls).functions
      ensures classCount == old(classCount) + PythonFacts(n, calls).classes
      ensures entrypoints == old(entrypoints) + PythonFacts(n, calls).entrypoints
      ensures systemCalls == old(systemCalls) + PythonFacts(n, calls).calls
    {
      assert names + [] == names;
      if n.kind.FunctionDefinition? {
        functionCount := functionCount + 1;
      } else if n.kind.ClassDefinition? {
        classCount := classCount + 1;
      } else if n.kind.ImportStatement? || n.kind.ImportFromStatement? {
        AddModules(n.children, names);
      } else if n.kind.IfStatement? {
        if MainGuard(n.text) { entrypoints := entrypoints + ["python_main"]; }
      } else if n.kind.Call? {
        AddCall(n, calls);
      }
    }

    method AddEntrypoint(n: Node)
      modifies this`entrypoints
      ensures entrypoints == old(entrypoints) + GoMain(n)
    {
      var name := ChildByField(n, "name");
      if name.Some? && name.value.text == "main" { entrypoints := entrypoints + ["go_main"]; }
    }

    method AddPath(n: Node, ghost names: seq<string>)
      requires dependencies == FirstOccurrences(names)
      modifies this`dependencies
      ensures dependencies == FirstOccurrences(names + ImportPath(n))
    {
      assert names + [] == names;
      var path := ChildByField(n, "path");
      if path.Some? {
        var cleaned := StripAll(path.value.text, '"');
        if cleaned != "" { AddDependency(cleaned, names); }
      }
    }

    method VisitGo(n: Node, calls: set<string>, ghost names: seq<string>)
      requires dependencies == FirstOccurrences(names)
      modifies this
      ensures dependencies == FirstOccurrences(names + GoFacts(n, calls).names)
      ensures functionCount == old(functionCount) + GoFacts(n, calls).functions
      ensures classCount == old(classCount) + GoFacts(n, calls).classes
      ensures entrypoints == old(entrypoints) + GoFacts(n, calls).entrypoints
      ensures systemCalls == old(systemCalls) + GoFacts(n, calls).calls
    {
      assert names + [] == names;
      if n.kind.FunctionDeclaration? {
        functionCount := functionCount + 1;
        AddEntrypoint(n);
      } else if n.kind.TypeDeclaration? {
        if Contains(n.text, "struct") { classCount := classCount + 1; }
      } else if n.kind.ImportSpec? {
        AddPath(n, names);
      } else if n.kind.CallExpression? {
        AddCall(n, calls);
      }
    }

    /** Adds the package that an import names. */
    method AddSource(n: Node, ghost names: seq<string>)
      requires dependencies == FirstOccurrences(names)
      modifies this`dependencies
      ensures dependencies == FirstOccurrences(names + ImportedPackage(n))
    {
      assert names + [] == names;
      var source := ChildByField(n, "source");
      if source.Some? { AddPackage(source.value.text, names); }
    }

    /** Adds the package that a call of require names. */
    method AddRequired(n: Node, ghost names: seq<string>)
      requires dependencies == FirstOccurrences(names)
      modifies this`dependencies
      ensures dependencies == FirstOccurrences(names + RequiredPackage(n))
    {
      assert names + [] == names;
      var arguments := ChildByField(n, "arguments");
      if arguments.Some? {
        var first := FirstNamed(arguments.value.children);
        if first.Some? && first.value.kind.StringLiteral? { AddPackage(first.value.text, names); }
      }
    }

    method VisitJavaScript(n: Node, calls: set<string>, ghost names: seq<string>)
      requires dependencies == FirstOccurrences(names)
      modifies this
      ensures dependencies == FirstOccurrences(names + JavaScriptFacts(n, calls).names)
      ensures functionCount == old(functionCount) + JavaScriptFacts(n, calls).functions
      ensures classCount == old(classCount) + JavaScriptFacts(n, calls).classes
      ensures entrypoints == old(entrypoints) + JavaScriptFacts(n, calls).entrypoints
      ensures systemCalls == old(systemCalls) + JavaScriptFacts(n, calls).calls
    {
      assert names + [] == names;
      if n.kind.FunctionDeclaration? || n.kind.ArrowFunction? {
        functionCount := functionCount + 1;
      } else if n.kind.ClassDeclaration? {
        classCount := classCount + 1;
      } else if n.kind.ImportStatement? {
        AddSource(n, names);
      } else if n.kind.CallExpression? {
        if CallsRequire(n) { AddRequired(n, names); } else { AddCall(n, calls); }
      }
    }

    method Visit(language: Language, n: Node, ghost before: Facts)
      requires Reflects(before)
      modifies this
      ensures Reflects(Plus(before, NodeFacts(language, n)))
    {
      match language
      case Python => VisitPython(n, PYTHON_CALLS, before.names);
      case Go => VisitGo(n, GO_CALLS, before.names);
      case JavaScript => VisitJavaScript(n, JAVASCRIPT_CALLS, before.names);
    }

    method Traverse(language: Language, n: Node, ghost before: Facts)
      requires Reflects(before)
      modifies this
      ensures Reflects(Plus(before, Sum(language, Preorder(n))))
      decreases n, 1
    {
      Visit(language, n, before);
      ghost var here := Plus(before, NodeFacts(language, n));
      TraverseAll(language, n.children, here);
      SumNode(language, n, before);
    }

    /** The loop over the children of a node. */
    method TraverseAll(language: Language, children: seq<Node>, ghost here: Facts)
      requires Reflects(here)
      modifies this
      ensures Reflects(Plus(here, Sum(language, PreorderAll(children))))
      decreases children, 0
    {
      PlusAssociates(here, NOTHING, NOTHING);
      for i := 0 to |children|
        invariant Reflects(Plus(here, Sum(language, PreorderAll(children[..i]))))
      {
        Traverse(language, children[i], Plus(here, Sum(language, PreorderAll(children[..i]))));
        SumChild(language, children, i, here);
      }
      assert children[..|children|] == children;
    }
  }

  lemma SumChild(language: Language, children: seq<Node>, i: nat, here: Facts)
    requires i < |children|
    ensures Plus(Plus(here, Sum(language, PreorderAll(children[..i]))), Sum(language, Preorder(children[i])))
      == Plus(here, Sum(language, PreorderAll(children[..i + 1])))
  {
    assert children[..i + 1][..i] == children[..i];
    SumAppend(language, PreorderAll(children[..i]), Preorder(children[i]));
    PlusAssociates(here, Sum(language, PreorderAll(children[..i])), Sum(language, Preorder(children[i])));
  }

  lemma SumNode(language: Language, n: Node, before: Facts)
    ensures Plus(Plus(before, NodeFacts(language, n)), Sum(language, PreorderAll(n.children))) == Plus(before, Sum(language, Preorder(n)))
  {
    SumAppend(language, [n], PreorderAll(n.children));
    SumOne(language, n);
    PlusAssociates(before, NodeFacts(language, n), Sum(language, PreorderAll(n.children)));
  }

  lemma SumOne(language: Language, n: Node)
    ensures Sum(language, [n]) == NodeFacts(language, n)
  {
    assert [n][..0] == [] && [n][0] == n;
    PlusAssociates(NodeFacts(language, n), NOTHING, NOTHING);
  }

  method Analyze(language: Language, root: Node) returns (analysis: CodeAnalysis)
    ensures fresh(analysis) && analysis.Reflects(Sum(language, Preorder(root)))
  {
    analysis := new CodeAnalysis();
    analysis.Traverse(language, root, NOTHING);
    PlusAssociates(Sum(language, Preorder(root)), NOTHING, NOTHING);
  }

  // ----- What each node contributes, by its kind and its texts

  datatype Fact = AFunction | AClass | AnEntrypoint(name: string) | ACall(name: string) | AnImport(name: string)

  /** How often a fact is among the facts of an analysis. */
  function Measure(f: Facts, fact: Fact): nat {
    match fact
    case AFunction => f.functions
    case AClass => f.classes
    case AnEntrypoint(x) => multiset(f.entrypoints)[x]
    case ACall(x) => multiset(f.calls)[x]
    case AnImport(x) => multiset(f.names)[x]
  }

  function OneIf(b: bool): nat {
    if b then 1 else 0
  }

  predicate FieldIs(n: Node, field: string, text: string) {
    ChildByField(n, field).Some? && ChildByField(n, field).value.text == text
  }

  function DottedCount(children: seq<Node>, x: string): nat {
    if children == [] then 0
    else
      var last := children[|children| - 1];
      DottedCount(children[..|children| - 1], x) + OneIf(last.kind.DottedName? && Before(last.text, '.') == x)
  }

  function PythonContribution(n: Node, fact: Fact): nat {
    match fact
    case AFunction => OneIf(n.kind.FunctionDefinition?)
    case AClass => OneIf(n.kind.ClassDefinition?)
    case AnEntrypoint(x) =>
      OneIf(x == "python_main" && n.kind.IfStatement? &&
         (Contains(n.text, "__name__ == \"__main__\"") || Contains(n.text, "__name__ == '__main__'")))
    case ACall(x) =>
      OneIf(n.kind.Call? && FieldIs(n, "function", x) &&
         (x == "subprocess.run" || x == "os.system" || x == "subprocess.Popen" || x == "subprocess.call" || x == "subprocess.check_output"))
    case AnImport(x) => if n.kind.ImportStatement? || n.kind.ImportFromStatement? then DottedCount(n.children, x) else 0
  }

  function GoContribution(n: Node, fact: Fact): nat {
    match fact
    case AFunction => OneIf(n.kind.FunctionDeclaration?)
    case AClass => OneIf(n.kind.TypeDeclaration? && Contains(n.text, "struct"))
    case AnEntrypoint(x) => OneIf(x == "go_main" && n.kind.FunctionDeclaration? && FieldIs(n, "name", "main"))
    case ACall(x) => OneIf(n.kind.CallExpression? && FieldIs(n, "function", x) && (x == "exec.Command" || x == "exec.CommandContext"))
    case AnImport(x) => OneIf(n.kind.ImportSpec? && x != "" && ChildByField(n, "path").Some? && StripAll(ChildByField(n, "path").value.text, '"') == x)
  }

  /** The quoted text names the package, which is no relative path. */
  predicate Quotes(quoted: string, x: string) {
    StripAll(StripAll(quoted, '\''), '"') == x && (x == "" || x[0] != '.')
  }

  /** The first named argument is a string that names the package. */
  predicate FirstArgumentQuotes(n: Node, x: string) {
    var arguments := ChildByField(n, "arguments");
    arguments.Some? &&
    var first := FirstNamed(arguments.value.children);
    first.Some? && first.value.kind.StringLiteral? && Quotes(first.value.text, x)
  }

  function JavaScriptContribution(n: Node, fact: Fact): nat {
    match fact
    case AFunction => OneIf(n.kind.FunctionDeclaration? || n.kind.ArrowFunction?)
    case AClass => OneIf(n.kind.ClassDeclaration?)
    case AnEntrypoint(x) => 0
    case ACall(x) =>
      OneIf(n.kind.CallExpression? && FieldIs(n, "function", x) &&
         (x == "child_process.exec" || x == "child_process.spawn" || x == "exec" || x == "spawn"
          || x == "child_process.execSync" || x == "child_process.spawnSync"))
    case AnImport(x) =>
      OneIf((n.kind.ImportStatement? && ChildByField(n, "source").Some? && Quotes(ChildByField(n, "source").value.text, x))
         || (n.kind.CallExpression? && FieldIs(n, "function", "require") && FirstArgumentQuotes(n, x)))
  }

  function Contribution(language: Language, n: Node, fact: Fact): nat {
    match language
    case Python => PythonContribution(n, fact)
    case Go => GoContribution(n, fact)
    case JavaScript => JavaScriptContribution(n, fact)
  }

  function TotalContribution(language: Language, nodes: seq<Node>, fact: Fact): nat {
    if nodes == [] then 0 else TotalContribution(language, nodes[..|nodes| - 1], fact) + Contribution(language, nodes[|nodes| - 1], fact)
  }

  lemma MeasurePlus(a: Facts, b: Facts, fact: Fact)
    ensures Measure(Plus(a, b), fact) == Measure(a, fact) + Measure(b, fact)
  {
  }

  lemma {:induction false} DottedTexts(children: seq<Node>, x: string)
    ensures multiset(Texts(children))[x] == DottedCount(children, x)
  {
    if children != [] { DottedTexts(children[..|children| - 1], x); }
  }

  lemma CalleeIs(n: Node, names: set<string>, x: string)
    ensures multiset(CalleeIn(n, names))[x] == OneIf(FieldIs(n, "function", x) && x in names)
  {
  }

  lemma PythonContributes(n: Node, fact: Fact)
    ensures Measure(PythonFacts(n, PYTHON_CALLS), fact) == PythonContribution(n, fact)
  {
    if fact.ACall? { CalleeIs(n, PYTHON_CALLS, fact.name); }
    if fact.AnImport? { DottedTexts(n.children, fact.name); }
  }

  lemma GoContributes(n: Node, fact: Fact)
    ensures Measure(GoFacts(n, GO_CALLS), fact) == GoContribution(n, fact)
  {
    if fact.ACall? { CalleeIs(n, GO_CALLS, fact.name); }
  }

  lemma PackageIs(quoted: string, x: string)
    ensures multiset(PackageName(quoted))[x] == OneIf(Quotes(quoted, x))
  {
  }

  lemma JavaScriptContributes(n: Node, fact: Fact)
    ensures Measure(JavaScriptFacts(n, JAVASCRIPT_CALLS), fact) == JavaScriptContribution(n, fact)
  {
    if fact.ACall? { CalleeIs(n, JAVASCRIPT_CALLS, fact.name); }
    if fact.AnImport? { JavaScriptImports(n, fact.name); }
  }

  lemma JavaScriptImports(n: Node, x: string)
    ensures multiset(ImportedPackage(n))[x] == OneIf(ChildByField(n, "source").Some? && Quotes(ChildByField(n, "source").value.text, x))
    ensures multiset(RequiredPackage(n))[x] == OneIf(FirstArgumentQuotes(n, x))
  {
    var source, arguments := ChildByField(n, "source"), ChildByField(n, "arguments");
    if source.Some? { PackageIs(source.value.text, x); }
    if arguments.Some? {
      var first := FirstNamed(arguments.value.children);
      if first.Some? { PackageIs(first.value.text, x); }
    }
  }

  /** What an analysis holds, with multiplicities: each node of the tree contributes a fact as often as
      the rules for its kind and its texts say, and nothing else is there. */
  lemma {:induction false} SumIsExact(language: Language, nodes: seq<Node>, fact: Fact)
    ensures Measure(Sum(language, nodes), fact) == TotalContribution(language, nodes, fact)
  {
    if nodes != [] {
      var k := |nodes| - 1;
      SumIsExact(language, nodes[..k], fact);
      MeasurePlus(Sum(language, nodes[..k]), NodeFacts(language, nodes[k]), fact);
      match language
      case Python => PythonContributes(nodes[k], fact);
      case Go => GoContributes(nodes[k], fact);
      case JavaScript => JavaScriptContributes(nodes[k], fact);
    }
  }
}
