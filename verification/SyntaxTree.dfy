/** An abstract syntax tree as the parser hands it over, and its preorder. */
module SyntaxTree {
  import opened Prelude

  /** The node kinds the walks look at; every other kind is `Other`. */
  datatype Kind =
    | PrintStatement | Call | Attribute | ExceptClause | ImportStatement | ImportFromStatement
    | DottedName | AliasedImport | IntegerLiteral | ErrorNode | ImportSpec | VariableDeclaration
    | FunctionDefinition | FunctionDeclaration | ArrowFunction | ClassDefinition | ClassDeclaration
    | TypeDeclaration | IfStatement | CallExpression | StringLiteral | Other

  /** A node, its rows, and the name of the field it fills in its parent ("" for none). */
  datatype Node = Node(kind: Kind, text: string, row: nat, endRow: nat, field: string, named: bool, children: seq<Node>)

  function ChildByField(n: Node, field: string): Option<Node> {
    FirstWithField(n.children, field)
  }

  function FirstWithField(nodes: seq<Node>, field: string): Option<Node> {
    if nodes == [] then None
    else if nodes[0].field == field then Some(nodes[0])
    else FirstWithField(nodes[1..], field)
  }

  function FirstNamed(nodes: seq<Node>): Option<Node> {
    if nodes == [] then None
    else if nodes[0].named then Some(nodes[0])
    else FirstNamed(nodes[1..])
  }

  /** The child that fills a field is the first one that does. */
  lemma {:induction false} FirstWithFieldIsFirst(nodes: seq<Node>, field: string)
    ensures FirstWithField(nodes, field).None? ==> forall i :: 0 <= i < |nodes| ==> nodes[i].field != field
    ensures FirstWithField(nodes, field).Some? ==> exists i :: IsFirst(nodes, field, i) && FirstWithField(nodes, field).value == nodes[i]
  {
    if nodes != [] {
      if nodes[0].field == field {
        assert IsFirst(nodes, field, 0);
      } else {
        FirstWithFieldIsFirst(nodes[1..], field);
        if FirstWithField(nodes, field).Some? {
          var i :| IsFirst(nodes[1..], field, i) && FirstWithField(nodes, field).value == nodes[1..][i];
          assert IsFirst(nodes, field, i + 1);
        } else {
          assert forall i :: 1 <= i < |nodes| ==> nodes[i] == nodes[1..][i - 1];
        }
      }
    }
  }

  ghost predicate IsFirst(nodes: seq<Node>, field: string, i: int) {
    0 <= i < |nodes| && nodes[i].field == field && forall j :: 0 <= j < i ==> nodes[j].field != field
  }

  lemma {:induction false} FirstNamedIsFirst(nodes: seq<Node>)
    ensures FirstNamed(nodes).None? ==> forall i :: 0 <= i < |nodes| ==> !nodes[i].named
    ensures FirstNamed(nodes).Some? ==> exists i :: IsFirstNamed(nodes, i) && FirstNamed(nodes).value == nodes[i]
  {
    if nodes != [] {
      if nodes[0].named {
        assert IsFirstNamed(nodes, 0);
      } else {
        FirstNamedIsFirst(nodes[1..]);
        if FirstNamed(nodes).Some? {
          var i :| IsFirstNamed(nodes[1..], i) && FirstNamed(nodes).value == nodes[1..][i];
          assert IsFirstNamed(nodes, i + 1);
        } else {
          assert forall i :: 1 <= i < |nodes| ==> nodes[i] == nodes[1..][i - 1];
        }
      }
    }
  }

  ghost predicate IsFirstNamed(nodes: seq<Node>, i: int) {
    0 <= i < |nodes| && nodes[i].named && forall j :: 0 <= j < i ==> !nodes[j].named
  }

  /** A node before its children, children from left to right. */
  function Preorder(n: Node): seq<Node>
    decreases n, 1
  {
    [n] + PreorderAll(n.children)
  }

  function PreorderAll(nodes: seq<Node>): seq<Node>
    decreases nodes, 0
  {
    if nodes == [] then []
    else
      var k := |nodes| - 1;
      PreorderAll(nodes[..k]) + Preorder(nodes[k])
  }

  /** Children lie inside their parent and one after the other, by row. */
  ghost predicate WellPlaced(n: Node)
    decreases n
  {
    && n.row <= n.endRow
    && (forall i :: 0 <= i < |n.children| ==> WellPlaced(n.children[i]) && n.row <= n.children[i].row && n.children[i].endRow <= n.endRow)
    && (forall i, j :: 0 <= i < j < |n.children| ==> n.children[i].endRow <= n.children[j].row)
  }

  ghost predicate RowsRise(nodes: seq<Node>, from: nat, to: nat) {
    && (forall i :: 0 <= i < |nodes| ==> from <= nodes[i].row <= to)
    && (forall i, j :: 0 <= i < j < |nodes| ==> nodes[i].row <= nodes[j].row)
  }

  /** In preorder the rows of a well-placed tree never fall. */
  lemma {:induction false} PreorderRises(n: Node)
    requires WellPlaced(n)
    ensures RowsRise(Preorder(n), n.row, n.endRow)
    decreases n, 1
  {
    PreorderAllRises(n.children, n.row, n.endRow);
  }

  lemma {:induction false} PreorderAllRises(nodes: seq<Node>, from: nat, to: nat)
    requires forall i :: 0 <= i < |nodes| ==> WellPlaced(nodes[i]) && from <= nodes[i].row && nodes[i].endRow <= to
    requires forall i, j :: 0 <= i < j < |nodes| ==> nodes[i].endRow <= nodes[j].row
    ensures RowsRise(PreorderAll(nodes), from, to)
    decreases nodes, 0
  {
    if nodes != [] {
      var k := |nodes| - 1;
      assert forall i :: 0 <= i < k ==> nodes[..k][i] == nodes[i];
      PreorderAllRises(nodes[..k], from, nodes[k].row);
      PreorderRises(nodes[k]);
    }
  }

  /** The node reached by child indices. */
  function NodeAt(n: Node, path: seq<nat>): Option<Node>
    decreases |path|
  {
    if path == [] then Some(n)
    else if path[0] < |n.children| then NodeAt(n.children[path[0]], path[1..])
    else None
  }

  /** Lexicographic order of child indices: a node before its children, children from left to right. */
  predicate Precedes(p: seq<nat>, q: seq<nat>) {
    q != [] && (p == [] || p[0] < q[0] || (p[0] == q[0] && Precedes(p[1..], q[1..])))
  }

  ghost predicate InOrder(paths: seq<seq<nat>>) {
    forall i, j :: 0 <= i < j < |paths| ==> Precedes(paths[i], paths[j])
  }

  /** The sequence lists the nodes at the given places of a tree. */
  ghost predicate Lists(nodes: seq<Node>, n: Node, paths: seq<seq<nat>>) {
    |nodes| == |paths| && forall i :: 0 <= i < |nodes| ==> NodeAt(n, paths[i]) == Some(nodes[i])
  }

  /** The preorder lists every place of the tree once, in lexicographic order. */
  lemma {:induction false} PreorderIsRight(n: Node) returns (paths: seq<seq<nat>>)
    ensures Lists(Preorder(n), n, paths) && InOrder(paths)
    ensures forall p :: NodeAt(n, p).Some? ==> p in paths
    decreases n, 1
  {
    var below := PreorderAllIsRight(n, n.children);
    paths := [[]] + below;
    forall p | NodeAt(n, p).Some?
      ensures p in paths
    {
      if p == [] { assert paths[0] == p; } else { assert p in below; }
    }
  }

  /** The same for the places under the first children of a node. */
  lemma {:induction false} PreorderAllIsRight(n: Node, nodes: seq<Node>) returns (paths: seq<seq<nat>>)
    requires nodes <= n.children
    ensures Lists(PreorderAll(nodes), n, paths) && InOrder(paths)
    ensures forall p :: p in paths ==> p != [] && p[0] < |nodes|
    ensures forall p :: p != [] && p[0] < |nodes| && NodeAt(n, p).Some? ==> p in paths
    decreases nodes, 0
  {
    paths := [];
    if nodes != [] {
      var k := |nodes| - 1;
      var before := PreorderAllIsRight(n, nodes[..k]);
      var last := PreorderIsRight(nodes[k]);
      var here := seq(|last|, i requires 0 <= i < |last| => [k] + last[i]);
      PathsUnder(n, k, Preorder(nodes[k]), last, here);
      paths := before + here;
      Joined(n, k, PreorderAll(nodes[..k]), before, Preorder(nodes[k]), here);
      forall p | p != [] && p[0] < |nodes| && NodeAt(n, p).Some?
        ensures p in paths
      {
        if p[0] == k { assert p in here; } else { assert p in before; }
      }
    }
  }

  lemma Joined(n: Node, k: nat, nodes: seq<Node>, before: seq<seq<nat>>, more: seq<Node>, here: seq<seq<nat>>)
    requires Lists(nodes, n, before) && Lists(more, n, here) && InOrder(before) && InOrder(here)
    requires forall p :: p in before ==> p != [] && p[0] < k
    requires forall p :: p in here ==> p != [] && p[0] == k
    ensures Lists(nodes + more, n, before + here) && InOrder(before + here)
    ensures forall p :: p in before + here ==> p != [] && p[0] <= k
  {
  }

  lemma PathsUnder(n: Node, k: nat, nodes: seq<Node>, last: seq<seq<nat>>, here: seq<seq<nat>>)
    requires k < |n.children| && Lists(nodes, n.children[k], last) && InOrder(last)
    requires forall p :: NodeAt(n.children[k], p).Some? ==> p in last
    requires |here| == |last| && forall i :: 0 <= i < |last| ==> here[i] == [k] + last[i]
    ensures Lists(nodes, n, here) && InOrder(here)
    ensures forall p :: p in here ==> p != [] && p[0] == k
    ensures forall p :: p != [] && p[0] == k && NodeAt(n, p).Some? ==> p in here
  {
    assert forall i :: 0 <= i < |last| ==> here[i][1..] == last[i];
    forall p | p != [] && p[0] == k && NodeAt(n, p).Some?
      ensures p in here
    {
      assert NodeAt(n.children[k], p[1..]).Some? && p[1..] in last;
      var i :| 0 <= i < |last| && last[i] == p[1..];
      assert here[i] == p;
    }
  }

  // ----- Text

  predicate Blank(c: char) {
    c == ' ' || c == '\t' || c == '\n' || c == '\r'
  }

  function TrimStart(s: string): string {
    if s != [] && Blank(s[0]) then TrimStart(s[1..]) else s
  }

  function TrimEnd(s: string): string {
    if s != [] && Blank(s[|s| - 1]) then TrimEnd(s[..|s| - 1]) else s
  }

  function Trim(s: string): string {
    TrimEnd(TrimStart(s))
  }

  function StripPrefix(s: string, prefix: string): string {
    if prefix <= s then s[|prefix|..] else s
  }

  function StripSuffix(s: string, c: char): string {
    if s != [] && s[|s| - 1] == c then s[..|s| - 1] else s
  }

  /** Strips a character from both ends as often as it occurs there. */
  function StripAll(s: string, c: char): string {
    if s != [] && s[0] == c then StripAll(s[1..], c)
    else if s != [] && s[|s| - 1] == c then StripAll(s[..|s| - 1], c)
    else s
  }

  predicate Contains(s: string, part: string) {
    part <= s || (s != [] && Contains(s[1..], part))
  }

  function CountChar(s: string, c: char): nat {
    if s == [] then 0 else (if s[0] == c then 1 else 0) + CountChar(s[1..], c)
  }

  /** The text before the first occurrence of a character. */
  function Before(s: string, c: char): string {
    if s == [] || s[0] == c then [] else [s[0]] + Before(s[1..], c)
  }

  ghost predicate All(s: string, p: char -> bool) {
    forall c :: c in s ==> p(c)
  }

  /** Trimming takes blanks off both ends, and all of them. */
  lemma {:induction false} TrimIsRight(s: string) returns (before: string, after: string)
    ensures s == before + Trim(s) + after && All(before, Blank) && All(after, Blank)
    ensures Trim(s) != "" ==> !Blank(Trim(s)[0]) && !Blank(Trim(s)[|Trim(s)| - 1])
  {
    before := TrimStartIsRight(s);
    after := TrimEndIsRight(TrimStart(s));
    assert s == before + (Trim(s) + after);
  }

  lemma {:induction false} TrimStartIsRight(s: string) returns (before: string)
    ensures s == before + TrimStart(s) && All(before, Blank) && (TrimStart(s) != "" ==> !Blank(TrimStart(s)[0]))
  {
    before := "";
    if s != [] && Blank(s[0]) {
      var rest := TrimStartIsRight(s[1..]);
      before := [s[0]] + rest;
    }
  }

  lemma {:induction false} TrimEndIsRight(s: string) returns (after: string)
    ensures s == TrimEnd(s) + after && All(after, Blank) && (TrimEnd(s) != "" ==> !Blank(TrimEnd(s)[|TrimEnd(s)| - 1]))
    ensures TrimEnd(s) != "" ==> TrimEnd(s)[0] == s[0]
  {
    after := "";
    if s != [] && Blank(s[|s| - 1]) {
      var rest := TrimEndIsRight(s[..|s| - 1]);
      after := rest + [s[|s| - 1]];
    }
  }

  /** Stripping takes the character off both ends, as often as it occurs there. */
  lemma {:induction false} StripAllIsRight(s: string, c: char) returns (before: string, after: string)
    ensures s == before + StripAll(s, c) + after && All(before, x => x == c) && All(after, x => x == c)
    ensures StripAll(s, c) != "" ==> StripAll(s, c)[0] != c && StripAll(s, c)[|StripAll(s, c)| - 1] != c
    decreases |s|
  {
    before, after := "", "";
    if s != [] && s[0] == c {
      before, after := StripAllIsRight(s[1..], c);
      before := [s[0]] + before;
    } else if s != [] && s[|s| - 1] == c {
      before, after := StripAllIsRight(s[..|s| - 1], c);
      after := after + [s[|s| - 1]];
    }
  }

  lemma {:induction false} ContainsIsRight(s: string, part: string)
    ensures Contains(s, part) <==> exists i: nat :: i <= |s| && part <= s[i..]
  {
    if part <= s {
      assert part <= s[0..];
    } else if s != [] {
      ContainsIsRight(s[1..], part);
      assert forall i: nat :: i < |s| ==> s[1..][i..] == s[i + 1..];
      if i: nat :| i <= |s| && part <= s[i..] {
        assert i > 0 && s[1..][i - 1..] == s[i..];
      }
    }
  }

  lemma {:induction false} CountCharIsRight(s: string, c: char)
    ensures CountChar(s, c) == multiset(s)[c]
  {
    if s != [] {
      CountCharIsRight(s[1..], c);
      assert s == [s[0]] + s[1..];
    }
  }

  lemma {:induction false} BeforeIsRight(s: string, c: char)
    ensures Before(s, c) <= s && c !in Before(s, c) && (|Before(s, c)| < |s| ==> s[|Before(s, c)|] == c)
  {
    if s != [] && s[0] != c {
      BeforeIsRight(s[1..], c);
    }
  }
}
