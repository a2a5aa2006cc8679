/** The audit ledger (internal/db/db.go and migrations): runs, audit rows and the override
    transaction, interleaved statement by statement across concurrent overrides. */
module Ledger {
  import opened Prelude
  import SpecDiff

  /** Letter case, hyphens and braces do not matter in a UUID. */
  function Digit(c: char): string {
    if c == '-' || c == '{' || c == '}' then "" else if 'A' <= c <= 'F' then [c - 'A' + 'a'] else [c]
  }

  /** The digits of a UUID, whatever its spelling. */
  function Digits(text: string): string {
    if text == "" then "" else Digit(text[0]) + Digits(text[1..])
  }

  lemma {:induction false} DigitsFit(text: string)
    ensures |Digits(text)| <= |text|
  {
    if text != "" { DigitsFit(text[1..]); }
  }

  predicate Hexadecimal(text: string) {
    forall i :: 0 <= i < |text| ==> '0' <= text[i] <= '9' || 'a' <= text[i] <= 'f'
  }

  predicate IsUuid(text: string) {
    |Digits(text)| == 32 && Hexadecimal(Digits(text))
  }

  /** The text cut into groups with hyphens between them. */
  function Grouped(text: string, sizes: seq<nat>): string
    decreases |sizes|
  {
    if sizes == [] || |text| <= sizes[0] then text
    else text[..sizes[0]] + "-" + Grouped(text[sizes[0]..], sizes[1..])
  }

  /** An id as the database keeps and returns it. */
  function Canonical(text: string): string {
    if IsUuid(text) then Grouped(Digits(text), [8, 4, 4, 4]) else text
  }

  lemma {:induction false} DigitsOfSum(a: string, b: string)
    ensures Digits(a + b) == Digits(a) + Digits(b)
  {
    if a == "" {
      assert a + b == b;
    } else {
      DigitsOfSum(a[1..], b);
      DigitsOfFirst(a, b);
      Associates(Digit(a[0]), Digits(a[1..]), Digits(b));
    }
  }

  lemma Associates(a: string, b: string, c: string)
    ensures a + (b + c) == (a + b) + c
  {
  }

  lemma DigitsOfFirst(a: string, b: string)
    requires a != ""
    ensures Digits(a + b) == Digit(a[0]) + Digits(a[1..] + b)
  {
    assert (a + b)[1..] == a[1..] + b;
  }

  lemma {:induction false} DigitsOfDigits(text: string)
    requires Hexadecimal(text)
    ensures Digits(text) == text
  {
    if text != "" { DigitsOfDigits(text[1..]); }
  }

  /** Hyphens between groups of digits are none themselves. */
  lemma DigitsOfGroups(d: string, i: nat, j: nat, rest: string)
    requires i <= j <= |d| && Hexadecimal(d)
    requires Digits(rest) == d[j..]
    ensures Digits(d[i..j] + "-" + rest) == d[i..]
  {
    DigitsOfDigits(d[i..j]);
    DigitsAcross(d[i..j], "-", rest);
    assert d[i..] == d[i..j] + d[j..];
  }

  lemma DigitsAcross(a: string, hyphen: string, b: string)
    requires Digits(hyphen) == ""
    ensures Digits(a + hyphen + b) == Digits(a) + Digits(b)
  {
    DigitsOfSum(a + hyphen, b);
    DigitsOfSum(a, hyphen);
  }

  lemma GroupedIs(d: string)
    requires |d| == 32
    ensures Grouped(d, [8, 4, 4, 4]) == d[..8] + "-" + (d[8..12] + "-" + (d[12..16] + "-" + (d[16..20] + "-" + d[20..])))
  {
    var a, b, c := d[8..], d[12..], d[16..];
    assert a[..4] == d[8..12] && a[4..] == b && b[..4] == d[12..16] && b[4..] == c && c[..4] == d[16..20] && c[4..] == d[20..];
    assert Grouped(c, [4]) == c[..4] + "-" + d[20..];
    assert Grouped(b, [4, 4]) == b[..4] + "-" + Grouped(c, [4]);
    assert Grouped(a, [4, 4, 4]) == a[..4] + "-" + Grouped(b, [4, 4]);
    assert [8, 4, 4, 4][1..] == [4, 4, 4];
  }

  lemma DigitsOfGrouped(d: string)
    requires |d| == 32 && Hexadecimal(d)
    ensures Digits(Grouped(d, [8, 4, 4, 4])) == d
  {
    GroupedIs(d);
    DigitsOfDigits(d[20..]);
    DigitsOfGroups(d, 16, 20, d[20..]);
    DigitsOfGroups(d, 12, 16, d[16..20] + "-" + d[20..]);
    DigitsOfGroups(d, 8, 12, d[12..16] + "-" + (d[16..20] + "-" + d[20..]));
    DigitsOfGroups(d, 0, 8, d[8..12] + "-" + (d[12..16] + "-" + (d[16..20] + "-" + d[20..])));
  }

  /** The database's spelling of a UUID: its 32 digits in groups of 8, 4, 4, 4 and 12 with hyphens
      between them; it is a spelling of the same UUID. */
  lemma CanonicalIsRight(text: string)
    requires IsUuid(text)
    ensures var d := Digits(text);
      Canonical(text) == d[..8] + "-" + (d[8..12] + "-" + (d[12..16] + "-" + (d[16..20] + "-" + d[20..])))
    ensures Digits(Canonical(text)) == Digits(text) && IsUuid(Canonical(text)) && Canonical(Canonical(text)) == Canonical(text)
  {
    GroupedIs(Digits(text));
    DigitsOfGrouped(Digits(text));
  }

  /** Two ids are the same to the database if and only if their digits are. */
  lemma SameIdExactly(a: string, b: string)
    requires IsUuid(a) && IsUuid(b)
    ensures Canonical(a) == Canonical(b) <==> Digits(a) == Digits(b)
  {
    CanonicalIsRight(a);
    CanonicalIsRight(b);
  }

  datatype Status = PASSED | FAILED | OVERRIDDEN

  datatype Run = Run(project: string, commit: string, status: Status, breaking: nat, dangerous: nat,
                     payload: SpecDiff.Report, createdAt: nat)

  /** The row as it is stored: its project in the database's spelling. */
  function Stored(row: Run): Run {
    row.(project := Canonical(row.project))
  }

  datatype Audit = Audit(run: string, user: string, note: string, createdAt: nat)

  /** The committed rows, by primary key. */
  datatype Tables = Tables(projects: set<string>, runs: map<string, Run>, audits: map<string, Audit>)

  /** Where an override stands: its transaction (opened, audit row written, status written), its end,
      and the handler's read and event afterwards. Uncommitted writes are in the program counter. */
  datatype OverridePc =
    | Opened
    | AuditWritten(id: string, at: nat)
    | StatusWritten(id: string, at: nat)
    | RolledBack
    | Committed(id: string)
    | ProjectRead(id: string, project: string)
    | Announced(id: string)

  datatype Override = Override(run: string, user: string, note: string, pc: OverridePc)

  datatype Event =
    | ProjectCreated(project: string)
    | DiffCompleted(project: string, run: string)
    | DiffOverridden(project: string, run: string, user: string, note: string)

  datatype State = State(tables: Tables, overrides: map<nat, Override>, events: seq<Event>)

  const INITIAL := State(Tables({}, map[], map[]), map[], [])

  datatype Action =
    | CreateProject(id: string)
    | InsertRun(id: string, row: Run)
    | AnnounceRun(id: string, project: string)
    | Begin(x: nat, run: string, user: string, note: string)
    | WriteAudit(x: nat, id: string, now: nat)
    | WriteStatus(x: nat)
    | Commit(x: nat)
    | Rollback(x: nat)
    | ReadProject(x: nat, found: bool)
    | Announce(x: nat)

  /** The primary key of an audit row a transaction has written but not committed. */
  predicate Pending(o: Override) {
    o.pc.AuditWritten? || o.pc.StatusWritten?
  }

  predicate InTransaction(o: Override) {
    o.pc.Opened? || Pending(o)
  }

  /** A primary key used neither by a committed row nor by a pending one. */
  ghost predicate FreshAudit(s: State, id: string) {
    id !in s.tables.audits && forall x :: x in s.overrides && Pending(s.overrides[x]) ==> s.overrides[x].pc.id != id
  }

  /** The text is a spelling of the id of a stored run. */
  predicate Known(t: Tables, run: string) {
    IsUuid(run) && Canonical(run) in t.runs
  }

  ghost predicate Enabled(s: State, a: Action) {
    match a
    case CreateProject(id) => id !in s.tables.projects && IsUuid(id) && Canonical(id) == id
    case InsertRun(id, row) =>
      IsUuid(id) && Canonical(id) == id && id !in s.tables.runs
      && IsUuid(row.project) && Canonical(row.project) in s.tables.projects && row.status != OVERRIDDEN
    // announced under the spelling it was uploaded with
    case AnnounceRun(id, project) => id in s.tables.runs && s.tables.runs[id].project == Canonical(project)
    case Begin(x, _, _, _) => x !in s.overrides
    // the foreign key demands an existing run
    case WriteAudit(x, id, _) =>
      x in s.overrides && s.overrides[x].pc.Opened? && Known(s.tables, s.overrides[x].run) && FreshAudit(s, id)
    case WriteStatus(x) => x in s.overrides && s.overrides[x].pc.AuditWritten?
    case Commit(x) => x in s.overrides && s.overrides[x].pc.StatusWritten?
    case Rollback(x) => x in s.overrides && InTransaction(s.overrides[x])
    case ReadProject(x, found) =>
      x in s.overrides && s.overrides[x].pc.Committed? && (found ==> Known(s.tables, s.overrides[x].run))
    case Announce(x) => x in s.overrides && s.overrides[x].pc.ProjectRead?
  }

  function Goto(s: State, x: nat, pc: OverridePc): State
    requires x in s.overrides
  {
    s.(overrides := s.overrides[x := s.overrides[x].(pc := pc)])
  }

  /** What committing an override does to the tables: its audit row appears, and the status update
      hits the run if it is there. */
  function CommitTables(t: Tables, o: Override): Tables
    requires o.pc.StatusWritten?
  {
    var run := Canonical(o.run);
    t.(audits := t.audits[o.pc.id := Audit(run, o.user, o.note, o.pc.at)],
       runs := if run in t.runs then t.runs[run := t.runs[run].(status := OVERRIDDEN)] else t.runs)
  }

  ghost function Apply(s: State, a: Action): State
    requires Enabled(s, a)
  {
    match a
    case CreateProject(id) => s.(tables := s.tables.(projects := s.tables.projects + {id}), events := s.events + [ProjectCreated(id)])
    case InsertRun(id, row) => s.(tables := s.tables.(runs := s.tables.runs[id := Stored(row)]))
    case AnnounceRun(id, project) => s.(events := s.events + [DiffCompleted(project, id)])
    case Begin(x, run, user, note) => s.(overrides := s.overrides[x := Override(run, user, note, Opened)])
    case WriteAudit(x, id, now) => Goto(s, x, AuditWritten(id, now))
    case WriteStatus(x) => Goto(s, x, StatusWritten(s.overrides[x].pc.id, s.overrides[x].pc.at))
    case Commit(x) => Goto(s, x, Committed(s.overrides[x].pc.id)).(tables := CommitTables(s.tables, s.overrides[x]))
    case Rollback(x) => Goto(s, x, RolledBack)
    case ReadProject(x, found) =>
      Goto(s, x, ProjectRead(s.overrides[x].pc.id, if found then s.tables.runs[Canonical(s.overrides[x].run)].project else "default"))
    case Announce(x) =>
      var o := s.overrides[x];
      Goto(s, x, Announced(o.pc.id)).(events := s.events + [DiffOverridden(o.pc.project, o.run, o.user, o.note)])
  }

  // ----- Invariants

  /** The row was written by an override of that run, however its id was spelled, by that user, with
      that note. */
  predicate Matches(a: Audit, run: string, user: string, note: string) {
    a.run == Canonical(run) && a.user == user && a.note == note
  }

  ghost predicate HasAudit(t: Tables, run: string) {
    exists id :: id in t.audits && t.audits[id].run == run
  }

  /** The committed tables: OVERRIDDEN exactly with an audit row, no dangling references. */
  ghost predicate TablesInv(t: Tables) {
    && (forall r :: r in t.runs ==> (t.runs[r].status == OVERRIDDEN <==> HasAudit(t, r)))
    && (forall id :: id in t.audits ==> t.audits[id].run in t.runs)
    && (forall r :: r in t.runs ==> t.runs[r].project in t.projects)
  }

  ghost predicate OverrideInv(t: Tables, o: Override) {
    match o.pc
    case AuditWritten(id, _) => Canonical(o.run) in t.runs && id !in t.audits
    case StatusWritten(id, _) => Canonical(o.run) in t.runs && id !in t.audits
    case Committed(id) => id in t.audits && Matches(t.audits[id], o.run, o.user, o.note)
    case ProjectRead(id, project) =>
      id in t.audits && Matches(t.audits[id], o.run, o.user, o.note)
      && Canonical(o.run) in t.runs && (project == t.runs[Canonical(o.run)].project || project == "default")
    case Announced(id) => id in t.audits && Matches(t.audits[id], o.run, o.user, o.note)
    case _ => true
  }

  /** Events tell of committed rows only. */
  ghost predicate EventInv(t: Tables, e: Event) {
    match e
    case ProjectCreated(p) => p in t.projects
    case DiffCompleted(p, r) => r in t.runs && t.runs[r].project == Canonical(p)
    case DiffOverridden(p, r, user, note) =>
      Canonical(r) in t.runs && (p == t.runs[Canonical(r)].project || p == "default") && exists id :: id in t.audits && Matches(t.audits[id], r, user, note)
  }

  ghost predicate Inv(s: State) {
    && TablesInv(s.tables)
    && (forall x :: x in s.overrides ==> OverrideInv(s.tables, s.overrides[x]))
    && (forall x, y :: x in s.overrides && y in s.overrides && x != y && Pending(s.overrides[x]) && Pending(s.overrides[y]) ==>
          s.overrides[x].pc.id != s.overrides[y].pc.id)
    && (forall e :: e in s.events ==> EventInv(s.tables, e))
  }

  /** What no step ever changes: rows stay, a run keeps everything but its status, OVERRIDDEN is
      never left and audit rows are never rewritten. */
  ghost predicate Extends(t: Tables, u: Tables) {
    && t.projects <= u.projects
    && (forall r :: r in t.runs ==> r in u.runs && SameButStatus(t.runs[r], u.runs[r]))
    && (forall id :: id in t.audits ==> id in u.audits && u.audits[id] == t.audits[id])
  }

  predicate SameButStatus(r: Run, q: Run) {
    q == r || q == r.(status := OVERRIDDEN)
  }

  lemma StepExtends(s: State, a: Action)
    requires Inv(s) && Enabled(s, a)
    ensures Extends(s.tables, Apply(s, a).tables)
  {
  }

  lemma TablesKept(s: State, a: Action)
    requires Inv(s) && Enabled(s, a)
    ensures TablesInv(Apply(s, a).tables)
  {
    if a.Commit? {
      CommitKept(s.tables, s.overrides[a.x]);
    } else if a.InsertRun? {
      InsertKept(s.tables, a.id, Stored(a.row));
    }
  }

  lemma CommitKept(t: Tables, o: Override)
    requires TablesInv(t) && o.pc.StatusWritten? && Canonical(o.run) in t.runs && o.pc.id !in t.audits
    ensures TablesInv(CommitTables(t, o))
  {
    var u, run := CommitTables(t, o), Canonical(o.run);
    assert u.audits[o.pc.id].run == run;
    forall r | r in u.runs
      ensures u.runs[r].status == OVERRIDDEN <==> HasAudit(u, r)
    {
      if r != run {
        assert forall id :: id in u.audits && u.audits[id].run == r ==> id in t.audits && t.audits[id].run == r;
        assert forall id :: id in t.audits && t.audits[id].run == r ==> id in u.audits && u.audits[id].run == r;
      }
    }
  }

  lemma InsertKept(t: Tables, id: string, run: Run)
    requires TablesInv(t) && id !in t.runs && run.project in t.projects && run.status != OVERRIDDEN
    ensures TablesInv(t.(runs := t.runs[id := run]))
  {
    var u := t.(runs := t.runs[id := run]);
    assert !HasAudit(t, id);
    assert forall r :: HasAudit(u, r) <==> HasAudit(t, r);
  }

  lemma OverrideStable(t: Tables, u: Tables, o: Override)
    requires OverrideInv(t, o) && Extends(t, u) && (Pending(o) ==> o.pc.id !in u.audits)
    ensures OverrideInv(u, o)
  {
  }

  lemma EventStable(t: Tables, u: Tables, e: Event)
    requires EventInv(t, e) && Extends(t, u)
    ensures EventInv(u, e)
  {
    if e.DiffOverridden? {
      var id :| id in t.audits && Matches(t.audits[id], e.run, e.user, e.note);
      assert id in u.audits;
    }
  }

  lemma OverrideKept(s: State, a: Action, x: nat)
    requires Inv(s) && Enabled(s, a) && x in Apply(s, a).overrides
    ensures OverrideInv(Apply(s, a).tables, Apply(s, a).overrides[x])
  {
    StepExtends(s, a);
    var t := Apply(s, a);
    if x in s.overrides && t.overrides[x] == s.overrides[x] {
      OverrideStable(s.tables, t.tables, s.overrides[x]);
    }
  }

  lemma EventsKept(s: State, a: Action)
    requires Inv(s) && Enabled(s, a)
    ensures forall e :: e in Apply(s, a).events ==> EventInv(Apply(s, a).tables, e)
  {
    StepExtends(s, a);
    var t := Apply(s, a);
    forall e | e in t.events
      ensures EventInv(t.tables, e)
    {
      if e in s.events {
        EventStable(s.tables, t.tables, e);
      }
    }
  }

  /** Every step, commits and rollbacks at any point included, keeps the ledger consistent. */
  lemma StepInv(s: State, a: Action)
    requires Inv(s) && Enabled(s, a)
    ensures Inv(Apply(s, a))
  {
    TablesKept(s, a);
    EventsKept(s, a);
    forall x | x in Apply(s, a).overrides
      ensures OverrideInv(Apply(s, a).tables, Apply(s, a).overrides[x])
    {
      OverrideKept(s, a, x);
    }
  }

  // ----- Runs

  ghost predicate Linked(states: seq<State>, actions: seq<Action>, i: nat)
    requires i < |actions| < |states|
  {
    Enabled(states[i], actions[i]) && states[i + 1] == Apply(states[i], actions[i])
  }

  ghost predicate IsRun(states: seq<State>, actions: seq<Action>) {
    && |states| == |actions| + 1 && states[0] == INITIAL
    && forall i: nat :: i < |actions| ==> Linked(states, actions, i)
  }

  lemma {:induction false} RunInv(states: seq<State>, actions: seq<Action>, i: nat)
    requires IsRun(states, actions) && i < |states|
    ensures Inv(states[i])
  {
    if i > 0 {
      RunInv(states, actions, i - 1);
      assert Linked(states, actions, i - 1);
      StepInv(states[i - 1], actions[i - 1]);
    }
  }

  /** Ledger consistency in every committed state of every run. */
  lemma LedgerConsistent(states: seq<State>, actions: seq<Action>, i: nat, run: string)
    requires IsRun(states, actions) && i < |states| && run in states[i].tables.runs
    ensures states[i].tables.runs[run].status == OVERRIDDEN <==> HasAudit(states[i].tables, run)
    ensures forall id :: id in states[i].tables.audits ==> states[i].tables.audits[id].run in states[i].tables.runs
  {
    RunInv(states, actions, i);
  }

  /** The ledger is immutable: from any moment of a run to any later one, rows stay, counts and
      payloads stay, audit rows stay, and OVERRIDDEN is never left. */
  lemma {:induction false} LedgerImmutable(states: seq<State>, actions: seq<Action>, i: nat, j: nat)
    requires IsRun(states, actions) && i <= j < |states|
    ensures Extends(states[i].tables, states[j].tables)
    decreases j
  {
    if i < j {
      LedgerImmutable(states, actions, i, j - 1);
      StepExtendsAt(states, actions, j - 1);
      ExtendsTransitive(states[i].tables, states[j - 1].tables, states[j].tables);
    }
  }

  lemma StepExtendsAt(states: seq<State>, actions: seq<Action>, i: nat)
    requires IsRun(states, actions) && i < |actions|
    ensures Extends(states[i].tables, states[i + 1].tables)
  {
    RunInv(states, actions, i);
    assert Linked(states, actions, i);
    StepExtends(states[i], actions[i]);
  }

  lemma ExtendsTransitive(t: Tables, u: Tables, v: Tables)
    requires Extends(t, u) && Extends(u, v)
    ensures Extends(t, v)
  {
  }

  /** What a handler announces it has committed: each override event names a run with an audit row of
      that user and note. */
  lemma OverrideEventsAreCommitted(states: seq<State>, actions: seq<Action>, i: nat, e: Event)
    requires IsRun(states, actions) && i < |states| && e in states[i].events && e.DiffOverridden?
    ensures var t, run := states[i].tables, Canonical(e.run); run in t.runs && t.runs[run].status == OVERRIDDEN
    ensures exists id :: id in states[i].tables.audits && Matches(states[i].tables.audits[id], e.run, e.user, e.note)
  {
    RunInv(states, actions, i);
    var id :| id in states[i].tables.audits && Matches(states[i].tables.audits[id], e.run, e.user, e.note);
    assert HasAudit(states[i].tables, Canonical(e.run));
  }

  // ----- Where audit rows and override events come from

  lemma OverrideStays(s: State, a: Action, x: nat)
    requires Enabled(s, a) && x in Apply(s, a).overrides
    ensures x !in s.overrides ==> a.Begin? && a.x == x && Apply(s, a).overrides[x] == Override(a.run, a.user, a.note, Opened)
    ensures x in s.overrides ==>
      var o, p := s.overrides[x], Apply(s, a).overrides[x];
      && p.run == o.run && p.user == o.user && p.note == o.note
      && (Pending(p) ==> (a.WriteAudit? && a.x == x && p.pc.id == a.id && p.pc.at == a.now) || (Pending(o) && p.pc.id == o.pc.id && p.pc.at == o.pc.at))
  {
  }

  /** An override is of the run, by the user and with the note of its request. */
  lemma {:induction false} OverrideIsAsRequested(states: seq<State>, actions: seq<Action>, i: nat, x: nat) returns (b: nat)
    requires IsRun(states, actions) && i < |states| && x in states[i].overrides
    ensures var o := states[i].overrides[x]; b < i && actions[b] == Begin(x, o.run, o.user, o.note)
  {
    assert i > 0 && Linked(states, actions, i - 1);
    OverrideStays(states[i - 1], actions[i - 1], x);
    if x in states[i - 1].overrides {
      b := OverrideIsAsRequested(states, actions, i - 1, x);
    } else {
      b := i - 1;
    }
  }

  /** A pending audit row has the key and the instant of the statement that wrote it. */
  lemma {:induction false} PendingIsAsWritten(states: seq<State>, actions: seq<Action>, i: nat, x: nat) returns (k: nat)
    requires IsRun(states, actions) && i < |states| && x in states[i].overrides && Pending(states[i].overrides[x])
    ensures var o := states[i].overrides[x]; k < i && actions[k] == WriteAudit(x, o.pc.id, o.pc.at)
  {
    assert i > 0 && Linked(states, actions, i - 1);
    var a := actions[i - 1];
    OverrideStays(states[i - 1], a, x);
    if a.WriteAudit? && a.x == x && states[i].overrides[x].pc.id == a.id && states[i].overrides[x].pc.at == a.now {
      k := i - 1;
    } else {
      k := PendingIsAsWritten(states, actions, i - 1, x);
    }
  }

  lemma AuditsComeFromCommits(s: State, a: Action, id: string)
    requires Inv(s) && Enabled(s, a) && id in Apply(s, a).tables.audits
    ensures var row := Apply(s, a).tables.audits[id];
      if id in s.tables.audits then row == s.tables.audits[id]
      else
        && a.Commit? && s.overrides[a.x].pc.StatusWritten? && s.overrides[a.x].pc.id == id
        && row == Audit(Canonical(s.overrides[a.x].run), s.overrides[a.x].user, s.overrides[a.x].note, s.overrides[a.x].pc.at)
  {
  }

  /** Every audit row is that of a request: of its run, by its user, with its note, at the instant at
      which the row was written. */
  lemma {:induction false} AuditIsAsRequested(states: seq<State>, actions: seq<Action>, i: nat, id: string)
    returns (b: nat, k: nat, x: nat, run: string, user: string, note: string, now: nat)
    requires IsRun(states, actions) && i < |states| && id in states[i].tables.audits
    ensures b < i && actions[b] == Begin(x, run, user, note) && k < i && actions[k] == WriteAudit(x, id, now)
    ensures states[i].tables.audits[id] == Audit(Canonical(run), user, note, now)
  {
    assert i > 0 && Linked(states, actions, i - 1);
    RunInv(states, actions, i - 1);
    AuditsComeFromCommits(states[i - 1], actions[i - 1], id);
    if id in states[i - 1].tables.audits {
      b, k, x, run, user, note, now := AuditIsAsRequested(states, actions, i - 1, id);
    } else {
      x := actions[i - 1].x;
      var o := states[i - 1].overrides[x];
      b := OverrideIsAsRequested(states, actions, i - 1, x);
      k := PendingIsAsWritten(states, actions, i - 1, x);
      run, user, note, now := o.run, o.user, o.note, o.pc.at;
    }
  }

  lemma OverrideEventsComeFromAnnouncing(s: State, a: Action, e: Event)
    requires Enabled(s, a) && e in Apply(s, a).events && e.DiffOverridden?
    ensures e in s.events || (a.Announce? && e.run == s.overrides[a.x].run && e.user == s.overrides[a.x].user && e.note == s.overrides[a.x].note)
  {
  }

  /** And every override event repeats its request. */
  lemma {:induction false} OverrideEventIsAsRequested(states: seq<State>, actions: seq<Action>, i: nat, e: Event) returns (b: nat, x: nat)
    requires IsRun(states, actions) && i < |states| && e in states[i].events && e.DiffOverridden?
    ensures b < i && actions[b] == Begin(x, e.run, e.user, e.note)
  {
    assert i > 0 && Linked(states, actions, i - 1);
    OverrideEventsComeFromAnnouncing(states[i - 1], actions[i - 1], e);
    if e in states[i - 1].events {
      b, x := OverrideEventIsAsRequested(states, actions, i - 1, e);
    } else {
      x := actions[i - 1].x;
      b := OverrideIsAsRequested(states, actions, i - 1, x);
    }
  }

  /** The audit row a detail page shows: a newest one of the run, if there is any. */
  ghost predicate IsLatestAudit(t: Tables, run: string, r: Option<Audit>) {
    match r
    case None => !HasAudit(t, run)
    case Some(a) => a.run == run && (exists id :: id in t.audits && t.audits[id] == a)
                    && forall id :: id in t.audits && t.audits[id].run == run ==> t.audits[id].createdAt <= a.createdAt
  }

  /** A detail page reads the run and then the audit row without a transaction. Whatever commits in
      between, a run shown as OVERRIDDEN is never shown without an audit row. */
  lemma OverriddenDetailHasAudit(states: seq<State>, actions: seq<Action>, i: nat, j: nat, run: string, r: Option<Audit>)
    requires IsRun(states, actions) && i <= j < |states|
    requires run in states[i].tables.runs && states[i].tables.runs[run].status == OVERRIDDEN
    requires IsLatestAudit(states[j].tables, run, r)
    ensures r.Some?
  {
    RunInv(states, actions, i);
    LedgerImmutable(states, actions, i, j);
    var id :| id in states[i].tables.audits && states[i].tables.audits[id].run == run;
    assert id in states[j].tables.audits;
  }

  // ----- One override alone, as the store runs it

  /** The statement at which the database gives up, if any. */
  datatype Fault = NoFault | AtBegin | AtAudit | AtStatus | AtCommit

  class PostgresStore {
    var tables: Tables

    constructor ()
      ensures tables == INITIAL.tables && TablesInv(tables)
    {
      tables := INITIAL.tables;
    }

    /** All or nothing: without a fault and with the run there, both rows are written; otherwise the
        deferred rollback leaves the tables as they were. */
    method OverrideDiffRun(run: string, user: string, note: string, id: string, now: nat, fault: Fault) returns (ok: bool)
      requires TablesInv(tables) && id !in tables.audits
      modifies this
      ensures TablesInv(tables) && Extends(old(tables), tables)
      ensures ok <==> fault == NoFault && Known(old(tables), run)
      ensures tables == if ok then CommitTables(old(tables), Override(run, user, note, StatusWritten(id, now))) else old(tables)
    {
      if fault == AtBegin { return false; }
      var tx := tables;
      if fault == AtAudit || !Known(tx, run) { return false; }
      var key := Canonical(run);
      tx := tx.(audits := tx.audits[id := Audit(key, user, note, now)]);
      if fault == AtStatus { return false; }
      tx := tx.(runs := tx.runs[key := tx.runs[key].(status := OVERRIDDEN)]);
      if fault == AtCommit { return false; }
      CommitKept(tables, Override(run, user, note, StatusWritten(id, now)));
      tables := tx;
      ok := true;
    }

    method InsertDiffRun(id: string, row: Run, fault: bool) returns (ok: bool)
      requires TablesInv(tables) && id !in tables.runs && row.status != OVERRIDDEN
      modifies this
      ensures TablesInv(tables) && Extends(old(tables), tables)
      ensures ok <==> !fault && IsUuid(row.project) && Canonical(row.project) in old(tables).projects
      ensures tables == if ok then old(tables).(runs := old(tables).runs[id := Stored(row)]) else old(tables)
    {
      ok := !fault && IsUuid(row.project) && Canonical(row.project) in tables.projects;
      if ok {
        InsertKept(tables, id, Stored(row));
        tables := tables.(runs := tables.runs[id := Stored(row)]);
      }
    }

    /** What a look-up shows: a committed run, as OVERRIDDEN exactly if it has an audit row. */
    method GetDiffRun(id: string) returns (r: Option<Run>)
      requires TablesInv(tables)
      ensures r.Some? <==> Known(tables, id)
      ensures r.Some? ==> r.value == tables.runs[Canonical(id)] && (r.value.status == OVERRIDDEN <==> HasAudit(tables, Canonical(id)))
    {
      r := if Known(tables, id) then Some(tables.runs[Canonical(id)]) else None;
    }
  }
}
