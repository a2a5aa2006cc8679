/** The run list (internal/db/db.go, ListDiffRuns) and its read-through cache (internal/api/handlers.go,
    handleListDiffs): requests, cache entries and database commits interleaved over time. */
module ListCache {
  import opened Prelude
  import Ledger
  import SpecDiff

  datatype Row = Row(id: string, run: Ledger.Run)

  const TTL: nat := 60000 // milliseconds
  const DEFAULT_LIMIT: nat := 50

  function EffectiveLimit(limit: int): nat {
    if limit <= 0 || limit > 100 then DEFAULT_LIMIT else limit
  }

  predicate Selected(run: Ledger.Run, project: string) {
    project == "" || Ledger.Digits(run.project) == Ledger.Digits(project)
  }

  /** A result the query allows: the selected runs, newest first, at most `limit` of them, leaving out
      none that is newer than one listed. Equal times may come in any order. */
  ghost predicate IsListing(t: Ledger.Tables, project: string, limit: nat, rows: seq<Row>) {
    && |rows| <= limit
    && (forall i :: 0 <= i < |rows| ==> rows[i].id in t.runs && t.runs[rows[i].id] == rows[i].run && Selected(rows[i].run, project))
    && (forall i, j :: 0 <= i < j < |rows| ==> rows[i].id != rows[j].id && rows[i].run.createdAt >= rows[j].run.createdAt)
    && (forall id :: id in t.runs && Selected(t.runs[id], project) && Row(id, t.runs[id]) !in rows ==>
          |rows| == limit && forall i :: 0 <= i < |rows| ==> rows[i].run.createdAt >= t.runs[id].createdAt)
  }

  /** PostgreSQL compares project ids as UUIDs and refuses any other text. */
  predicate Queryable(project: string) {
    project == "" || Ledger.IsUuid(project)
  }

  /** What the driver hands over: an error, or rows of which each may fail to scan. Iteration errors
      end the rows early and are not looked at afterwards. */
  datatype Cursor = QueryFailed | Rows(rows: seq<Option<Row>>)

  /** The cursor over a listing: some of its first rows, each as listed or unreadable. */
  ghost predicate CursorOf(t: Ledger.Tables, project: string, limit: nat, listing: seq<Row>, c: Cursor) {
    c.Rows? ==>
      && Queryable(project) && IsListing(t, project, limit, listing)
      && |c.rows| <= |listing| && forall i :: 0 <= i < |c.rows| && c.rows[i].Some? ==> c.rows[i].value == listing[i]
  }

  /** What a query that computed this listing may return: the beginning of it. */
  ghost predicate Answer(t: Ledger.Tables, project: string, limit: nat, listing: seq<Row>, value: seq<Row>) {
    Queryable(project) && IsListing(t, project, limit, listing) && value <= listing
  }

  /** A beginning of a listing is itself a listing only if nothing is missing. */
  lemma WholeExactly(t: Ledger.Tables, project: string, limit: nat, listing: seq<Row>, value: seq<Row>)
    requires IsListing(t, project, limit, listing) && value <= listing
    ensures IsListing(t, project, limit, value) <==> |value| == |listing|
  {
    if |value| < |listing| {
      var missing := listing[|value|];
      assert forall i :: 0 <= i < |value| ==> value[i] == listing[i];
      assert missing.id in t.runs && Row(missing.id, t.runs[missing.id]) == missing && missing !in value;
    } else {
      assert value == listing;
    }
  }

  /** The scanning loop: all rows, or nothing at the first row that does not scan. */
  method ScanRows(rows: seq<Option<Row>>) returns (r: Option<seq<Row>>)
    ensures r.Some? <==> None !in rows
    ensures r.Some? ==> |r.value| == |rows| && forall j :: 0 <= j < |rows| ==> rows[j] == Some(r.value[j])
  {
    var runs := [];
    for i := 0 to |rows|
      invariant |runs| == i
      invariant forall j :: 0 <= j < i ==> rows[j] == Some(runs[j])
    {
      if rows[i].None? { return None; }
      runs := runs + [rows[i].value];
    }
    return Some(runs);
  }

  /** The list is the beginning of the listing as far as the cursor got, and a whole list exactly if
      the cursor delivered all rows. */
  method ListDiffRuns(ghost t: Ledger.Tables, project: string, limit: int, cursor: Cursor, ghost listing: seq<Row>) returns (r: Option<seq<Row>>)
    requires CursorOf(t, project, EffectiveLimit(limit), listing, cursor)
    ensures r.Some? <==> cursor.Rows? && None !in cursor.rows
    ensures r.Some? ==>
      var effective := if 1 <= limit <= 100 then limit else 50;
      && Answer(t, project, effective, listing, r.value) && |r.value| <= effective
      && (IsListing(t, project, effective, r.value) <==> |cursor.rows| == |listing|)
  {
    if cursor.QueryFailed? { return None; }
    r := ScanRows(cursor.rows);
    if r.Some? {
      assert r.value == listing[..|r.value|];
      WholeExactly(t, project, EffectiveLimit(limit), listing, r.value);
    }
  }

  // ----- The cache

  function CacheKey(project: string): string {
    "diff_runs:" + if project == "" then "all" else project
  }

  /** Different projects have different keys, except that the empty project shares one with "all". */
  lemma KeysCollideOnlyForAll(p: string, q: string)
    ensures CacheKey(p) == CacheKey(q) <==> p == q || (p == "" && q == "all") || (p == "all" && q == "")
  {
    if CacheKey(p) == CacheKey(q) {
      assert CacheKey(p)[10..] == (if p == "" then "all" else p);
      assert CacheKey(q)[10..] == (if q == "" then "all" else q);
    }
  }

  /** Where a value comes from: the project asked, the instant and database version of the query and
      the listing it computed, and the instant the value was put into the cache (or handed on). */
  datatype Origin = Origin(project: string, queriedAt: nat, version: nat, listing: seq<Row>, setAt: nat)

  datatype CacheEntry = CacheEntry(value: seq<Row>, expires: nat, origin: Origin)

  datatype Request =
    | Arrived(project: string, since: nat)
    | Missed(project: string, since: nat)
    | Queried(project: string, since: nat, value: seq<Row>, queriedAt: nat, version: nat, listing: seq<Row>)
    | Answering(project: string, since: nat, value: seq<Row>, origin: Origin)
    | Responded(project: string, since: nat, value: seq<Row>, origin: Origin, at: nat)
    | Failed

  /** The database contents from an instant on. */
  datatype Snapshot = Snapshot(time: nat, tables: Ledger.Tables)

  datatype State = State(now: nat, history: seq<Snapshot>, cache: map<string, CacheEntry>, requests: map<nat, Request>)

  const INITIAL := State(0, [Snapshot(0, Ledger.INITIAL.tables)], map[], map[])

  datatype Action =
    | Tick(d: nat)
    | Commit(tables: Ledger.Tables)
    | Arrive(r: nat, project: string)
    | Hit(r: nat)
    | Miss(r: nat)
    | Query(r: nat, listing: seq<Row>, value: seq<Row>)
    | QueryError(r: nat)
    | Store(r: nat)
    | SkipStore(r: nat)
    | Respond(r: nat)

  ghost predicate Enabled(s: State, a: Action) {
    match a
    case Tick(_) => true
    case Commit(_) => true
    case Arrive(r, _) => r !in s.requests
    case Hit(r) =>
      r in s.requests && s.requests[r].Arrived? && CacheKey(s.requests[r].project) in s.cache
      && s.now < s.cache[CacheKey(s.requests[r].project)].expires
    // absent, expired, or the cache server did not answer
    case Miss(r) => r in s.requests && s.requests[r].Arrived?
    case Query(r, listing, value) =>
      r in s.requests && s.requests[r].Missed? && s.history != []
      && Answer(s.history[|s.history| - 1].tables, s.requests[r].project, DEFAULT_LIMIT, listing, value)
    case QueryError(r) => r in s.requests && s.requests[r].Missed?
    case Store(r) => r in s.requests && s.requests[r].Queried?
    case SkipStore(r) => r in s.requests && s.requests[r].Queried?
    case Respond(r) => r in s.requests && s.requests[r].Answering?
  }

  function Move(s: State, r: nat, to: Request): State {
    s.(requests := s.requests[r := to])
  }

  ghost function Apply(s: State, a: Action): State
    requires Enabled(s, a)
  {
    match a
    case Tick(d) => s.(now := s.now + d)
    case Commit(tables) => s.(history := s.history + [Snapshot(s.now, tables)])
    case Arrive(r, project) => Move(s, r, Arrived(project, s.now))
    case Hit(r) =>
      var q := s.requests[r];
      var e := s.cache[CacheKey(q.project)];
      Move(s, r, Responded(q.project, q.since, e.value, e.origin, s.now))
    case Miss(r) => Move(s, r, Missed(s.requests[r].project, s.requests[r].since))
    case Query(r, listing, value) =>
      Move(s, r, Queried(s.requests[r].project, s.requests[r].since, value, s.now, |s.history| - 1, listing))
    case QueryError(r) => Move(s, r, Failed)
    case Store(r) =>
      var q := s.requests[r];
      var origin := Origin(q.project, q.queriedAt, q.version, q.listing, s.now);
      Move(s, r, Answering(q.project, q.since, q.value, origin)).(
        cache := s.cache[CacheKey(q.project) := CacheEntry(q.value, s.now + TTL, origin)])
    case SkipStore(r) =>
      var q := s.requests[r];
      Move(s, r, Answering(q.project, q.since, q.value, Origin(q.project, q.queriedAt, q.version, q.listing, s.now)))
    case Respond(r) =>
      var q := s.requests[r];
      Move(s, r, Responded(q.project, q.since, q.value, q.origin, s.now))
  }

  /** Version k was the contents of the database at some point of the instant. */
  ghost predicate CurrentAt(history: seq<Snapshot>, k: nat, instant: nat) {
    k < |history| && history[k].time <= instant && (k + 1 < |history| ==> instant <= history[k + 1].time)
  }

  ghost predicate OriginInv(s: State, o: Origin, value: seq<Row>) {
    && CurrentAt(s.history, o.version, o.queriedAt)
    && o.queriedAt <= o.setAt <= s.now
    && Answer(s.history[o.version].tables, o.project, DEFAULT_LIMIT, o.listing, value)
  }

  /** A response is its request's own answer, or came from an entry under the same key that was set
      less than the expiry time before. */
  ghost predicate FreshFor(project: string, since: nat, o: Origin, at: nat) {
    || (o.project == project && since <= o.queriedAt <= at)
    || (CacheKey(o.project) == CacheKey(project) && o.setAt <= at < o.setAt + TTL)
  }

  ghost predicate RequestInv(s: State, q: Request) {
    match q
    case Arrived(_, since) => since <= s.now
    case Missed(_, since) => since <= s.now
    case Queried(project, since, value, queriedAt, version, listing) =>
      since <= queriedAt && OriginInv(s, Origin(project, queriedAt, version, listing, s.now), value)
    case Answering(project, since, value, o) => o.project == project && since <= o.queriedAt && OriginInv(s, o, value)
    case Responded(project, since, value, o, at) => OriginInv(s, o, value) && at <= s.now && FreshFor(project, since, o, at)
    case Failed => true
  }

  ghost predicate EntryInv(s: State, key: string, e: CacheEntry) {
    key == CacheKey(e.origin.project) && e.expires == e.origin.setAt + TTL && OriginInv(s, e.origin, e.value)
  }

  ghost predicate Inv(s: State) {
    && s.history != [] && s.history[|s.history| - 1].time <= s.now
    && (forall key :: key in s.cache ==> EntryInv(s, key, s.cache[key]))
    && (forall r :: r in s.requests ==> RequestInv(s, s.requests[r]))
  }

  /** Later states see origins as before: time only passes and history only grows at its end. */
  lemma OriginStable(s: State, t: State, o: Origin, value: seq<Row>)
    requires OriginInv(s, o, value) && s.now <= t.now
    requires t.history == s.history || (|t.history| == |s.history| + 1 && s.history <= t.history && t.history[|s.history|].time == s.now)
    ensures OriginInv(t, o, value)
  {
    assert t.history[o.version] == s.history[o.version];
  }

  lemma TimePasses(s: State, a: Action)
    requires Inv(s) && Enabled(s, a)
    ensures var t := Apply(s, a);
      && s.now <= t.now && t.history != [] && t.history[|t.history| - 1].time <= t.now
      && (t.history == s.history || (|t.history| == |s.history| + 1 && s.history <= t.history && t.history[|s.history|].time == s.now))
  {
  }

  lemma RequestStable(s: State, a: Action, q: Request)
    requires Inv(s) && Enabled(s, a) && RequestInv(s, q)
    ensures RequestInv(Apply(s, a), q)
  {
    TimePasses(s, a);
    match q
    case Queried(project, since, value, queriedAt, version, listing) =>
      OriginStable(s, Apply(s, a), Origin(project, queriedAt, version, listing, s.now), value);
    case Answering(_, _, value, o) => OriginStable(s, Apply(s, a), o, value);
    case Responded(_, _, value, o, _) => OriginStable(s, Apply(s, a), o, value);
    case _ =>
  }

  lemma MoverKept(s: State, a: Action)
    requires Inv(s) && Enabled(s, a) && !a.Tick? && !a.Commit?
    ensures RequestInv(Apply(s, a), Apply(s, a).requests[a.r])
  {
    if a.Hit? {
      var e := s.cache[CacheKey(s.requests[a.r].project)];
      assert EntryInv(s, CacheKey(s.requests[a.r].project), e);
      OriginStable(s, Apply(s, a), e.origin, e.value);
    } else if a.r in s.requests {
      assert RequestInv(s, s.requests[a.r]);
    }
  }

  lemma EntriesKept(s: State, a: Action, key: string)
    requires Inv(s) && Enabled(s, a) && key in Apply(s, a).cache
    ensures EntryInv(Apply(s, a), key, Apply(s, a).cache[key])
  {
    TimePasses(s, a);
    if key in s.cache && Apply(s, a).cache[key] == s.cache[key] {
      OriginStable(s, Apply(s, a), s.cache[key].origin, s.cache[key].value);
    } else {
      assert RequestInv(s, s.requests[a.r]);
    }
  }

  lemma StepInv(s: State, a: Action)
    requires Inv(s) && Enabled(s, a)
    ensures Inv(Apply(s, a))
  {
    TimePasses(s, a);
    var t := Apply(s, a);
    forall key | key in t.cache
      ensures EntryInv(t, key, t.cache[key])
    {
      EntriesKept(s, a, key);
    }
    forall r | r in t.requests
      ensures RequestInv(t, t.requests[r])
    {
      if r in s.requests && t.requests[r] == s.requests[r] {
        RequestStable(s, a, s.requests[r]);
      } else {
        MoverKept(s, a);
      }
    }
  }

  ghost predicate IsRun(states: seq<State>, actions: seq<Action>) {
    && |states| == |actions| + 1 && states[0] == INITIAL
    && forall i :: 0 <= i < |actions| ==> Enabled(states[i], actions[i]) && states[i + 1] == Apply(states[i], actions[i])
  }

  lemma {:induction false} RunInv(states: seq<State>, actions: seq<Action>, i: nat)
    requires IsRun(states, actions) && i < |states|
    ensures Inv(states[i])
  {
    if i > 0 {
      RunInv(states, actions, i - 1);
      StepInv(states[i - 1], actions[i - 1]);
    }
  }

  /** The response is the beginning of a listing of the project at an instant that lies within the
      request itself, or no longer before it than the expiry time plus the delay between that query
      and its storing. */
  ghost predicate BoundedlyStale(s: State, q: Request)
    requires q.Responded?
  {
    var o := q.origin;
    && CurrentAt(s.history, o.version, o.queriedAt)
    && Answer(s.history[o.version].tables, q.project, 50, o.listing, q.value)
    && o.queriedAt <= q.at
    && (q.since <= o.queriedAt || q.at - o.queriedAt < 60000 + (o.setAt - o.queriedAt))
  }

  /** The request asks for the project since the instant, unless it has failed. */
  predicate Asks(q: Request, project: string, since: nat) {
    q.Failed? || (q.project == project && q.since == since)
  }

  lemma AskingStays(s: State, a: Action, r: nat, project: string, since: nat)
    requires Enabled(s, a) && r in s.requests && Asks(s.requests[r], project, since)
    ensures r in Apply(s, a).requests && Asks(Apply(s, a).requests[r], project, since)
  {
  }

  /** A request is for the project asked, since the instant it arrived. */
  lemma {:induction false} RequestIsAsAsked(states: seq<State>, actions: seq<Action>, k: nat, i: nat, r: nat, project: string)
    requires IsRun(states, actions) && k < i < |states| && actions[k] == Arrive(r, project)
    ensures r in states[i].requests && Asks(states[i].requests[r], project, states[k].now)
  {
    assert Enabled(states[i - 1], actions[i - 1]) && states[i] == Apply(states[i - 1], actions[i - 1]);
    if i > k + 1 {
      RequestIsAsAsked(states, actions, k, i - 1, r, project);
      AskingStays(states[i - 1], actions[i - 1], r, project, states[k].now);
    }
  }

  lemma HistoryGrows(s: State, a: Action)
    requires Enabled(s, a)
    ensures Apply(s, a).history == s.history + if a.Commit? then [Snapshot(s.now, a.tables)] else []
    ensures Apply(s, a).now == s.now + if a.Tick? then a.d else 0
  {
  }

  /** The versions of the database are those that were committed, each at its instant. */
  lemma {:induction false} VersionIsAsCommitted(states: seq<State>, actions: seq<Action>, i: nat, v: nat) returns (k: nat)
    requires IsRun(states, actions) && i < |states| && 0 < v < |states[i].history|
    ensures k < i && actions[k].Commit? && states[i].history[v] == Snapshot(states[k].now, actions[k].tables)
  {
    assert i > 0 && Enabled(states[i - 1], actions[i - 1]) && states[i] == Apply(states[i - 1], actions[i - 1]);
    HistoryGrows(states[i - 1], actions[i - 1]);
    if v < |states[i - 1].history| {
      k := VersionIsAsCommitted(states, actions, i - 1, v);
    } else {
      k := i - 1;
    }
  }

  /** And every commit makes the next version. */
  lemma {:induction false} CommitIsVersion(states: seq<State>, actions: seq<Action>, k: nat, i: nat)
    requires IsRun(states, actions) && k < i < |states| && actions[k].Commit?
    ensures |states[k].history| < |states[i].history|
    ensures states[i].history[|states[k].history|] == Snapshot(states[k].now, actions[k].tables)
  {
    assert Enabled(states[i - 1], actions[i - 1]) && states[i] == Apply(states[i - 1], actions[i - 1]);
    HistoryGrows(states[i - 1], actions[i - 1]);
    if i > k + 1 { CommitIsVersion(states, actions, k, i - 1); }
  }

  /** Bounded staleness over all runs, whatever misses, commits and stores interleave, for every project
      id but "all". */
  lemma StalenessIsBounded(states: seq<State>, actions: seq<Action>, k: nat, i: nat, r: nat, project: string)
    requires IsRun(states, actions) && k < i < |states| && actions[k] == Arrive(r, project) && project != "all"
    requires r in states[i].requests && states[i].requests[r].Responded?
    ensures var q := states[i].requests[r]; BoundedlyStale(states[i], q) && q.project == project && q.since == states[k].now
  {
    RequestIsAsAsked(states, actions, k, i, r, project);
    RunInv(states, actions, i);
    var s, q := states[i], states[i].requests[r];
    assert RequestInv(s, q);
    KeysCollideOnlyForAll(q.origin.project, q.project);
    assert q.origin.project != "all" by {
      Ledger.DigitsFit("all");
      assert Queryable(q.origin.project);
    }
  }

  /** When a response is a whole list: exactly if its query delivered every row of the listing. */
  lemma ResponseIsWholeExactly(states: seq<State>, actions: seq<Action>, i: nat, r: nat)
    requires IsRun(states, actions) && i < |states| && r in states[i].requests && states[i].requests[r].Responded?
    ensures var o, value := states[i].requests[r].origin, states[i].requests[r].value;
      && o.version < |states[i].history|
      && (IsListing(states[i].history[o.version].tables, o.project, DEFAULT_LIMIT, value) <==> |value| == |o.listing|)
  {
    RunInv(states, actions, i);
    var o, value := states[i].requests[r].origin, states[i].requests[r].value;
    assert RequestInv(states[i], states[i].requests[r]);
    WholeExactly(states[i].history[o.version].tables, o.project, DEFAULT_LIMIT, o.listing, value);
  }

  /** The exception exactly: no query answers for "all", so what a request for it gets is always the
      list of every project, out of the shared entry. */
  lemma AllIsServedTheWholeList(states: seq<State>, actions: seq<Action>, i: nat, r: nat)
    requires IsRun(states, actions) && i < |states|
    requires r in states[i].requests && states[i].requests[r].Responded? && states[i].requests[r].project == "all"
    ensures var q := states[i].requests[r];
      && q.origin.project == "" && !BoundedlyStale(states[i], q)
      && q.origin.version < |states[i].history| && Answer(states[i].history[q.origin.version].tables, "", DEFAULT_LIMIT, q.origin.listing, q.value)
  {
    RunInv(states, actions, i);
    var q := states[i].requests[r];
    assert RequestInv(states[i], q);
    KeysCollideOnlyForAll(q.origin.project, "all");
    Ledger.DigitsFit("all");
    assert !Queryable("all");
  }

  lemma Extend(states: seq<State>, actions: seq<Action>, a: Action) returns (states': seq<State>, actions': seq<Action>)
    requires IsRun(states, actions) && Enabled(states[|actions|], a)
    ensures IsRun(states', actions') && |actions'| == |actions| + 1
    ensures states'[|actions'|] == Apply(states[|actions|], a) && actions' == actions + [a]
  {
    states' := states + [Apply(states[|actions|], a)];
    actions' := actions + [a];
  }

  /** A request for every project has stored its list. */
  lemma WholeListIsCached() returns (states: seq<State>, actions: seq<Action>)
    ensures IsRun(states, actions) && |actions| == 4
    ensures var s := states[4]; 1 !in s.requests && s.now == 0 && CacheKey("") in s.cache && s.cache[CacheKey("")].expires == TTL
  {
    states, actions := [INITIAL], [];
    states, actions := Extend(states, actions, Arrive(0, ""));
    states, actions := Extend(states, actions, Miss(0));
    assert IsListing(Ledger.INITIAL.tables, "", DEFAULT_LIMIT, []);
    assert Answer(Ledger.INITIAL.tables, "", DEFAULT_LIMIT, [], []);
    states, actions := Extend(states, actions, Query(0, [], []));
    states, actions := Extend(states, actions, Store(0));
  }

  /** And it does happen: a request for "all" is served after one for every project. */
  lemma AllCanBeServed()
    ensures exists states: seq<State>, actions: seq<Action> ::
      IsRun(states, actions) && |actions| == 6 && 1 in states[6].requests && states[6].requests[1].Responded? && states[6].requests[1].project == "all"
  {
    var states, actions := WholeListIsCached();
    states, actions := Extend(states, actions, Arrive(1, "all"));
    KeysCollideOnlyForAll("", "all");
    states, actions := Extend(states, actions, Hit(1));
  }

  function OneRun(): Ledger.Tables {
    Ledger.Tables({"p"}, map["r" := Ledger.Run("p", "c", Ledger.PASSED, 0, 0, SpecDiff.Report(0, 0, 0, []), 0)], map[])
  }

  /** A query cut short by an iteration error, its empty list stored. */
  lemma ShortListIsStored() returns (states: seq<State>, actions: seq<Action>)
    ensures IsRun(states, actions) && |actions| == 5
    ensures var s := states[5];
      && 1 !in s.requests && s.now == 0 && s.history == [Snapshot(0, Ledger.INITIAL.tables), Snapshot(0, OneRun())]
      && CacheKey("") in s.cache && s.cache[CacheKey("")].expires == TTL && s.cache[CacheKey("")].value == []
      && s.cache[CacheKey("")].origin.version == 1
  {
    var row := Row("r", OneRun().runs["r"]);
    states, actions := [INITIAL], [];
    states, actions := Extend(states, actions, Commit(OneRun()));
    states, actions := Extend(states, actions, Arrive(0, ""));
    states, actions := Extend(states, actions, Miss(0));
    assert IsListing(OneRun(), "", DEFAULT_LIMIT, [row]);
    assert Answer(OneRun(), "", DEFAULT_LIMIT, [row], []);
    states, actions := Extend(states, actions, Query(0, [row], []));
    states, actions := Extend(states, actions, Store(0));
  }

  /** And served to the next request, although it is no listing of the database it was queried from. */
  lemma ShortListIsServed()
    ensures exists states: seq<State>, actions: seq<Action> ::
      && IsRun(states, actions) && |actions| == 7 && actions[6] == Hit(1)
      && 1 in states[7].requests && states[7].requests[1].Responded? && states[7].requests[1].origin.version == 1
      && |states[7].history| == 2 && !IsListing(states[7].history[1].tables, "", DEFAULT_LIMIT, states[7].requests[1].value)
  {
    var states, actions := ShortListIsStored();
    states, actions := Extend(states, actions, Arrive(1, ""));
    states, actions := Extend(states, actions, Hit(1));
    var row := Row("r", OneRun().runs["r"]);
    assert row !in [] && Selected(row.run, "") && row.id in OneRun().runs;
    assert !IsListing(OneRun(), "", DEFAULT_LIMIT, []);
  }
}
