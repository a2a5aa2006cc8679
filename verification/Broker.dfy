/** The multi-tenant event broker (internal/api/broker.go) as a transition system: one listener
    goroutine, one goroutine per connected client, a mutex over the client map, a bounded notifier
    channel and one unbuffered channel per client. */
module Broker {
  import opened Prelude

  datatype Event = Event(project: string, payload: string)

  /** Where the listener stands: in the channel receive, waiting for the mutex with event k, holding
      the mutex before the look-up, or ranging over the clients that remain. */
  datatype ListenerPc =
    | Receiving
    | WantLock(k: nat)
    | Locked(k: nat)
    | FanOut(k: nat, remaining: set<nat>)

  /** Where a client's goroutine stands, statement by statement. */
  datatype ClientPc =
    | WantRegister | Creating | Inserting | Inserted
    | Serving | Writing(k: nat, msg: string)
    | WantRemove | Removing | Pruning | Pruned
    | Closing | Closed

  /** A client, which also stands for its message channel. `written` is what it sent to its HTTP
      response; `log` remembers which events those were, `since` and `until` how many fan-outs had
      begun when it entered and left the client map. */
  datatype Client = Client(project: string, pc: ClientPc, written: seq<string>, log: seq<nat>, since: nat, until: Option<nat>)

  datatype Owner = Free | ByListener | ByClient(id: nat)

  /** `published` is every event ever put into the notifier; the first `taken` have been received. */
  datatype State = State(
    published: seq<Event>, taken: nat, listener: ListenerPc, owner: Owner,
    clients: map<string, set<nat>>, handlers: map<nat, Client>)

  const CAPACITY: nat := 100

  const INITIAL := State([], 0, Receiving, Free, map[], map[])

  datatype Action =
    | Publish(e: Event) | Connect(c: nat, projectId: string)
    | Receive | LockListener | LookUp | Deliver(c: nat) | Skip(c: nat) | UnlockListener
    | LockRegister(c: nat) | Create(c: nat) | Insert(c: nat) | UnlockRegister(c: nat)
    | Write(c: nat) | Cancel(c: nat)
    | LockRemove(c: nat) | Remove(c: nat) | Prune(c: nat) | UnlockRemove(c: nat) | Close(c: nat)

  predicate At(s: State, c: nat, pc: ClientPc) {
    c in s.handlers && s.handlers[c].pc == pc
  }

  /** The clients a fan-out of event k visits. */
  function Audience(s: State, k: nat): set<nat>
    requires k < |s.published|
  {
    if s.published[k].project in s.clients then s.clients[s.published[k].project] else {}
  }

  /** Fan-outs begun: events whose fan-out has taken the mutex. */
  function Begun(s: State): nat {
    if s.listener.WantLock? && s.taken > 0 then s.taken - 1 else s.taken
  }

  predicate Enabled(s: State, a: Action) {
    match a
    case Publish(_) => |s.published| - s.taken < CAPACITY
    case Connect(c, _) => c !in s.handlers
    case Receive => s.listener.Receiving? && s.taken < |s.published|
    case LockListener => s.listener.WantLock? && s.owner.Free?
    case LookUp => s.listener.Locked? && s.listener.k < |s.published|
    case Deliver(c) => s.listener.FanOut? && c in s.listener.remaining && At(s, c, Serving) && s.listener.k < |s.published|
    case Skip(c) => s.listener.FanOut? && c in s.listener.remaining
    case UnlockListener => s.listener.FanOut? && s.listener.remaining == {}
    case LockRegister(c) => At(s, c, WantRegister) && s.owner.Free?
    case Create(c) => At(s, c, Creating)
    case Insert(c) => At(s, c, Inserting) && s.handlers[c].project in s.clients
    case UnlockRegister(c) => At(s, c, Inserted)
    case Write(c) => c in s.handlers && s.handlers[c].pc.Writing?
    case Cancel(c) => At(s, c, Serving)
    case LockRemove(c) => At(s, c, WantRemove) && s.owner.Free?
    case Remove(c) => At(s, c, Removing) && s.handlers[c].project in s.clients
    case Prune(c) => At(s, c, Pruning)
    case UnlockRemove(c) => At(s, c, Pruned)
    case Close(c) => At(s, c, Closing)
  }

  function Goto(s: State, c: nat, pc: ClientPc): State
    requires c in s.handlers
  {
    s.(handlers := s.handlers[c := s.handlers[c].(pc := pc)])
  }

  function Apply(s: State, a: Action): State
    requires Enabled(s, a)
  {
    match a
    case Publish(e) => s.(published := s.published + [e])
    case Connect(c, projectId) =>
      s.(handlers := s.handlers[c := Client(Requested(projectId), WantRegister, [], [], 0, None)])
    case Receive => s.(listener := WantLock(s.taken), taken := s.taken + 1)
    case LockListener => s.(listener := Locked(s.listener.k), owner := ByListener)
    case LookUp => s.(listener := FanOut(s.listener.k, Audience(s, s.listener.k)))
    case Deliver(c) =>
      Goto(s, c, Writing(s.listener.k, s.published[s.listener.k].payload)).(listener := FanOut(s.listener.k, s.listener.remaining - {c}))
    case Skip(c) => s.(listener := FanOut(s.listener.k, s.listener.remaining - {c}))
    case UnlockListener => s.(listener := Receiving, owner := Free)
    case LockRegister(c) => Goto(s, c, Creating).(owner := ByClient(c))
    case Create(c) =>
      var p := s.handlers[c].project;
      Goto(s, c, Inserting).(clients := if p in s.clients then s.clients else s.clients[p := {}])
    case Insert(c) =>
      var h := s.handlers[c];
      s.(handlers := s.handlers[c := h.(pc := Inserted, since := Begun(s))],
         clients := s.clients[h.project := s.clients[h.project] + {c}])
    case UnlockRegister(c) => Goto(s, c, Serving).(owner := Free)
    case Write(c) =>
      var h := s.handlers[c];
      s.(handlers := s.handlers[c := h.(pc := Serving, written := h.written + [h.pc.msg], log := h.log + [h.pc.k])])
    case Cancel(c) => Goto(s, c, WantRemove)
    case LockRemove(c) => Goto(s, c, Removing).(owner := ByClient(c))
    case Remove(c) =>
      var h := s.handlers[c];
      s.(handlers := s.handlers[c := h.(pc := Pruning, until := Some(Begun(s)))],
         clients := s.clients[h.project := s.clients[h.project] - {c}])
    case Prune(c) =>
      var p := s.handlers[c].project;
      Goto(s, c, Pruned).(clients := if p in s.clients && s.clients[p] == {} then s.clients - {p} else s.clients)
    case UnlockRemove(c) => Goto(s, c, Closing).(owner := Free)
    case Close(c) => Goto(s, c, Closed)
  }

  // ----- Invariants

  predicate Critical(pc: ClientPc) {
    pc.Creating? || pc.Inserting? || pc.Inserted? || pc.Removing? || pc.Pruning? || pc.Pruned?
  }

  /** The client is in the client map. */
  predicate Registered(pc: ClientPc) {
    pc.Inserted? || pc.Serving? || pc.Writing? || pc.WantRemove? || pc.Removing?
  }

  predicate Entered(pc: ClientPc) {
    !(pc.WantRegister? || pc.Creating? || pc.Inserting?)
  }

  /** The mutex has one holder, and it is in a critical section. */
  ghost predicate MutexInv(s: State) {
    && (s.owner.ByListener? <==> s.listener.Locked? || s.listener.FanOut?)
    && (forall c :: c in s.handlers && Critical(s.handlers[c].pc) ==> s.owner == ByClient(c))
    && (s.owner.ByClient? ==> s.owner.id in s.handlers && Critical(s.handlers[s.owner.id].pc))
  }

  /** The client map holds exactly the registered clients, each under its own project. */
  ghost predicate MapInv(s: State) {
    && (forall p, c :: p in s.clients && c in s.clients[p] ==> c in s.handlers && s.handlers[c].project == p && Registered(s.handlers[c].pc))
    && (forall c :: c in s.handlers && Registered(s.handlers[c].pc) ==> s.handlers[c].project in s.clients && c in s.clients[s.handlers[c].project])
    && (forall c :: c in s.handlers && s.handlers[c].pc.Inserting? ==> s.handlers[c].project in s.clients)
  }

  /** A project maps to an empty set only while the client that just created or emptied it holds the mutex. */
  ghost predicate NoEmptyProject(s: State) {
    forall p :: p in s.clients && s.clients[p] == {} ==>
      s.owner.ByClient? && s.owner.id in s.handlers && s.handlers[s.owner.id].project == p
      && (s.handlers[s.owner.id].pc.Inserting? || s.handlers[s.owner.id].pc.Pruning?)
  }

  /** The listener's event is the last one received, and its remaining clients are registered for it. */
  ghost predicate ListenerInv(s: State) {
    && s.taken <= |s.published| <= s.taken + CAPACITY
    && (!s.listener.Receiving? ==> s.listener.k + 1 == s.taken)
    && (s.listener.FanOut? ==> s.listener.remaining <= Audience(s, s.listener.k))
  }

  /** What the client has received, written or about to be. */
  function Received(h: Client): seq<nat> {
    h.log + if h.pc.Writing? then [h.pc.k] else []
  }

  /** Events the client may have received so far: all earlier than this. */
  function Horizon(s: State, c: nat): nat {
    if s.listener.Receiving? || s.taken == 0 || (s.listener.FanOut? && c !in s.listener.remaining) then s.taken else s.taken - 1
  }

  ghost predicate Increasing(ks: seq<nat>) {
    forall i, j :: 0 <= i < j < |ks| ==> ks[i] < ks[j]
  }

  /** Every event of the sequence is one of the project's, from a window of fan-outs. */
  ghost predicate Within(published: seq<Event>, project: string, ks: seq<nat>, from: nat, to: nat) {
    forall i :: 0 <= i < |ks| ==> from <= ks[i] < to && ks[i] < |published| && published[ks[i]].project == project
  }

  ghost predicate Payloads(published: seq<Event>, ks: seq<nat>, texts: seq<string>) {
    |texts| == |ks| && forall i :: 0 <= i < |ks| ==> ks[i] < |published| && texts[i] == published[ks[i]].payload
  }

  /** What a client has received, given that only events before the horizon can have reached it. */
  ghost predicate LogInv(published: seq<Event>, horizon: nat, h: Client) {
    && Increasing(Received(h))
    && Within(published, h.project, Received(h), h.since, if h.until.Some? then h.until.value else horizon)
    && Payloads(published, h.log, h.written)
    && (h.pc.Writing? ==> h.pc.k < |published| && h.pc.msg == published[h.pc.k].payload)
    && (!Entered(h.pc) ==> h.log == [])
    && (Entered(h.pc) && !Registered(h.pc) <==> h.until.Some?)
    && h.since <= horizon && (h.until.Some? ==> h.until.value <= horizon)
  }

  ghost predicate LogsInv(s: State) {
    forall c :: c in s.handlers ==> LogInv(s.published, Horizon(s, c), s.handlers[c])
  }

  ghost predicate Inv(s: State) {
    MutexInv(s) && MapInv(s) && NoEmptyProject(s) && ListenerInv(s) && LogsInv(s)
  }

  lemma InitialInv()
    ensures Inv(INITIAL)
  {
  }

  predicate ListenerAction(a: Action) {
    a.Receive? || a.LockListener? || a.LookUp? || a.Deliver? || a.Skip? || a.UnlockListener?
  }

  predicate EnvironmentAction(a: Action) {
    a.Publish? || a.Connect?
  }

  /** Actions of one client's goroutine; `a.c` is the client. */
  predicate ClientAction(a: Action) {
    !ListenerAction(a) && !EnvironmentAction(a)
  }

  lemma MutexKept(s: State, a: Action)
    requires MutexInv(s) && Enabled(s, a)
    ensures MutexInv(Apply(s, a))
  {
    if ClientAction(a) {
      MutexKeptByClient(s, a);
    } else {
      MutexKeptByListener(s, a);
    }
  }

  lemma MutexKeptByClient(s: State, a: Action)
    requires MutexInv(s) && Enabled(s, a) && ClientAction(a)
    ensures MutexInv(Apply(s, a))
  {
  }

  lemma MutexKeptByListener(s: State, a: Action)
    requires MutexInv(s) && Enabled(s, a) && !ClientAction(a)
    ensures MutexInv(Apply(s, a))
  {
  }

  predicate SameStanding(h: Client, g: Client) {
    g.project == h.project && (Registered(g.pc) <==> Registered(h.pc)) && (g.pc.Inserting? ==> h.pc.Inserting?)
  }

  /** The map is right as long as it and everyone's registration stay the same. */
  lemma MapStable(s: State, t: State)
    requires MapInv(s) && t.clients == s.clients
    requires forall c :: c in s.handlers ==> c in t.handlers && SameStanding(s.handlers[c], t.handlers[c])
    requires forall c :: c in t.handlers && c !in s.handlers ==> t.handlers[c].pc == WantRegister
    ensures MapInv(t)
  {
  }

  predicate UpdatesMap(a: Action) {
    a.Insert? || a.Remove? || a.Create? || a.Prune?
  }

  lemma MapKept(s: State, a: Action)
    requires Inv(s) && Enabled(s, a)
    ensures MapInv(Apply(s, a))
  {
    if a.Create? {
      CreateKept(s, a);
    } else if a.Prune? {
      PruneKept(s, a);
    } else if a.Insert? || a.Remove? {
      MembersKept(s, a);
    } else if ClientAction(a) {
      MapStableUnderMove(s, a);
    } else {
      MapStableUnderListener(s, a);
    }
  }

  lemma MapStableUnderListener(s: State, a: Action)
    requires MapInv(s) && Enabled(s, a) && !ClientAction(a)
    ensures MapInv(Apply(s, a))
  {
    MapStable(s, Apply(s, a));
  }

  lemma MapStableUnderMove(s: State, a: Action)
    requires MapInv(s) && Enabled(s, a) && ClientAction(a) && !UpdatesMap(a)
    ensures MapInv(Apply(s, a))
  {
    assert SameStanding(s.handlers[a.c], Apply(s, a).handlers[a.c]);
    MapStable(s, Apply(s, a));
  }

  lemma CreateKept(s: State, a: Action)
    requires MutexInv(s) && MapInv(s) && Enabled(s, a) && a.Create?
    ensures MapInv(Apply(s, a))
  {
  }

  lemma PruneKept(s: State, a: Action)
    requires MutexInv(s) && MapInv(s) && Enabled(s, a) && a.Prune?
    ensures MapInv(Apply(s, a))
  {
  }

  lemma MembersKept(s: State, a: Action)
    requires MutexInv(s) && MapInv(s) && Enabled(s, a) && (a.Insert? || a.Remove?)
    ensures MapInv(Apply(s, a))
  {
  }

  lemma NoEmptyKept(s: State, a: Action)
    requires Inv(s) && Enabled(s, a)
    ensures NoEmptyProject(Apply(s, a))
  {
    if UpdatesMap(a) {
      NoEmptyKeptByUpdate(s, a);
    } else if ClientAction(a) {
      NoEmptyKeptByMove(s, a);
    } else {
      NoEmptyKeptByListener(s, a);
    }
  }

  lemma NoEmptyKeptByUpdate(s: State, a: Action)
    requires MutexInv(s) && MapInv(s) && NoEmptyProject(s) && Enabled(s, a) && UpdatesMap(a)
    ensures NoEmptyProject(Apply(s, a))
  {
  }

  lemma NoEmptyKeptByMove(s: State, a: Action)
    requires MutexInv(s) && MapInv(s) && NoEmptyProject(s) && Enabled(s, a) && ClientAction(a) && !UpdatesMap(a)
    ensures NoEmptyProject(Apply(s, a))
  {
  }

  lemma NoEmptyKeptByListener(s: State, a: Action)
    requires MutexInv(s) && MapInv(s) && NoEmptyProject(s) && Enabled(s, a) && !ClientAction(a)
    ensures NoEmptyProject(Apply(s, a))
  {
  }

  lemma ListenerKept(s: State, a: Action)
    requires Inv(s) && Enabled(s, a)
    ensures ListenerInv(Apply(s, a))
  {
  }

  /** The horizon of a client never moves back. */
  lemma HorizonGrows(s: State, a: Action, c: nat)
    requires ListenerInv(s) && Enabled(s, a)
    ensures Horizon(s, c) <= Horizon(Apply(s, a), c)
    ensures a == Deliver(c) ==> Horizon(s, c) == s.listener.k && Horizon(Apply(s, a), c) == s.listener.k + 1
  {
  }

  lemma LogGrows(published: seq<Event>, more: seq<Event>, horizon: nat, later: nat, h: Client)
    requires LogInv(published, horizon, h) && published <= more && horizon <= later
    ensures LogInv(more, later, h)
  {
  }

  lemma LogDelivered(published: seq<Event>, k: nat, h: Client)
    requires LogInv(published, k, h) && h.pc == Serving && k < |published| && published[k].project == h.project
    ensures LogInv(published, k + 1, h.(pc := Writing(k, published[k].payload)))
  {
    assert Received(h.(pc := Writing(k, published[k].payload))) == Received(h) + [k];
    assert Received(h) == h.log;
  }

  lemma LogWritten(published: seq<Event>, horizon: nat, h: Client)
    requires LogInv(published, horizon, h) && h.pc.Writing?
    ensures LogInv(published, horizon, h.(pc := Serving, written := h.written + [h.pc.msg], log := h.log + [h.pc.k]))
  {
    assert Received(h.(pc := Serving, written := h.written + [h.pc.msg], log := h.log + [h.pc.k])) == Received(h);
  }

  /** Moves that neither receive, write, enter nor leave. */
  lemma LogMoved(published: seq<Event>, horizon: nat, h: Client, pc: ClientPc)
    requires LogInv(published, horizon, h) && !h.pc.Writing? && !pc.Writing?
    requires (Entered(pc) <==> Entered(h.pc)) && (Registered(pc) <==> Registered(h.pc))
    ensures LogInv(published, horizon, h.(pc := pc))
  {
    assert Received(h.(pc := pc)) == Received(h);
  }

  lemma LogEntered(published: seq<Event>, horizon: nat, h: Client, since: nat)
    requires LogInv(published, horizon, h) && h.pc == Inserting && since <= horizon
    ensures LogInv(published, horizon, h.(pc := Inserted, since := since))
  {
  }

  lemma LogLeft(published: seq<Event>, horizon: nat, h: Client)
    requires LogInv(published, horizon, h) && h.pc == Removing
    ensures LogInv(published, horizon, h.(pc := Pruning, until := Some(horizon)))
  {
    assert Received(h.(pc := Pruning, until := Some(horizon))) == Received(h);
  }

  /** Under the mutex of a client, no fan-out is under way. */
  lemma HorizonIsBegun(s: State, c: nat)
    requires Inv(s) && s.owner.ByClient?
    ensures Horizon(s, c) == Begun(s)
  {
  }

  lemma LogKept(s: State, a: Action, c: nat)
    requires Inv(s) && Enabled(s, a) && c in Apply(s, a).handlers
    ensures LogInv(Apply(s, a).published, Horizon(Apply(s, a), c), Apply(s, a).handlers[c])
  {
    if ClientAction(a) && a.c == c {
      LogKeptByClient(s, a);
      Untouched(s, a, c);
    } else if a == Deliver(c) {
      LogKeptByDelivery(s, c);
    } else {
      LogKeptElsewhere(s, a, c);
    }
  }

  /** Steps of clients do not publish and do not move the listener. */
  lemma Untouched(s: State, a: Action, c: nat)
    requires Enabled(s, a) && ClientAction(a)
    ensures Apply(s, a).published == s.published && Horizon(Apply(s, a), c) == Horizon(s, c)
  {
  }

  lemma LogKeptByDelivery(s: State, c: nat)
    requires Inv(s) && Enabled(s, Deliver(c))
    ensures LogInv(Apply(s, Deliver(c)).published, Horizon(Apply(s, Deliver(c)), c), Apply(s, Deliver(c)).handlers[c])
  {
    HorizonGrows(s, Deliver(c), c);
    assert c in Audience(s, s.listener.k);
    LogDelivered(s.published, s.listener.k, s.handlers[c]);
  }

  /** A step that neither is the client's own nor delivers to it leaves the client alone. */
  lemma Bystander(s: State, a: Action, c: nat)
    requires Enabled(s, a) && c in Apply(s, a).handlers && a != Deliver(c) && !(ClientAction(a) && a.c == c)
    ensures s.published <= Apply(s, a).published
    ensures c in s.handlers ==> Apply(s, a).handlers[c] == s.handlers[c]
    ensures c !in s.handlers ==> exists p :: Apply(s, a).handlers[c] == Client(p, WantRegister, [], [], 0, None)
  {
  }

  lemma LogKeptElsewhere(s: State, a: Action, c: nat)
    requires Inv(s) && Enabled(s, a) && c in Apply(s, a).handlers && a != Deliver(c) && !(ClientAction(a) && a.c == c)
    ensures LogInv(Apply(s, a).published, Horizon(Apply(s, a), c), Apply(s, a).handlers[c])
  {
    Bystander(s, a, c);
    if c in s.handlers {
      HorizonGrows(s, a, c);
      LogGrows(s.published, Apply(s, a).published, Horizon(s, c), Horizon(Apply(s, a), c), s.handlers[c]);
    } else {
      FreshLog(Apply(s, a), c);
    }
  }

  lemma FreshLog(s: State, c: nat)
    requires c in s.handlers && exists p :: s.handlers[c] == Client(p, WantRegister, [], [], 0, None)
    ensures LogInv(s.published, Horizon(s, c), s.handlers[c])
  {
  }

  lemma LogKeptByClient(s: State, a: Action)
    requires Inv(s) && Enabled(s, a) && ClientAction(a)
    ensures LogInv(s.published, Horizon(s, a.c), Apply(s, a).handlers[a.c])
  {
    if a.Write? || a.Insert? || a.Remove? {
      LogKeptByUpdate(s, a);
    } else {
      OnlyMoves(s, a);
      LogMoved(s.published, Horizon(s, a.c), s.handlers[a.c], Apply(s, a).handlers[a.c].pc);
    }
  }

  lemma LogKeptByUpdate(s: State, a: Action)
    requires Inv(s) && Enabled(s, a) && (a.Write? || a.Insert? || a.Remove?)
    ensures LogInv(s.published, Horizon(s, a.c), Apply(s, a).handlers[a.c])
  {
    var h, horizon := s.handlers[a.c], Horizon(s, a.c);
    if a.Write? {
      LogWritten(s.published, horizon, h);
    } else {
      HorizonIsBegun(s, a.c);
      if a.Insert? { LogEntered(s.published, horizon, h, Begun(s)); } else { LogLeft(s.published, horizon, h); }
    }
  }

  /** Every other step of a client changes nothing about it but its position. */
  lemma OnlyMoves(s: State, a: Action)
    requires Enabled(s, a) && ClientAction(a) && !a.Write? && !a.Insert? && !a.Remove?
    ensures var h, g := s.handlers[a.c], Apply(s, a).handlers[a.c];
      g == h.(pc := g.pc) && !h.pc.Writing? && !g.pc.Writing?
      && (Entered(g.pc) <==> Entered(h.pc)) && (Registered(g.pc) <==> Registered(h.pc))
  {
  }

  /** Every step of every goroutine keeps the invariant. */
  lemma StepInv(s: State, a: Action)
    requires Inv(s) && Enabled(s, a)
    ensures Inv(Apply(s, a))
  {
    MutexKept(s, a);
    MapKept(s, a);
    NoEmptyKept(s, a);
    ListenerKept(s, a);
    forall c | c in Apply(s, a).handlers
      ensures LogInv(Apply(s, a).published, Horizon(Apply(s, a), c), Apply(s, a).handlers[c])
    {
      LogKept(s, a, c);
    }
  }

  // ----- Runs

  /** A run: states joined by enabled actions, from the broker as created. */
  ghost predicate IsRun(states: seq<State>, actions: seq<Action>) {
    && |states| == |actions| + 1 && states[0] == INITIAL
    && forall i :: 0 <= i < |actions| ==> Enabled(states[i], actions[i]) && states[i + 1] == Apply(states[i], actions[i])
  }

  /** Every state of every run, under every interleaving, satisfies the invariant. */
  lemma {:induction false} RunInv(states: seq<State>, actions: seq<Action>, i: nat)
    requires IsRun(states, actions) && i < |states|
    ensures Inv(states[i])
  {
    if i == 0 {
      InitialInv();
    } else {
      RunInv(states, actions, i - 1);
      StepInv(states[i - 1], actions[i - 1]);
    }
  }

  /** The texts are, in order and each at most once, payloads of events of the project whose fan-out
      fell in a window: `ks` gives the events. */
  ghost predicate DrawnFrom(texts: seq<string>, published: seq<Event>, project: string, from: nat, to: nat, ks: seq<nat>) {
    Payloads(published, ks, texts) && Increasing(ks) && Within(published, project, ks, from, to)
  }

  /** The project a request asks for. */
  function Requested(projectId: string): (r: string)
    ensures projectId != "" ==> r == projectId
    ensures projectId == "" ==> r == "default"
  {
    if projectId == "" then "default" else projectId
  }

  lemma ProjectStays(s: State, a: Action, c: nat)
    requires Enabled(s, a) && c in s.handlers
    ensures c in Apply(s, a).handlers && Apply(s, a).handlers[c].project == s.handlers[c].project
  {
  }

  lemma ClientsComeFromConnecting(s: State, a: Action, c: nat)
    requires Enabled(s, a) && c in Apply(s, a).handlers && c !in s.handlers
    ensures a.Connect? && a.c == c && Apply(s, a).handlers[c].project == Requested(a.projectId)
  {
  }

  lemma ConnectingAsks(s: State, c: nat, projectId: string)
    requires Enabled(s, Connect(c, projectId))
    ensures var t := Apply(s, Connect(c, projectId)); c in t.handlers && t.handlers[c].project == Requested(projectId)
  {
  }

  lemma ConnectedStep(states: seq<State>, actions: seq<Action>, k: nat, c: nat, projectId: string)
    requires IsRun(states, actions) && k < |actions| && actions[k] == Connect(c, projectId)
    ensures c in states[k + 1].handlers && states[k + 1].handlers[c].project == Requested(projectId)
  {
    assert Enabled(states[k], actions[k]) && states[k + 1] == Apply(states[k], actions[k]);
    ConnectingAsks(states[k], c, projectId);
  }

  lemma ServedStep(states: seq<State>, actions: seq<Action>, i: nat, c: nat)
    requires IsRun(states, actions) && i < |actions| && c in states[i].handlers
    ensures c in states[i + 1].handlers && states[i + 1].handlers[c].project == states[i].handlers[c].project
  {
    assert Enabled(states[i], actions[i]) && states[i + 1] == Apply(states[i], actions[i]);
    ProjectStays(states[i], actions[i], c);
  }

  /** A client is served for the project that its request asked for, from then on. */
  lemma {:induction false} ServedAsRequested(states: seq<State>, actions: seq<Action>, k: nat, i: nat, c: nat, projectId: string)
    requires IsRun(states, actions) && k < i < |states| && actions[k] == Connect(c, projectId)
    ensures c in states[i].handlers && states[i].handlers[c].project == Requested(projectId)
  {
    if i == k + 1 {
      ConnectedStep(states, actions, k, c, projectId);
    } else {
      ServedAsRequested(states, actions, k, i - 1, c, projectId);
      ServedStep(states, actions, i - 1, c);
    }
  }

  /** Every client has made a request. */
  lemma {:induction false} ClientsHaveConnected(states: seq<State>, actions: seq<Action>, i: nat, c: nat) returns (k: nat)
    requires IsRun(states, actions) && i < |states| && c in states[i].handlers
    ensures k < i && actions[k].Connect? && actions[k].c == c
  {
    assert i > 0;
    assert Enabled(states[i - 1], actions[i - 1]) && states[i] == Apply(states[i - 1], actions[i - 1]);
    if c in states[i - 1].handlers {
      k := ClientsHaveConnected(states, actions, i - 1, c);
    } else {
      ClientsComeFromConnecting(states[i - 1], actions[i - 1], c);
      k := i - 1;
    }
  }

  /** The events that the actions put into the notifier, in order. */
  function EventsOf(actions: seq<Action>): seq<Event> {
    if actions == [] then []
    else
      var last := actions[|actions| - 1];
      EventsOf(actions[..|actions| - 1]) + if last.Publish? then [last.e] else []
  }

  lemma PublishedGrows(s: State, a: Action)
    requires Enabled(s, a)
    ensures Apply(s, a).published == s.published + if a.Publish? then [a.e] else []
  {
  }

  /** The published events are those that were published, in that order. */
  lemma {:induction false} PublishedInOrder(states: seq<State>, actions: seq<Action>, i: nat)
    requires IsRun(states, actions) && i < |states|
    ensures states[i].published == EventsOf(actions[..i])
  {
    if i > 0 {
      assert Enabled(states[i - 1], actions[i - 1]) && states[i] == Apply(states[i - 1], actions[i - 1]);
      PublishedInOrder(states, actions, i - 1);
      PublishedGrows(states[i - 1], actions[i - 1]);
      assert actions[..i][..i - 1] == actions[..i - 1] && actions[..i][i - 1] == actions[i - 1];
    }
  }

  /** Isolation and order over all runs: what a client has written is a subsequence, in publish order
      and without repetition, of the events of the project its request asked for, fanned out while it
      was registered. */
  lemma ClientsSeeOnlyTheirProject(states: seq<State>, actions: seq<Action>, k: nat, i: nat, c: nat, projectId: string)
    requires IsRun(states, actions) && k < i < |states| && actions[k] == Connect(c, projectId)
    ensures c in states[i].handlers
    ensures var s, h := states[i], states[i].handlers[c];
      DrawnFrom(h.written, EventsOf(actions[..i]), Requested(projectId), h.since, if h.until.Some? then h.until.value else s.taken, h.log)
  {
    RunInv(states, actions, i);
    ServedAsRequested(states, actions, k, i, c, projectId);
    PublishedInOrder(states, actions, i);
    var s, h := states[i], states[i].handlers[c];
    assert h.log <= Received(h);
    assert forall j :: 0 <= j < |h.log| ==> h.log[j] == Received(h)[j];
  }

  predicate Gone(pc: ClientPc) {
    pc.Pruning? || pc.Pruned? || pc.Closing? || pc.Closed?
  }

  lemma WindowStays(s: State, a: Action, c: nat)
    requires Enabled(s, a) && c in s.handlers
    ensures c in Apply(s, a).handlers
    ensures var h, g := s.handlers[c], Apply(s, a).handlers[c];
      && (Entered(h.pc) ==> Entered(g.pc) && g.since == h.since)
      && (Gone(h.pc) ==> Gone(g.pc) && g.until == h.until)
  {
  }

  lemma WindowOpens(s: State, c: nat)
    ensures Enabled(s, Insert(c)) ==> Entered(Apply(s, Insert(c)).handlers[c].pc) && Apply(s, Insert(c)).handlers[c].since == Begun(s)
    ensures Enabled(s, Remove(c)) ==> Gone(Apply(s, Remove(c)).handlers[c].pc) && Apply(s, Remove(c)).handlers[c].until == Some(Begun(s))
  {
  }

  /** The window of a client: it opens with the fan-outs begun when the client entered the map, and closes
      with those begun when it left. */
  lemma {:induction false} WindowIsRegistration(states: seq<State>, actions: seq<Action>, k: nat, i: nat, c: nat)
    requires IsRun(states, actions) && k < i < |states|
    ensures actions[k] == Insert(c) ==>
      c in states[i].handlers && Entered(states[i].handlers[c].pc) && states[i].handlers[c].since == Begun(states[k])
    ensures actions[k] == Remove(c) ==>
      c in states[i].handlers && Gone(states[i].handlers[c].pc) && states[i].handlers[c].until == Some(Begun(states[k]))
  {
    assert Enabled(states[i - 1], actions[i - 1]) && states[i] == Apply(states[i - 1], actions[i - 1]);
    if i == k + 1 {
      WindowOpens(states[k], c);
    } else {
      WindowIsRegistration(states, actions, k, i - 1, c);
      if c in states[i - 1].handlers { WindowStays(states[i - 1], actions[i - 1], c); }
    }
  }

  /** No registered client is left out: a fan-out visits every client registered for the project of its
      event, and no other. */
  lemma FanOutsVisitEveryClient(states: seq<State>, actions: seq<Action>, i: nat)
    requires IsRun(states, actions) && i < |actions| && actions[i] == LookUp
    ensures var s, t := states[i], states[i + 1];
      && s.listener.Locked? && s.listener.k < |s.published| && t.listener.FanOut? && t.listener.k == s.listener.k
      && forall c :: c in t.listener.remaining <==>
        c in s.handlers && Registered(s.handlers[c].pc) && s.handlers[c].project == s.published[s.listener.k].project
  {
    RunInv(states, actions, i);
    assert Enabled(states[i], LookUp) && states[i + 1] == Apply(states[i], LookUp);
    AudienceIsRegistered(states[i], states[i].listener.k);
  }

  /** The listener has given the client its event, or skipped it, between two steps. */
  ghost predicate Handled(actions: seq<Action>, i: nat, n: nat, c: nat)
    requires n <= |actions|
  {
    exists m: nat :: i < m < n && (actions[m] == Deliver(c) || actions[m] == Skip(c))
  }

  lemma FanOutGoesOn(s: State, a: Action, c: nat)
    requires Enabled(s, a) && s.listener.FanOut? && c in s.listener.remaining && a != UnlockListener
    ensures Apply(s, a).listener.FanOut? && (c in Apply(s, a).listener.remaining || a == Deliver(c) || a == Skip(c))
  {
  }

  lemma FanOutStays(s: State, a: Action)
    requires Enabled(s, a) && s.listener.FanOut? && a != UnlockListener
    ensures Apply(s, a).listener.FanOut?
  {
  }

  lemma {:induction false} RemainsOrHandled(states: seq<State>, actions: seq<Action>, i: nat, n: nat, c: nat)
    requires IsRun(states, actions) && i < n <= |actions| && actions[i] == LookUp
    requires forall m :: i < m < n ==> actions[m] != UnlockListener
    requires states[i + 1].listener.FanOut? && c in states[i + 1].listener.remaining
    ensures states[n].listener.FanOut? && (c in states[n].listener.remaining || Handled(actions, i, n, c))
  {
    if n > i + 1 {
      RemainsOrHandled(states, actions, i, n - 1, c);
      assert Enabled(states[n - 1], actions[n - 1]) && states[n] == Apply(states[n - 1], actions[n - 1]);
      FanOutStays(states[n - 1], actions[n - 1]);
      if c in states[n - 1].listener.remaining { FanOutGoesOn(states[n - 1], actions[n - 1], c); }
    }
  }

  /** And before the fan-out ends, each of these clients has been given the event or skipped. */
  lemma FanOutsHandleEveryClient(states: seq<State>, actions: seq<Action>, i: nat, j: nat, c: nat)
    requires IsRun(states, actions) && i < j < |actions| && actions[i] == LookUp && actions[j] == UnlockListener
    requires forall m :: i < m < j ==> actions[m] != UnlockListener
    requires states[i].listener.Locked? && states[i].listener.k < |states[i].published| && c in states[i].handlers
    requires Registered(states[i].handlers[c].pc)
    requires states[i].handlers[c].project == states[i].published[states[i].listener.k].project
    ensures Handled(actions, i, j, c)
  {
    FanOutsVisitEveryClient(states, actions, i);
    RemainsOrHandled(states, actions, i, j, c);
    assert Enabled(states[j], actions[j]);
  }

  lemma AudienceIsRegistered(s: State, k: nat)
    requires MapInv(s) && k < |s.published|
    ensures forall c :: c in Audience(s, k) <==>
      c in s.handlers && Registered(s.handlers[c].pc) && s.handlers[c].project == s.published[k].project
  {
  }

  /** A visited client that is ready can be given the event, and then writes its payload. */
  lemma ReadyClientsReceive(s: State, c: nat)
    requires Inv(s) && s.listener.FanOut? && c in s.listener.remaining && At(s, c, Serving)
    ensures Enabled(s, Deliver(c)) && Enabled(Apply(s, Deliver(c)), Write(c))
    ensures Apply(Apply(s, Deliver(c)), Write(c)).handlers[c].written == s.handlers[c].written + [s.published[s.listener.k].payload]
  {
  }

  predicate Open(s: State, c: nat) {
    c in s.handlers && !s.handlers[c].pc.Closed?
  }

  /** Safety over all runs: every channel in the client map and every channel the listener has yet to
      visit is open, each channel is under exactly one project, with the mutex free no project maps to an
      empty set, and at most a hundred events wait. */
  lemma ChannelsStaySafe(states: seq<State>, actions: seq<Action>, i: nat)
    requires IsRun(states, actions) && i < |states|
    ensures var s := states[i];
      && (forall p, c :: p in s.clients && c in s.clients[p] ==> Open(s, c))
      && (s.listener.FanOut? ==> forall c :: c in s.listener.remaining ==> Open(s, c))
      && (forall p, q, c :: p in s.clients && q in s.clients && c in s.clients[p] && c in s.clients[q] ==> p == q)
      && (s.owner.Free? ==> forall p :: p in s.clients ==> s.clients[p] != {})
      && s.taken <= |s.published| <= s.taken + 100
  {
    RunInv(states, actions, i);
    var s := states[i];
    forall p, q, c | p in s.clients && q in s.clients && c in s.clients[p] && c in s.clients[q]
      ensures p == q
    {
      assert s.handlers[c].project == p && s.handlers[c].project == q;
    }
  }

  /** A closed client is gone for good: it is in no project, and no delivery to it is ever enabled. */
  lemma ClosedIsUnreachable(states: seq<State>, actions: seq<Action>, i: nat, c: nat)
    requires IsRun(states, actions) && i < |states| && At(states[i], c, Closed)
    ensures !Enabled(states[i], Deliver(c)) && !Enabled(states[i], Skip(c))
    ensures forall p :: p in states[i].clients ==> c !in states[i].clients[p]
  {
    RunInv(states, actions, i);
  }

  // ----- Progress of the mutex holder

  predicate IsHolderAction(s: State, a: Action) {
    match s.owner
    case Free => false
    case ByListener => ListenerAction(a)
    case ByClient(c) => ClientAction(a) && a.c == c
  }

  /** Steps the holder may still take before it releases the mutex. */
  function StepsLeft(s: State): nat {
    match s.owner
    case Free => 0
    case ByListener =>
      (match s.listener
       case Locked(k) => 2 + if k < |s.published| then |Audience(s, k)| else 0
       case FanOut(_, remaining) => 1 + |remaining|
       case _ => 0)
    case ByClient(c) => if c in s.handlers then SectionLeft(s.handlers[c].pc) else 0
  }

  /** Steps left in a client's critical section. */
  function SectionLeft(pc: ClientPc): nat {
    match pc
    case Creating => 3
    case Inserting => 2
    case Inserted => 1
    case Removing => 3
    case Pruning => 2
    case Pruned => 1
    case _ => 0
  }

  /** The holder of the mutex always has a step it can take, whatever the clients are doing. */
  lemma HolderCanStep(s: State) returns (a: Action)
    requires Inv(s) && !s.owner.Free?
    ensures Enabled(s, a) && IsHolderAction(s, a)
  {
    match s.owner
    case ByListener =>
      if s.listener.Locked? { a := LookUp; }
      else if s.listener.remaining == {} { a := UnlockListener; }
      else { var c :| c in s.listener.remaining; a := Skip(c); }
    case ByClient(c) =>
      match s.handlers[c].pc {
        case Creating => a := Create(c);
        case Inserting => a := Insert(c);
        case Inserted => a := UnlockRegister(c);
        case Removing => a := Remove(c);
        case Pruning => a := Prune(c);
        case Pruned => a := UnlockRemove(c);
      }
  }

  /** Each step of the holder uses up one of its steps or releases the mutex. */
  lemma HolderStepCounts(s: State, a: Action)
    requires Inv(s) && Enabled(s, a) && IsHolderAction(s, a)
    ensures Apply(s, a).owner.Free? || Apply(s, a).owner == s.owner
    ensures StepsLeft(Apply(s, a)) + 1 <= StepsLeft(s)
  {
    if s.owner.ByListener? {
      ListenerStepCounts(s, a);
    } else {
      ClientStepCounts(s, a);
    }
  }

  lemma ListenerStepCounts(s: State, a: Action)
    requires Inv(s) && Enabled(s, a) && ListenerAction(a) && s.owner.ByListener?
    ensures Apply(s, a).owner.Free? || Apply(s, a).owner == s.owner
    ensures StepsLeft(Apply(s, a)) + 1 <= StepsLeft(s)
  {
    if s.listener.FanOut? && (a.Deliver? || a.Skip?) {
      assert |s.listener.remaining - {a.c}| + 1 == |s.listener.remaining|;
    }
  }

  /** A critical client advances in its section or leaves it and the mutex. */
  lemma ClientAdvances(s: State, a: Action)
    requires Enabled(s, a) && ClientAction(a) && Critical(s.handlers[a.c].pc)
    ensures var t := Apply(s, a);
      && a.c in t.handlers && SectionLeft(t.handlers[a.c].pc) + 1 <= SectionLeft(s.handlers[a.c].pc)
      && (t.owner.Free? || t.owner == s.owner)
  {
  }

  lemma ClientStepCounts(s: State, a: Action)
    requires Inv(s) && Enabled(s, a) && ClientAction(a) && s.owner == ByClient(a.c)
    ensures Apply(s, a).owner.Free? || Apply(s, a).owner == s.owner
    ensures StepsLeft(Apply(s, a)) + 1 <= StepsLeft(s)
  {
    assert Critical(s.handlers[a.c].pc);
    ClientAdvances(s, a);
  }

  /** Nobody else can take the mutex away or make the holder's work longer. */
  lemma OthersDoNotDelay(s: State, a: Action)
    requires Inv(s) && Enabled(s, a) && !IsHolderAction(s, a) && !s.owner.Free?
    ensures Apply(s, a).owner == s.owner && StepsLeft(Apply(s, a)) == StepsLeft(s)
  {
    if s.owner.ByListener? {
      ListenerNotDelayed(s, a);
    } else {
      ClientNotDelayed(s, a);
    }
  }

  lemma ListenerNotDelayed(s: State, a: Action)
    requires Inv(s) && Enabled(s, a) && !ListenerAction(a) && s.owner.ByListener?
    ensures Apply(s, a).owner == s.owner && StepsLeft(Apply(s, a)) == StepsLeft(s)
  {
    assert !UpdatesMap(a);
    assert Apply(s, a).clients == s.clients && Apply(s, a).listener == s.listener && s.published <= Apply(s, a).published;
  }

  lemma HolderUndisturbed(s: State, a: Action)
    requires MutexInv(s) && Enabled(s, a) && !IsHolderAction(s, a) && s.owner.ByClient?
    ensures Apply(s, a).owner == s.owner
    ensures s.owner.id in Apply(s, a).handlers && Apply(s, a).handlers[s.owner.id] == s.handlers[s.owner.id]
  {
    assert Critical(s.handlers[s.owner.id].pc);
    if ClientAction(a) {
      assert !Critical(s.handlers[a.c].pc);
      OutsiderMoves(s, a);
    }
  }

  /** A client outside its critical sections moves alone and cannot take a mutex that is held. */
  lemma OutsiderMoves(s: State, a: Action)
    requires Enabled(s, a) && ClientAction(a) && !Critical(s.handlers[a.c].pc) && !s.owner.Free?
    ensures Apply(s, a).owner == s.owner && Apply(s, a).handlers == s.handlers[a.c := Apply(s, a).handlers[a.c]]
  {
  }

  lemma ClientNotDelayed(s: State, a: Action)
    requires Inv(s) && Enabled(s, a) && !IsHolderAction(s, a) && s.owner.ByClient?
    ensures Apply(s, a).owner == s.owner && StepsLeft(Apply(s, a)) == StepsLeft(s)
  {
    HolderUndisturbed(s, a);
  }

  lemma TenureStep(s: State, a: Action)
    requires Inv(s) && Enabled(s, a) && !s.owner.Free?
    ensures StepsLeft(Apply(s, a)) + (if IsHolderAction(s, a) then 1 else 0) <= StepsLeft(s)
  {
    if IsHolderAction(s, a) {
      HolderStepCounts(s, a);
    } else {
      OthersDoNotDelay(s, a);
    }
  }

  ghost predicate Shrinks(s: State, a: Action, t: State) {
    StepsLeft(t) + (if IsHolderAction(s, a) then 1 else 0) <= StepsLeft(s)
  }

  /** Holder steps among the first n actions from state i. */
  ghost function HolderSteps(states: seq<State>, actions: seq<Action>, i: nat, n: nat): nat
    requires |states| == |actions| + 1 && i + n <= |actions|
  {
    if n == 0 then 0
    else HolderSteps(states, actions, i, n - 1) + if IsHolderAction(states[i + n - 1], actions[i + n - 1]) then 1 else 0
  }

  /** While a tenure of the mutex lasts, its holder takes at most as many steps as it had left, which
      is at most the clients of the event's project plus three, however slow those clients are. */
  lemma {:induction false} TenureIsBounded(states: seq<State>, actions: seq<Action>, i: nat, n: nat)
    requires IsRun(states, actions) && i + n <= |actions|
    requires forall j :: i <= j < i + n ==> !states[j].owner.Free?
    ensures HolderSteps(states, actions, i, n) + StepsLeft(states[i + n]) <= StepsLeft(states[i])
  {
    forall j | i <= j < i + n
      ensures Shrinks(states[j], actions[j], states[j + 1])
    {
      RunInv(states, actions, j);
      TenureStep(states[j], actions[j]);
    }
    ShrinkingSum(states, actions, i, n);
  }

  lemma {:induction false} ShrinkingSum(states: seq<State>, actions: seq<Action>, i: nat, n: nat)
    requires |states| == |actions| + 1 && i + n <= |actions|
    requires forall j :: i <= j < i + n ==> Shrinks(states[j], actions[j], states[j + 1])
    ensures HolderSteps(states, actions, i, n) + StepsLeft(states[i + n]) <= StepsLeft(states[i])
  {
    if n > 0 {
      ShrinkingSum(states, actions, i, n - 1);
      var last := i + n - 1;
      assert Shrinks(states[last], actions[last], states[last + 1]);
    }
  }

  /** The bound itself. */
  lemma StepsLeftIsLinear(s: State)
    requires Inv(s)
    ensures StepsLeft(s) <= 3 + if s.listener.Locked? || s.listener.FanOut? then |Audience(s, s.listener.k)| else 0
  {
    if s.listener.FanOut? {
      SubsetSize(s.listener.remaining, Audience(s, s.listener.k));
    }
  }

  lemma {:induction false} SubsetSize(a: set<nat>, b: set<nat>)
    requires a <= b
    ensures |a| <= |b|
    decreases |b|
  {
    if a != {} {
      var x :| x in a;
      SubsetSize(a - {x}, b - {x});
    }
  }

  // ----- The critical sections as operations on the client map

  function With(clients: map<string, set<nat>>, project: string, c: nat): map<string, set<nat>> {
    clients[project := (if project in clients then clients[project] else {}) + {c}]
  }

  function Without(clients: map<string, set<nat>>, project: string, c: nat): map<string, set<nat>> {
    if project !in clients then clients
    else if clients[project] - {c} == {} then clients - {project}
    else clients[project := clients[project] - {c}]
  }

  class Registry {
    var clients: map<string, set<nat>>

    constructor ()
      ensures clients == map[]
    {
      clients := map[];
    }

    /** What a client does while it holds the mutex on its way in. */
    method Register(project: string, c: nat)
      modifies this
      ensures clients == With(old(clients), project, c)
    {
      if project !in clients {
        clients := clients[project := {}];
      }
      clients := clients[project := clients[project] + {c}];
    }

    /** What it does while it holds the mutex on its way out. */
    method Unregister(project: string, c: nat)
      modifies this
      ensures clients == Without(old(clients), project, c)
    {
      if project in clients {
        clients := clients[project := clients[project] - {c}];
        if clients[project] == {} {
          clients := clients - {project};
        }
      }
    }
  }

  /** Leaving undoes entering: with no empty project in the map, a new client that registers and
      unregisters restores the map, empty projects pruned. */
  lemma LeavingUndoesEntering(clients: map<string, set<nat>>, project: string, c: nat)
    requires forall p :: p in clients ==> clients[p] != {} && c !in clients[p]
    ensures Without(With(clients, project, c), project, c) == clients
  {
    if project in clients {
      assert clients[project] + {c} - {c} == clients[project];
    } else {
      assert {} + {c} - {c} == {};
    }
  }

  /** The two steps inside each critical section amount to the operation. */
  lemma CriticalSectionsAreOperations(s: State, c: nat)
    requires Inv(s)
    ensures Enabled(s, Create(c)) ==>
      Enabled(Apply(s, Create(c)), Insert(c)) && Apply(Apply(s, Create(c)), Insert(c)).clients == With(s.clients, s.handlers[c].project, c)
    ensures Enabled(s, Remove(c)) ==>
      Enabled(Apply(s, Remove(c)), Prune(c)) && Apply(Apply(s, Remove(c)), Prune(c)).clients == Without(s.clients, s.handlers[c].project, c)
  {
    if Enabled(s, Create(c)) { EntrySection(s, c); }
    if Enabled(s, Remove(c)) { ExitSection(s, c); }
  }

  lemma EntrySection(s: State, c: nat)
    requires Enabled(s, Create(c))
    ensures Enabled(Apply(s, Create(c)), Insert(c)) && Apply(Apply(s, Create(c)), Insert(c)).clients == With(s.clients, s.handlers[c].project, c)
  {
    var t, p := Apply(s, Create(c)), s.handlers[c].project;
    assert t.handlers[c].project == p && p in t.clients;
    assert t.clients[p] == if p in s.clients then s.clients[p] else {};
  }

  lemma ExitSection(s: State, c: nat)
    requires Enabled(s, Remove(c))
    ensures Enabled(Apply(s, Remove(c)), Prune(c)) && Apply(Apply(s, Remove(c)), Prune(c)).clients == Without(s.clients, s.handlers[c].project, c)
  {
    var t, p := Apply(s, Remove(c)), s.handlers[c].project;
    assert t.handlers[c].project == p && p in t.clients && t.clients[p] == s.clients[p] - {c};
  }
}
