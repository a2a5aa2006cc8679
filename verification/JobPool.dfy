/** Uploads, the bounded job queue and the worker pool (internal/api/handlers.go and worker.go) on top
    of the ledger, interleaved step by step: temporary files, jobs, stored runs and their events. */
module JobPool {
  import opened Prelude
  import opened OpenApi
  import opened SpecDiff
  import SpecLaws
  import CodeMigration
  import Ledger

  /** A temporary file name: the pattern it was made from, which keeps the three kinds of upload apart,
      and the part that was drawn. */
  datatype FileKind = BaseSpec | TargetSpec | SourceCode
  datatype File = File(kind: FileKind, number: nat)

  /** The two documents of a spec upload. */
  datatype Specs = Specs(base: Document, target: Document)

  /** A job names files only; `specs` remembers the documents uploaded with it, none for a code job. */
  datatype Job = Job(project: string, commit: string, base: File, target: File, specs: Option<Specs>)

  /** Where an upload handler stands. A failed creation of a temporary file leaves `None`: the spec
      handler ignores that error until it asks the missing file for its name. */
  datatype Upload =
    | NeedBase(project: string, commit: string, specs: Specs)
    | NeedTarget(project: string, commit: string, specs: Specs, base: Option<File>)
    | Copied(project: string, commit: string, specs: Specs, base: Option<File>, target: Option<File>)
    | NeedCode
    | Sending(job: Job)
    | Accepted(index: nat)
    | Rejected
    | Panicked(base: Option<File>, target: Option<File>)

  /** Where a worker stands with job j: analysing, inserting the run, publishing the event, and the
      two deferred removals, the target's first. */
  datatype Worker =
    | Idle
    | Analyzing(j: nat)
    | Inserting(j: nat, report: Report)
    | Publishing(j: nat, run: string)
    | RemovingTarget(j: nat)
    | RemovingBase(j: nat)

  /** Who is responsible for a file on disk. */
  datatype Holder = OfUpload(h: nat) | OfJob(j: nat)

  /** What the engine answers: which reports on two documents, and which on a source text. */
  datatype Engine = Engine(compares: (Document, Document, Report) -> bool, checks: Report -> bool)

  /** `disk` is the files on disk, each with the upload or job it was made for, and `texts` the document
      last written under a name; `accepted` is every job ever enqueued, of which the first `taken` have
      left the queue; `made` remembers the job that stored a run. */
  datatype State = State(
    engine: Engine, ledger: Ledger.State, disk: map<File, Holder>, texts: map<File, Document>, uploads: map<nat, Upload>,
    accepted: seq<Job>, taken: nat, workers: seq<Worker>, finished: set<nat>, made: map<string, nat>)

  const CAPACITY: nat := 100
  const WORKERS: nat := 5
  const CODE_PROJECT := "code-diff"

  ghost predicate IsInitial(s: State) {
    && Sound(s.engine) && s.ledger == Ledger.INITIAL && s.disk == map[] && s.texts == map[] && s.uploads == map[]
    && s.accepted == [] && s.taken == 0 && s.finished == {} && s.made == map[]
    && |s.workers| == WORKERS && forall w :: 0 <= w < WORKERS ==> s.workers[w] == Idle
  }

  /** The engine keeps the contracts of its entry points: two documents are compared under the default
      configuration, in any order of the hash maps; a source text is checked for migrations or, under
      any other mode, compared with itself. */
  ghost predicate Sound(e: Engine) {
    && (forall base, target, report :: e.compares(base, target, report) ==> Compared(base, target, report))
    && (forall report :: e.checks(report) ==> CodeAnswer(report))
  }

  ghost predicate CodeAnswer(report: Report) {
    || (exists language, root :: CodeMigration.IsMigration(language, root, report))
    || exists document :: Compared(document, document, report)
  }

  ghost predicate Compared(base: Document, target: Document, report: Report) {
    SharedPathsInline(base, target) && IsComparison(base, target, DEFAULT_CONFIG, report)
  }

  /** What the engine may answer for a job: its files are read by name, whoever wrote them last. */
  predicate EngineAnswer(s: State, job: Job, report: Report) {
    && job.base in s.disk && job.target in s.disk
    && if job.specs.Some?
       then job.base in s.texts && job.target in s.texts && s.engine.compares(s.texts[job.base], s.texts[job.target], report)
       else s.engine.checks(report)
  }

  function Verdict(report: Report): Ledger.Status {
    if report.breaking > 0 then Ledger.FAILED else Ledger.PASSED
  }

  function StoredRun(job: Job, report: Report, now: nat): Ledger.Run {
    Ledger.Run(job.project, job.commit, Verdict(report), report.breaking, report.dangerous, report, now)
  }

  datatype Action =
    | Upload(h: nat, project: string, commit: string, specs: Specs)
    | UploadCode(h: nat)
    | CreateBase(h: nat, file: Option<File>)
    | CreateTarget(h: nat, file: Option<File>)
    | CreateCode(h: nat, file: Option<File>)
    | BuildJob(h: nat)
    | Enqueue(h: nat)
    | Take(w: nat)
    | AnalysisFails(w: nat)
    | AnalysisAnswers(w: nat, report: Report)
    | InsertFails(w: nat)
    | Insert(w: nat, id: string, now: nat)
    | Publish(w: nat)
    | RemoveTarget(w: nat)
    | RemoveBase(w: nat)
    | Elsewhere(a: Ledger.Action)

  predicate Fresh(s: State, file: Option<File>, kind: FileKind) {
    file.Some? ==> file.value !in s.disk && file.value.kind == kind
  }

  predicate WorkerAt(s: State, w: nat) {
    w < |s.workers| && !s.workers[w].Idle? && s.workers[w].j < |s.accepted|
  }

  ghost predicate Enabled(s: State, a: Action) {
    match a
    case Upload(h, project, _, _) => h !in s.uploads && project != ""
    case UploadCode(h) => h !in s.uploads
    case CreateBase(h, file) => h in s.uploads && s.uploads[h].NeedBase? && Fresh(s, file, BaseSpec)
    case CreateTarget(h, file) => h in s.uploads && s.uploads[h].NeedTarget? && Fresh(s, file, TargetSpec)
    case CreateCode(h, file) => h in s.uploads && s.uploads[h].NeedCode? && Fresh(s, file, SourceCode)
    case BuildJob(h) => h in s.uploads && s.uploads[h].Copied?
    case Enqueue(h) => h in s.uploads && s.uploads[h].Sending? && |s.accepted| < s.taken + CAPACITY
    case Take(w) => w < |s.workers| && s.workers[w].Idle? && s.taken < |s.accepted|
    case AnalysisFails(w) => WorkerAt(s, w) && s.workers[w].Analyzing?
    case AnalysisAnswers(w, report) => WorkerAt(s, w) && s.workers[w].Analyzing? && EngineAnswer(s, s.accepted[s.workers[w].j], report)
    case InsertFails(w) => WorkerAt(s, w) && s.workers[w].Inserting?
    case Insert(w, id, now) =>
      WorkerAt(s, w) && s.workers[w].Inserting?
      && Ledger.Enabled(s.ledger, Ledger.InsertRun(id, StoredRun(s.accepted[s.workers[w].j], s.workers[w].report, now)))
    case Publish(w) =>
      WorkerAt(s, w) && s.workers[w].Publishing?
      && Ledger.Enabled(s.ledger, Ledger.AnnounceRun(s.workers[w].run, s.accepted[s.workers[w].j].project))
    case RemoveTarget(w) => WorkerAt(s, w) && s.workers[w].RemovingTarget?
    case RemoveBase(w) => WorkerAt(s, w) && s.workers[w].RemovingBase?
    case Elsewhere(b) => !b.InsertRun? && !b.AnnounceRun? && Ledger.Enabled(s.ledger, b)
  }

  function Made(disk: map<File, Holder>, file: Option<File>, h: nat): map<File, Holder> {
    if file.Some? then disk[file.value := OfUpload(h)] else disk
  }

  /** What a handler copies into its new file; nobody reads it before the job is enqueued. */
  function Written(texts: map<File, Document>, file: Option<File>, document: Document): map<File, Document> {
    if file.Some? then texts[file.value := document] else texts
  }

  /** The files made for an upload are its job's once the job is enqueued. */
  function Handed(disk: map<File, Holder>, h: nat, j: nat): map<File, Holder> {
    map f | f in disk :: if disk[f] == OfUpload(h) then OfJob(j) else disk[f]
  }

  function Step(s: State, w: nat, to: Worker): State
    requires w < |s.workers|
  {
    s.(workers := s.workers[w := to])
  }

  function Move(s: State, h: nat, to: Upload): State {
    s.(uploads := s.uploads[h := to])
  }

  ghost function Apply(s: State, a: Action): State
    requires Enabled(s, a)
  {
    match a
    case Upload(h, project, commit, specs) => Move(s, h, NeedBase(project, commit, specs))
    case UploadCode(h) => Move(s, h, NeedCode)
    case CreateBase(h, file) =>
      var u := s.uploads[h];
      Move(s, h, NeedTarget(u.project, u.commit, u.specs, file)).(disk := Made(s.disk, file, h), texts := Written(s.texts, file, u.specs.base))
    case CreateTarget(h, file) =>
      var u := s.uploads[h];
      Move(s, h, Copied(u.project, u.commit, u.specs, u.base, file)).(disk := Made(s.disk, file, h), texts := Written(s.texts, file, u.specs.target))
    case CreateCode(h, file) =>
      Move(s, h, if file.Some? then Sending(Job(CODE_PROJECT, "manual-code-diff", file.value, file.value, None)) else Rejected)
        .(disk := Made(s.disk, file, h))
    case BuildJob(h) =>
      var u := s.uploads[h];
      Move(s, h, if u.base.Some? && u.target.Some? then Sending(Job(u.project, u.commit, u.base.value, u.target.value, Some(u.specs)))
                 else Panicked(u.base, u.target))
    case Enqueue(h) =>
      var job := s.uploads[h].job;
      Move(s, h, Accepted(|s.accepted|)).(accepted := s.accepted + [job], disk := Handed(s.disk, h, |s.accepted|))
    case Take(w) => Step(s, w, Analyzing(s.taken)).(taken := s.taken + 1)
    case AnalysisFails(w) => Step(s, w, RemovingTarget(s.workers[w].j))
    case AnalysisAnswers(w, report) => Step(s, w, Inserting(s.workers[w].j, report))
    case InsertFails(w) => Step(s, w, RemovingTarget(s.workers[w].j))
    case Insert(w, id, now) =>
      Step(s, w, Publishing(s.workers[w].j, id)).(
        made := s.made[id := s.workers[w].j],
        ledger := Ledger.Apply(s.ledger, Ledger.InsertRun(id, StoredRun(s.accepted[s.workers[w].j], s.workers[w].report, now))))
    case Publish(w) =>
      Step(s, w, RemovingTarget(s.workers[w].j)).(
        ledger := Ledger.Apply(s.ledger, Ledger.AnnounceRun(s.workers[w].run, s.accepted[s.workers[w].j].project)))
    case RemoveTarget(w) =>
      Step(s, w, RemovingBase(s.workers[w].j)).(disk := s.disk - {s.accepted[s.workers[w].j].target})
    case RemoveBase(w) =>
      Step(s, w, Idle).(disk := s.disk - {s.accepted[s.workers[w].j].base}, finished := s.finished + {s.workers[w].j})
    case Elsewhere(b) => s.(ledger := Ledger.Apply(s.ledger, b))
  }

  // ----- Jobs

  ghost predicate InFlight(s: State, j: nat) {
    exists w :: 0 <= w < |s.workers| && !s.workers[w].Idle? && s.workers[w].j == j
  }

  /** Every accepted job is queued, in flight with one worker, or finished, and only one of these. */
  ghost predicate JobsInv(s: State) {
    && s.taken <= |s.accepted| <= s.taken + CAPACITY
    && |s.workers| == WORKERS
    && (forall w :: 0 <= w < |s.workers| && !s.workers[w].Idle? ==> s.workers[w].j < s.taken && s.workers[w].j !in s.finished)
    && (forall v, w :: 0 <= v < w < |s.workers| && !s.workers[v].Idle? && !s.workers[w].Idle? ==> s.workers[v].j != s.workers[w].j)
    && (forall j :: j in s.finished ==> j < s.taken)
    && (forall j :: 0 <= j < s.taken && j !in s.finished ==> InFlight(s, j))
  }

  lemma JobsKept(s: State, a: Action)
    requires JobsInv(s) && Enabled(s, a)
    ensures JobsInv(Apply(s, a))
  {
    if a.Take? {
      TakeKeepsJobs(s, a);
    } else if a.RemoveBase? {
      FinishKeepsJobs(s, a);
    } else {
      OtherKeepsJobs(s, a);
    }
  }

  lemma TakeKeepsJobs(s: State, a: Action)
    requires JobsInv(s) && Enabled(s, a) && a.Take?
    ensures JobsInv(Apply(s, a))
  {
    var t := Apply(s, a);
    forall j | 0 <= j < t.taken && j !in t.finished
      ensures InFlight(t, j)
    {
      if j == s.taken {
        assert t.workers[a.w].j == j;
      } else {
        var w :| 0 <= w < |s.workers| && !s.workers[w].Idle? && s.workers[w].j == j;
        assert t.workers[w] == s.workers[w];
      }
    }
  }

  lemma FinishKeepsJobs(s: State, a: Action)
    requires JobsInv(s) && Enabled(s, a) && a.RemoveBase?
    ensures JobsInv(Apply(s, a))
  {
    var t := Apply(s, a);
    forall j | 0 <= j < t.taken && j !in t.finished
      ensures InFlight(t, j)
    {
      var w :| 0 <= w < |s.workers| && !s.workers[w].Idle? && s.workers[w].j == j;
      assert t.workers[w] == s.workers[w];
    }
  }

  /** Same jobs in the same hands. */
  ghost predicate SameHands(s: State, t: State) {
    && t.taken == s.taken && t.finished == s.finished && |t.workers| == |s.workers|
    && |s.accepted| <= |t.accepted| <= t.taken + CAPACITY
    && forall w :: 0 <= w < |s.workers| ==>
      (t.workers[w].Idle? <==> s.workers[w].Idle?) && (!s.workers[w].Idle? ==> t.workers[w].j == s.workers[w].j)
  }

  lemma OtherKeepsJobs(s: State, a: Action)
    requires JobsInv(s) && Enabled(s, a) && !a.Take? && !a.RemoveBase?
    ensures JobsInv(Apply(s, a))
  {
    HandsKept(s, a);
    var t := Apply(s, a);
    forall j | 0 <= j < t.taken && j !in t.finished
      ensures InFlight(t, j)
    {
      var w :| 0 <= w < |s.workers| && !s.workers[w].Idle? && s.workers[w].j == j;
      assert !t.workers[w].Idle? && t.workers[w].j == j;
    }
  }

  lemma HandsKept(s: State, a: Action)
    requires JobsInv(s) && Enabled(s, a) && !a.Take? && !a.RemoveBase?
    ensures SameHands(s, Apply(s, a))
  {
  }

  // ----- Files

  function Of(file: Option<File>): set<File> {
    if file.Some? then {file.value} else {}
  }

  /** The files an upload handler still answers for, or has leaked. */
  function UploadFiles(u: Upload): set<File> {
    match u
    case NeedTarget(_, _, _, base) => Of(base)
    case Copied(_, _, _, base, target) => Of(base) + Of(target)
    case Sending(job) => {job.base, job.target}
    case Panicked(base, target) => Of(base) + Of(target)
    case _ => {}
  }

  /** The files a worker has yet to remove. */
  function WorkerFiles(job: Job, w: Worker): set<File> {
    if w.Idle? then {} else if w.RemovingBase? then {job.base} - {job.target} else {job.base, job.target}
  }

  /** The files of a job: still two while it is queued, what its worker has left while in flight. */
  ghost predicate FileOfJob(s: State, f: File, j: nat) {
    || (s.taken <= j < |s.accepted| && f in {s.accepted[j].base, s.accepted[j].target})
    || (j < |s.accepted| && exists w :: HeldBy(s, f, j, w))
  }

  ghost predicate HeldBy(s: State, f: File, j: nat, w: int) {
    0 <= w < |s.workers| && !s.workers[w].Idle? && s.workers[w].j == j < |s.accepted| && f in WorkerFiles(s.accepted[j], s.workers[w])
  }

  ghost predicate Held(s: State, f: File, o: Holder) {
    match o
    case OfUpload(h) => h in s.uploads && f in UploadFiles(s.uploads[h])
    case OfJob(j) => FileOfJob(s, f, j)
  }

  /** Every file on disk is held by the one it is for. */
  ghost predicate DiskInv(s: State) {
    forall f :: f in s.disk ==> Held(s, f, s.disk[f])
  }

  /** A file is on disk for a holder if and only if that holder holds it. */
  ghost predicate FilesInv(s: State) {
    && DiskInv(s)
    && (forall f, o :: Held(s, f, o) ==> f in s.disk && s.disk[f] == o)
  }

  ghost predicate TakesJobs(a: Action) {
    a.Enqueue? || a.Take? || a.RemoveTarget? || a.RemoveBase?
  }

  /** The step removes a code job's only file a second time, after its name has come back to disk. */
  predicate Clobbers(s: State, a: Action) {
    a.RemoveBase? && WorkerAt(s, a.w) &&
    var job := s.accepted[s.workers[a.w].j];
    job.base == job.target && job.base in s.disk
  }

  /** Which steps keep the files accounted for: all but the second removal of a reused name. */
  lemma FilesKeptExactly(s: State, a: Action)
    requires JobsInv(s) && FilesInv(s) && Enabled(s, a)
    ensures FilesInv(Apply(s, a)) <==> !Clobbers(s, a)
  {
    if Clobbers(s, a) {
      ClobberingLosesAFile(s, a);
    } else {
      FilesKept(s, a);
    }
  }

  lemma ClobberingLosesAFile(s: State, a: Action)
    requires JobsInv(s) && FilesInv(s) && Enabled(s, a) && Clobbers(s, a)
    ensures !FilesInv(Apply(s, a))
  {
    var t, k := Apply(s, a), s.workers[a.w].j;
    var f := s.accepted[k].base;
    var o := s.disk[f];
    assert Held(s, f, o);
    if o.OfJob? {
      assert !HeldBy(s, f, o.j, a.w);
      assert forall w :: w != a.w ==> (HeldBy(t, f, o.j, w) <==> HeldBy(s, f, o.j, w));
    }
    assert Held(t, f, o) && f !in t.disk;
  }

  lemma FilesKept(s: State, a: Action)
    requires JobsInv(s) && FilesInv(s) && Enabled(s, a) && !Clobbers(s, a)
    ensures FilesInv(Apply(s, a))
  {
    if a.Enqueue? { FilesKeptByEnqueue(s, a); }
    else if a.Take? { FilesKeptByTake(s, a); }
    else if a.RemoveTarget? { FilesKeptByRemoval(s, a); }
    else if a.RemoveBase? { FilesKeptByRemoval(s, a); }
    else if a.CreateBase? || a.CreateTarget? || a.CreateCode? { FilesKeptByCreation(s, a); }
    else { FilesKeptOtherwise(s, a); }
  }

  /** Holding is decided by the uploads, the queue and the workers' positions alone. */
  lemma FilesKeptOtherwise(s: State, a: Action)
    requires JobsInv(s) && FilesInv(s) && Enabled(s, a)
    requires !TakesJobs(a) && !a.CreateBase? && !a.CreateTarget? && !a.CreateCode?
    ensures FilesInv(Apply(s, a))
  {
    var t := Apply(s, a);
    forall f, o
      ensures Held(t, f, o) <==> Held(s, f, o)
    {
      if o.OfJob? { WorkersHoldTheSame(s, a, f, o.j); }
    }
  }

  predicate SameGrip(w: Worker, v: Worker) {
    (w.Idle? <==> v.Idle?) && (w.RemovingBase? <==> v.RemovingBase?) && (!w.Idle? ==> w.j == v.j)
  }

  lemma GripsKept(s: State, a: Action)
    requires JobsInv(s) && Enabled(s, a) && !TakesJobs(a)
    ensures Apply(s, a).accepted == s.accepted && Apply(s, a).taken == s.taken && |Apply(s, a).workers| == |s.workers|
    ensures forall w :: 0 <= w < |s.workers| ==> SameGrip(s.workers[w], Apply(s, a).workers[w])
  {
  }

  lemma WorkersHoldTheSame(s: State, a: Action, f: File, j: nat)
    requires JobsInv(s) && Enabled(s, a) && !TakesJobs(a)
    ensures FileOfJob(Apply(s, a), f, j) <==> FileOfJob(s, f, j)
  {
    GripsKept(s, a);
    assert forall w :: HeldBy(Apply(s, a), f, j, w) <==> HeldBy(s, f, j, w);
  }

  lemma FilesKeptByCreation(s: State, a: Action)
    requires JobsInv(s) && FilesInv(s) && Enabled(s, a) && (a.CreateBase? || a.CreateTarget? || a.CreateCode?)
    ensures FilesInv(Apply(s, a))
  {
    var t := Apply(s, a);
    assert UploadFiles(t.uploads[a.h]) == UploadFiles(s.uploads[a.h]) + Of(a.file);
    forall f, o
      ensures Held(t, f, o) <==> Held(s, f, o) || (o == OfUpload(a.h) && f in Of(a.file))
    {
      if o.OfJob? { WorkersHoldTheSame(s, a, f, o.j); }
    }
  }

  lemma FilesKeptByEnqueue(s: State, a: Action)
    requires JobsInv(s) && FilesInv(s) && Enabled(s, a) && a.Enqueue?
    ensures FilesInv(Apply(s, a))
  {
    var t, job, n := Apply(s, a), s.uploads[a.h].job, |s.accepted|;
    assert Held(s, job.base, OfUpload(a.h)) && Held(s, job.target, OfUpload(a.h));
    forall f, o
      ensures Held(t, f, o) <==> (o == OfJob(n) && f in {job.base, job.target}) || (o != OfUpload(a.h) && Held(s, f, o))
    {
      if o.OfJob? { EnqueuingHolds(s, a, f, o.j); }
    }
  }

  lemma FilesKeptByTake(s: State, a: Action)
    requires JobsInv(s) && FilesInv(s) && Enabled(s, a) && a.Take?
    ensures FilesInv(Apply(s, a))
  {
    var t := Apply(s, a);
    forall f, o
      ensures Held(t, f, o) <==> Held(s, f, o)
    {
      if o.OfJob? { TakingHolds(s, a, f, o.j); }
    }
  }

  /** What a removal changes. */
  lemma RemovalChanges(s: State, a: Action)
    requires Enabled(s, a) && (a.RemoveTarget? || a.RemoveBase?)
    ensures Apply(s, a).disk == s.disk - {Removed(s, a)} && Apply(s, a).uploads == s.uploads
  {
  }

  lemma FilesKeptByRemoval(s: State, a: Action)
    requires JobsInv(s) && FilesInv(s) && Enabled(s, a) && (a.RemoveTarget? || a.RemoveBase?) && !Clobbers(s, a)
    ensures FilesInv(Apply(s, a))
  {
    var gone, k := Removed(s, a), s.workers[a.w].j;
    RemovalChanges(s, a);
    if gone in s.disk {
      assert HeldBy(s, gone, k, a.w);
      assert Held(s, gone, OfJob(k));
    }
    forall f, o
      ensures Held(Apply(s, a), f, o) <==> Held(s, f, o) && !(o == OfJob(k) && f == gone)
    {
      if o.OfJob? { RemovalReleases(s, a, f, o.j); }
    }
    FilesWithout(s, Apply(s, a), gone, k);
  }

  lemma FilesWithout(s: State, t: State, gone: File, k: nat)
    requires FilesInv(s) && t.disk == s.disk - {gone} && (gone in s.disk ==> s.disk[gone] == OfJob(k))
    requires forall f, o :: Held(t, f, o) <==> Held(s, f, o) && !(o == OfJob(k) && f == gone)
    ensures FilesInv(t)
  {
  }

  function Removed(s: State, a: Action): File
    requires (a.RemoveTarget? || a.RemoveBase?) && WorkerAt(s, a.w)
  {
    if a.RemoveTarget? then s.accepted[s.workers[a.w].j].target else s.accepted[s.workers[a.w].j].base
  }

  lemma RemovalReleases(s: State, a: Action, f: File, j: nat)
    requires JobsInv(s) && Enabled(s, a) && (a.RemoveTarget? || a.RemoveBase?)
    ensures FileOfJob(Apply(s, a), f, j) <==> FileOfJob(s, f, j) && !(j == s.workers[a.w].j && f == Removed(s, a))
  {
    var t := Apply(s, a);
    assert forall w :: w != a.w ==> (HeldBy(t, f, j, w) <==> HeldBy(s, f, j, w));
    assert HeldBy(t, f, j, a.w) <==> HeldBy(s, f, j, a.w) && f != Removed(s, a);
    assert j == s.workers[a.w].j ==> forall w :: w != a.w ==> !HeldBy(s, f, j, w);
  }

  // ----- Stored runs and their events

  /** What a stored run says of its payload. */
  ghost predicate Truthful(r: Ledger.Run) {
    && WellCounted(r.payload)
    && r.breaking == r.payload.breaking && r.dangerous == r.payload.dangerous
    && (r.status != Ledger.OVERRIDDEN ==> r.status == Verdict(r.payload))
  }

  /** Runs are truthful and announced at most once; workers hold truthful answers and announce stored,
      unannounced runs. */
  ghost predicate RunsInv(s: State) {
    && Ledger.Inv(s.ledger)
    && (forall r :: r in s.ledger.tables.runs ==> Truthful(s.ledger.tables.runs[r]))
    && PublishersInv(s)
    && OncePerRun(s.ledger.events)
  }

  ghost predicate Completed(events: seq<Ledger.Event>, run: string) {
    exists i :: 0 <= i < |events| && events[i].DiffCompleted? && events[i].run == run
  }

  ghost predicate OncePerRun(events: seq<Ledger.Event>) {
    forall i, j :: 0 <= i < j < |events| && events[i].DiffCompleted? && events[j].DiffCompleted? ==> events[i].run != events[j].run
  }

  lemma LedgerActionIs(s: State, a: Action) returns (b: Option<Ledger.Action>)
    requires Enabled(s, a)
    ensures b.None? ==> Apply(s, a).ledger == s.ledger
    ensures b.Some? ==> Ledger.Enabled(s.ledger, b.value) && Apply(s, a).ledger == Ledger.Apply(s.ledger, b.value)
    ensures a.Insert? ==> b == Some(Ledger.InsertRun(a.id, StoredRun(s.accepted[s.workers[a.w].j], s.workers[a.w].report, a.now)))
    ensures !a.Insert? && b.Some? ==> !b.value.InsertRun?
    ensures a.Publish? ==> b == Some(Ledger.AnnounceRun(s.workers[a.w].run, s.accepted[s.workers[a.w].j].project))
    ensures !a.Publish? && b.Some? ==> !b.value.AnnounceRun?
  {
    b := None;
    match a
    case Insert(w, id, now) => b := Some(Ledger.InsertRun(id, StoredRun(s.accepted[s.workers[w].j], s.workers[w].report, now)));
    case Publish(w) => b := Some(Ledger.AnnounceRun(s.workers[w].run, s.accepted[s.workers[w].j].project));
    case Elsewhere(x) => b := Some(x);
    case _ =>
  }

  /** Answers of the engine are well counted. */
  lemma AnswersAreCounted(s: State, job: Job, report: Report)
    requires Sound(s.engine) && EngineAnswer(s, job, report)
    ensures WellCounted(report)
  {
    if job.specs.None? && !(exists document :: Compared(document, document, report)) {
      var language, root :| CodeMigration.IsMigration(language, root, report);
    }
  }

  lemma TruthKept(s: State, a: Action)
    requires RunsInv(s) && Enabled(s, a)
    ensures Ledger.Inv(Apply(s, a).ledger)
    ensures forall r :: r in Apply(s, a).ledger.tables.runs ==> Truthful(Apply(s, a).ledger.tables.runs[r])
  {
    LedgerKept(s, a);
    forall r | r in Apply(s, a).ledger.tables.runs
      ensures Truthful(Apply(s, a).ledger.tables.runs[r])
    {
      RowComes(s, a, r);
      if r in s.ledger.tables.runs {
        TruthStays(s.ledger.tables.runs[r], Apply(s, a).ledger.tables.runs[r]);
      } else {
        AnswerIsTruthful(s.accepted[s.workers[a.w].j], s.workers[a.w].report, a.now);
      }
    }
  }

  lemma TruthStays(r: Ledger.Run, q: Ledger.Run)
    requires Truthful(r) && Ledger.SameButStatus(r, q)
    ensures Truthful(q)
  {
  }

  lemma AnswerIsTruthful(job: Job, report: Report, now: nat)
    requires WellCounted(report)
    ensures Truthful(Ledger.Stored(StoredRun(job, report, now)))
  {
  }

  lemma LedgerKept(s: State, a: Action)
    requires RunsInv(s) && Enabled(s, a)
    ensures Ledger.Inv(Apply(s, a).ledger)
  {
    var b := LedgerActionIs(s, a);
    if b.Some? { Ledger.StepInv(s.ledger, b.value); }
  }

  /** A stored run was stored before, or is the one that this step inserts. */
  lemma RowComes(s: State, a: Action, r: string)
    requires Ledger.Inv(s.ledger) && Enabled(s, a) && r in Apply(s, a).ledger.tables.runs
    ensures var row := Apply(s, a).ledger.tables.runs[r];
      if r in s.ledger.tables.runs then Ledger.SameButStatus(s.ledger.tables.runs[r], row)
      else a.Insert? && r == a.id && row == Ledger.Stored(StoredRun(s.accepted[s.workers[a.w].j], s.workers[a.w].report, a.now))
  {
    var b := LedgerActionIs(s, a);
    if b.Some? {
      Ledger.StepExtends(s.ledger, b.value);
      RunsComeFromInserts(s.ledger, b.value);
    }
  }

  lemma RunsComeFromInserts(l: Ledger.State, b: Ledger.Action)
    requires Ledger.Enabled(l, b)
    ensures forall r :: r in Ledger.Apply(l, b).tables.runs && r !in l.tables.runs ==> b.InsertRun? && r == b.id && Ledger.Apply(l, b).tables.runs[r] == Ledger.Stored(b.row)
  {
  }

  /** Only a publication adds a completion event. */
  lemma EventsGrow(l: Ledger.State, b: Ledger.Action)
    requires Ledger.Enabled(l, b)
    ensures var events := Ledger.Apply(l, b).events;
      if b.AnnounceRun? then events == l.events + [Ledger.DiffCompleted(b.project, b.id)]
      else events == l.events || (|events| == |l.events| + 1 && l.events <= events && !events[|l.events|].DiffCompleted?)
  {
  }

  lemma CompletedGrow(l: Ledger.State, b: Ledger.Action, run: string)
    requires Ledger.Enabled(l, b)
    ensures Completed(Ledger.Apply(l, b).events, run) <==> Completed(l.events, run) || (b.AnnounceRun? && b.id == run)
  {
    EventsGrow(l, b);
    var events := Ledger.Apply(l, b).events;
    if b.AnnounceRun? && b.id == run {
      assert events[|l.events|].DiffCompleted?;
    }
    assert forall i :: 0 <= i < |l.events| ==> events[i] == l.events[i];
  }

  lemma OnceKept(s: State, a: Action)
    requires RunsInv(s) && Enabled(s, a)
    ensures OncePerRun(Apply(s, a).ledger.events)
  {
    var b := LedgerActionIs(s, a);
    if b.Some? {
      EventsGrow(s.ledger, b.value);
      if a.Publish? {
        assert !Completed(s.ledger.events, s.workers[a.w].run);
      }
    }
  }

  /** Workers about to publish. */
  ghost predicate PublishersInv(s: State) {
    && (forall w :: 0 <= w < |s.workers| && s.workers[w].Inserting? ==> WellCounted(s.workers[w].report))
    && (forall w :: 0 <= w < |s.workers| && s.workers[w].Publishing? ==> s.workers[w].run in s.ledger.tables.runs && !Completed(s.ledger.events, s.workers[w].run))
    && (forall v, w :: 0 <= v < w < |s.workers| && s.workers[v].Publishing? && s.workers[w].Publishing? ==> s.workers[v].run != s.workers[w].run)
  }

  lemma PublishersKept(s: State, a: Action)
    requires JobsInv(s) && RunsInv(s) && Enabled(s, a) && (a.AnalysisAnswers? ==> WellCounted(a.report))
    ensures PublishersInv(Apply(s, a))
  {
    if a.Insert? { PublishersKeptByInsert(s, a); }
    else if a.Publish? { PublishersKeptByPublish(s, a); }
    else if a.Elsewhere? { PublishersKeptElsewhere(s, a); }
    else { PublishersKeptOtherwise(s, a); }
  }

  /** What inserting a run changes of the ledger and the workers. */
  lemma InsertChanges(s: State, a: Action)
    requires Enabled(s, a) && a.Insert?
    ensures var t := Apply(s, a);
      && t.ledger.events == s.ledger.events && a.id !in s.ledger.tables.runs
      && t.ledger.tables.runs.Keys == s.ledger.tables.runs.Keys + {a.id}
      && t.workers == s.workers[a.w := Publishing(s.workers[a.w].j, a.id)]
  {
  }

  lemma PublishersKeptByInsert(s: State, a: Action)
    requires JobsInv(s) && RunsInv(s) && Enabled(s, a) && a.Insert?
    ensures PublishersInv(Apply(s, a))
  {
    InsertChanges(s, a);
    UnknownIsNotCompleted(s.ledger, a.id);
    PublisherAdded(s, Apply(s, a), a.w, s.workers[a.w].j, a.id);
  }

  lemma PublisherAdded(s: State, t: State, w: nat, j: nat, run: string)
    requires PublishersInv(s) && w < |s.workers| && run !in s.ledger.tables.runs && !Completed(s.ledger.events, run)
    requires t.ledger.events == s.ledger.events && t.ledger.tables.runs.Keys == s.ledger.tables.runs.Keys + {run}
    requires t.workers == s.workers[w := Publishing(j, run)]
    ensures PublishersInv(t)
  {
  }

  /** What publishing changes of the ledger and the workers. */
  lemma PublishChanges(s: State, a: Action)
    requires Enabled(s, a) && a.Publish?
    ensures var t, run := Apply(s, a), s.workers[a.w].run;
      && t.ledger.tables == s.ledger.tables
      && t.ledger.events == s.ledger.events + [Ledger.DiffCompleted(s.accepted[s.workers[a.w].j].project, run)]
      && t.workers == s.workers[a.w := RemovingTarget(s.workers[a.w].j)]
  {
  }

  lemma PublishersKeptByPublish(s: State, a: Action)
    requires JobsInv(s) && RunsInv(s) && Enabled(s, a) && a.Publish?
    ensures PublishersInv(Apply(s, a))
  {
    PublishChanges(s, a);
    PublisherLeft(s, Apply(s, a), a.w, s.workers[a.w].j, Ledger.DiffCompleted(s.accepted[s.workers[a.w].j].project, s.workers[a.w].run));
  }

  lemma PublisherLeft(s: State, t: State, w: nat, j: nat, e: Ledger.Event)
    requires PublishersInv(s) && w < |s.workers| && s.workers[w].Publishing? && e.DiffCompleted? && e.run == s.workers[w].run
    requires t.ledger.tables == s.ledger.tables && t.ledger.events == s.ledger.events + [e] && t.workers == s.workers[w := RemovingTarget(j)]
    ensures PublishersInv(t)
  {
    assert forall run :: Completed(t.ledger.events, run) ==> Completed(s.ledger.events, run) || run == e.run;
  }

  lemma PublishersKeptElsewhere(s: State, a: Action)
    requires RunsInv(s) && Enabled(s, a) && a.Elsewhere?
    ensures PublishersInv(Apply(s, a))
  {
    Ledger.StepExtends(s.ledger, a.a);
    forall run
      ensures Completed(Apply(s, a).ledger.events, run) <==> Completed(s.ledger.events, run)
    {
      CompletedGrow(s.ledger, a.a, run);
    }
  }

  predicate SameBusiness(w: Worker, v: Worker) {
    (v.Inserting? ==> v == w) && (v.Publishing? ==> v == w)
  }

  lemma PublishersKeptOtherwise(s: State, a: Action)
    requires RunsInv(s) && (a.AnalysisAnswers? ==> WellCounted(a.report)) && Enabled(s, a) && !a.Insert? && !a.Publish? && !a.Elsewhere?
    ensures PublishersInv(Apply(s, a))
  {
    if a.AnalysisAnswers? {
      AnswerTaken(s, Apply(s, a), a.w, s.workers[a.w].j, a.report);
    } else {
      BusinessKept(s, a);
      BusinessAsUsual(s, Apply(s, a));
    }
  }

  lemma AnswerTaken(s: State, t: State, w: nat, j: nat, report: Report)
    requires PublishersInv(s) && w < |s.workers| && WellCounted(report)
    requires t.ledger == s.ledger && t.workers == s.workers[w := Inserting(j, report)]
    ensures PublishersInv(t)
  {
  }

  lemma BusinessAsUsual(s: State, t: State)
    requires PublishersInv(s) && t.ledger == s.ledger && |t.workers| == |s.workers|
    requires forall w :: 0 <= w < |s.workers| ==> SameBusiness(s.workers[w], t.workers[w])
    ensures PublishersInv(t)
  {
  }

  lemma BusinessKept(s: State, a: Action)
    requires Enabled(s, a) && !a.Insert? && !a.Publish? && !a.Elsewhere? && !a.AnalysisAnswers?
    ensures Apply(s, a).ledger == s.ledger && |Apply(s, a).workers| == |s.workers|
    ensures forall w :: 0 <= w < |s.workers| ==> SameBusiness(s.workers[w], Apply(s, a).workers[w])
  {
  }

  lemma UnknownIsNotCompleted(l: Ledger.State, run: string)
    requires Ledger.Inv(l) && run !in l.tables.runs
    ensures !Completed(l.events, run)
  {
    forall i | 0 <= i < |l.events| && l.events[i].DiffCompleted?
      ensures l.events[i].run != run
    {
      assert l.events[i] in l.events;
    }
  }

  lemma EngineStays(s: State, a: Action)
    requires Enabled(s, a)
    ensures Apply(s, a).engine == s.engine
  {
  }

  lemma RunsKept(s: State, a: Action)
    requires JobsInv(s) && RunsInv(s) && Enabled(s, a) && (a.AnalysisAnswers? ==> WellCounted(a.report))
    ensures RunsInv(Apply(s, a))
  {
    TruthKept(s, a);
    OnceKept(s, a);
    PublishersKept(s, a);
  }

  /** A worker about to publish announces a run of its job, under its job's project. */
  ghost predicate Announceable(s: State, w: nat) {
    w < |s.workers| && s.workers[w].Publishing? ==>
      && s.workers[w].j < |s.accepted| && s.workers[w].run in s.ledger.tables.runs
      && s.ledger.tables.runs[s.workers[w].run].project == Ledger.Canonical(s.accepted[s.workers[w].j].project)
      && s.workers[w].run in s.made && s.made[s.workers[w].run] == s.workers[w].j
  }

  lemma AnnounceableKept(s: State, a: Action, w: nat)
    requires RunsInv(s) && Enabled(s, a) && Announceable(s, w)
    ensures Announceable(Apply(s, a), w)
  {
    AcceptedGrows(s, a);
    RowsStay(s, a);
    if w < |Apply(s, a).workers| && Apply(s, a).workers[w].Publishing? {
      PublishersStay(s, a, w);
      if Apply(s, a).workers[w] == s.workers[w] { MakersStay(s, a, s.workers[w].run); }
    }
  }

  lemma RowsStay(s: State, a: Action)
    requires RunsInv(s) && Enabled(s, a)
    ensures forall r :: r in s.ledger.tables.runs ==>
      r in Apply(s, a).ledger.tables.runs && Apply(s, a).ledger.tables.runs[r].project == s.ledger.tables.runs[r].project
  {
    var b := LedgerActionIs(s, a);
    if b.Some? { Ledger.StepExtends(s.ledger, b.value); }
  }

  /** A publishing worker was one before, or has just inserted the run. */
  lemma PublishersStay(s: State, a: Action, w: nat)
    requires Enabled(s, a) && w < |Apply(s, a).workers| && Apply(s, a).workers[w].Publishing?
    ensures w < |s.workers|
    ensures Apply(s, a).workers[w] == s.workers[w] || (a.Insert? && w == a.w && Apply(s, a).workers[w] == Publishing(s.workers[w].j, a.id))
    ensures a.Insert? ==>
      && a.id in Apply(s, a).ledger.tables.runs
      && Apply(s, a).ledger.tables.runs[a.id].project == Ledger.Canonical(s.accepted[s.workers[a.w].j].project)
      && a.id in Apply(s, a).made && Apply(s, a).made[a.id] == s.workers[a.w].j
  {
  }

  // ----- Runs of the system

  ghost predicate Linked(states: seq<State>, actions: seq<Action>, i: nat)
    requires i < |actions| < |states|
  {
    Enabled(states[i], actions[i]) && states[i + 1] == Apply(states[i], actions[i])
  }

  ghost predicate IsRun(states: seq<State>, actions: seq<Action>) {
    && |states| == |actions| + 1 && IsInitial(states[0])
    && forall i: nat :: i < |actions| ==> Linked(states, actions, i)
  }

  /** All that holds in every state of every run; the parts are the subject of the sections below. */
  ghost predicate Inv(s: State) {
    && Sound(s.engine) && JobsInv(s) && RunsInv(s) && (forall w: nat :: Announceable(s, w))
    && KindsInv(s) && DiskInv(s) && SpecFilesInv(s)
    && TextsInv(s) && AnswersInv(s) && EventsInv(s)
  }

  lemma InitialInv(s: State)
    requires IsInitial(s)
    ensures Inv(s)
  {
  }

  lemma StepInv(s: State, a: Action)
    requires Inv(s) && Enabled(s, a)
    ensures Inv(Apply(s, a))
  {
    if a.AnalysisAnswers? {
      AnswersAreCounted(s, s.accepted[s.workers[a.w].j], a.report);
      EngineReadsTheUpload(s, a.w, a.report);
    }
    EngineStays(s, a);
    RecordsStep(s, a);
    FilesStep(s, a);
    AnswersKept(s, a);
    TextsInvKept(s, a);
  }

  lemma RecordsStep(s: State, a: Action)
    requires JobsInv(s) && RunsInv(s) && EventsInv(s) && (forall w: nat :: Announceable(s, w)) && Enabled(s, a)
    requires a.AnalysisAnswers? ==> WellCounted(a.report)
    ensures JobsInv(Apply(s, a)) && RunsInv(Apply(s, a)) && EventsInv(Apply(s, a)) && forall w: nat :: Announceable(Apply(s, a), w)
  {
    JobsKept(s, a);
    RunsKept(s, a);
    EventsInvKept(s, a);
    forall w: nat
      ensures Announceable(Apply(s, a), w)
    {
      AnnounceableKept(s, a, w);
    }
  }

  lemma FilesStep(s: State, a: Action)
    requires JobsInv(s) && KindsInv(s) && DiskInv(s) && SpecFilesInv(s) && Enabled(s, a)
    ensures KindsInv(Apply(s, a)) && DiskInv(Apply(s, a)) && SpecFilesInv(Apply(s, a))
  {
    KindsKept(s, a);
    DiskInvKept(s, a);
    SpecFilesKept(s, a);
  }

  lemma LinkInv(states: seq<State>, actions: seq<Action>, i: nat)
    requires IsRun(states, actions) && i < |actions| && Inv(states[i])
    ensures Inv(states[i + 1])
  {
    assert Linked(states, actions, i);
    StepInv(states[i], actions[i]);
  }

  lemma {:induction false} RunInv(states: seq<State>, actions: seq<Action>, i: nat)
    requires IsRun(states, actions) && i < |states|
    ensures Inv(states[i])
  {
    if i == 0 {
      InitialInv(states[0]);
    } else {
      RunInv(states, actions, i - 1);
      LinkInv(states, actions, i - 1);
    }
  }

  lemma JobsAndRunsHold(states: seq<State>, actions: seq<Action>, i: nat)
    requires IsRun(states, actions) && i < |states|
    ensures JobsInv(states[i]) && RunsInv(states[i])
  {
    RunInv(states, actions, i);
  }

  ghost function Flying(s: State): set<nat> {
    set w | 0 <= w < |s.workers| && !s.workers[w].Idle? :: s.workers[w].j
  }

  function Below(n: nat): set<nat> {
    if n == 0 then {} else Below(n - 1) + {n - 1}
  }

  lemma {:induction false} BelowSize(n: nat)
    ensures |Below(n)| == n && forall j: nat :: j in Below(n) <==> j < n
  {
    if n > 0 { BelowSize(n - 1); }
  }

  /** Conservation of jobs over all runs: accepted jobs are the queued, the in-flight and the finished
      ones, none twice; the queue never exceeds its capacity nor the in-flight jobs the workers. */
  lemma JobsConserved(states: seq<State>, actions: seq<Action>, i: nat)
    requires IsRun(states, actions) && i < |states|
    ensures var s := states[i];
      && |s.accepted| == (|s.accepted| - s.taken) + |Flying(s)| + |s.finished|
      && 0 <= |s.accepted| - s.taken <= 100 && |Flying(s)| <= 5 && Flying(s) !! s.finished
      && forall j: nat :: j < s.taken <==> j in Flying(s) || j in s.finished
  {
    JobsAndRunsHold(states, actions, i);
    var s := states[i];
    forall j: nat | j < s.taken && j !in s.finished
      ensures j in Flying(s)
    {
      assert InFlight(s, j);
    }
    BelowSize(s.taken);
    assert Below(s.taken) == Flying(s) + s.finished;
    FewWorkers(s, |s.workers|);
  }

  lemma {:induction false} FewWorkers(s: State, n: nat)
    requires n <= |s.workers|
    ensures |set w | 0 <= w < n && !s.workers[w].Idle? :: s.workers[w].j| <= n
    ensures n == |s.workers| ==> |Flying(s)| <= n
  {
    var few := set w | 0 <= w < n && !s.workers[w].Idle? :: s.workers[w].j;
    if n > 0 {
      FewWorkers(s, n - 1);
      var fewer := set w | 0 <= w < n - 1 && !s.workers[w].Idle? :: s.workers[w].j;
      assert few == if s.workers[n - 1].Idle? then fewer else fewer + {s.workers[n - 1].j};
    }
    assert n == |s.workers| ==> few == Flying(s);
  }

  /** Conservation of files over all runs in which no name comes back between the two removals of a
      code job: the files on disk are exactly those held by uploads, queued jobs and in-flight jobs,
      each by one holder. */
  lemma {:induction false} FilesConserved(states: seq<State>, actions: seq<Action>, i: nat)
    requires IsRun(states, actions) && i < |states|
    requires forall k :: 0 <= k < i ==> !Clobbers(states[k], actions[k])
    ensures FilesInv(states[i])
  {
    if i == 0 {
      RunInv(states, actions, 0);
    } else {
      FilesConserved(states, actions, i - 1);
      JobsAndRunsHold(states, actions, i - 1);
      FilesLink(states, actions, i - 1);
    }
  }

  lemma FilesLink(states: seq<State>, actions: seq<Action>, i: nat)
    requires IsRun(states, actions) && i < |actions| && JobsInv(states[i]) && FilesInv(states[i]) && !Clobbers(states[i], actions[i])
    ensures FilesInv(states[i + 1])
  {
    assert Linked(states, actions, i);
    FilesKept(states[i], actions[i]);
  }

  /** Leaked files: those of a handler that failed on its missing sibling. */
  ghost predicate Leaked(s: State, f: File) {
    exists h :: h in s.uploads && s.uploads[h].Panicked? && f in UploadFiles(s.uploads[h])
  }

  /** Someone will still deal with the file. */
  ghost predicate Live(s: State, f: File) {
    (exists h :: h in s.uploads && !s.uploads[h].Panicked? && f in UploadFiles(s.uploads[h])) || exists j :: FileOfJob(s, f, j)
  }

  /** Which files are leaked: every file on disk is live or leaked and none is both, leaked files are on
      disk, and none is leaked exactly if no upload failed with one of its two files made. Spec files, and
      without clobbering all files, are on disk as long as they are live. */
  lemma LeaksExactly(states: seq<State>, actions: seq<Action>, i: nat)
    requires IsRun(states, actions) && i < |states|
    ensures var s := states[i];
      && (forall f :: f in s.disk ==> Live(s, f) || Leaked(s, f))
      && (forall f :: Leaked(s, f) ==> f in s.disk && !Live(s, f))
      && ((forall f :: f in s.disk ==> Live(s, f)) <==>
            forall h :: h in s.uploads && s.uploads[h].Panicked? ==> s.uploads[h].base.None? && s.uploads[h].target.None?)
      && (forall f :: IsSpec(f) && Live(s, f) ==> f in s.disk)
      && ((forall k :: 0 <= k < i ==> !Clobbers(states[k], actions[k])) ==> forall f :: Live(s, f) ==> f in s.disk)
  {
    SpecFilesConserved(states, actions, i);
    LeaksOf(states[i]);
    if forall k :: 0 <= k < i ==> !Clobbers(states[k], actions[k]) {
      FilesConserved(states, actions, i);
      forall f | Live(states[i], f)
        ensures f in states[i].disk
      {
        LiveIsHeld(states[i], f);
      }
    }
  }

  lemma LeaksOf(s: State)
    requires KindsInv(s) && DiskInv(s) && SpecFilesInv(s)
    ensures forall f :: f in s.disk ==> Live(s, f) || Leaked(s, f)
    ensures forall f :: Leaked(s, f) ==> f in s.disk && !Live(s, f)
    ensures (forall f :: f in s.disk ==> Live(s, f)) <==>
      forall h :: h in s.uploads && s.uploads[h].Panicked? ==> s.uploads[h].base.None? && s.uploads[h].target.None?
    ensures forall f :: IsSpec(f) && Live(s, f) ==> f in s.disk
  {
    forall f
      ensures f in s.disk ==> Live(s, f) || Leaked(s, f)
      ensures Leaked(s, f) ==> f in s.disk && !Live(s, f)
      ensures IsSpec(f) && Live(s, f) ==> f in s.disk
    {
      OnDiskIsHeld(s, f);
      HolderOf(s, f);
    }
    NoneLeakedExactly(s);
  }

  lemma OnDiskIsHeld(s: State, f: File)
    requires DiskInv(s)
    ensures f in s.disk ==> Live(s, f) || Leaked(s, f)
  {
    if f in s.disk { assert Held(s, f, s.disk[f]); }
  }

  lemma NoneLeakedExactly(s: State)
    ensures (forall f :: !Leaked(s, f)) <==>
      forall h :: h in s.uploads && s.uploads[h].Panicked? ==> s.uploads[h].base.None? && s.uploads[h].target.None?
  {
    if h :| h in s.uploads && s.uploads[h].Panicked? && !(s.uploads[h].base.None? && s.uploads[h].target.None?) {
      var f := if s.uploads[h].base.Some? then s.uploads[h].base.value else s.uploads[h].target.value;
      assert f in UploadFiles(s.uploads[h]);
      assert Leaked(s, f);
    }
  }

  lemma LiveIsHeld(s: State, f: File)
    requires Live(s, f)
    ensures exists o :: Held(s, f, o) && (o.OfUpload? ==> o.h in s.uploads && !s.uploads[o.h].Panicked?)
  {
    if h :| h in s.uploads && !s.uploads[h].Panicked? && f in UploadFiles(s.uploads[h]) {
      assert Held(s, f, OfUpload(h));
    } else {
      var j :| FileOfJob(s, f, j);
      assert Held(s, f, OfJob(j));
    }
  }

  lemma HolderOf(s: State, f: File)
    requires KindsInv(s) && SpecFilesInv(s)
    ensures IsSpec(f) && Live(s, f) ==> f in s.disk && (s.disk[f].OfUpload? ==> s.disk[f].h in s.uploads && !s.uploads[s.disk[f].h].Panicked?)
    ensures Leaked(s, f) ==>
      IsSpec(f) && f in s.disk && s.disk[f].OfUpload? && s.disk[f].h in s.uploads && s.uploads[s.disk[f].h].Panicked?
  {
    if IsSpec(f) && Live(s, f) {
      LiveIsHeld(s, f);
    }
    if Leaked(s, f) {
      var h :| h in s.uploads && s.uploads[h].Panicked? && f in UploadFiles(s.uploads[h]);
      assert UploadKinds(s.uploads[h]) && Held(s, f, OfUpload(h));
    }
  }

  /** A leaked file stays leaked and on disk in every later state. */
  lemma LeakStays(states: seq<State>, actions: seq<Action>, i: nat, j: nat, f: File)
    requires IsRun(states, actions) && i <= j < |states| && Leaked(states[i], f)
    ensures Leaked(states[j], f) && f in states[j].disk
  {
    LeakedForEver(states, actions, i, j, f);
    SpecFilesConserved(states, actions, j);
    HolderOf(states[j], f);
  }

  lemma {:induction false} LeakedForEver(states: seq<State>, actions: seq<Action>, i: nat, j: nat, f: File)
    requires IsRun(states, actions) && i <= j < |states| && Leaked(states[i], f)
    ensures Leaked(states[j], f)
    decreases j
  {
    if i < j {
      LeakedForEver(states, actions, i, j - 1, f);
      LeakLink(states, actions, j - 1, f);
    }
  }

  lemma LeakLink(states: seq<State>, actions: seq<Action>, i: nat, f: File)
    requires IsRun(states, actions) && i < |actions| && Leaked(states[i], f)
    ensures Leaked(states[i + 1], f)
  {
    var h :| h in states[i].uploads && states[i].uploads[h].Panicked? && f in UploadFiles(states[i].uploads[h]);
    assert Linked(states, actions, i);
    PanicIsFinal(states[i], actions[i], h);
  }

  lemma PanicIsFinal(s: State, a: Action, h: nat)
    requires Enabled(s, a) && h in s.uploads && s.uploads[h].Panicked?
    ensures h in Apply(s, a).uploads && Apply(s, a).uploads[h] == s.uploads[h]
  {
  }

  /** Even with clobbering, in every state of every run each file on disk is held by the upload or job
      that it is for. */
  lemma DiskIsHeld(states: seq<State>, actions: seq<Action>, i: nat)
    requires IsRun(states, actions) && i < |states|
    ensures DiskInv(states[i])
  {
    RunInv(states, actions, i);
  }

  lemma DiskInvKept(s: State, a: Action)
    requires JobsInv(s) && DiskInv(s) && Enabled(s, a)
    ensures DiskInv(Apply(s, a))
  {
    forall f | f in Apply(s, a).disk
      ensures Held(Apply(s, a), f, Apply(s, a).disk[f])
    {
      DiskKept(s, a, f);
    }
  }

  lemma DiskKept(s: State, a: Action, f: File)
    requires JobsInv(s) && DiskInv(s) && Enabled(s, a) && f in Apply(s, a).disk
    ensures Held(Apply(s, a), f, Apply(s, a).disk[f])
  {
    var t := Apply(s, a);
    if f in s.disk {
      assert Held(s, f, s.disk[f]);
      DiskStays(s, a, f);
      if a.Enqueue? && s.disk[f] == OfUpload(a.h) {
        assert FileOfJob(t, f, |s.accepted|);
      } else {
        HoldStays(s, a, f, s.disk[f]);
      }
    }
  }

  lemma DiskStays(s: State, a: Action, f: File)
    requires Enabled(s, a) && f in Apply(s, a).disk && f in s.disk
    ensures Apply(s, a).disk[f] == if a.Enqueue? && s.disk[f] == OfUpload(a.h) then OfJob(|s.accepted|) else s.disk[f]
    ensures (a.RemoveTarget? || a.RemoveBase?) ==> f != Removed(s, a)
  {
  }

  /** Who holds a file keeps it until the removal or the handing over. */
  lemma HoldStays(s: State, a: Action, f: File, o: Holder)
    requires JobsInv(s) && Enabled(s, a) && Held(s, f, o) && !(a.Enqueue? && o == OfUpload(a.h))
    requires (a.RemoveTarget? || a.RemoveBase?) ==> f != Removed(s, a)
    ensures Held(Apply(s, a), f, o)
  {
    if o.OfJob? { JobHoldStays(s, a, f, o.j); }
  }

  lemma JobHoldStays(s: State, a: Action, f: File, j: nat)
    requires JobsInv(s) && Enabled(s, a) && FileOfJob(s, f, j)
    requires (a.RemoveTarget? || a.RemoveBase?) ==> f != Removed(s, a)
    ensures FileOfJob(Apply(s, a), f, j)
  {
    if a.RemoveTarget? || a.RemoveBase? {
      RemovalReleases(s, a, f, j);
    } else if a.Take? {
      TakingHolds(s, a, f, j);
    } else if a.Enqueue? {
      EnqueuingHolds(s, a, f, j);
    } else {
      WorkersHoldTheSame(s, a, f, j);
    }
  }

  lemma TakingHolds(s: State, a: Action, f: File, j: nat)
    requires JobsInv(s) && Enabled(s, a) && a.Take?
    ensures FileOfJob(Apply(s, a), f, j) <==> FileOfJob(s, f, j)
  {
    var t := Apply(s, a);
    assert forall w :: w != a.w ==> (HeldBy(t, f, j, w) <==> HeldBy(s, f, j, w));
    assert HeldBy(t, f, j, a.w) <==> j == s.taken && f in {s.accepted[j].base, s.accepted[j].target};
    assert !HeldBy(s, f, j, a.w) && !HeldBy(s, f, s.taken, a.w);
  }

  lemma EnqueuingHolds(s: State, a: Action, f: File, j: nat)
    requires JobsInv(s) && Enabled(s, a) && a.Enqueue?
    ensures FileOfJob(Apply(s, a), f, j) <==>
      FileOfJob(s, f, j) || (j == |s.accepted| && f in {s.uploads[a.h].job.base, s.uploads[a.h].job.target})
  {
    var t := Apply(s, a);
    assert forall w :: HeldBy(t, f, j, w) <==> HeldBy(s, f, j, w);
    assert j < |s.accepted| ==> t.accepted[j] == s.accepted[j];
  }

  // ----- Spec files, which no clobbering reaches

  predicate IsSpec(f: File) {
    !f.kind.SourceCode?
  }

  predicate OfKind(file: Option<File>, kind: FileKind) {
    file.Some? ==> file.value.kind == kind
  }

  predicate JobKinds(job: Job) {
    if job.specs.Some? then job.base.kind == BaseSpec && job.target.kind == TargetSpec
    else job.base == job.target && job.base.kind == SourceCode && job.project == CODE_PROJECT
  }

  predicate UploadKinds(u: Upload) {
    match u
    case NeedTarget(_, _, _, base) => OfKind(base, BaseSpec)
    case Copied(_, _, _, base, target) => OfKind(base, BaseSpec) && OfKind(target, TargetSpec)
    case Sending(job) => JobKinds(job)
    case Panicked(base, target) => OfKind(base, BaseSpec) && OfKind(target, TargetSpec)
    case _ => true
  }

  /** Uploads and jobs name files of their own kinds, and code jobs their own project. */
  ghost predicate KindsInv(s: State) {
    && (forall h :: h in s.uploads ==> UploadKinds(s.uploads[h]))
    && (forall j :: 0 <= j < |s.accepted| ==> JobKinds(s.accepted[j]))
  }

  /** A held spec file is on disk for its one holder. */
  ghost predicate SpecFilesInv(s: State) {
    forall f, o :: IsSpec(f) && Held(s, f, o) ==> f in s.disk && s.disk[f] == o
  }

  lemma KindsKept(s: State, a: Action)
    requires KindsInv(s) && Enabled(s, a)
    ensures KindsInv(Apply(s, a))
  {
  }

  /** A spec file that a worker removes is one that its job holds. */
  lemma RemovedSpecIsHeld(s: State, a: Action)
    requires KindsInv(s) && Enabled(s, a) && (a.RemoveTarget? || a.RemoveBase?) && IsSpec(Removed(s, a))
    ensures Held(s, Removed(s, a), OfJob(s.workers[a.w].j))
  {
    assert JobKinds(s.accepted[s.workers[a.w].j]);
    assert HeldBy(s, Removed(s, a), s.workers[a.w].j, a.w);
  }

  lemma SpecFileKept(s: State, a: Action, f: File, o: Holder)
    requires JobsInv(s) && KindsInv(s) && SpecFilesInv(s) && Enabled(s, a) && IsSpec(f) && Held(Apply(s, a), f, o)
    ensures f in Apply(s, a).disk && Apply(s, a).disk[f] == o
  {
    if o.OfJob? {
      SpecFileOfJobKept(s, a, f, o.j);
    } else if Held(s, f, o) {
      if (a.RemoveTarget? || a.RemoveBase?) && f == Removed(s, a) { RemovedSpecIsHeld(s, a); }
      HoldingUploadStays(s, a, f, o.h);
    }
  }

  lemma SpecFileOfJobKept(s: State, a: Action, f: File, j: nat)
    requires JobsInv(s) && KindsInv(s) && SpecFilesInv(s) && Enabled(s, a) && IsSpec(f) && FileOfJob(Apply(s, a), f, j)
    ensures f in Apply(s, a).disk && Apply(s, a).disk[f] == OfJob(j)
  {
    JobHoldComes(s, a, f, j);
    if FileOfJob(s, f, j) {
      assert Held(s, f, OfJob(j));
      if (a.RemoveTarget? || a.RemoveBase?) && f == Removed(s, a) {
        RemovedSpecIsHeld(s, a);
        NotReleased(s, a, f, j);
      }
      JobsFileStays(s, a, f, j);
    } else {
      assert Held(s, f, OfUpload(a.h));
    }
  }

  lemma JobsFileStays(s: State, a: Action, f: File, j: nat)
    requires Enabled(s, a) && f in s.disk && s.disk[f] == OfJob(j)
    requires (a.RemoveTarget? || a.RemoveBase?) ==> f != Removed(s, a)
    ensures f in Apply(s, a).disk && Apply(s, a).disk[f] == OfJob(j)
  {
  }

  /** A job that still holds a file has not just had it removed. */
  lemma NotReleased(s: State, a: Action, f: File, j: nat)
    requires JobsInv(s) && Enabled(s, a) && FileOfJob(Apply(s, a), f, j)
    ensures (a.RemoveTarget? || a.RemoveBase?) && j == s.workers[a.w].j ==> f != Removed(s, a)
  {
    if a.RemoveTarget? || a.RemoveBase? { RemovalReleases(s, a, f, j); }
  }

  lemma HoldingUploadStays(s: State, a: Action, f: File, h: nat)
    requires Enabled(s, a) && Held(s, f, OfUpload(h)) && Held(Apply(s, a), f, OfUpload(h)) && f in s.disk && s.disk[f] == OfUpload(h)
    requires (a.RemoveTarget? || a.RemoveBase?) ==> f != Removed(s, a)
    ensures f in Apply(s, a).disk && Apply(s, a).disk[f] == OfUpload(h)
  {
  }

  lemma SpecFilesKept(s: State, a: Action)
    requires JobsInv(s) && KindsInv(s) && SpecFilesInv(s) && Enabled(s, a)
    ensures SpecFilesInv(Apply(s, a))
  {
    forall f, o | IsSpec(f) && Held(Apply(s, a), f, o)
      ensures f in Apply(s, a).disk && Apply(s, a).disk[f] == o
    {
      SpecFileKept(s, a, f, o);
    }
  }

  /** Conservation of spec files in every run: each one on disk is held by the upload or job that it is
      for, and each one held is on disk, for that holder alone. */
  lemma SpecFilesConserved(states: seq<State>, actions: seq<Action>, i: nat)
    requires IsRun(states, actions) && i < |states|
    ensures KindsInv(states[i]) && DiskInv(states[i]) && SpecFilesInv(states[i])
  {
    RunInv(states, actions, i);
  }

  // ----- The verdict on the uploaded documents

  /** What a holder's file should contain, if it is one of a spec upload. */
  function JobText(job: Job, f: File): Option<Document> {
    if job.specs.None? then None
    else if f == job.base then Some(job.specs.value.base)
    else if f == job.target then Some(job.specs.value.target)
    else None
  }

  function UploadText(u: Upload, f: File): Option<Document> {
    match u
    case NeedTarget(_, _, specs, base) => if base == Some(f) then Some(specs.base) else None
    case Copied(_, _, specs, base, target) =>
      if base == Some(f) then Some(specs.base) else if target == Some(f) then Some(specs.target) else None
    case Sending(job) => JobText(job, f)
    case _ => None
  }

  function HolderText(s: State, f: File, o: Holder): Option<Document> {
    match o
    case OfUpload(h) => if h in s.uploads then UploadText(s.uploads[h], f) else None
    case OfJob(j) => if j < |s.accepted| then JobText(s.accepted[j], f) else None
  }

  ghost predicate TextOk(s: State, f: File, o: Holder) {
    HolderText(s, f, o).Some? ==> f in s.texts && s.texts[f] == HolderText(s, f, o).value
  }

  /** Every held spec file contains what its holder put there. */
  ghost predicate TextsInv(s: State) {
    forall f, o :: IsSpec(f) && Held(s, f, o) ==> TextOk(s, f, o)
  }

  /** The report compares the documents the job was uploaded with. */
  ghost predicate AnswersJob(job: Job, report: Report) {
    job.specs.Some? ==> Compared(job.specs.value.base, job.specs.value.target, report)
  }

  /** The run was stored by a spec job, for its documents, project and commit. */
  ghost predicate MadeBy(s: State, id: string, r: Ledger.Run) {
    && id in s.made && s.made[id] < |s.accepted|
    && var job := s.accepted[s.made[id]];
    job.specs.Some? && AnswersJob(job, r.payload) && r.project == Ledger.Canonical(job.project) && r.commit == job.commit
  }

  /** A completion event goes to the project of the job that stored its run. */
  ghost predicate SentFor(s: State, e: Ledger.Event) {
    e.DiffCompleted? ==>
      && e.run in s.ledger.tables.runs && e.run in s.made && s.made[e.run] < |s.accepted|
      && e.project == s.accepted[s.made[e.run]].project
  }

  ghost predicate EventsInv(s: State) {
    forall e :: e in s.ledger.events ==> SentFor(s, e)
  }

  lemma EventComes(s: State, a: Action, e: Ledger.Event)
    requires Enabled(s, a) && e in Apply(s, a).ledger.events && e.DiffCompleted?
    ensures e in s.ledger.events || (a.Publish? && e == Ledger.DiffCompleted(s.accepted[s.workers[a.w].j].project, s.workers[a.w].run))
  {
    var b := LedgerActionIs(s, a);
    if b.Some? { EventsGrow(s.ledger, b.value); }
  }

  lemma EventKept(s: State, a: Action, e: Ledger.Event)
    requires RunsInv(s) && EventsInv(s) && (forall w: nat :: Announceable(s, w)) && Enabled(s, a) && e in Apply(s, a).ledger.events
    ensures SentFor(Apply(s, a), e)
  {
    if e.DiffCompleted? {
      EventComes(s, a, e);
      if !(e in s.ledger.events) { assert Announceable(s, a.w); }
      assert e.run in s.ledger.tables.runs && e.run in s.made;
      RowsStay(s, a);
      AcceptedGrows(s, a);
      MakersStay(s, a, e.run);
    }
  }

  lemma EventsInvKept(s: State, a: Action)
    requires RunsInv(s) && EventsInv(s) && (forall w: nat :: Announceable(s, w)) && Enabled(s, a)
    ensures EventsInv(Apply(s, a))
  {
    forall e | e in Apply(s, a).ledger.events
      ensures SentFor(Apply(s, a), e)
    {
      EventKept(s, a, e);
    }
  }

  /** Reports in the workers' hands and in the ledger are about the documents of their jobs. */
  ghost predicate AnswersInv(s: State) {
    && (forall w :: 0 <= w < |s.workers| && s.workers[w].Inserting? ==>
          s.workers[w].j < |s.accepted| && AnswersJob(s.accepted[s.workers[w].j], s.workers[w].report))
    && (forall id :: id in s.ledger.tables.runs ==> MadeBy(s, id, s.ledger.tables.runs[id]))
  }

  lemma TextsKept(s: State, a: Action, f: File, o: Holder)
    requires JobsInv(s) && SpecFilesInv(s) && TextsInv(s) && Enabled(s, a) && IsSpec(f) && Held(Apply(s, a), f, o)
    ensures TextOk(Apply(s, a), f, o)
  {
    if o.OfJob? {
      JobTextsKept(s, a, f, o.j);
    } else if Held(s, f, o) {
      assert TextOk(s, f, o) && f in s.disk;
      UploadTextKept(s, a, f, o.h);
    }
  }

  lemma JobTextsKept(s: State, a: Action, f: File, j: nat)
    requires JobsInv(s) && SpecFilesInv(s) && TextsInv(s) && Enabled(s, a) && IsSpec(f) && FileOfJob(Apply(s, a), f, j)
    ensures TextOk(Apply(s, a), f, OfJob(j))
  {
    JobHoldComes(s, a, f, j);
    AcceptedGrows(s, a);
    if FileOfJob(s, f, j) {
      assert Held(s, f, OfJob(j)) && TextOk(s, f, OfJob(j)) && f in s.disk;
      if f in s.texts { TextStays(s, a, f); }
    } else {
      assert Held(s, f, OfUpload(a.h)) && TextOk(s, f, OfUpload(a.h));
    }
  }

  lemma TextStays(s: State, a: Action, f: File)
    requires Enabled(s, a) && f in s.disk && f in s.texts
    ensures f in Apply(s, a).texts && Apply(s, a).texts[f] == s.texts[f]
  {
  }

  /** An upload that still holds a file expects the same text in it. */
  lemma UploadTextKept(s: State, a: Action, f: File, h: nat)
    requires Enabled(s, a) && Held(s, f, OfUpload(h)) && Held(Apply(s, a), f, OfUpload(h)) && f in s.disk
    ensures var t := Apply(s, a); UploadText(t.uploads[h], f).Some? ==> UploadText(t.uploads[h], f) == UploadText(s.uploads[h], f)
    ensures f in s.texts ==> f in Apply(s, a).texts && Apply(s, a).texts[f] == s.texts[f]
  {
  }

  lemma JobHoldComes(s: State, a: Action, f: File, j: nat)
    requires JobsInv(s) && Enabled(s, a) && FileOfJob(Apply(s, a), f, j)
    ensures FileOfJob(s, f, j) || (a.Enqueue? && j == |s.accepted| && f in {s.uploads[a.h].job.base, s.uploads[a.h].job.target})
    ensures FileOfJob(s, f, j) ==> j < |s.accepted|
  {
    if a.RemoveTarget? || a.RemoveBase? {
      RemovalReleases(s, a, f, j);
    } else if a.Take? {
      TakingHolds(s, a, f, j);
    } else if a.Enqueue? {
      EnqueuingHolds(s, a, f, j);
    } else {
      WorkersHoldTheSame(s, a, f, j);
    }
  }

  /** What the engine reads by name is what was uploaded. */
  lemma EngineReadsTheUpload(s: State, w: nat, report: Report)
    requires Sound(s.engine) && JobsInv(s) && KindsInv(s) && TextsInv(s) && Enabled(s, AnalysisAnswers(w, report))
    ensures AnswersJob(s.accepted[s.workers[w].j], report)
  {
    var j := s.workers[w].j;
    var job := s.accepted[j];
    assert JobKinds(job);
    if job.specs.Some? {
      assert HeldBy(s, job.base, j, w) && HeldBy(s, job.target, j, w);
      assert Held(s, job.base, OfJob(j)) && Held(s, job.target, OfJob(j));
      assert TextOk(s, job.base, OfJob(j)) && TextOk(s, job.target, OfJob(j));
    }
  }

  lemma AnswersKept(s: State, a: Action)
    requires JobsInv(s) && KindsInv(s) && AnswersInv(s) && RunsInv(s) && Enabled(s, a)
    requires a.AnalysisAnswers? ==> AnswersJob(s.accepted[s.workers[a.w].j], a.report)
    ensures AnswersInv(Apply(s, a))
  {
    ReportsKept(s, a);
    MadeKept(s, a);
  }

  lemma ReportsKept(s: State, a: Action)
    requires JobsInv(s) && AnswersInv(s) && Enabled(s, a)
    requires a.AnalysisAnswers? ==> AnswersJob(s.accepted[s.workers[a.w].j], a.report)
    ensures var t := Apply(s, a); forall w :: 0 <= w < |t.workers| && t.workers[w].Inserting? ==>
      t.workers[w].j < |t.accepted| && AnswersJob(t.accepted[t.workers[w].j], t.workers[w].report)
  {
    AcceptedGrows(s, a);
    var t := Apply(s, a);
    forall w | 0 <= w < |t.workers| && t.workers[w].Inserting?
      ensures t.workers[w].j < |t.accepted| && AnswersJob(t.accepted[t.workers[w].j], t.workers[w].report)
    {
      InsertersStay(s, a, w);
    }
  }

  lemma InsertersStay(s: State, a: Action, w: nat)
    requires Enabled(s, a) && w < |Apply(s, a).workers| && Apply(s, a).workers[w].Inserting?
    ensures w < |s.workers|
    ensures Apply(s, a).workers[w] == s.workers[w] || (a.AnalysisAnswers? && w == a.w && Apply(s, a).workers[w] == Inserting(s.workers[w].j, a.report))
  {
  }

  lemma AcceptedGrows(s: State, a: Action)
    requires Enabled(s, a)
    ensures s.accepted <= Apply(s, a).accepted
  {
  }

  lemma MadeKept(s: State, a: Action)
    requires KindsInv(s) && AnswersInv(s) && RunsInv(s) && Enabled(s, a)
    ensures var t := Apply(s, a); forall id :: id in t.ledger.tables.runs ==> MadeBy(t, id, t.ledger.tables.runs[id])
  {
    forall id | id in Apply(s, a).ledger.tables.runs
      ensures MadeBy(Apply(s, a), id, Apply(s, a).ledger.tables.runs[id])
    {
      RunMadeKept(s, a, id);
    }
  }

  lemma RefusedProject(s: State, w: nat, id: string, now: nat)
    requires WorkerAt(s, w) && s.workers[w].Inserting? && !Ledger.IsUuid(s.accepted[s.workers[w].j].project)
    ensures !Enabled(s, Insert(w, id, now))
  {
  }

  /** The project of code jobs is no UUID, so the database refuses their runs. */
  lemma CodeJobsCannotInsert(s: State, w: nat, id: string, now: nat)
    requires KindsInv(s) && WorkerAt(s, w) && s.workers[w].Inserting? && s.accepted[s.workers[w].j].specs.None?
    ensures !Enabled(s, Insert(w, id, now))
  {
    assert JobKinds(s.accepted[s.workers[w].j]);
    CodeProjectIsNoUuid();
    RefusedProject(s, w, id, now);
  }

  lemma CodeProjectIsNoUuid()
    ensures !Ledger.IsUuid(CODE_PROJECT)
  {
    Ledger.DigitsFit(CODE_PROJECT);
  }

  lemma RunMadeKept(s: State, a: Action, id: string)
    requires KindsInv(s) && AnswersInv(s) && RunsInv(s) && Enabled(s, a) && id in Apply(s, a).ledger.tables.runs
    ensures MadeBy(Apply(s, a), id, Apply(s, a).ledger.tables.runs[id])
  {
    RowComes(s, a, id);
    if id in s.ledger.tables.runs {
      StoredIsMade(s, a, id, Apply(s, a).ledger.tables.runs[id]);
    } else {
      InsertedIsMade(s, a);
    }
  }

  lemma StoredIsMade(s: State, a: Action, id: string, q: Ledger.Run)
    requires AnswersInv(s) && Enabled(s, a) && id in s.ledger.tables.runs && Ledger.SameButStatus(s.ledger.tables.runs[id], q)
    ensures MadeBy(Apply(s, a), id, q)
  {
    assert MadeBy(s, id, s.ledger.tables.runs[id]);
    AcceptedGrows(s, a);
    MakersStay(s, a, id);
    MadeStays(s, Apply(s, a), id, s.ledger.tables.runs[id], q);
  }

  lemma MadeStays(s: State, t: State, id: string, r: Ledger.Run, q: Ledger.Run)
    requires MadeBy(s, id, r) && s.accepted <= t.accepted && id in t.made && t.made[id] == s.made[id] && Ledger.SameButStatus(r, q)
    ensures MadeBy(t, id, q)
  {
  }

  lemma InsertedIsMade(s: State, a: Action)
    requires KindsInv(s) && AnswersInv(s) && Enabled(s, a) && a.Insert?
    ensures var r := StoredRun(s.accepted[s.workers[a.w].j], s.workers[a.w].report, a.now);
      MadeBy(Apply(s, a), a.id, Ledger.Stored(r))
  {
    if s.accepted[s.workers[a.w].j].specs.None? { CodeJobsCannotInsert(s, a.w, a.id, a.now); }
  }

  /** A stored run keeps its maker and its payload. */
  lemma MakersStay(s: State, a: Action, id: string)
    requires Enabled(s, a) && id in s.ledger.tables.runs && id in s.made
    ensures id in Apply(s, a).made && Apply(s, a).made[id] == s.made[id]
  {
  }

  lemma AnswersHold(states: seq<State>, actions: seq<Action>, i: nat)
    requires IsRun(states, actions) && i < |states|
    ensures AnswersInv(states[i])
  {
    RunInv(states, actions, i);
  }

  lemma TextsInvKept(s: State, a: Action)
    requires JobsInv(s) && SpecFilesInv(s) && TextsInv(s) && Enabled(s, a)
    ensures TextsInv(Apply(s, a))
  {
    forall f, o | IsSpec(f) && Held(Apply(s, a), f, o)
      ensures TextOk(Apply(s, a), f, o)
    {
      TextsKept(s, a, f, o);
    }
  }

  /** End-to-end verdict over all runs: every stored run is that of a spec job, its payload is the
      comparison of the two documents uploaded for it, and the run, unless overridden, is PASSED if and
      only if the target document keeps the base document. */
  lemma VerdictIsTheComparison(states: seq<State>, actions: seq<Action>, i: nat, id: string)
    requires IsRun(states, actions) && i < |states| && id in states[i].ledger.tables.runs
    ensures var s, r := states[i], states[i].ledger.tables.runs[id];
      && id in s.made && s.made[id] < |s.accepted|
      && var specs := s.accepted[s.made[id]].specs;
      && specs.Some? && IsComparison(specs.value.base, specs.value.target, DEFAULT_CONFIG, r.payload)
      && r.breaking == |r.payload.changes| && r.dangerous == 0
      && (r.status != Ledger.OVERRIDDEN ==> (r.status == Ledger.PASSED <==> SpecLaws.DocumentKeeps(specs.value.base, specs.value.target)))
  {
    AnswersHold(states, actions, i);
    JobsAndRunsHold(states, actions, i);
    var s, r := states[i], states[i].ledger.tables.runs[id];
    assert MadeBy(s, id, r) && Truthful(r);
    var specs := s.accepted[s.made[id]].specs.value;
    SpecLaws.CleanReportExactly(specs.base, specs.target, r.payload);
  }

  /** A code job's report is never stored and never announced: its worker can only fail to insert. */
  lemma CodeJobsStoreNothing(states: seq<State>, actions: seq<Action>, i: nat, j: nat)
    requires IsRun(states, actions) && i < |states| && j < |states[i].accepted| && states[i].accepted[j].specs.None?
    ensures forall id :: id in states[i].ledger.tables.runs ==> id in states[i].made && states[i].made[id] != j
    ensures forall w: nat, id, now :: WorkerAt(states[i], w) && states[i].workers[w].j == j ==> !Enabled(states[i], Insert(w, id, now))
  {
    SpecFilesConserved(states, actions, i);
    AnswersHold(states, actions, i);
    var s := states[i];
    forall id | id in s.ledger.tables.runs
      ensures id in s.made && s.made[id] != j
    {
      assert MadeBy(s, id, s.ledger.tables.runs[id]);
    }
    forall w: nat, id, now | WorkerAt(s, w) && s.workers[w].j == j
      ensures !Enabled(s, Insert(w, id, now))
    {
      if s.workers[w].Inserting? { CodeJobsCannotInsert(s, w, id, now); }
    }
  }

  /** A stored run that nobody has overridden is FAILED if and
      only if its payload contains a BREAKING finding, and its counts are recounts of the payload. */
  lemma VerdictIsTruthful(states: seq<State>, actions: seq<Action>, i: nat, id: string)
    requires IsRun(states, actions) && i < |states| && id in states[i].ledger.tables.runs
    ensures var r := states[i].ledger.tables.runs[id];
      && r.breaking == Count(r.payload.changes, Breaking)
      && (r.status != Ledger.OVERRIDDEN ==> (r.status == Ledger.FAILED <==> exists c :: c in r.payload.changes && c.severity == Breaking))
  {
    JobsAndRunsHold(states, actions, i);
    CountPositive(states[i].ledger.tables.runs[id].payload.changes, Breaking);
  }

  /** A worker that has stored a run can always announce it, under the spelling of the project id that
      was uploaded, which may not be the one that the database returns. */
  lemma PublishingIsEnabled(states: seq<State>, actions: seq<Action>, i: nat, w: nat)
    requires IsRun(states, actions) && i < |states| && w < |states[i].workers| && states[i].workers[w].Publishing?
    ensures Enabled(states[i], Publish(w))
  {
    RunInv(states, actions, i);
    assert Announceable(states[i], w);
  }

  /** Every completion event names a stored run of its project, and no run is announced twice. */
  lemma CompletionsAreStoredOnce(states: seq<State>, actions: seq<Action>, i: nat, k: nat)
    requires IsRun(states, actions) && i < |states| && k < |states[i].ledger.events| && states[i].ledger.events[k].DiffCompleted?
    ensures var s, e := states[i], states[i].ledger.events[k];
      && e.run in s.ledger.tables.runs && s.ledger.tables.runs[e.run].project == Ledger.Canonical(e.project)
      && forall l :: 0 <= l < |s.ledger.events| && l != k && s.ledger.events[l].DiffCompleted? ==> s.ledger.events[l].run != e.run
  {
    JobsAndRunsHold(states, actions, i);
    assert states[i].ledger.events[k] in states[i].ledger.events;
  }

  // ----- From the upload to the stored run

  ghost predicate JobOf(job: Job, project: string, commit: string, specs: Specs) {
    job.project == project && job.commit == commit && job.specs == Some(specs)
  }

  /** The upload is still about the project, commit and documents. */
  ghost predicate UploadOf(s: State, u: Upload, project: string, commit: string, specs: Specs) {
    match u
    case NeedBase(p, c, d) => p == project && c == commit && d == specs
    case NeedTarget(p, c, d, _) => p == project && c == commit && d == specs
    case Copied(p, c, d, _, _) => p == project && c == commit && d == specs
    case Sending(job) => JobOf(job, project, commit, specs)
    case Accepted(j) => j < |s.accepted| && JobOf(s.accepted[j], project, commit, specs)
    case Panicked(_, _) => true
    case _ => false
  }

  lemma UploadOfStays(s: State, a: Action, h: nat, project: string, commit: string, specs: Specs)
    requires Enabled(s, a) && h in s.uploads && UploadOf(s, s.uploads[h], project, commit, specs)
    ensures h in Apply(s, a).uploads && UploadOf(Apply(s, a), Apply(s, a).uploads[h], project, commit, specs)
  {
    AcceptedGrows(s, a);
  }

  lemma UploadOfLink(states: seq<State>, actions: seq<Action>, i: nat, h: nat, project: string, commit: string, specs: Specs)
    requires IsRun(states, actions) && i < |actions|
    ensures actions[i] == Upload(h, project, commit, specs) ==>
      h in states[i + 1].uploads && UploadOf(states[i + 1], states[i + 1].uploads[h], project, commit, specs)
    ensures h in states[i].uploads && UploadOf(states[i], states[i].uploads[h], project, commit, specs) ==>
      h in states[i + 1].uploads && UploadOf(states[i + 1], states[i + 1].uploads[h], project, commit, specs)
  {
    assert Linked(states, actions, i);
    if h in states[i].uploads && UploadOf(states[i], states[i].uploads[h], project, commit, specs) {
      UploadOfStays(states[i], actions[i], h, project, commit, specs);
    }
  }

  /** Whatever becomes of an upload, it stays about the project, commit and documents uploaded. */
  lemma {:induction false} UploadIsFollowed(states: seq<State>, actions: seq<Action>, k: nat, i: nat,
                                            h: nat, project: string, commit: string, specs: Specs)
    requires IsRun(states, actions) && k < i < |states| && actions[k] == Upload(h, project, commit, specs)
    ensures h in states[i].uploads && UploadOf(states[i], states[i].uploads[h], project, commit, specs)
  {
    if i > k + 1 { UploadIsFollowed(states, actions, k, i - 1, h, project, commit, specs); }
    UploadOfLink(states, actions, i - 1, h, project, commit, specs);
  }

  /** So an accepted upload's job is for the project, commit and documents uploaded. */
  lemma AcceptedAsUploaded(states: seq<State>, actions: seq<Action>, k: nat, i: nat, h: nat, project: string, commit: string, specs: Specs, j: nat)
    requires IsRun(states, actions) && k < i < |states| && actions[k] == Upload(h, project, commit, specs)
    requires h in states[i].uploads && states[i].uploads[h] == Accepted(j)
    ensures j < |states[i].accepted| && JobOf(states[i].accepted[j], project, commit, specs)
  {
    UploadIsFollowed(states, actions, k, i, h, project, commit, specs);
  }

  lemma JobLink(states: seq<State>, actions: seq<Action>, i: nat, j: nat) returns (h: nat)
    requires IsRun(states, actions) && i < |actions| && j < |states[i + 1].accepted|
    ensures j < |states[i].accepted| || (h in states[i + 1].uploads && states[i + 1].uploads[h] == Accepted(j))
    ensures forall g :: g in states[i].uploads && states[i].uploads[g] == Accepted(j) ==> g in states[i + 1].uploads && states[i + 1].uploads[g] == Accepted(j)
  {
    assert Linked(states, actions, i);
    h := if actions[i].Enqueue? then actions[i].h else 0;
  }

  /** Every accepted job is that of an upload. */
  lemma {:induction false} JobHasUpload(states: seq<State>, actions: seq<Action>, i: nat, j: nat) returns (h: nat)
    requires IsRun(states, actions) && i < |states| && j < |states[i].accepted|
    ensures h in states[i].uploads && states[i].uploads[h] == Accepted(j)
  {
    assert i > 0;
    h := JobLink(states, actions, i - 1, j);
    if j < |states[i - 1].accepted| { h := JobHasUpload(states, actions, i - 1, j); }
  }

  /** The upload is one of source code. */
  ghost predicate CodeUpload(s: State, u: Upload) {
    match u
    case NeedCode => true
    case Rejected => true
    case Sending(job) => job.specs.None?
    case Accepted(j) => j < |s.accepted| && s.accepted[j].specs.None?
    case _ => false
  }

  lemma CodeUploadLink(states: seq<State>, actions: seq<Action>, i: nat, h: nat)
    requires IsRun(states, actions) && i < |actions|
    ensures actions[i] == UploadCode(h) ==> h in states[i + 1].uploads && CodeUpload(states[i + 1], states[i + 1].uploads[h])
    ensures h in states[i].uploads && CodeUpload(states[i], states[i].uploads[h]) ==>
      h in states[i + 1].uploads && CodeUpload(states[i + 1], states[i + 1].uploads[h])
    ensures h in states[i + 1].uploads && h !in states[i].uploads ==> (actions[i].Upload? || actions[i].UploadCode?) && actions[i].h == h
  {
    assert Linked(states, actions, i);
    AcceptedGrows(states[i], actions[i]);
  }

  /** Every upload has begun with a request, for specs or for source code. */
  lemma {:induction false} UploadHasRequest(states: seq<State>, actions: seq<Action>, i: nat, h: nat) returns (k: nat)
    requires IsRun(states, actions) && i < |states| && h in states[i].uploads
    ensures k < i && (actions[k].Upload? || actions[k].UploadCode?) && actions[k].h == h
    ensures actions[k].UploadCode? ==> CodeUpload(states[i], states[i].uploads[h])
  {
    assert i > 0;
    CodeUploadLink(states, actions, i - 1, h);
    if h in states[i - 1].uploads {
      k := UploadHasRequest(states, actions, i - 1, h);
    } else {
      k := i - 1;
    }
  }

  /** A spec job is for the project, commit and documents of the request that it came from. */
  lemma JobIsAsUploaded(states: seq<State>, actions: seq<Action>, i: nat, j: nat) returns (k: nat, h: nat)
    requires IsRun(states, actions) && i < |states| && j < |states[i].accepted| && states[i].accepted[j].specs.Some?
    ensures var job := states[i].accepted[j]; k < i && actions[k] == Upload(h, job.project, job.commit, job.specs.value)
    ensures h in states[i].uploads && states[i].uploads[h] == Accepted(j)
  {
    h := JobHasUpload(states, actions, i, j);
    k := UploadHasRequest(states, actions, i, h);
    if actions[k].Upload? {
      AcceptedAsUploaded(states, actions, k, i, h, actions[k].project, actions[k].commit, actions[k].specs, j);
    }
  }

  /** From the request to the ledger: every stored run is for the project and commit of a request, and its
      payload is the comparison of the two documents that came with it. */
  lemma StoredRunIsAsUploaded(states: seq<State>, actions: seq<Action>, i: nat, id: string)
    returns (k: nat, h: nat, project: string, commit: string, specs: Specs)
    requires IsRun(states, actions) && i < |states| && id in states[i].ledger.tables.runs
    ensures k < i && actions[k] == Upload(h, project, commit, specs)
    ensures id in states[i].made && h in states[i].uploads && states[i].uploads[h] == Accepted(states[i].made[id])
    ensures var r := states[i].ledger.tables.runs[id];
      r.project == Ledger.Canonical(project) && r.commit == commit && IsComparison(specs.base, specs.target, DEFAULT_CONFIG, r.payload)
  {
    AnswersHold(states, actions, i);
    assert MadeBy(states[i], id, states[i].ledger.tables.runs[id]);
    var j := states[i].made[id];
    k, h := JobIsAsUploaded(states, actions, i, j);
    var job := states[i].accepted[j];
    project, commit, specs := job.project, job.commit, job.specs.value;
  }

  lemma EventsHold(states: seq<State>, actions: seq<Action>, i: nat)
    requires IsRun(states, actions) && i < |states|
    ensures EventsInv(states[i])
  {
    RunInv(states, actions, i);
  }

  /** And every completion event goes to the project, as spelled, of the request behind its run. */
  lemma CompletionIsAsUploaded(states: seq<State>, actions: seq<Action>, i: nat, e: Ledger.Event)
    returns (k: nat, h: nat, commit: string, specs: Specs)
    requires IsRun(states, actions) && i < |states| && e in states[i].ledger.events && e.DiffCompleted?
    ensures k < i && actions[k] == Upload(h, e.project, commit, specs)
    ensures e.run in states[i].made && h in states[i].uploads && states[i].uploads[h] == Accepted(states[i].made[e.run])
  {
    AnswersHold(states, actions, i);
    EventsHold(states, actions, i);
    assert SentFor(states[i], e) && MadeBy(states[i], e.run, states[i].ledger.tables.runs[e.run]);
    var j := states[i].made[e.run];
    k, h := JobIsAsUploaded(states, actions, i, j);
    commit, specs := states[i].accepted[j].commit, states[i].accepted[j].specs.value;
  }

  lemma RowLink(states: seq<State>, actions: seq<Action>, i: nat, id: string)
    requires IsRun(states, actions) && i < |actions| && RunsInv(states[i]) && id in states[i + 1].ledger.tables.runs
    ensures if id in states[i].ledger.tables.runs then states[i + 1].ledger.tables.runs[id].createdAt == states[i].ledger.tables.runs[id].createdAt
      else actions[i].Insert? && actions[i].id == id && states[i + 1].ledger.tables.runs[id].createdAt == actions[i].now
  {
    assert Linked(states, actions, i);
    RowComes(states[i], actions[i], id);
  }

  /** A run carries the instant at which it was inserted. */
  lemma {:induction false} RowIsAsInserted(states: seq<State>, actions: seq<Action>, i: nat, id: string) returns (k: nat, w: nat)
    requires IsRun(states, actions) && i < |states| && id in states[i].ledger.tables.runs
    ensures k < i && actions[k] == Insert(w, id, states[i].ledger.tables.runs[id].createdAt)
  {
    assert i > 0;
    JobsAndRunsHold(states, actions, i - 1);
    RowLink(states, actions, i - 1, id);
    if id in states[i - 1].ledger.tables.runs {
      k, w := RowIsAsInserted(states, actions, i - 1, id);
    } else {
      k, w := i - 1, actions[i - 1].w;
    }
  }

  // ----- Two runs that show the conditions are needed

  lemma Extend(states: seq<State>, actions: seq<Action>, a: Action) returns (states': seq<State>, actions': seq<Action>)
    requires IsRun(states, actions) && Enabled(states[|actions|], a)
    ensures IsRun(states', actions') && |actions'| == |actions| + 1
    ensures states'[|actions'|] == Apply(states[|actions|], a) && states' == states + [states'[|actions'|]] && actions' == actions + [a]
  {
    states' := states + [Apply(states[|actions|], a)];
    actions' := actions + [a];
    forall i: nat | i < |actions'|
      ensures Linked(states', actions', i)
    {
      if i < |actions| { assert Linked(states, actions, i); }
    }
  }

  function InitialState(): State {
    State(Engine((b, t, r) => false, r => false), Ledger.INITIAL, map[], map[], map[], [], 0, [Idle, Idle, Idle, Idle, Idle], {}, map[])
  }

  /** A spec upload whose second temporary file cannot be created leaves the first one behind. */
  lemma FailedSiblingLeaks()
    ensures exists states: seq<State>, actions: seq<Action> ::
      IsRun(states, actions) && |actions| == 4 && Leaked(states[4], File(BaseSpec, 1)) && File(BaseSpec, 1) in states[4].disk
  {
    var states, actions := [InitialState()], [];
    states, actions := Extend(states, actions, Upload(0, "p", "c", Specs(Document([]), Document([]))));
    states, actions := Extend(states, actions, CreateBase(0, Some(File(BaseSpec, 1))));
    states, actions := Extend(states, actions, CreateTarget(0, None));
    states, actions := Extend(states, actions, BuildJob(0));
    assert states[4].uploads[0] == Panicked(Some(File(BaseSpec, 1)), None);
    assert Leaked(states[4], File(BaseSpec, 1));
  }

  const SOURCE := File(SourceCode, 7)

  lemma QueuedCodeJob() returns (states: seq<State>, actions: seq<Action>)
    ensures IsRun(states, actions) && |actions| == 3
    ensures var s := states[3];
      s.disk == map[SOURCE := OfJob(0)] && 1 !in s.uploads && s.accepted == [Job("code-diff", "manual-code-diff", SOURCE, SOURCE, None)]
      && s.taken == 0 && s.workers == [Idle, Idle, Idle, Idle, Idle]
  {
    states, actions := [InitialState()], [];
    states, actions := Extend(states, actions, UploadCode(0));
    states, actions := Extend(states, actions, CreateCode(0, Some(SOURCE)));
    states, actions := Extend(states, actions, Enqueue(0));
  }

  /** A code job on its way out: its one file is gone from disk, its second removal is still to come. */
  lemma CodeJobBetweenRemovals() returns (states: seq<State>, actions: seq<Action>)
    ensures IsRun(states, actions) && |actions| == 6
    ensures var s := states[6];
      s.disk == map[] && 1 !in s.uploads && s.accepted == [Job("code-diff", "manual-code-diff", SOURCE, SOURCE, None)]
      && |s.workers| == WORKERS && s.workers[0] == RemovingBase(0)
  {
    states, actions := QueuedCodeJob();
    states, actions := Extend(states, actions, Take(0));
    states, actions := Extend(states, actions, AnalysisFails(0));
    states, actions := Extend(states, actions, RemoveTarget(0));
  }

  /** If a new upload then gets the same temporary name, the second removal deletes the new upload's file. */
  lemma ReusedNameIsClobbered()
    ensures exists states: seq<State>, actions: seq<Action> :: IsRun(states, actions) && |actions| == 9 && Live(states[9], SOURCE) && SOURCE !in states[9].disk
  {
    var states, actions := CodeJobBetweenRemovals();
    states, actions := Extend(states, actions, UploadCode(1));
    states, actions := Extend(states, actions, CreateCode(1, Some(SOURCE)));
    states, actions := Extend(states, actions, RemoveBase(0));
    assert states[9].uploads[1] == Sending(Job("code-diff", "manual-code-diff", SOURCE, SOURCE, None));
    assert SOURCE in UploadFiles(states[9].uploads[1]);
    assert Live(states[9], SOURCE);
  }
}
