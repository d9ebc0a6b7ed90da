/**
 * The local checkpoint persistence protocol of maker-v8-local-player-persistence.js.
 *
 * JavaScript runs the code between two awaits without interruption, so every such piece is one atomic
 * event here; edits, other tabs and disposal may be scheduled between any two events.  The functions give
 * the effect of each event on a world value, the lemmas hold of every run, and class Persistence at the end
 * performs the same events on mutable fields.
 */
module LocalPersistence {
  import opened Results

  type Checkpoint = string

  /** Content hashes are modelled as collision free. */
  datatype Hash = Sha256(preimage: Checkpoint)

  datatype Row = Row(revision: nat, contentHash: Hash, checkpoint: Checkpoint)

  /** The compare-and-swap expectation handed to a commit: absent row, or revision and content hash. */
  type Expectation = Option<(nat, Hash)>

  function Expect(row: Option<Row>): Expectation {
    match row
    case None => None
    case Some(r) => Some((r.revision, r.contentHash))
  }

  datatype Job = Job(revision: nat, checkpoint: Checkpoint)

  datatype InitPhase =
    | NotStarted
    | Loading(base: nat)
    | Restoring(base: nat, row: Row)
    | Finishing(found: Row)      // the restore took effect; its await has not resumed yet
    | Ready
    | Failed
    | Abandoned                  // disposed during recovery

  /** One activation of the save loop.  A settled activation has returned or thrown, but its finally
      callback has not run; a cleared one has. */
  datatype Flight =
    | Scheduled
    | Committing(job: Job, expected: Expectation)
    | Applied(job: Job, row: Row)          // the store transaction is durable, the await has not resumed
    | Settled(ok: bool)
    | Cleared(ok: bool)
  {
    predicate Done() { Settled? || Cleared? }
    predicate Resolved() { (Settled? || Cleared?) && ok }
  }

  /** A save() call: the flight whose promise it returned, the session revision when it was made, and
      whether that flight had already passed its last loop guard. */
  datatype Call = Call(flight: nat, revision: nat, late: bool)

  /** An acknowledged commit and the expectation it was started with. */
  datatype Commit = Commit(revision: nat, expected: Expectation, row: Row)

  datatype Status = Idle | Saving | Saved | Error

  /** The session's content at each revision, the checkpoint store, the closure variables of the source,
      and (last line) what an observer of the run has seen. */
  datatype World = World(
    history: seq<Checkpoint>,
    store: Option<Row>,
    disposed: bool, init: InitPhase, acknowledged: Option<Row>, savedRevision: int, pending: Option<Job>,
    saveFlight: Option<nat>, flights: seq<Flight>, status: Status,
    recovered: Option<Row>, startRevision: int, gapEdits: nat, commits: seq<Commit>, calls: seq<Call>)
  {
    ghost predicate HasSession() { history != [] }

    function Revision(): nat
      requires history != []
    { |history| - 1 }

    predicate Initialized() { init.Ready? }

    predicate HasUnsavedChanges()
      requires history != []
    {
      !disposed && Initialized() && (saveFlight.Some? || Revision() != savedRevision)
    }
  }

  datatype Event =
    | Edit(content: Checkpoint)
    | ForeignWrite(content: Checkpoint)
    | CallInitialize
    | LoadResolved(found: Option<Row>)
    | LoadRejected
    | RestoreApplied
    | RestoreRejected
    | FinishInitialize
    | CallSave
    | RunFlight(id: nat)
    | StoreApply(id: nat)
    | CommitResolved(id: nat)
    | CommitRejected(id: nat)
    | ClearFlight(id: nat)
    | CallDispose

  function Start(content: Checkpoint, store: Option<Row>): World {
    World([content], store, false, NotStarted, None, -1, None, None, [], Idle, None, -1, 0, [], [])
  }

  function Update(w: World, status: Status): World {
    if w.disposed then w else w.(status := status)
  }

  // ---- session and store ------------------------------------------------------------------------------

  function AfterEdit(w: World, content: Checkpoint): World {
    w.(history := w.history + [content], gapEdits := w.gapEdits + if w.init.Finishing? then 1 else 0)
  }

  const MAX_SAFE_INTEGER: nat := 0x1F_FFFF_FFFF_FFFF

  /** A new revision is a safe integer, or the present row stays. */
  predicate Storable(prior: Option<Row>, content: Checkpoint) {
    prior.Some? && prior.value.checkpoint != content ==> prior.value.revision < MAX_SAFE_INTEGER
  }

  /** The row a store transaction leaves behind: the present one when the bytes already agree. */
  function Stored(prior: Option<Row>, content: Checkpoint): Row {
    if prior.Some? && prior.value.checkpoint == content then prior.value
    else Row(if prior.Some? then prior.value.revision + 1 else 1, Sha256(content), content)
  }

  // ---- recovery ---------------------------------------------------------------------------------------

  function AfterInitialize(w: World): World
    requires w.HasSession()
  {
    if w.disposed || !w.init.NotStarted? then w else w.(init := Loading(w.Revision()))
  }

  function AfterLoad(w: World, found: Option<Row>): World
    requires w.HasSession()
  {
    if !w.init.Loading? then w
    else if w.disposed then w.(init := Abandoned)
    else if w.Revision() != w.init.base then FailInitialize(w)
    else if found.Some? then w.(init := Restoring(w.init.base, found.value))
    else AcceptRecovery(w, None)
  }

  function FailInitialize(w: World): World {
    Update(w.(init := Failed), Error)
  }

  /** The session's own revision check and its one content change. */
  function AfterRestore(w: World): World
    requires w.HasSession()
  {
    if !w.init.Restoring? then w
    else if w.Revision() != w.init.base then FailInitialize(w)
    else
      var row := w.init.row;
      w.(history := if w.history[w.Revision()] == row.checkpoint then w.history else w.history + [row.checkpoint],
         init := Finishing(row))
  }

  function AfterFinish(w: World): World
    requires w.HasSession()
  {
    if !w.init.Finishing? then w
    else if w.disposed then w.(init := Abandoned)
    else AcceptRecovery(w, Some(w.init.found))
  }

  function AcceptRecovery(w: World, row: Option<Row>): World
    requires w.HasSession()
  {
    Update(w.(acknowledged := row, savedRevision := w.Revision(), init := Ready,
              recovered := row, startRevision := w.Revision()),
           if row.Some? then Saved else Idle)
  }

  // ---- saving -----------------------------------------------------------------------------------------

  /** A call that the source answers with a thrown or rejected error leaves everything unchanged. */
  predicate SaveAccepted(w: World) { !w.disposed && w.Initialized() }

  function AfterSave(w: World): World
    requires w.HasSession()
  {
    if !SaveAccepted(w) then w
    else
      var pending := if w.Revision() != w.savedRevision then Some(Job(w.Revision(), w.history[w.Revision()]))
                     else w.pending;
      if w.saveFlight.Some? then
        var id := w.saveFlight.value;
        w.(pending := pending,
           calls := w.calls + [Call(id, w.Revision(), id < |w.flights| && w.flights[id].Done())])
      else
        w.(pending := pending, saveFlight := Some(|w.flights|), flights := w.flights + [Scheduled],
           calls := w.calls + [Call(|w.flights|, w.Revision(), false)])
  }

  /** The loop guard, and the start of the next commit when it holds. */
  function LoopGuard(w: World, id: nat): World
    requires id < |w.flights|
  {
    if w.pending.Some? && w.pending.value.revision != w.savedRevision then
      Update(w.(pending := None, flights := w.flights[id := Committing(w.pending.value, Expect(w.acknowledged))]),
             Saving)
    else
      Update(w.(flights := w.flights[id := Settled(true)]), if w.acknowledged.Some? then Saved else Idle)
  }

  function AfterRun(w: World, id: nat): World {
    if id < |w.flights| && w.flights[id].Scheduled? then LoopGuard(w, id) else w
  }

  function AfterStoreApply(w: World, id: nat): World {
    if id < |w.flights| && w.flights[id].Committing? && Expect(w.store) == w.flights[id].expected
       && Storable(w.store, w.flights[id].job.checkpoint) then
      var row := Stored(w.store, w.flights[id].job.checkpoint);
      w.(store := Some(row), flights := w.flights[id := Applied(w.flights[id].job, row)])
    else w
  }

  function AfterCommitResolved(w: World, id: nat): World {
    if id < |w.flights| && w.flights[id].Applied? then
      var f := w.flights[id];
      LoopGuard(w.(acknowledged := Some(f.row), savedRevision := f.job.revision,
                   commits := w.commits + [Commit(f.job.revision, Expect(w.acknowledged), f.row)]), id)
    else w
  }

  function AfterCommitRejected(w: World, id: nat): World {
    if id < |w.flights| && w.flights[id].Committing? then
      Update(w.(pending := if w.pending.Some? then w.pending else Some(w.flights[id].job),
                flights := w.flights[id := Settled(false)]), Error)
    else w
  }

  function AfterClear(w: World, id: nat): World {
    if id < |w.flights| && w.flights[id].Settled? then
      w.(saveFlight := None, flights := w.flights[id := Cleared(w.flights[id].ok)])
    else w
  }

  function Step(w: World, e: Event): World
    requires w.HasSession()
  {
    match e
    case Edit(content) => AfterEdit(w, content)
    case ForeignWrite(content) => if Storable(w.store, content) then w.(store := Some(Stored(w.store, content))) else w
    case CallInitialize => AfterInitialize(w)
    case LoadResolved(found) => AfterLoad(w, found)
    case LoadRejected => if w.init.Loading? then FailInitialize(w) else w
    case RestoreApplied => AfterRestore(w)
    case RestoreRejected => if w.init.Restoring? then FailInitialize(w) else w
    case FinishInitialize => AfterFinish(w)
    case CallSave => AfterSave(w)
    case RunFlight(id) => AfterRun(w, id)
    case StoreApply(id) => AfterStoreApply(w, id)
    case CommitResolved(id) => AfterCommitResolved(w, id)
    case CommitRejected(id) => AfterCommitRejected(w, id)
    case ClearFlight(id) => AfterClear(w, id)
    case CallDispose => w.(disposed := true)
  }

  lemma StepKeepsSession(w: World, e: Event)
    requires w.HasSession()
    ensures Step(w, e).HasSession() && w.history <= Step(w, e).history
  {
  }

  function Run(w: World, events: seq<Event>): (r: World)
    requires w.HasSession()
    ensures r.HasSession()
    decreases |events|
  {
    if events == [] then w
    else
      StepKeepsSession(w, events[0]);
      Run(Step(w, events[0]), events[1..])
  }

  // ---- what every run keeps ---------------------------------------------------------------------------

  /** A job holds exactly what the session held at the job's revision. */
  ghost predicate Genuine(w: World, job: Job) {
    job.revision < |w.history| && job.checkpoint == w.history[job.revision]
  }

  /** At most one activation of the loop is live, and it is the one saveFlight names. */
  ghost predicate OneFlight(w: World) {
    && (w.saveFlight.Some? ==> w.saveFlight.value < |w.flights| && !w.flights[w.saveFlight.value].Cleared?)
    && (forall i :: 0 <= i < |w.flights| && w.saveFlight != Some(i) ==> w.flights[i].Cleared?)
  }

  ghost predicate BeforeReady(w: World)
    requires w.HasSession()
  {
    && w.flights == [] && w.saveFlight == None && w.pending == None && w.commits == [] && w.calls == []
    && w.acknowledged == None && w.savedRevision == -1 && w.recovered == None
    && (w.init.Finishing? && w.gapEdits == 0 ==> w.history[|w.history| - 1] == w.init.found.checkpoint)
    && (!w.init.Finishing? && !w.init.Failed? && !w.init.Abandoned? ==> w.gapEdits == 0)
  }

  /** The last acknowledged row: of the last commit, or else of recovery. */
  ghost function LastAcknowledged(w: World, n: nat): Option<Row>
    requires n <= |w.commits|
  {
    if n == 0 then w.recovered else Some(w.commits[n - 1].row)
  }

  ghost function LastRevision(w: World, n: nat): int
    requires n <= |w.commits|
  {
    if n == 0 then w.startRevision else w.commits[n - 1].revision
  }

  /** A commit was started against the row acknowledged just before it, carried a later session revision
      than that row, and stored exactly what the session held at that revision. */
  ghost predicate ChainLink(w: World, i: nat)
    requires i < |w.commits|
  {
    && w.commits[i].expected == Expect(LastAcknowledged(w, i))
    && LastRevision(w, i) < w.commits[i].revision
    && Genuine(w, Job(w.commits[i].revision, w.commits[i].row.checkpoint))
  }

  ghost predicate CommitChain(w: World) {
    forall i :: 0 <= i < |w.commits| ==> ChainLink(w, i)
  }

  ghost predicate Acknowledgement(w: World) {
    && w.acknowledged == LastAcknowledged(w, |w.commits|)
    && w.savedRevision == LastRevision(w, |w.commits|)
    && 0 <= w.startRevision <= w.savedRevision < |w.history|
    && (w.recovered.Some? && w.gapEdits == 0 ==> w.history[w.startRevision] == w.recovered.value.checkpoint)
  }

  ghost predicate PendingFits(w: World) {
    w.pending.Some? ==> w.savedRevision <= w.pending.value.revision && Genuine(w, w.pending.value)
  }

  ghost predicate FlightFits(w: World, i: nat)
    requires i < |w.flights|
  {
    match w.flights[i]
    case Committing(job, expected) =>
      && w.savedRevision < job.revision && Genuine(w, job)
      && expected == Expect(w.acknowledged)
      && (w.pending.Some? ==> job.revision <= w.pending.value.revision)
    case Applied(job, row) =>
      && w.savedRevision < job.revision && Genuine(w, job)
      && row.checkpoint == job.checkpoint
      && (w.pending.Some? ==> job.revision <= w.pending.value.revision)
    case _ => true
  }

  /** The revision of a call is durable, or still queued or in flight behind the promise it was given. */
  ghost predicate CallCovered(w: World, c: Call) {
    && c.flight < |w.flights|
    && c.revision < |w.history|
    && (!c.late ==>
          match w.flights[c.flight]
          case Scheduled => Queued(w, c.revision)
          case Committing(job, _) => c.revision <= job.revision || Queued(w, c.revision)
          case Applied(job, _) => c.revision <= job.revision || Queued(w, c.revision)
          case Settled(ok) => ok ==> c.revision <= w.savedRevision
          case Cleared(ok) => ok ==> c.revision <= w.savedRevision)
  }

  ghost predicate Queued(w: World, revision: nat) {
    revision <= w.savedRevision || (w.pending.Some? && revision <= w.pending.value.revision)
  }

  ghost predicate Inv(w: World) {
    && w.HasSession()
    && (!w.Initialized() ==> BeforeReady(w))
    && (w.Initialized() ==>
          && OneFlight(w) && Acknowledgement(w) && CommitChain(w) && PendingFits(w)
          && (forall i :: 0 <= i < |w.flights| ==> FlightFits(w, i))
          && (forall c :: c in w.calls ==> CallCovered(w, c)))
  }

  lemma StartInv(content: Checkpoint, store: Option<Row>)
    ensures Inv(Start(content, store))
  {
  }

  /** Commits already made stay linked when the session or the list of commits grows. */
  lemma ChainGrows(w: World, v: World)
    requires CommitChain(w)
    requires w.commits <= v.commits && w.history <= v.history
    requires v.recovered == w.recovered && v.startRevision == w.startRevision
    ensures forall i :: 0 <= i < |w.commits| ==> ChainLink(v, i)
  {
    forall i | 0 <= i < |w.commits| ensures ChainLink(v, i) {
      assert ChainLink(w, i);
      assert LastAcknowledged(v, i) == LastAcknowledged(w, i) && LastRevision(v, i) == LastRevision(w, i);
    }
  }

  lemma EditInv(w: World, content: Checkpoint)
    requires Inv(w)
    ensures Inv(AfterEdit(w, content))
  {
    var v := AfterEdit(w, content);
    if w.Initialized() {
      ChainGrows(w, v);
      forall i | 0 <= i < |v.flights| ensures FlightFits(v, i) { assert FlightFits(w, i); }
      forall c | c in v.calls ensures CallCovered(v, c) { assert CallCovered(w, c); }
    }
  }

  /** Joining the live flight, or starting one. */
  lemma SaveInv(w: World)
    requires Inv(w)
    ensures Inv(AfterSave(w))
  {
    var v := AfterSave(w);
    if SaveAccepted(w) {
      ChainGrows(w, v);
      var call := v.calls[|w.calls|];
      assert PendingFits(v);
      assert forall r: nat :: Queued(w, r) ==> Queued(v, r);
      assert CallCovered(v, call) by { assert Queued(v, w.Revision()); }
      forall i | 0 <= i < |v.flights| ensures FlightFits(v, i) {
        if i < |w.flights| { assert FlightFits(w, i); }
      }
      forall c | c in w.calls ensures CallCovered(v, c) { assert CallCovered(w, c); }
    }
  }

  /** Any change to the live flight, checked against what that flight owes its callers. */
  lemma FlightMoveInv(w: World, v: World, id: nat)
    requires Inv(w) && w.Initialized() && id < |w.flights| && w.saveFlight == Some(id)
    requires v.history == w.history && v.recovered == w.recovered && v.startRevision == w.startRevision
    requires v.gapEdits == w.gapEdits && v.init == w.init && v.calls == w.calls
    requires |v.flights| == |w.flights| && v.flights == w.flights[id := v.flights[id]]
    requires v.saveFlight == if v.flights[id].Cleared? then None else Some(id)
    requires w.savedRevision <= v.savedRevision
    requires Acknowledgement(v) && CommitChain(v) && PendingFits(v) && FlightFits(v, id)
    requires forall c :: c in w.calls && c.flight == id && CallCovered(w, c) ==> CallCovered(v, c)
    ensures Inv(v)
  {
    forall i | 0 <= i < |v.flights| ensures FlightFits(v, i) {
      if i != id { assert v.flights[i].Cleared?; }
    }
    forall c | c in v.calls ensures CallCovered(v, c) {
      assert CallCovered(w, c);
      if c.flight != id { assert v.flights[c.flight].Cleared? && w.flights[c.flight].Cleared?; }
    }
  }

  lemma GuardInv(w: World, id: nat)
    requires Inv(w) && w.Initialized() && id < |w.flights| && w.flights[id].Scheduled?
    ensures Inv(AfterRun(w, id))
  {
    var v := AfterRun(w, id);
    ChainGrows(w, v);
    FlightMoveInv(w, v, id);
  }

  lemma ResolvedInv(w: World, id: nat)
    requires Inv(w) && w.Initialized() && id < |w.flights| && w.flights[id].Applied?
    ensures Inv(AfterCommitResolved(w, id))
  {
    var v := AfterCommitResolved(w, id);
    assert FlightFits(w, id);
    ChainGrows(w, v);
    assert ChainLink(v, |w.commits|);
    FlightMoveInv(w, v, id);
  }

  lemma ApplyInv(w: World, id: nat)
    requires Inv(w) && w.Initialized() && id < |w.flights| && w.flights[id].Committing?
    ensures Inv(AfterStoreApply(w, id))
  {
    var v := AfterStoreApply(w, id);
    assert FlightFits(w, id);
    ChainGrows(w, v);
    FlightMoveInv(w, v, id);
  }

  lemma RejectedInv(w: World, id: nat)
    requires Inv(w) && w.Initialized() && id < |w.flights| && w.flights[id].Committing?
    ensures Inv(AfterCommitRejected(w, id))
  {
    var v := AfterCommitRejected(w, id);
    assert FlightFits(w, id);
    ChainGrows(w, v);
    FlightMoveInv(w, v, id);
  }

  lemma ClearInv(w: World, id: nat)
    requires Inv(w) && w.Initialized() && id < |w.flights| && w.flights[id].Settled?
    ensures Inv(AfterClear(w, id))
  {
    var v := AfterClear(w, id);
    ChainGrows(w, v);
    FlightMoveInv(w, v, id);
  }

  lemma StepInv(w: World, e: Event)
    requires Inv(w)
    ensures Inv(Step(w, e))
  {
    match e
    case Edit(content) => EditInv(w, content);
    case CallSave => SaveInv(w);
    case RunFlight(id) => if id < |w.flights| && w.flights[id].Scheduled? { GuardInv(w, id); }
    case CommitResolved(id) => if id < |w.flights| && w.flights[id].Applied? { ResolvedInv(w, id); }
    case StoreApply(id) => if id < |w.flights| && w.flights[id].Committing? { ApplyInv(w, id); }
    case CommitRejected(id) => if id < |w.flights| && w.flights[id].Committing? { RejectedInv(w, id); }
    case ClearFlight(id) => if id < |w.flights| && w.flights[id].Settled? { ClearInv(w, id); }
    case ForeignWrite(content) => SameWorldInv(w, Step(w, e));
    case CallDispose => SameWorldInv(w, Step(w, e));
    case _ =>
  }

  /** The store and the disposal flag are not part of the invariant. */
  lemma SameWorldInv(w: World, v: World)
    requires Inv(w) && v == w.(store := v.store, disposed := v.disposed)
    ensures Inv(v)
  {
    if w.Initialized() {
      ChainGrows(w, v);
      forall i | 0 <= i < |v.flights| ensures FlightFits(v, i) { assert FlightFits(w, i); }
      forall c | c in v.calls ensures CallCovered(v, c) { assert CallCovered(w, c); }
    }
  }

  lemma {:induction false} RunInv(w: World, events: seq<Event>)
    requires Inv(w)
    ensures Inv(Run(w, events))
    decreases |events|
  {
    if events != [] {
      StepInv(w, events[0]);
      RunInv(Step(w, events[0]), events[1..]);
    }
  }

  // ---- theorems over runs -----------------------------------------------------------------------------

  /** A world some run of the program can be in. */
  ghost predicate Reached(w: World, content: Checkpoint, store: Option<Row>, events: seq<Event>) {
    w == Run(Start(content, store), events)
  }

  lemma ReachedInv(w: World, content: Checkpoint, store: Option<Row>, events: seq<Event>)
    requires Reached(w, content, store, events)
    ensures Inv(w)
  {
    StartInv(content, store);
    RunInv(Start(content, store), events);
  }

  /** At most one commit is in flight, and it expects exactly the last acknowledged row. */
  lemma OneCommitInFlight(w: World, content: Checkpoint, store: Option<Row>, events: seq<Event>, i: nat, j: nat)
    requires Reached(w, content, store, events)
    requires i < |w.flights| && j < |w.flights|
    requires !w.flights[i].Cleared? && !w.flights[j].Cleared?
    ensures i == j
    ensures w.flights[i].Committing? ==>
              w.flights[i].expected == Expect(LastAcknowledged(w, |w.commits|))
  {
    ReachedInv(w, content, store, events);
    assert FlightFits(w, i);
  }

  /** The acknowledged row and the saved revision are those of the last commit, or of recovery while there is none;
      a commit's row holds what the session held at its revision. */
  lemma SavedRevisionIsAcknowledged(w: World, content: Checkpoint, store: Option<Row>, events: seq<Event>)
    requires Reached(w, content, store, events) && w.Initialized()
    ensures w.commits == [] ==> w.acknowledged == w.recovered && w.savedRevision == w.startRevision
    ensures w.commits != [] ==>
              var last := w.commits[|w.commits| - 1];
              && w.acknowledged == Some(last.row) && w.savedRevision == last.revision
              && 0 <= last.revision < |w.history| && last.row.checkpoint == w.history[last.revision]
  {
    ReachedInv(w, content, store, events);
    if w.commits != [] { assert ChainLink(w, |w.commits| - 1); }
  }

  /** Committed session revisions strictly increase, whatever failed, was retained or was superseded in
      between; savedRevision is the revision of the last acknowledged row, and that row holds exactly what
      the session held then. */
  lemma CommitsAdvance(w: World, content: Checkpoint, store: Option<Row>, events: seq<Event>, i: nat, j: nat)
    requires Reached(w, content, store, events)
    requires i < j < |w.commits|
    ensures w.startRevision < w.commits[i].revision < w.commits[j].revision <= w.savedRevision < |w.history|
    ensures w.commits[j].expected == Expect(Some(w.commits[j - 1].row))
    ensures w.commits[i].row.checkpoint == w.history[w.commits[i].revision]
    ensures w.acknowledged == Some(w.commits[|w.commits| - 1].row)
    ensures w.savedRevision == w.commits[|w.commits| - 1].revision
  {
    ReachedInv(w, content, store, events);
    ChainIncreases(w, 0, i);
    ChainIncreases(w, i + 1, j);
    ChainIncreases(w, j + 1, |w.commits| - 1);
    assert ChainLink(w, 0) && ChainLink(w, i) && ChainLink(w, i + 1) && ChainLink(w, j);
  }

  lemma {:induction false} ChainIncreases(w: World, i: nat, j: nat)
    requires CommitChain(w) && j < |w.commits|
    ensures i <= j ==> LastRevision(w, i) < LastRevision(w, j + 1)
    decreases j
  {
    assert ChainLink(w, j);
    if i < j { ChainIncreases(w, i, j - 1); }
  }

  /** A save() made before its flight's last loop guard resolves only once the session revision it saw, or a
      later one, is the acknowledged row's. */
  lemma SaveIsDurable(w: World, content: Checkpoint, store: Option<Row>, events: seq<Event>, c: Call)
    requires Reached(w, content, store, events)
    requires c in w.calls && !c.late
    ensures c.flight < |w.flights|
    ensures w.flights[c.flight].Resolved() ==>
              && c.revision <= w.savedRevision < |w.history|
              && (c.revision > w.startRevision ==>
                    w.acknowledged.Some? && w.acknowledged.value.checkpoint == w.history[w.savedRevision])
  {
    ReachedInv(w, content, store, events);
    assert CallCovered(w, c);
    if w.commits != [] { assert ChainLink(w, |w.commits| - 1); }
  }

  /** Some prefix of the run left this row in the store. */
  ghost predicate WasStored(content: Checkpoint, store: Option<Row>, events: seq<Event>, row: Row) {
    exists n :: 0 <= n <= |events| && Run(Start(content, store), events[..n]).store == Some(row)
  }

  lemma {:induction false} RunLast(w: World, events: seq<Event>, e: Event)
    requires w.HasSession()
    ensures Run(w, events + [e]) == Step(Run(w, events), e)
  {
    RunConcat(w, events, [e]);
    assert [e][1..] == [];
    assert Run(Step(Run(w, events), e), []) == Step(Run(w, events), e);
  }

  lemma StoredBefore(content: Checkpoint, store: Option<Row>, events: seq<Event>, e: Event, row: Row)
    requires WasStored(content, store, events, row)
    ensures WasStored(content, store, events + [e], row)
  {
    var n :| 0 <= n <= |events| && Run(Start(content, store), events[..n]).store == Some(row);
    assert (events + [e])[..n] == events[..n];
  }

  lemma StoredNow(content: Checkpoint, store: Option<Row>, events: seq<Event>, row: Row)
    requires Run(Start(content, store), events).store == Some(row)
    ensures WasStored(content, store, events, row)
  {
    assert events[..|events|] == events;
  }

  /** Where one event can take an applied or an acknowledged row from. */
  lemma StepRows(w: World, e: Event)
    requires w.HasSession()
    ensures var v := Step(w, e);
      && (forall i :: 0 <= i < |v.commits| ==>
            (i < |w.commits| && v.commits[i] == w.commits[i])
            || (exists k :: 0 <= k < |w.flights| && w.flights[k].Applied? && w.flights[k].row == v.commits[i].row))
      && (forall k :: 0 <= k < |v.flights| && v.flights[k].Applied? ==>
            v.store == Some(v.flights[k].row) || (k < |w.flights| && w.flights[k] == v.flights[k]))
  {
  }

  /** Every acknowledged row, and every row a flight has applied, stood in the store at a point of the run. */
  lemma {:induction false} CommitWasStored(w: World, content: Checkpoint, store: Option<Row>, events: seq<Event>)
    requires Reached(w, content, store, events)
    ensures forall i :: 0 <= i < |w.commits| ==> WasStored(content, store, events, w.commits[i].row)
    ensures forall k :: 0 <= k < |w.flights| && w.flights[k].Applied? ==> WasStored(content, store, events, w.flights[k].row)
    decreases |events|
  {
    if events != [] {
      var before, e := events[..|events| - 1], events[|events| - 1];
      var u := Run(Start(content, store), before);
      CommitWasStored(u, content, store, before);
      assert events == before + [e];
      RunLast(Start(content, store), before, e);
      StepRows(u, e);
      forall i | 0 <= i < |w.commits| ensures WasStored(content, store, events, w.commits[i].row) {
        StoredOnce(content, store, before, e, w.commits[i].row);
      }
      forall k | 0 <= k < |w.flights| && w.flights[k].Applied? ensures WasStored(content, store, events, w.flights[k].row) {
        StoredOnce(content, store, before, e, w.flights[k].row);
      }
    }
  }

  lemma StoredOnce(content: Checkpoint, store: Option<Row>, events: seq<Event>, e: Event, row: Row)
    requires WasStored(content, store, events, row) || Run(Start(content, store), events + [e]).store == Some(row)
    ensures WasStored(content, store, events + [e], row)
  {
    if WasStored(content, store, events, row) {
      StoredBefore(content, store, events, e, row);
    } else {
      StoredNow(content, store, events + [e], row);
    }
  }

  /** The live flight's transaction is durable and its await has not resumed. */
  predicate Applying(w: World) {
    w.saveFlight.Some? && w.saveFlight.value < |w.flights| && w.flights[w.saveFlight.value].Applied?
  }

  /** The store holds the row recovery read, the row of the flight being applied, or the acknowledged one. */
  ghost predicate StoreFits(w: World) {
    match w.init
    case Restoring(_, row) => w.store == Some(row)
    case Finishing(found) => w.store == Some(found)
    case Ready =>
      if Applying(w) then w.store == Some(w.flights[w.saveFlight.value].row) else w.store == w.acknowledged
    case Failed => true
    case Abandoned => true
    case _ => false
  }

  /** A load that read the present row, and a store transaction of this instance, both establish it. */
  lemma StoreFitsAfter(w: World, e: Event)
    requires Inv(w)
    requires || (e == LoadResolved(w.store) && w.init.Loading?)
             || (e.StoreApply? && e.id < |w.flights| && Step(w, e).flights[e.id] != w.flights[e.id])
    ensures StoreFits(Step(w, e))
  {
  }

  lemma StepStoreFits(w: World, e: Event)
    requires Inv(w) && StoreFits(w) && !e.ForeignWrite?
    ensures StoreFits(Step(w, e))
  {
  }

  /** It lasts until another tab writes. */
  lemma {:induction false} StoreFollows(w: World, events: seq<Event>)
    requires Inv(w) && StoreFits(w)
    requires forall e :: e in events ==> !e.ForeignWrite?
    ensures Inv(Run(w, events)) && StoreFits(Run(w, events))
    decreases |events|
  {
    if events != [] {
      StepInv(w, events[0]);
      assert events[0] in events;
      StepStoreFits(w, events[0]);
      StoreFollows(Step(w, events[0]), events[1..]);
    }
  }

  /** While no other tab writes, the store holds what the session held at the revision of each resolved timely
      save() or later. */
  lemma SavedStaysStored(w: World, events: seq<Event>, c: Call)
    requires Inv(w) && StoreFits(w)
    requires forall e :: e in events ==> !e.ForeignWrite?
    requires var r := Run(w, events);
      && c in r.calls && !c.late && c.flight < |r.flights| && r.flights[c.flight].Resolved()
      && c.revision > r.startRevision
    ensures var r := Run(w, events);
      r.store.Some? && exists n :: c.revision <= n < |r.history| && r.store.value.checkpoint == r.history[n]
  {
    StoreFollows(w, events);
    var r := Run(w, events);
    assert CallCovered(r, c);
    if Applying(r) {
      assert FlightFits(r, r.saveFlight.value);
    } else {
      assert ChainLink(r, |r.commits| - 1);
    }
  }

  /** The bytes an instance replaces in the store are those it has acknowledged: no other tab's row is lost. */
  lemma NoForeignRowLost(w: World, content: Checkpoint, store: Option<Row>, events: seq<Event>, id: nat)
    requires Reached(w, content, store, events)
    requires AfterStoreApply(w, id).store != w.store
    ensures Expect(w.store) == Expect(w.acknowledged)
  {
    ReachedInv(w, content, store, events);
    assert FlightFits(w, id);
  }

  /** Event k of the run is the call that started recovery, when the session was at this revision. */
  ghost predicate CalledAt(content: Checkpoint, store: Option<Row>, events: seq<Event>, k: int, revision: int) {
    && 0 <= k < |events| && events[k] == CallInitialize
    && var u := Run(Start(content, store), events[..k]); !u.disposed && u.init.NotStarted? && u.Revision() == revision
  }

  lemma CalledBefore(content: Checkpoint, store: Option<Row>, events: seq<Event>, e: Event, k: int, revision: int)
    requires CalledAt(content, store, events, k, revision)
    ensures CalledAt(content, store, events + [e], k, revision)
  {
    assert (events + [e])[..k] == events[..k];
  }

  lemma CalledNow(content: Checkpoint, store: Option<Row>, events: seq<Event>)
    requires var u := Run(Start(content, store), events); !u.disposed && u.init.NotStarted?
    ensures CalledAt(content, store, events + [CallInitialize], |events|, Run(Start(content, store), events).Revision())
  {
    assert (events + [CallInitialize])[..|events|] == events;
  }

  /** The revision recovery compares with, or has accepted an empty store at. */
  ghost function BaseOf(w: World): Option<int> {
    if w.init.Loading? then Some(w.init.base) else if w.init.Ready? && w.recovered == None then Some(w.startRevision) else None
  }

  lemma StepBase(w: World, e: Event)
    requires w.HasSession() && BaseOf(Step(w, e)).Some?
    ensures BaseOf(Step(w, e)) == BaseOf(w)
            || (e == CallInitialize && !w.disposed && w.init.NotStarted? && BaseOf(Step(w, e)) == Some(w.Revision()))
  {
  }

  /** An empty store is accepted only at the revision the session had when initialize() was called. */
  lemma {:induction false} BaseWasCalled(content: Checkpoint, store: Option<Row>, events: seq<Event>) returns (k: int)
    requires BaseOf(Run(Start(content, store), events)).Some?
    ensures CalledAt(content, store, events, k, BaseOf(Run(Start(content, store), events)).value)
    decreases |events|
  {
    assert events != [];
    var before, e := events[..|events| - 1], events[|events| - 1];
    assert events == before + [e];
    RunLast(Start(content, store), before, e);
    var u := Run(Start(content, store), before);
    StepBase(u, e);
    if BaseOf(Step(u, e)) == BaseOf(u) {
      k := BaseWasCalled(content, store, before);
      CalledBefore(content, store, before, e, k, BaseOf(u).value);
    } else {
      k := |before|;
      CalledNow(content, store, before);
    }
  }

  lemma {:induction false} HistoryGrows(w: World, events: seq<Event>)
    requires w.HasSession()
    ensures w.history <= Run(w, events).history
    decreases |events|
  {
    if events != [] {
      StepKeepsSession(w, events[0]);
      HistoryGrows(Step(w, events[0]), events[1..]);
    }
  }

  /** On a ready instance that reports no unsaved changes, with no edit in the restore gap, the session shows
      the acknowledged row, or nobody has edited it since event k called initialize(). */
  lemma NothingUnsaved(w: World, content: Checkpoint, store: Option<Row>, events: seq<Event>) returns (k: int)
    requires Reached(w, content, store, events)
    requires w.Initialized() && !w.disposed && !w.HasUnsavedChanges()
    requires w.gapEdits == 0
    ensures w.acknowledged.Some? ==> w.acknowledged.value.checkpoint == w.history[w.Revision()]
    ensures w.acknowledged.None? ==>
              && w.commits == [] && w.recovered == None && CalledAt(content, store, events, k, w.Revision())
              && Run(Start(content, store), events[..k]).history == w.history
  {
    k := 0;
    ReachedInv(w, content, store, events);
    if w.commits != [] { assert ChainLink(w, |w.commits| - 1); }
    if w.acknowledged.None? {
      k := BaseWasCalled(content, store, events);
      RunConcat(Start(content, store), events[..k], events[k..]);
      assert events[..k] + events[k..] == events;
      HistoryGrows(Run(Start(content, store), events[..k]), events[k..]);
    }
  }

  /** An instance whose recovery failed starts no flight and commits nothing, ever after. */
  lemma {:induction false} FailedRecoveryNeverCommits(w: World, events: seq<Event>)
    requires Inv(w) && w.init.Failed?
    ensures var r := Run(w, events);
      && r.init.Failed? && r.flights == [] && r.commits == [] && r.acknowledged == None
      && ((forall e :: e in events ==> !e.ForeignWrite?) ==> r.store == w.store)
    decreases |events|
  {
    if events != [] {
      StepInv(w, events[0]);
      assert Step(w, events[0]).init.Failed?;
      assert events[0] in events;
      FailedRecoveryNeverCommits(Step(w, events[0]), events[1..]);
    }
  }

  /** A closed view is never notified again, although its commits may still settle. */
  lemma {:induction false} ClosedViewIsSilent(w: World, events: seq<Event>)
    requires w.HasSession() && w.disposed
    ensures Run(w, events).disposed && Run(w, events).status == w.status
    decreases |events|
  {
    if events != [] {
      StepKeepsSession(w, events[0]);
      assert Step(w, events[0]).disposed && Step(w, events[0]).status == w.status;
      ClosedViewIsSilent(Step(w, events[0]), events[1..]);
    }
  }

  /** A rejected commit is retried with the same bytes against the same row. */
  lemma RetryRepeatsCommit(w: World, content: Checkpoint, store: Option<Row>, events: seq<Event>, id: nat)
    requires Reached(w, content, store, events)
    requires !w.disposed && id < |w.flights| && w.flights[id].Committing? && w.flights[id].job.revision == w.Revision()
    ensures Run(w, [CommitRejected(id), ClearFlight(id), CallSave, RunFlight(|w.flights|)]).flights
            == w.flights[id := Cleared(false)] + [w.flights[id]]
  {
    ReachedInv(w, content, store, events);
    assert FlightFits(w, id);
    Retry(w, id);
  }

  lemma Retry(w: World, id: nat)
    requires w.HasSession() && SaveAccepted(w) && w.saveFlight == Some(id) && id < |w.flights| && w.flights[id].Committing?
    requires w.flights[id].job == Job(w.Revision(), w.history[w.Revision()]) && w.Revision() != w.savedRevision
    requires w.flights[id].expected == Expect(w.acknowledged)
    ensures Run(w, [CommitRejected(id), ClearFlight(id), CallSave, RunFlight(|w.flights|)]).flights
            == w.flights[id := Cleared(false)] + [w.flights[id]]
  {
    var n := |w.flights|;
    var b := AfterClear(AfterCommitRejected(w, id), id);
    Rejected(w, id);
    Resaved(b, w.flights[id]);
    RunFour(w, CommitRejected(id), ClearFlight(id), CallSave, RunFlight(n));
  }

  lemma Rejected(w: World, id: nat)
    requires SaveAccepted(w) && id < |w.flights| && w.flights[id].Committing?
    ensures var b := AfterClear(AfterCommitRejected(w, id), id);
      && b == w.(pending := b.pending, saveFlight := None, flights := w.flights[id := Cleared(false)], status := Error)
  {
  }

  lemma Resaved(w: World, f: Flight)
    requires w.HasSession() && SaveAccepted(w) && w.saveFlight == None && w.Revision() != w.savedRevision
    requires f == Committing(Job(w.Revision(), w.history[w.Revision()]), Expect(w.acknowledged))
    ensures AfterRun(AfterSave(w), |w.flights|).flights == w.flights + [f]
  {
    var n := |w.flights|;
    assert AfterSave(w).flights[n].Scheduled?;
    assert (w.flights + [Scheduled])[n := f] == w.flights + [f];
  }

  lemma RunFour(w: World, e: Event, f: Event, g: Event, h: Event)
    requires w.HasSession()
    ensures Step(w, e).HasSession() && Step(Step(w, e), f).HasSession() && Step(Step(Step(w, e), f), g).HasSession()
    ensures Run(w, [e, f, g, h]) == Step(Step(Step(Step(w, e), f), g), h)
  {
    StepKeepsSession(w, e);
    var a := Step(w, e);
    StepKeepsSession(a, f);
    var b := Step(a, f);
    StepKeepsSession(b, g);
    var c := Step(b, g);
    StepKeepsSession(c, h);
    assert [e, f, g, h][1..] == [f, g, h] && [f, g, h][1..] == [g, h] && [g, h][1..] == [h] && [h][1..] == [];
    assert Run(c, [h]) == Run(Step(c, h), []) == Step(c, h);
    assert Run(b, [g, h]) == Run(c, [h]);
    assert Run(a, [f, g, h]) == Run(b, [g, h]);
  }

  // ---- the two gaps -----------------------------------------------------------------------------------

  lemma SettledStep(w: World, id: nat, e: Event)
    requires w.HasSession() && w.Initialized() && OneFlight(w) && w.saveFlight == Some(id) && w.flights[id].Settled?
    requires e != ClearFlight(id)
    ensures var r := Step(w, e);
      && r.Initialized() && r.saveFlight == Some(id) && id < |r.flights| && r.flights[id] == w.flights[id]
      && r.savedRevision == w.savedRevision
  {
  }

  /** Between the last loop guard and the finally callback nothing is acknowledged, whatever else runs. */
  lemma {:induction false} SettledStays(w: World, id: nat, events: seq<Event>)
    requires Inv(w) && w.Initialized() && w.saveFlight == Some(id) && id < |w.flights| && w.flights[id].Settled?
    requires ClearFlight(id) !in events
    ensures var r := Run(w, events);
      && Inv(r) && r.Initialized() && r.saveFlight == Some(id) && id < |r.flights| && r.flights[id] == w.flights[id]
      && r.savedRevision == w.savedRevision
    decreases |events|
  {
    if events != [] {
      StepInv(w, events[0]);
      assert events[0] in events;
      SettledStep(w, id, events[0]);
      SettledStays(Step(w, events[0]), id, events[1..]);
    }
  }

  /** A save() made in that gap is given a promise that resolves without its edits: it meets the contract of
      SaveIsDurable exactly when the session had nothing unsaved. */
  lemma LateSaveExact(w: World, id: nat, events: seq<Event>)
    requires Inv(w) && SaveAccepted(w) && w.saveFlight == Some(id) && id < |w.flights| && w.flights[id] == Settled(true)
    requires ClearFlight(id) !in events
    ensures var u := Step(Run(AfterSave(w), events), ClearFlight(id));
      && id < |u.flights| && u.flights[id] == Cleared(true)
      && (w.Revision() <= u.savedRevision <==> w.Revision() == w.savedRevision)
  {
    SaveInv(w);
    SettledStays(AfterSave(w), id, events);
  }

  /** The gap is reachable: this run resolves a save() whose edit no commit has carried. */
  lemma LateSaveLosesEdit()
    ensures exists events, c :: var w := Run(Start("a", None), events);
      && c in w.calls && c.flight < |w.flights| && w.flights[c.flight].Resolved()
      && c.revision > w.savedRevision && w.commits == []
  {
    var w0 := Start("a", None);
    var w1 := Run(w0, [CallInitialize, LoadResolved(None), CallSave, RunFlight(0)]);
    RunFour(w0, CallInitialize, LoadResolved(None), CallSave, RunFlight(0));
    RunFour(w1, Edit("b"), CallSave, ClearFlight(0), CallDispose);
    var first := [CallInitialize, LoadResolved(None), CallSave, RunFlight(0)];
    var second := [Edit("b"), CallSave, ClearFlight(0), CallDispose];
    RunConcat(w0, first, second);
    var w := Run(w0, first + second);
    assert Call(0, 1, true) in w.calls;
  }

  lemma {:induction false} RunConcat(w: World, a: seq<Event>, b: seq<Event>)
    requires w.HasSession()
    ensures Run(w, a + b) == Run(Run(w, a), b)
    decreases |a|
  {
    if a == [] {
      assert a + b == b;
    } else {
      StepKeepsSession(w, a[0]);
      RunConcat(Step(w, a[0]), a[1..], b);
      assert (a + b)[0] == a[0] && (a + b)[1..] == a[1..] + b;
    }
  }

  /** The content the session shows after some events that leave recovery waiting in the restore gap. */
  function LastEdit(events: seq<Event>, content: Checkpoint): Checkpoint
    decreases |events|
  {
    if events == [] then content
    else LastEdit(events[1..], if events[0].Edit? then events[0].content else content)
  }

  lemma {:induction false} GapRun(w: World, events: seq<Event>)
    requires w.HasSession() && w.init.Finishing? && FinishInitialize !in events
    ensures var r := Run(w, events);
      && r.init == w.init && r.history[r.Revision()] == LastEdit(events, w.history[w.Revision()])
      && (!w.disposed && CallDispose !in events ==> !r.disposed)
      && (w.saveFlight == None ==> r.saveFlight == None)
    decreases |events|
  {
    if events != [] {
      StepKeepsSession(w, events[0]);
      assert events[0] in events;
      GapRun(Step(w, events[0]), events[1..]);
    }
  }

  /** Recovery always ends reporting nothing unsaved; that report is right exactly when the last edit that
      landed in the restore gap, if any, put the recovered content back. */
  lemma RestoreGapExact(w: World, gap: seq<Event>)
    requires Inv(w) && w.init.Restoring? && !w.disposed && w.Revision() == w.init.base
    requires FinishInitialize !in gap && CallDispose !in gap
    ensures var row := w.init.row;
      var u := Step(Run(AfterRestore(w), gap), FinishInitialize);
      && u.Initialized() && !u.HasUnsavedChanges() && u.acknowledged == Some(row)
      && (u.history[u.Revision()] == row.checkpoint <==> LastEdit(gap, row.checkpoint) == row.checkpoint)
  {
    GapRun(AfterRestore(w), gap);
  }

  /** That gap is reachable too: recovery ends reporting nothing unsaved while the session shows an edit that
      no row holds. */
  lemma RestoreGapLosesEdit()
    ensures exists row, events :: var w := Run(Start("a", Some(row)), events);
      && w.Initialized() && !w.disposed && !w.HasUnsavedChanges()
      && w.acknowledged == Some(row) == w.store && w.history[w.Revision()] != row.checkpoint
  {
    var row := Row(1, Sha256("b"), "b");
    var w0 := Start("a", Some(row));
    var events := [CallInitialize, LoadResolved(Some(row)), RestoreApplied, Edit("c")];
    RunFour(w0, CallInitialize, LoadResolved(Some(row)), RestoreApplied, Edit("c"));
    var w1 := Run(w0, events);
    RunLast(w0, events, FinishInitialize);
    assert w1.history == ["a", "b", "c"];
    var w := Run(w0, events + [FinishInitialize]);
    assert w.Initialized() && !w.HasUnsavedChanges() && w.acknowledged == Some(row);
  }

  // ---- the program ------------------------------------------------------------------------------------

  /** The edited session: its content at every revision so far. */
  class Session {
    var history: seq<Checkpoint>

    constructor (content: Checkpoint)
      ensures history == [content]
    {
      history := [content];
    }

    /** restoreCheckpoint: refused when the session moved, and one edit when the content differs. */
    method Restore(checkpoint: Checkpoint, expected: nat) returns (ok: bool)
      requires history != []
      modifies this
      ensures ok <==> expected == |old(history)| - 1
      ensures history == if !ok || old(history)[|old(history)| - 1] == checkpoint then old(history)
                         else old(history) + [checkpoint]
    {
      ok := expected == |history| - 1;
      if ok && history[expected] != checkpoint {
        history := history + [checkpoint];
      }
    }
  }

  /** One binding's row in the checkpoint database. */
  class CheckpointStore {
    var row: Option<Row>

    constructor (initial: Option<Row>)
      ensures row == initial
    {
      row := initial;
    }

    method Save(checkpoint: Checkpoint, expected: Expectation) returns (r: Option<Row>)
      modifies this
      ensures var accepted := Expect(old(row)) == expected && Storable(old(row), checkpoint);
        && row == (if accepted then Some(Stored(old(row), checkpoint)) else old(row))
        && r == if accepted then row else None
    {
      if Expect(row) != expected { return None; }
      if row.None? {
        row := Some(Row(1, Sha256(checkpoint), checkpoint));
      } else if row.value.checkpoint != checkpoint {
        if row.value.revision >= MAX_SAFE_INTEGER { return None; }
        row := Some(Row(row.value.revision + 1, Sha256(checkpoint), checkpoint));
      }
      return row;
    }
  }

  /** The closure of createMakerV8LocalPlayerPersistence.  Each method is the code between two awaits. */
  class Persistence {
    const session: Session
    const store: CheckpointStore
    var disposed: bool
    var init: InitPhase
    var acknowledged: Option<Row>
    var savedRevision: int
    var pending: Option<Job>
    var saveFlight: Option<nat>
    var flights: seq<Flight>
    var status: Status
    ghost var recovered: Option<Row>
    ghost var startRevision: int
    ghost var gapEdits: nat
    ghost var commits: seq<Commit>
    ghost var calls: seq<Call>

    ghost function State(): World
      reads this, session, store
    {
      World(session.history, store.row, disposed, init, acknowledged, savedRevision, pending, saveFlight, flights,
            status, recovered, startRevision, gapEdits, commits, calls)
    }

    constructor (session: Session, store: CheckpointStore)
      requires session.history != []
      ensures this.session == session && this.store == store
      ensures State() == Start("", store.row).(history := session.history)
    {
      this.session, this.store := session, store;
      disposed, init := false, NotStarted;
      acknowledged, savedRevision, pending := None, -1, None;
      saveFlight, flights, status := None, [], Idle;
      recovered, startRevision, gapEdits, commits, calls := None, -1, 0, [], [];
    }

    method SetStatus(s: Status)
      modifies this`status
      ensures status == if disposed then old(status) else s
    {
      if !disposed { status := s; }
    }

    method Initialize()
      requires session.history != []
      modifies this
      ensures State() == old(AfterInitialize(State()))
    {
      if disposed { return; }                      // throws
      if init.NotStarted? { init := Loading(|session.history| - 1); }
    }

    method LoadSettled(found: Option<Row>)
      requires session.history != []
      modifies this
      ensures State() == old(AfterLoad(State(), found))
    {
      if !init.Loading? { return; }
      if disposed { init := Abandoned; return; }
      if |session.history| - 1 != init.base {
        init := Failed;
        SetStatus(Error);
      } else if found.Some? {
        init := Restoring(init.base, found.value);
      } else {
        Accept(None);
      }
    }

    method RestoreSettled()
      requires session.history != [] && init.Restoring?
      modifies this, session
      ensures State() == old(AfterRestore(State()))
    {
      var ok := session.Restore(init.row.checkpoint, init.base);
      if ok {
        init := Finishing(init.row);
      } else {
        init := Failed;
        SetStatus(Error);
      }
    }

    method FinishInitialize()
      requires session.history != [] && init.Finishing?
      modifies this
      ensures State() == old(AfterFinish(State()))
    {
      if disposed { init := Abandoned; return; }
      Accept(Some(init.found));
    }

    method Accept(row: Option<Row>)
      requires session.history != []
      modifies this
      ensures State() == old(AcceptRecovery(State(), row))
    {
      acknowledged := row;
      savedRevision := |session.history| - 1;
      init := Ready;
      recovered, startRevision := row, savedRevision;
      SetStatus(if row.Some? then Saved else Idle);
    }

    method Save() returns (promise: Option<nat>)
      requires session.history != []
      modifies this
      ensures State() == old(AfterSave(State()))
      ensures old(SaveAccepted(State())) ==> promise == saveFlight && promise.Some?
      ensures !old(SaveAccepted(State())) ==> promise == None
    {
      if disposed || !init.Ready? { return None; }  // throws, or rejects
      var revision := |session.history| - 1;
      if revision != savedRevision { pending := Some(Job(revision, session.history[revision])); }
      ghost var late := saveFlight.Some? && saveFlight.value < |flights| && flights[saveFlight.value].Done();
      if saveFlight.None? {
        saveFlight := Some(|flights|);
        flights := flights + [Scheduled];
      }
      calls := calls + [Call(saveFlight.value, revision, late)];
      return saveFlight;
    }

    /** The while test and, when it holds, the body up to the await of job.commit. */
    method Guard(id: nat)
      requires id < |flights|
      modifies this
      ensures State() == old(LoopGuard(State(), id))
    {
      if pending.Some? && pending.value.revision != savedRevision {
        var job := pending.value;
        pending := None;
        SetStatus(Saving);
        flights := flights[id := Committing(job, Expect(acknowledged))];
      } else {
        SetStatus(if acknowledged.Some? then Saved else Idle);
        flights := flights[id := Settled(true)];
      }
    }

    method RunFlight(id: nat)
      requires id < |flights| && flights[id].Scheduled?
      modifies this
      ensures State() == old(AfterRun(State(), id))
    {
      Guard(id);
    }

    /** job.commit reaching the database. */
    method StoreApply(id: nat)
      requires id < |flights| && flights[id].Committing?
      modifies this, store
      ensures State() == old(AfterStoreApply(State(), id))
    {
      var job := flights[id].job;
      var row := store.Save(job.checkpoint, flights[id].expected);
      if row.Some? { flights := flights[id := Applied(job, row.value)]; }
    }

    method CommitResolved(id: nat)
      requires id < |flights| && flights[id].Applied?
      modifies this
      ensures State() == old(AfterCommitResolved(State(), id))
    {
      var job, row := flights[id].job, flights[id].row;
      commits := commits + [Commit(job.revision, Expect(acknowledged), row)];
      acknowledged := Some(row);
      savedRevision := job.revision;
      Guard(id);
    }

    method CommitRejected(id: nat)
      requires id < |flights| && flights[id].Committing?
      modifies this
      ensures State() == old(AfterCommitRejected(State(), id))
    {
      if pending.None? { pending := Some(flights[id].job); }
      SetStatus(Error);
      flights := flights[id := Settled(false)];
    }

    method ClearFlight(id: nat)
      requires id < |flights| && flights[id].Settled?
      modifies this
      ensures State() == old(AfterClear(State(), id))
    {
      flights := flights[id := Cleared(flights[id].ok)];
      saveFlight := None;
    }

    method HasUnsavedChanges() returns (b: bool)
      requires session.history != []
      ensures b == State().HasUnsavedChanges()
    {
      b := !disposed && init.Ready? && (saveFlight.Some? || |session.history| - 1 != savedRevision);
    }

    method Dispose() returns (drained: Option<nat>)
      modifies this
      ensures State() == old(State()).(disposed := true)
      ensures drained == saveFlight
    {
      disposed := true;
      return saveFlight;
    }
  }
}
