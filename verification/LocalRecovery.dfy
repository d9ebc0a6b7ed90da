/**
 * More theorems over the runs of LocalPersistence: when recovery fails, what status is published, that no saved edit
 * is forgotten, and that the store's revisions tell its rows.
 */
module LocalRecovery {
  import opened Results
  import opened LocalPersistence

  // ---- when recovery fails ----------------------------------------------------------------------------

  /** Neither a load result nor a disposal. */
  predicate WhileLoading(events: seq<Event>) {
    forall e :: e in events ==> !e.LoadResolved? && !e.LoadRejected? && !e.CallDispose?
  }

  /** Neither a restore result nor a disposal. */
  predicate WhileRestoring(events: seq<Event>) {
    forall e :: e in events ==> !e.RestoreApplied? && !e.RestoreRejected? && !e.CallDispose?
  }

  predicate HasEdit(events: seq<Event>) { exists e :: e in events && e.Edit? }

  /** Recovery waits: only edits move the session. */
  ghost predicate Waits(w: World, r: World, edited: bool)
    requires w.HasSession()
  {
    && r.HasSession() && r.init == w.init && !r.disposed && r.Revision() >= w.Revision()
    && (r.Revision() != w.Revision() <==> edited) && w.history <= r.history
    && r.saveFlight == w.saveFlight
  }

  lemma StepWaits(w: World, e: Event)
    requires w.HasSession() && !w.disposed
    requires (w.init.Loading? && WhileLoading([e])) || (w.init.Restoring? && WhileRestoring([e]))
    requires !w.Initialized() && w.flights == []
    ensures Waits(w, Step(w, e), e.Edit?) && Step(w, e).flights == []
  {
    assert e in [e];
  }

  lemma {:induction false} RunWaits(w: World, events: seq<Event>)
    requires w.HasSession() && !w.disposed && w.flights == []
    requires (w.init.Loading? && WhileLoading(events)) || (w.init.Restoring? && WhileRestoring(events))
    ensures Waits(w, Run(w, events), HasEdit(events)) && Run(w, events).flights == []
    decreases |events|
  {
    if events != [] {
      var e, rest := events[0], events[1..];
      assert e in events && forall x :: x in rest ==> x in events;
      assert forall x :: x in events ==> x == e || x in rest;
      StepWaits(w, e);
      RunWaits(Step(w, e), rest);
      assert HasEdit(events) <==> e.Edit? || HasEdit(rest);
    }
  }

  /** From a call of initialize() to the load's result: recovery fails, with the error published, exactly when the
      session was edited meanwhile, whether or not a row was found; otherwise a row is restored, and an empty store
      is accepted at the revision of the call. */
  lemma LoadExact(w: World, middle: seq<Event>, found: Option<Row>)
    requires Inv(w) && !w.disposed && w.init.NotStarted? && WhileLoading(middle)
    ensures var u := Step(Run(Step(w, CallInitialize), middle), LoadResolved(found));
      && (u.init.Failed? <==> HasEdit(middle)) && (u.init.Failed? ==> u.status == Error)
      && (!HasEdit(middle) && found.Some? ==> u.init == Restoring(w.Revision(), found.value))
      && (!HasEdit(middle) && found.None? ==>
            u.Initialized() && u.acknowledged == None && u.history == w.history && !u.HasUnsavedChanges() && u.status == Idle)
  {
    var a := Step(w, CallInitialize);
    assert a.init == Loading(w.Revision()) && a.history == w.history;
    RunWaits(a, middle);
  }

  /** From there to the restore's result: recovery fails exactly when the session was edited meanwhile, and otherwise
      the session shows the row. */
  lemma RestoreExact(w: World, middle: seq<Event>)
    requires Inv(w) && !w.disposed && w.init.Restoring? && w.Revision() == w.init.base && WhileRestoring(middle)
    ensures var u := Step(Run(w, middle), RestoreApplied);
      && (u.init.Failed? <==> HasEdit(middle)) && (u.init.Failed? ==> u.status == Error)
      && (!HasEdit(middle) ==> u.init == Finishing(w.init.row) && u.history[u.Revision()] == w.init.row.checkpoint)
  {
    RunWaits(w, middle);
  }

  /** A load or a restore that is rejected ends recovery with the error published, unless the view was closed. */
  lemma RejectionFails(w: World, e: Event)
    requires w.HasSession()
    requires (w.init.Loading? && e == LoadRejected) || (w.init.Restoring? && e == RestoreRejected)
    ensures Step(w, e).init.Failed? && Step(w, e).status == if w.disposed then w.status else Error
  {
  }

  /** A view closed before recovery ends never becomes ready, starts no activation and writes nothing. */
  lemma {:induction false} ClosedNeverRecovers(w: World, events: seq<Event>)
    requires Inv(w) && w.disposed && !w.Initialized()
    ensures var r := Run(w, events);
      && !r.Initialized() && r.flights == [] && r.acknowledged == None
      && ((forall e :: e in events ==> !e.ForeignWrite?) ==> r.store == w.store)
    decreases |events|
  {
    if events != [] {
      StepInv(w, events[0]);
      assert events[0] in events;
      ClosedNeverRecovers(Step(w, events[0]), events[1..]);
    }
  }

  /** A ready, open view reports unsaved changes exactly while an activation has not been cleared or the session's
      revision is not the acknowledged one. */
  lemma UnsavedExact(content: Checkpoint, store: Option<Row>, events: seq<Event>)
    requires var w := Run(Start(content, store), events); w.Initialized() && !w.disposed
    ensures var w := Run(Start(content, store), events);
      w.HasUnsavedChanges() <==>
        (exists i :: 0 <= i < |w.flights| && !w.flights[i].Cleared?)
        || w.Revision() != (if w.commits == [] then w.startRevision else w.commits[|w.commits| - 1].revision)
  {
    ReachedInv(Run(Start(content, store), events), content, store, events);
  }

  // ---- the published status ---------------------------------------------------------------------------

  /** The outcome of the first n activations: an error when the last of them failed, else what is acknowledged. */
  function OutcomeStatus(w: World, n: nat): Status
    requires n <= |w.flights|
  {
    if n > 0 && w.flights[n - 1].Done() && !w.flights[n - 1].ok then Error
    else if w.acknowledged.Some? then Saved else Idle
  }

  /** What an observer is told: an error after a failed recovery or activation, saving while a commit is on its way,
      else whether there is an acknowledged row. */
  function StatusOf(w: World): Status {
    match w.init
    case Failed => Error
    case Ready =>
      var n := |w.flights|;
      if n == 0 then OutcomeStatus(w, 0)
      else if w.flights[n - 1].Committing? || w.flights[n - 1].Applied? then Saving
      else OutcomeStatus(w, if w.flights[n - 1].Scheduled? then n - 1 else n)
    case _ => Idle
  }

  ghost predicate StatusInv(w: World) {
    && (w.saveFlight.Some? ==> w.saveFlight.value + 1 == |w.flights|)
    && (!w.disposed ==> !w.init.Abandoned? && w.status == StatusOf(w))
  }

  lemma SaveStatus(w: World)
    requires Inv(w) && StatusInv(w)
    ensures StatusInv(AfterSave(w))
  {
  }

  lemma FlightStatus(w: World, e: Event)
    requires Inv(w) && StatusInv(w)
    requires e.RunFlight? || e.StoreApply? || e.CommitResolved? || e.CommitRejected? || e.ClearFlight?
    ensures StatusInv(Step(w, e))
  {
  }

  lemma StepStatus(w: World, e: Event)
    requires Inv(w) && StatusInv(w)
    ensures StatusInv(Step(w, e))
  {
    match e
    case CallSave => SaveStatus(w);
    case RunFlight(_) => FlightStatus(w, e);
    case StoreApply(_) => FlightStatus(w, e);
    case CommitResolved(_) => FlightStatus(w, e);
    case CommitRejected(_) => FlightStatus(w, e);
    case ClearFlight(_) => FlightStatus(w, e);
    case _ =>
  }

  lemma {:induction false} RunStatus(w: World, events: seq<Event>)
    requires Inv(w) && StatusInv(w)
    ensures StatusInv(Run(w, events))
    decreases |events|
  {
    if events != [] {
      StepInv(w, events[0]);
      StepStatus(w, events[0]);
      RunStatus(Step(w, events[0]), events[1..]);
    }
  }

  /** In every run the published status is the one the state calls for, until the view is closed. */
  lemma StatusTells(content: Checkpoint, store: Option<Row>, events: seq<Event>)
    requires !Run(Start(content, store), events).disposed
    ensures var w := Run(Start(content, store), events); w.status == StatusOf(w)
  {
    StartInv(content, store);
    RunStatus(Start(content, store), events);
  }

  // ---- nothing saved is forgotten ---------------------------------------------------------------------

  /** This revision, or a later one, is acknowledged, waits to be committed, or is being committed. */
  ghost predicate Kept(w: World, revision: int) {
    || revision <= w.savedRevision
    || (w.pending.Some? && revision <= w.pending.value.revision)
    || (w.saveFlight.Some? && w.saveFlight.value < |w.flights| && var f := w.flights[w.saveFlight.value];
        (f.Committing? || f.Applied?) && revision <= f.job.revision)
  }

  lemma StepKept(w: World, e: Event, revision: int)
    requires Inv(w) && w.Initialized() && Kept(w, revision)
    ensures Step(w, e).Initialized() && Kept(Step(w, e), revision)
  {
    if w.saveFlight.Some? { assert FlightFits(w, w.saveFlight.value); }
  }

  /** Once asked to be saved, an edit is never forgotten, whatever is rejected, superseded or closed: its revision or a
      later one is acknowledged, pending or on its way in every later state. */
  lemma {:induction false} NothingForgotten(w: World, events: seq<Event>)
    requires Inv(w) && SaveAccepted(w)
    ensures Kept(Run(AfterSave(w), events), w.Revision())
  {
    SaveInv(w);
    KeptOn(AfterSave(w), events, w.Revision());
  }

  lemma {:induction false} KeptOn(w: World, events: seq<Event>, revision: int)
    requires Inv(w) && w.Initialized() && Kept(w, revision)
    ensures Kept(Run(w, events), revision)
    decreases |events|
  {
    if events != [] {
      StepInv(w, events[0]);
      StepKept(w, events[0], revision);
      KeptOn(Step(w, events[0]), events[1..], revision);
    }
  }

  // ---- what the store's revisions tell ----------------------------------------------------------------

  /** The next row of a store: one revision later, other content, and its own hash. */
  ghost predicate Succeeds(before: Option<Row>, after: Option<Row>) {
    && after.Some? && after.value.contentHash == Sha256(after.value.checkpoint)
    && after.value.revision == (if before.Some? then before.value.revision else 0) + 1 <= MAX_SAFE_INTEGER
    && (before.Some? ==> before.value.checkpoint != after.value.checkpoint)
  }

  /** A write leaves the written content in the store, as the next row unless it is there already. */
  ghost predicate Writes(before: Option<Row>, after: Option<Row>, content: Checkpoint) {
    after.Some? && after.value.checkpoint == content && (after == before || Succeeds(before, after))
  }

  /** An expectation tells the row it was made of. */
  lemma ExpectTells(a: Option<Row>, b: Option<Row>)
    requires a.Some? ==> a.value.contentHash == Sha256(a.value.checkpoint)
    requires b.Some? ==> b.value.contentHash == Sha256(b.value.checkpoint)
    ensures Expect(a) == Expect(b) <==> a == b
  {
  }

  ghost predicate RevisionsFit(r: Option<Row>) { r.Some? ==> r.value.revision <= MAX_SAFE_INTEGER }

  lemma StepStores(w: World, e: Event)
    requires w.HasSession() && RevisionsFit(w.store)
    ensures RevisionsFit(Step(w, e).store)
    ensures Step(w, e).store != w.store ==>
              Succeeds(w.store, Step(w, e).store)
              && (e.ForeignWrite? || (e.StoreApply? && e.id < |w.flights| && w.flights[e.id].Committing?))
    ensures e.StoreApply? && e.id < |w.flights| && w.flights[e.id].Committing? && Step(w, e).flights[e.id].Applied? ==>
              Writes(w.store, Step(w, e).store, w.flights[e.id].job.checkpoint)
    ensures e.ForeignWrite? && Storable(w.store, e.content) ==> Writes(w.store, Step(w, e).store, e.content)
  {
  }

  /** The stored row's revision never falls, and while it stays the row is the same one: a compare-and-swap that finds
      its revision has missed no write. */
  lemma {:induction false} RevisionTellsRow(w: World, events: seq<Event>)
    requires w.HasSession() && RevisionsFit(w.store)
    ensures var r := Run(w, events);
      && RevisionsFit(r.store)
      && (w.store.Some? ==> (
            && r.store.Some? && w.store.value.revision <= r.store.value.revision
            && (w.store.value.revision == r.store.value.revision ==> r.store == w.store)))
    decreases |events|
  {
    if events != [] {
      StepKeepsSession(w, events[0]);
      StepStores(w, events[0]);
      RevisionTellsRow(Step(w, events[0]), events[1..]);
    }
  }

  // ---- a save that nothing disturbs -------------------------------------------------------------------

  /** The store has what is acknowledged, no activation is live, and the next revision is safe. */
  ghost predicate AtRest(w: World) {
    Inv(w) && SaveAccepted(w) && w.saveFlight == None && w.store == w.acknowledged && Storable(w.store, w.history[w.Revision()])
  }

  function CommitEvents(n: nat): seq<Event> { [RunFlight(n), StoreApply(n), CommitResolved(n), ClearFlight(n)] }

  lemma Ran(w: World, n: nat)
    requires !w.disposed && n < |w.flights| && w.flights[n].Scheduled?
    requires w.pending.Some? && w.pending.value.revision != w.savedRevision
    ensures AfterRun(w, n)
         == w.(pending := None, flights := w.flights[n := Committing(w.pending.value, Expect(w.acknowledged))], status := Saving)
  {
  }

  lemma Replaced(s: seq<Flight>, n: nat, a: Flight, b: Flight)
    requires n < |s|
    ensures s[n := a][n := b] == s[n := b]
  {
  }

  /** A world after the flight of a job has committed this row and ended. */
  function Ended(w: World, n: nat, job: Job, row: Row): World
    requires n < |w.flights|
  {
    w.(pending := None, store := Some(row), acknowledged := Some(row), savedRevision := job.revision,
       commits := w.commits + [Commit(job.revision, Expect(w.acknowledged), row)], saveFlight := None,
       flights := w.flights[n := Cleared(true)], status := Saved)
  }

  lemma AppliedEnds(w: World, n: nat, job: Job, row: Row)
    requires !w.disposed && n < |w.flights| && w.flights[n] == Applied(job, row) && w.pending == None && w.store == Some(row)
    ensures AfterClear(AfterCommitResolved(w, n), n) == Ended(w, n, job, row)
  {
    Replaced(w.flights, n, Settled(true), Cleared(true));
  }

  lemma ApplySucceeds(w: World, n: nat, job: Job)
    requires n < |w.flights| && w.flights[n] == Committing(job, Expect(w.store)) && Storable(w.store, job.checkpoint)
    ensures AfterStoreApply(w, n)
         == w.(store := Some(Stored(w.store, job.checkpoint)), flights := w.flights[n := Applied(job, Stored(w.store, job.checkpoint))])
  {
  }

  lemma RunOn(w: World, e: Event, rest: seq<Event>, next: World)
    requires w.HasSession() && next.HasSession() && Step(w, e) == next
    ensures Run(w, [e] + rest) == Run(next, rest)
  {
    assert ([e] + rest)[1..] == rest;
  }

  lemma RunFourTo(w: World, e: Event, a: World, f: Event, b: World, g: Event, c: World, h: Event, d: World)
    requires w.HasSession() && a.HasSession() && b.HasSession() && c.HasSession() && d.HasSession()
    requires Step(w, e) == a && Step(a, f) == b && Step(b, g) == c && Step(c, h) == d
    ensures Run(w, [e, f, g, h]) == d
  {
    RunOn(c, h, [], d);
    RunOn(b, g, [h], c);
    RunOn(a, f, [g, h], b);
    RunOn(w, e, [f, g, h], a);
    assert [h] + [] == [h] && [g] + [h] == [g, h] && [f] + [g, h] == [f, g, h] && [e] + [f, g, h] == [e, f, g, h];
  }

  lemma RunCommit(w: World, n: nat, a: World, b: World, c: World)
    requires w.HasSession() && a.HasSession() && b.HasSession() && c.HasSession()
    requires a == AfterRun(w, n) && b == AfterStoreApply(a, n) && c == AfterClear(AfterCommitResolved(b, n), n)
    ensures Run(w, CommitEvents(n)) == c
  {
    RunFourTo(w, RunFlight(n), a, StoreApply(n), b, CommitResolved(n), AfterCommitResolved(b, n), ClearFlight(n), c);
  }

  /** The live activation commits the pending job and ends. */
  lemma Committed(w: World, n: nat, job: Job)
    requires w.HasSession() && !w.disposed && n < |w.flights| && w.flights[n].Scheduled?
    requires w.pending == Some(job) && job.revision != w.savedRevision
    requires w.store == w.acknowledged && Storable(w.store, job.checkpoint)
    ensures Run(w, CommitEvents(n)) == Ended(w, n, job, Stored(w.store, job.checkpoint))
  {
    var row := Stored(w.store, job.checkpoint);
    Ran(w, n);
    var b := AfterRun(w, n);
    ApplySucceeds(b, n, job);
    Replaced(w.flights, n, Committing(job, Expect(w.acknowledged)), Applied(job, row));
    var c := AfterStoreApply(b, n);
    AppliedEnds(c, n, job, row);
    Replaced(w.flights, n, Applied(job, row), Cleared(true));
    RunCommit(w, n, b, c, Ended(w, n, job, row));
  }

  /** An edit saved while nothing else happens ends in the store, acknowledged, with nothing unsaved. */
  lemma SaveCompletes(w: World)
    requires AtRest(w) && w.Revision() != w.savedRevision
    ensures var r := Run(AfterSave(w), CommitEvents(|w.flights|));
      && r.store.Some? && r.store.value.checkpoint == w.history[w.Revision()] && r.acknowledged == r.store
      && r.history == w.history && r.savedRevision == w.Revision() && r.saveFlight == None
      && !r.HasUnsavedChanges() && r.status == Saved && r.flights == w.flights + [Cleared(true)]
  {
    var n, job, a := |w.flights|, Job(w.Revision(), w.history[w.Revision()]), AfterSave(w);
    Captured(w);
    Committed(a, n, job);
    assert (w.flights + [Scheduled])[n := Cleared(true)] == w.flights + [Cleared(true)];
  }

  lemma Captured(w: World)
    requires w.HasSession() && SaveAccepted(w) && w.saveFlight == None && w.Revision() != w.savedRevision
    ensures var n, job := |w.flights|, Job(w.Revision(), w.history[w.Revision()]);
      AfterSave(w) == w.(pending := Some(job), saveFlight := Some(n), flights := w.flights + [Scheduled],
                         calls := w.calls + [Call(n, w.Revision(), false)])
  {
  }
}
