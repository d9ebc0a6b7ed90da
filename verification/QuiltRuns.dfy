/** Runs of any number of quilt preparations, for any asset groups, over one shared publisher. */
module QuiltRuns {
  import opened Results
  import opened Base64
  import opened AssetQuilt
  import QuiltPatch
  import Ordering
  import Sequences

  datatype Flight = Flight(assets: seq<Asset>, group: Group, stage: Stage)

  /** pinned and uploaded record which group made each binding and upload; the program keeps neither. */
  datatype World = World(store: Store, pinned: map<string, Group>, uploaded: map<string, Group>, flights: map<nat, Flight>)

  const Empty := World(Store(map[], map[]), map[], map[], map[])

  /** Progress moves an upload through its later stages; Resume runs a preparation to its next await. */
  datatype Event =
    | Start(id: nat, owner: string, assets: seq<Asset>)
    | Resume(id: nat, n: int, blob: Bytes)
    | Progress(uploadId: string)

  ghost predicate Starts(w: World, e: Event) { e.Start? && e.id !in w.flights && InputOk(e.owner, e.assets) }

  predicate Resumes(w: World, e: Event) { e.Resume? && e.id in w.flights }

  function Started(env: Env, e: Event): Flight
    requires e.Start?
  { Flight(e.assets, GroupOf(env, e.owner, Ordering.Sort(e.assets, ById)), LoadBinding) }

  function Ticked(env: Env, w: World, e: Event): (Store, Stage)
    requires Resumes(w, e)
  { Tick(env, w.store, w.flights[e.id].group, w.flights[e.id].stage, e.n, e.blob) }

  function Noted(notes: map<string, Group>, made: bool, g: Group): map<string, Group> {
    if made then notes[g.uploadId := g] else notes
  }

  ghost function Step(env: Env, w: World, e: Event): World {
    if Starts(w, e) then w.(flights := w.flights[e.id := Started(env, e)])
    else if Resumes(w, e) then
      var g := w.flights[e.id].group;
      var (s, stage) := Ticked(env, w, e);
      World(s,
            Noted(w.pinned, g.uploadId in s.bindings && g.uploadId !in w.store.bindings, g),
            Noted(w.uploaded, g.uploadId in s.uploads && g.uploadId !in w.store.uploads, g),
            w.flights[e.id := w.flights[e.id].(stage := stage)])
    else if e.Progress? && e.uploadId in w.store.uploads then
      var u := w.store.uploads[e.uploadId];
      w.(store := w.store.(uploads := w.store.uploads[e.uploadId := u.(progress := u.progress + 1)]))
    else w
  }

  ghost function Run(env: Env, w: World, events: seq<Event>): World
    decreases |events|
  {
    if events == [] then w else Step(env, Run(env, w, events[..|events| - 1]), events[|events| - 1])
  }

  // ---- the invariant ----------------------------------------------------------------------------------

  ghost predicate GroupOk(env: Env, g: Group) {
    && IsOwner(g.owner) && |g.sorted| > 1 && AssetsOk(g.sorted) && Ordering.Sorted(g.sorted, ById)
    && g == GroupOf(env, g.owner, g.sorted)
  }

  /** b pins the layout q for group g. */
  predicate Pins(env: Env, g: Group, b: Binding, q: Quilt) {
    BindingOk(g, b) && env.encode(g.blobs, b.numShards) == Some(q) && env.hash(q.bytes) == b.quiltSha256
  }

  predicate HasPinned(env: Env, s: Store, g: Group, b: Binding, q: Quilt) {
    g.uploadId in s.bindings && s.bindings[g.uploadId] == b && Pins(env, g, b, q)
  }

  predicate SameUpload(u: Upload, v: Upload) { u.owner == v.owner && u.bytes == v.bytes && u.blobId == v.blobId }

  predicate DoneInv(env: Env, s: Store, g: Group, o: Outcome) {
    && g.uploadId in s.bindings && g.uploadId in s.uploads
    && env.encode(g.blobs, s.bindings[g.uploadId].numShards).Some?
    && AllFit(env.encode(g.blobs, s.bindings[g.uploadId].numShards).value, g.sorted, s.uploads[g.uploadId].blobId)
    && o == OutcomeOf(g, env.encode(g.blobs, s.bindings[g.uploadId].numShards).value, s.uploads[g.uploadId].blobId)
  }

  predicate StageInv(env: Env, s: Store, g: Group, stage: Stage) {
    match stage
    case LoadBinding => true
    case ReadShards => true
    case SaveBinding(p) => env.encode(g.blobs, p.numShards).Some? && Pins(env, g, p, env.encode(g.blobs, p.numShards).value)
    case ReloadBinding => g.uploadId in s.bindings
    case LoadUpload(b, q) => HasPinned(env, s, g, b, q)
    case CreateUpload(b, q) => HasPinned(env, s, g, b, q)
    case ReloadUpload(b, q) => HasPinned(env, s, g, b, q) && g.uploadId in s.uploads
    case LoadContent(b, q, u) => HasPinned(env, s, g, b, q) && g.uploadId in s.uploads && SameUpload(u, s.uploads[g.uploadId])
    case Done(o) => DoneInv(env, s, g, o)
    case Failed(_) => true
  }

  ghost predicate FlightInv(env: Env, s: Store, f: Flight) {
    && GroupOk(env, f.group) && f.group.sorted == Ordering.Sort(f.assets, ById)
    && StageInv(env, s, f.group, f.stage)
  }

  /** The binding at key pins the layout of the group that made it. */
  ghost predicate PinInv(env: Env, w: World, key: string) {
    && key in w.pinned && w.pinned[key].uploadId == key && GroupOk(env, w.pinned[key])
    && key in w.store.bindings
    && env.encode(w.pinned[key].blobs, w.store.bindings[key].numShards).Some?
    && Pins(env, w.pinned[key], w.store.bindings[key], env.encode(w.pinned[key].blobs, w.store.bindings[key].numShards).value)
  }

  /** The upload at key holds the pinned layout of the group that made it. */
  ghost predicate UploadInv(env: Env, w: World, key: string) {
    && key in w.uploaded && w.uploaded[key].uploadId == key && GroupOk(env, w.uploaded[key])
    && key in w.store.bindings && key in w.store.uploads
    && env.encode(w.uploaded[key].blobs, w.store.bindings[key].numShards).Some?
    && w.store.uploads[key].bytes == env.encode(w.uploaded[key].blobs, w.store.bindings[key].numShards).value.bytes
    && w.store.uploads[key].owner == w.uploaded[key].owner && IdBytes(w.store.uploads[key].blobId, 32).Some?
  }

  ghost predicate Inv(env: Env, w: World) {
    && (forall key :: key in w.store.bindings ==> PinInv(env, w, key))
    && (forall key :: key in w.store.uploads ==> UploadInv(env, w, key))
    && (forall id :: id in w.flights ==> FlightInv(env, w.store, w.flights[id]))
  }

  /** Bindings and uploads are created once. */
  ghost predicate Grows(s: Store, t: Store) {
    && (forall key :: key in s.bindings ==> key in t.bindings && t.bindings[key] == s.bindings[key])
    && (forall key :: key in s.uploads ==> key in t.uploads && SameUpload(s.uploads[key], t.uploads[key]))
  }

  lemma StepGrows(env: Env, w: World, e: Event)
    ensures Grows(w.store, Step(env, w, e).store)
  {}

  lemma StageStays(env: Env, s: Store, t: Store, g: Group, stage: Stage)
    requires Grows(s, t) && StageInv(env, s, g, stage)
    ensures StageInv(env, t, g, stage)
  {
    match stage
    case LoadContent(b, q, u) => assert g.uploadId in s.uploads;
    case _ =>
  }

  lemma TickKeepsStage(env: Env, s: Store, g: Group, stage: Stage, n: int, blob: Bytes)
    requires StageInv(env, s, g, stage)
    ensures var (t, next) := Tick(env, s, g, stage, n, blob); StageInv(env, t, g, next)
  {}

  lemma StartKeeps(env: Env, w: World, e: Event)
    requires Starts(w, e)
    ensures FlightInv(env, w.store, Started(env, e))
  {
    Ordering.SortKeeps(e.assets, ById);
  }

  /** How one tick changes the store: at most one new binding or one new upload, both its group's own. */
  lemma TickStore(env: Env, s: Store, g: Group, stage: Stage, n: int, blob: Bytes)
    ensures var t := Tick(env, s, g, stage, n, blob).0;
      || t == s
      || (stage.SaveBinding? && g.uploadId !in s.bindings && t == s.(bindings := s.bindings[g.uploadId := stage.proposed]))
      || (stage.CreateUpload? && g.uploadId !in s.uploads && IsBytes(blob) && |blob| == 32
          && t == s.(uploads := s.uploads[g.uploadId := Upload(g.owner, stage.quilt.bytes, Url64(blob), 0)]))
  {}

  lemma FlightAt(env: Env, w: World, id: nat)
    requires Inv(env, w) && id in w.flights
    ensures FlightInv(env, w.store, w.flights[id])
  {}

  lemma Resumed(env: Env, w: World, e: Event)
    requires Resumes(w, e)
    ensures var w' := Step(env, w, e); var (t, stage) := Ticked(env, w, e);
      w'.store == t && w'.flights == w.flights[e.id := w.flights[e.id].(stage := stage)]
  {}

  lemma NotResumed(env: Env, w: World, e: Event)
    requires !Resumes(w, e)
    ensures var w' := Step(env, w, e);
      && w'.store.bindings == w.store.bindings && w'.store.uploads.Keys == w.store.uploads.Keys
      && w'.flights == if Starts(w, e) then w.flights[e.id := Started(env, e)] else w.flights
  {}

  lemma NotesStay(env: Env, w: World, e: Event, key: string)
    ensures var w' := Step(env, w, e);
      && (key in w.store.bindings && key in w.pinned ==> key in w'.pinned && w'.pinned[key] == w.pinned[key])
      && (key in w.store.uploads && key in w.uploaded ==> key in w'.uploaded && w'.uploaded[key] == w.uploaded[key])
  {}

  lemma ResumeKeeps(env: Env, s: Store, f: Flight, n: int, blob: Bytes)
    requires FlightInv(env, s, f)
    ensures var (t, stage) := Tick(env, s, f.group, f.stage, n, blob); FlightInv(env, t, f.(stage := stage))
  {
    TickKeepsStage(env, s, f.group, f.stage, n, blob);
  }

  lemma StepFlights(env: Env, w: World, e: Event, id: nat)
    requires Inv(env, w) && id in Step(env, w, e).flights
    ensures FlightInv(env, Step(env, w, e).store, Step(env, w, e).flights[id])
  {
    StepGrows(env, w, e);
    if Resumes(w, e) { Resumed(env, w, e); } else { NotResumed(env, w, e); }
    if Starts(w, e) && id == e.id {
      StartKeeps(env, w, e);
      StageStays(env, w.store, Step(env, w, e).store, Started(env, e).group, LoadBinding);
    } else {
      FlightAt(env, w, id);
      if Resumes(w, e) && id == e.id {
        ResumeKeeps(env, w.store, w.flights[id], e.n, e.blob);
      } else {
        StageStays(env, w.store, Step(env, w, e).store, w.flights[id].group, w.flights[id].stage);
      }
    }
  }

  lemma PinStays(env: Env, w: World, w': World, key: string)
    requires PinInv(env, w, key) && Grows(w.store, w'.store) && key in w'.pinned && w'.pinned[key] == w.pinned[key]
    ensures PinInv(env, w', key)
  {}

  lemma UploadStays(env: Env, w: World, w': World, key: string)
    requires UploadInv(env, w, key) && Grows(w.store, w'.store) && key in w'.uploaded && w'.uploaded[key] == w.uploaded[key]
    ensures UploadInv(env, w', key)
  {}

  lemma StepPins(env: Env, w: World, e: Event, key: string)
    requires Inv(env, w) && key in Step(env, w, e).store.bindings
    ensures PinInv(env, Step(env, w, e), key)
  {
    StepGrows(env, w, e);
    if key in w.store.bindings {
      assert PinInv(env, w, key);
      NotesStay(env, w, e, key);
      PinStays(env, w, Step(env, w, e), key);
    } else {
      NewPin(env, w, e, key);
    }
  }

  lemma NewPin(env: Env, w: World, e: Event, key: string)
    requires Inv(env, w) && key in Step(env, w, e).store.bindings && key !in w.store.bindings
    ensures PinInv(env, Step(env, w, e), key)
  {
    if Resumes(w, e) {
      FlightAt(env, w, e.id);
      MadePin(env, w, e, key);
    } else {
      NotResumed(env, w, e);
    }
  }

  lemma MadePin(env: Env, w: World, e: Event, key: string)
    requires Resumes(w, e) && FlightInv(env, w.store, w.flights[e.id])
    requires key in Step(env, w, e).store.bindings && key !in w.store.bindings
    ensures PinInv(env, Step(env, w, e), key)
  {
    TickStore(env, w.store, w.flights[e.id].group, w.flights[e.id].stage, e.n, e.blob);
  }

  lemma StepUploads(env: Env, w: World, e: Event, key: string)
    requires Inv(env, w) && key in Step(env, w, e).store.uploads
    ensures UploadInv(env, Step(env, w, e), key)
  {
    StepGrows(env, w, e);
    if key in w.store.uploads {
      assert UploadInv(env, w, key);
      NotesStay(env, w, e, key);
      UploadStays(env, w, Step(env, w, e), key);
    } else {
      NewUpload(env, w, e, key);
    }
  }

  lemma NewUpload(env: Env, w: World, e: Event, key: string)
    requires Inv(env, w) && key in Step(env, w, e).store.uploads && key !in w.store.uploads
    ensures UploadInv(env, Step(env, w, e), key)
  {
    if Resumes(w, e) {
      FlightAt(env, w, e.id);
      MadeUpload(env, w, e, key);
    } else {
      NotResumed(env, w, e);
    }
  }

  lemma MadeUpload(env: Env, w: World, e: Event, key: string)
    requires Resumes(w, e) && FlightInv(env, w.store, w.flights[e.id])
    requires key in Step(env, w, e).store.uploads && key !in w.store.uploads
    ensures UploadInv(env, Step(env, w, e), key)
  {
    TickStore(env, w.store, w.flights[e.id].group, w.flights[e.id].stage, e.n, e.blob);
    IdBytesExact(Url64(e.blob), 32, e.blob);
  }

  lemma StepKeeps(env: Env, w: World, e: Event)
    requires Inv(env, w)
    ensures Inv(env, Step(env, w, e))
  {
    var w' := Step(env, w, e);
    forall key | key in w'.store.bindings ensures PinInv(env, w', key) { StepPins(env, w, e, key); }
    forall key | key in w'.store.uploads ensures UploadInv(env, w', key) { StepUploads(env, w, e, key); }
    forall id | id in w'.flights ensures FlightInv(env, w'.store, w'.flights[id]) { StepFlights(env, w, e, id); }
  }

  /** In every run, each binding and upload is the one its first group made, and each preparation has met them. */
  lemma {:induction false} RunKeeps(env: Env, events: seq<Event>)
    ensures Inv(env, Run(env, Empty, events))
    decreases |events|
  {
    if events != [] {
      RunKeeps(env, events[..|events| - 1]);
      StepKeeps(env, Run(env, Empty, events[..|events| - 1]), events[|events| - 1]);
    }
  }

  // ---- every preparation of one group agrees ----------------------------------------------------------

  lemma SortedAlike(a: seq<Asset>, b: seq<Asset>)
    requires multiset(a) == multiset(b) && AssetsOk(Ordering.Sort(a, ById))
    ensures Ordering.Sort(a, ById) == Ordering.Sort(b, ById)
  {
    Ordering.SameMembers(a, ById);
    var s := Ordering.Sort(a, ById);
    forall x, y | x in a && y in a && ById(x) == ById(y) ensures x == y { IdTells(s, x, y); }
    Ordering.SortCanonical(a, b, ById);
  }

  lemma IdTells(s: seq<Asset>, x: Asset, y: Asset)
    requires AssetsOk(s) && x in s && y in s && ById(x) == ById(y)
    ensures x == y
  {
    var i :| 0 <= i < |s| && s[i] == x;
    var j :| 0 <= j < |s| && s[j] == y;
  }

  /** Owner and assets, in whatever order they were given, decide the upload and every patch identity of a finished preparation. */
  lemma SameAssetsSameQuilt(env: Env, events: seq<Event>, i: nat, j: nat)
    requires var flights := Run(env, Empty, events).flights;
      && i in flights && j in flights && flights[i].stage.Done? && flights[j].stage.Done?
      && flights[i].group.owner == flights[j].group.owner && multiset(flights[i].assets) == multiset(flights[j].assets)
    ensures var flights := Run(env, Empty, events).flights; flights[i].stage.outcome == flights[j].stage.outcome
  {
    var w := Run(env, Empty, events);
    RunFlight(env, events, i);
    RunFlight(env, events, j);
    DoneAlike(env, w.store, w.flights[i], w.flights[j]);
  }

  lemma DoneAlike(env: Env, s: Store, f: Flight, g: Flight)
    requires FlightInv(env, s, f) && FlightInv(env, s, g) && f.stage.Done? && g.stage.Done?
    requires f.group.owner == g.group.owner && multiset(f.assets) == multiset(g.assets)
    ensures f.stage == g.stage
  {
    SortedAlike(f.assets, g.assets);
    GroupsAlike(env, f.group, g.group);
    OneOutcome(env, s, f.group, f.stage, g.stage);
  }

  lemma OneOutcome(env: Env, s: Store, g: Group, a: Stage, b: Stage)
    requires StageInv(env, s, g, a) && StageInv(env, s, g, b) && a.Done? && b.Done?
    ensures a == b
  {}

  lemma GroupsAlike(env: Env, g: Group, h: Group)
    requires GroupOk(env, g) && GroupOk(env, h) && g.owner == h.owner && g.sorted == h.sorted
    ensures g == h
  {}

  lemma RunFlight(env: Env, events: seq<Event>, id: nat)
    requires id in Run(env, Empty, events).flights
    ensures FlightInv(env, Run(env, Empty, events).store, Run(env, Empty, events).flights[id])
  {
    RunKeeps(env, events);
  }

  /** A finished preparation stays as it is while others run on. */
  lemma {:induction false} OutcomeIsFinal(env: Env, w: World, events: seq<Event>, id: nat)
    requires id in w.flights && w.flights[id].stage.Done?
    ensures id in Run(env, w, events).flights && Run(env, w, events).flights[id] == w.flights[id]
    decreases |events|
  {
    if events != [] { OutcomeIsFinal(env, w, events[..|events| - 1], id); }
  }

  /** Each identity handed out reads back as the upload's blob and the range of that asset's patch. */
  lemma OutcomeReadsBack(env: Env, events: seq<Event>, id: nat, k: nat)
    requires id in Run(env, Empty, events).flights && Run(env, Empty, events).flights[id].stage.Done?
    requires k < |Run(env, Empty, events).flights[id].group.sorted|
    ensures ReadsBack(env, Run(env, Empty, events).store, Run(env, Empty, events).flights[id], k)
  {
    RunFlight(env, events, id);
    FlightReadsBack(env, Run(env, Empty, events).store, Run(env, Empty, events).flights[id], k);
  }

  /** The k-th identity of a finished preparation names that asset, the upload's blob and its patch of the layout. */
  predicate ReadsBack(env: Env, s: Store, f: Flight, k: nat)
    requires f.stage.Done?
  {
    var o := f.stage.outcome;
    && k < |f.group.sorted| == |o.assets| && o.assets[k].assetId == f.group.sorted[k].assetId
    && f.group.uploadId in s.bindings && env.encode(f.group.blobs, s.bindings[f.group.uploadId].numShards).Some?
    && var patches := env.encode(f.group.blobs, s.bindings[f.group.uploadId].numShards).value.patches;
       && k < |patches| && patches[k].identifier == o.assets[k].assetId
       && QuiltPatch.ReadPatch(o.assets[k].blobId) == Some((o.blobId, patches[k].start, patches[k].end))
  }

  lemma FlightReadsBack(env: Env, s: Store, f: Flight, k: nat)
    requires FlightInv(env, s, f) && f.stage.Done? && k < |f.group.sorted|
    ensures ReadsBack(env, s, f, k)
  {
    assert DoneInv(env, s, f.group, f.stage.outcome);
    DoneReadsBack(env.encode(f.group.blobs, s.bindings[f.group.uploadId].numShards).value, f.group, f.stage.outcome, k);
  }

  lemma DoneReadsBack(q: Quilt, g: Group, o: Outcome, k: nat)
    requires AllFit(q, g.sorted, o.blobId) && o == OutcomeOf(g, q, o.blobId) && k < |g.sorted|
    ensures |o.assets| == |g.sorted| && o.assets[k].assetId == g.sorted[k].assetId
    ensures k < |q.patches| && q.patches[k].identifier == o.assets[k].assetId
    ensures QuiltPatch.ReadPatch(o.assets[k].blobId) == Some((o.blobId, q.patches[k].start, q.patches[k].end))
  {
    assert PatchFits(q, g.sorted, o.blobId, k);
    QuiltPatch.PatchRoundTrip(o.blobId, q.patches[k].start, q.patches[k].end);
  }

  // ---- why a preparation can fail ---------------------------------------------------------------------

  datatype Collision =
    | Uploads(owner: string, source: string, otherOwner: string, otherSource: string)
    | Sources(owner: string, rows: seq<SourceRow>, otherOwner: string, otherRows: seq<SourceRow>)
    | Contents(bytes: Bytes, otherBytes: Bytes)
    | Nothing

  /** Two different inputs with one hash. */
  predicate Collides(env: Env, c: Collision) {
    match c
    case Uploads(o, s, p, t) => (o, s) != (p, t) && env.uploadId(o, s) == env.uploadId(p, t)
    case Sources(o, r, p, t) => (o, r) != (p, t) && env.sourceHash(o, r) == env.sourceHash(p, t)
    case Contents(a, b) => a != b && env.hash(a) == env.hash(b)
    case Nothing => false
  }

  function Rows(env: Env, sorted: seq<Asset>): seq<SourceRow> { Sequences.Map((a: Asset) => RowOf(env, a), sorted) }

  lemma RowAt(env: Env, sorted: seq<Asset>, k: nat)
    requires k < |sorted|
    ensures |Rows(env, sorted)| == |sorted| && Rows(env, sorted)[k] == RowOf(env, sorted[k])
  {}

  /** One source row is one asset, unless two contents have one hash. */
  lemma SameRowSameAsset(env: Env, a: Asset, b: Asset) returns (c: Collision)
    requires AssetOk(a) && AssetOk(b) && RowOf(env, a) == RowOf(env, b)
    ensures a == b || Collides(env, c)
  {
    var x, y := FromBase64(a.bytesBase64).value, FromBase64(b.bytesBase64).value;
    c := if x == y then Nothing else Contents(x, y);
  }

  lemma {:induction false} SameRowsSameAssets(env: Env, a: seq<Asset>, b: seq<Asset>) returns (c: Collision)
    requires AssetsOk(a) && AssetsOk(b) && Rows(env, a) == Rows(env, b)
    ensures a == b || Collides(env, c)
  {
    c := Nothing;
    assert |a| == |Rows(env, a)| == |b|;
    if k: nat :| k < |a| && a[k] != b[k] {
      RowAt(env, a, k);
      RowAt(env, b, k);
      c := SameRowSameAsset(env, a[k], b[k]);
    }
  }

  /** Different assets never share an upload: one upload identity means one group, unless a hash collides. */
  lemma OneUploadOneGroup(env: Env, g: Group, h: Group) returns (c: Collision)
    requires GroupOk(env, g) && GroupOk(env, h) && g.uploadId == h.uploadId
    ensures g == h || Collides(env, c)
  {
    if (g.owner, g.sourceSha256) != (h.owner, h.sourceSha256) {
      c := Uploads(g.owner, g.sourceSha256, h.owner, h.sourceSha256);
    } else if Rows(env, g.sorted) != Rows(env, h.sorted) {
      c := Sources(g.owner, Rows(env, g.sorted), h.owner, Rows(env, h.sorted));
    } else {
      c := SameRowsSameAssets(env, g.sorted, h.sorted);
    }
  }

  ghost predicate Increasing(blobs: seq<Blob>) {
    forall i, j :: 0 <= i < j < |blobs| ==> Ordering.TextLess(blobs[i].identifier, blobs[j].identifier)
  }

  /** The encoder keeps the order of increasing identifiers and gives each blob a range that fits 16 bits. */
  ghost predicate PatchesMatch(blobs: seq<Blob>, q: Quilt) {
    |q.patches| == |blobs| && forall k :: 0 <= k < |blobs| ==>
      q.patches[k].identifier == blobs[k].identifier && QuiltPatch.RangeOk(q.patches[k].start, q.patches[k].end)
  }

  ghost predicate EncoderOk(env: Env) {
    forall blobs, n :: Increasing(blobs) && env.encode(blobs, n).Some? ==> PatchesMatch(blobs, env.encode(blobs, n).value)
  }

  lemma GroupIncreasing(env: Env, g: Group)
    requires GroupOk(env, g)
    ensures |g.blobs| == |g.sorted| && forall k :: 0 <= k < |g.sorted| ==> g.blobs[k].identifier == g.sorted[k].assetId
    ensures Increasing(g.blobs)
  {
    forall i, j | 0 <= i < j < |g.blobs| ensures Ordering.TextLess(g.blobs[i].identifier, g.blobs[j].identifier) {
      Ordering.TextTotal(g.sorted[i].assetId, g.sorted[j].assetId);
      assert Ordering.Le(ById(g.sorted[i]), ById(g.sorted[j]));
    }
  }

  lemma PatchesFit(env: Env, g: Group, q: Quilt, blobId: string)
    requires GroupOk(env, g) && PatchesMatch(g.blobs, q) && IdBytes(blobId, 32).Some?
    ensures AllFit(q, g.sorted, blobId)
  {
    GroupIncreasing(env, g);
    forall k: nat | k < |g.sorted| ensures PatchFits(q, g.sorted, blobId, k) {
      QuiltPatch.PatchRoundTrip(blobId, q.patches[k].start, q.patches[k].end);
    }
  }

  /** A binding is met by its own group, so what was encoded once is encoded again. */
  lemma BoundNeverDrifts(env: Env, w: World, g: Group) returns (c: Collision)
    requires GroupOk(env, g) && g.uploadId in w.store.bindings && PinInv(env, w, g.uploadId)
    ensures Bound(env, g, w.store.bindings[g.uploadId]).LoadUpload? || Collides(env, c)
  {
    c := OneUploadOneGroup(env, g, w.pinned[g.uploadId]);
  }

  lemma ContentNeverDrifts(env: Env, w: World, g: Group, b: Binding, q: Quilt, u: Upload) returns (c: Collision)
    requires EncoderOk(env) && GroupOk(env, g) && HasPinned(env, w.store, g, b, q)
    requires UploadInv(env, w, g.uploadId) && SameUpload(u, w.store.uploads[g.uploadId])
    ensures Finish(env, g, b, q, u, w.store.uploads[g.uploadId]).Done? || Collides(env, c)
  {
    c := OneUploadOneGroup(env, g, w.uploaded[g.uploadId]);
    if !Collides(env, c) { OwnFinishes(env, w, g, b, q, u); }
  }

  lemma OwnFinishes(env: Env, w: World, g: Group, b: Binding, q: Quilt, u: Upload)
    requires EncoderOk(env) && GroupOk(env, g) && HasPinned(env, w.store, g, b, q)
    requires UploadInv(env, w, g.uploadId) && w.uploaded[g.uploadId] == g && SameUpload(u, w.store.uploads[g.uploadId])
    ensures Finish(env, g, b, q, u, w.store.uploads[g.uploadId]).Done?
  {
    OwnContent(env, w, g, b, q, u);
    EncodesFit(env, g, b.numShards, q, u.blobId);
    Finishes(env, g, b, q, u, w.store.uploads[g.uploadId]);
  }

  lemma OwnContent(env: Env, w: World, g: Group, b: Binding, q: Quilt, u: Upload)
    requires HasPinned(env, w.store, g, b, q) && UploadInv(env, w, g.uploadId) && w.uploaded[g.uploadId] == g
    requires SameUpload(u, w.store.uploads[g.uploadId])
    ensures u.bytes == q.bytes && w.store.uploads[g.uploadId].bytes == q.bytes && w.store.uploads[g.uploadId].owner == g.owner
    ensures env.hash(q.bytes) == b.quiltSha256 && env.encode(g.blobs, b.numShards) == Some(q) && IdBytes(u.blobId, 32).Some?
  {}

  lemma Finishes(env: Env, g: Group, b: Binding, q: Quilt, u: Upload, content: Upload)
    requires u.bytes == q.bytes && content.bytes == q.bytes && content.owner == g.owner
    requires env.hash(q.bytes) == b.quiltSha256 && AllFit(q, g.sorted, u.blobId)
    ensures Finish(env, g, b, q, u, content).Done?
  {}

  lemma EncodesFit(env: Env, g: Group, n: int, q: Quilt, blobId: string)
    requires EncoderOk(env) && GroupOk(env, g) && env.encode(g.blobs, n) == Some(q) && IdBytes(blobId, 32).Some?
    ensures AllFit(q, g.sorted, blobId)
  {
    GroupIncreasing(env, g);
    PatchesFit(env, g, q, blobId);
  }

  /**
   * No preparation of any run fails by drift: it fails on the live shard count or the first encoding, or because the
   * publisher refuses, and nowhere else unless two inputs have one hash.
   */
  lemma NeverDrifts(env: Env, events: seq<Event>, e: Event) returns (c: Collision)
    requires EncoderOk(env) && Resumes(Run(env, Empty, events), e)
    ensures var w := Run(env, Empty, events); var before := w.flights[e.id].stage;
      Ticked(env, w, e).1.Failed? ==> before.Failed? || before.ReadShards? || before.CreateUpload? || Collides(env, c)
  {
    var w := Run(env, Empty, events);
    RunKeeps(env, events);
    c := TickNeverDrifts(env, w, e);
  }

  lemma TickNeverDrifts(env: Env, w: World, e: Event) returns (c: Collision)
    requires EncoderOk(env) && Inv(env, w) && Resumes(w, e)
    ensures var before := w.flights[e.id].stage;
      Ticked(env, w, e).1.Failed? ==> before.Failed? || before.ReadShards? || before.CreateUpload? || Collides(env, c)
  {
    FlightAt(env, w, e.id);
    c := StageNeverDrifts(env, w, w.flights[e.id].group, w.flights[e.id].stage, e.n, e.blob);
  }

  lemma StageNeverDrifts(env: Env, w: World, g: Group, stage: Stage, n: int, blob: Bytes) returns (c: Collision)
    requires EncoderOk(env) && GroupOk(env, g) && StageInv(env, w.store, g, stage)
    requires g.uploadId in w.store.bindings ==> PinInv(env, w, g.uploadId)
    requires g.uploadId in w.store.uploads ==> UploadInv(env, w, g.uploadId)
    ensures Tick(env, w.store, g, stage, n, blob).1.Failed? ==>
              stage.Failed? || stage.ReadShards? || stage.CreateUpload? || Collides(env, c)
  {
    c := Nothing;
    match stage
    case LoadBinding => if g.uploadId in w.store.bindings { c := BoundNeverDrifts(env, w, g); }
    case ReloadBinding => c := BoundNeverDrifts(env, w, g);
    case LoadContent(b, q, u) => c := ContentNeverDrifts(env, w, g, b, q, u);
    case _ =>
  }
}
