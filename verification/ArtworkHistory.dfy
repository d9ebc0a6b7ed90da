/**
 * Runs of the external artwork store: saves, settings saves and upload references from any number of tabs, with the
 * storage preparations of maker-v8-composable-transport.js in flight between them.  Between loading its source and
 * remembering its upload a preparation only reads, so those reads are not events; any of them may end it.
 */
module ArtworkHistory {
  import opened Results
  import opened ArtworkStore
  import SafeText

  /** The arguments of sourceUploadId. */
  datatype Source = Source(binding: Binding, revision: int, sha256: string, settings: Settings)

  /** The store's hash and artwork check, and sourceUploadId. */
  datatype Env = Env(codec: Codec, uploadId: Source -> string)

  ghost predicate EnvOk(env: Env) {
    && (forall b: Bytes :: SafeText.IsHash(env.codec.digest(b)))
    && (forall s: Source :: IsUploadId(env.uploadId(s)))
  }

  /** What a record held at one revision. */
  datatype Version = Version(sha256: string, settings: Option<Settings>)

  /** A preparation that has loaded its source. */
  datatype Flight = Flight(source: Source, uploadId: string)

  /**
   * past lists, for each key, what its record held at revisions 1, 2, ...; remembered holds the preparations whose
   * reference was stored.  The program keeps neither.
   */
  datatype World = World(db: Db, past: map<Key, seq<Version>>, flights: map<nat, Flight>, remembered: map<nat, Flight>)

  datatype Event =
    | SaveEvent(binding: Binding, expected: int, bytes: Bytes)
    | SettingsEvent(binding: Binding, expected: int, settings: Settings, target: Option<Target>)
    | RememberEvent(binding: Binding, expected: int, uploadId: string, sha256: string)
    | PrepareLoad(id: nat, binding: Binding, expected: int)
    | PrepareRemember(id: nat)

  const Empty := World(map[], map[], map[], map[])

  function Effect(env: Env, w: World, e: Event): (Db, Result<Record, Failure>) {
    match e
    case SaveEvent(binding, expected, bytes) => Save(env.codec, w.db, binding, expected, bytes)
    case SettingsEvent(binding, expected, settings, target) => SaveSettings(env.codec, w.db, binding, expected, settings, target)
    case RememberEvent(binding, expected, uploadId, sha256) => RememberUpload(env.codec, w.db, binding, expected, uploadId, sha256)
    case PrepareLoad(_, _, _) => (w.db, Err(Invalid))
    case PrepareRemember(id) =>
      if id !in w.flights then (w.db, Err(Invalid))
      else
        var s := w.flights[id].source;
        RememberUpload(env.codec, w.db, s.binding, s.revision, w.flights[id].uploadId, s.sha256)
  }

  predicate NewRevision(e: Event) { e.SaveEvent? || e.SettingsEvent? }

  function Past(w: World, key: Key): seq<Version> { if key in w.past then w.past[key] else [] }

  function VersionOf(r: Record): Version { Version(r.sha256, r.settings) }

  function Flights(env: Env, w: World, e: Event): map<nat, Flight> {
    match e
    case PrepareLoad(id, binding, expected) =>
      var r := Loaded(env.codec, w.db, binding);
      if id in w.flights || id in w.remembered || r.Err? || r.value.None? || r.value.value.revision != expected || r.value.value.settings.None? then w.flights
      else
        var source := Source(binding, expected, r.value.value.sha256, r.value.value.settings.value);
        w.flights[id := Flight(source, env.uploadId(source))]
    case PrepareRemember(id) => w.flights - {id}
    case _ => w.flights
  }

  function Step(env: Env, w: World, e: Event): World {
    var (db, r) := Effect(env, w, e);
    World(db,
          if r.Ok? && NewRevision(e) then w.past[r.value.key := Past(w, r.value.key) + [VersionOf(r.value)]] else w.past,
          Flights(env, w, e),
          if r.Ok? && e.PrepareRemember? then w.remembered[e.id := w.flights[e.id]] else w.remembered)
  }

  function Run(env: Env, w: World, events: seq<Event>): World
    decreases |events|
  {
    if events == [] then w else Step(env, Run(env, w, events[..|events| - 1]), events[|events| - 1])
  }

  // ---- the invariant ----------------------------------------------------------------------------------

  predicate RefInv(r: Reference, versions: seq<Version>) {
    && IsUploadId(r.uploadId) && 1 <= r.artworkRevision <= MAX_SAFE && r.artworkRevision <= |versions|
    && SafeText.IsHash(r.sha256) && KeysOk(r.settings)
    && versions[r.artworkRevision - 1] == Version(r.sha256, Some(r.settings))
  }

  ghost predicate RefsInv(s: seq<Reference>, versions: seq<Version>) {
    (forall i :: 0 <= i < |s| ==> RefInv(s[i], versions)) && IdsDistinct(s)
  }

  predicate HeadInv(env: Env, r: Record, key: Key, versions: seq<Version>) {
    && r.key == key && KeyFor(r.binding) == Some(key) && 1 <= r.revision <= MAX_SAFE + 1
    && env.codec.digest(r.bytes) == r.sha256 && SafeText.IsHash(r.sha256) && env.codec.accepts(r.bytes)
    && (r.settings.Some? ==> KeysOk(r.settings.value))
    && |versions| == r.revision && versions[r.revision - 1] == VersionOf(r)
  }

  ghost predicate RecordInv(env: Env, r: Record, key: Key, versions: seq<Version>) {
    HeadInv(env, r, key, versions) && RefsInv(r.uploads, versions)
  }

  predicate FlightInv(env: Env, f: Flight, w: World) {
    && f.uploadId == env.uploadId(f.source)
    && KeyFor(f.source.binding).Some?
    && 1 <= f.source.revision <= |Past(w, KeyFor(f.source.binding).value)|
    && Past(w, KeyFor(f.source.binding).value)[f.source.revision - 1] == Version(f.source.sha256, Some(f.source.settings))
  }

  ghost predicate Inv(env: Env, w: World) {
    && (forall key :: key in w.db ==> RecordInv(env, w.db[key], key, Past(w, key)))
    && (forall key :: key in w.past ==> key in w.db)
    && (forall id :: id in w.flights ==> FlightInv(env, w.flights[id], w))
    && (forall id :: id in w.remembered ==> RememberedInv(env, w.remembered[id], w))
  }

  /** The record refers to the upload of a remembered preparation. */
  predicate RememberedInv(env: Env, f: Flight, w: World) {
    && FlightInv(env, f, w) && KeyFor(f.source.binding).value in w.db
    && FindUpload(w.db[KeyFor(f.source.binding).value].uploads, f.uploadId).Some?
  }

  lemma RefsMore(s: seq<Reference>, a: seq<Version>, b: seq<Version>)
    requires RefsInv(s, a) && a <= b
    ensures RefsInv(s, b)
  {}

  /** A stored record passes check exactly while its revision is a safe integer. */
  lemma PassesExactly(env: Env, r: Record, key: Key, versions: seq<Version>)
    requires RecordInv(env, r, key, versions)
    ensures Passes(env.codec, r, key) <==> r.revision <= MAX_SAFE
  {}

  /** What a key's record must be before an update, with the versions it has had. */
  ghost predicate PriorInv(env: Env, prior: Option<Record>, key: Key, versions: seq<Version>) {
    if prior.Some? then RecordInv(env, prior.value, key, versions) && prior.value.revision <= MAX_SAFE else versions == []
  }

  lemma SavedKeeps(env: Env, binding: Binding, expected: int, bytes: Bytes, prior: Option<Record>, key: Key, versions: seq<Version>)
    requires PriorInv(env, prior, key, versions) && KeyFor(binding) == Some(key)
    requires SafeText.IsHash(env.codec.digest(bytes)) && env.codec.accepts(bytes)
    requires Saved(binding, expected, bytes, env.codec.digest(bytes), prior, key).Ok?
    ensures var r := Saved(binding, expected, bytes, env.codec.digest(bytes), prior, key).value;
      RecordInv(env, r, key, versions + [VersionOf(r)])
  {
    var r := Saved(binding, expected, bytes, env.codec.digest(bytes), prior, key).value;
    if prior.Some? { RefsMore(prior.value.uploads, versions, versions + [VersionOf(r)]); }
  }

  lemma SettingsSavedKeeps(env: Env, expected: int, settings: Settings, prior: Option<Record>, key: Key, versions: seq<Version>)
    requires PriorInv(env, prior, key, versions) && KeysOk(settings) && SettingsSaved(expected, settings, prior).Ok?
    ensures var r := SettingsSaved(expected, settings, prior).value;
      RecordInv(env, r, key, versions + [VersionOf(r)])
  {
    var r := SettingsSaved(expected, settings, prior).value;
    RefsMore(prior.value.uploads, versions, versions + [VersionOf(r)]);
  }

  lemma RefsAppend(s: seq<Reference>, r: Reference, versions: seq<Version>)
    requires RefsInv(s, versions) && RefInv(r, versions) && FindUpload(s, r.uploadId).None?
    ensures RefsInv(s + [r], versions)
  {}

  lemma RememberedKeeps(env: Env, expected: int, uploadId: string, sha256: string, prior: Option<Record>, key: Key, versions: seq<Version>)
    requires PriorInv(env, prior, key, versions) && IsUploadId(uploadId) && Remembered(expected, uploadId, sha256, prior).Ok?
    ensures RecordInv(env, Remembered(expected, uploadId, sha256, prior).value, key, versions)
  {
    if FindUpload(prior.value.uploads, uploadId).None? {
      var reference := Reference(uploadId, expected, sha256, prior.value.settings.value);
      RefsAppend(prior.value.uploads, reference, versions);
    }
  }

  /** A successful transaction updated a record that passed check. */
  lemma Transacted(env: Env, w: World, binding: Binding, update: Update)
    requires Inv(env, w) && Transact(env.codec, w.db, binding, update).1.Ok?
    ensures var (db, r) := Transact(env.codec, w.db, binding, update);
      && KeyFor(binding).Some?
      && update(At(w.db, KeyFor(binding).value), KeyFor(binding).value) == r
      && db == w.db[KeyFor(binding).value := r.value]
      && PriorInv(env, At(w.db, KeyFor(binding).value), KeyFor(binding).value, Past(w, KeyFor(binding).value))
  {
    var key := KeyFor(binding).value;
    if key in w.db { PassesExactly(env, w.db[key], key, Past(w, key)); }
  }

  /** A remembered upload adds at most one reference. */
  predicate OneMore(prior: Option<Record>, r: Record) {
    && prior.Some? && r == prior.value.(uploads := r.uploads) && prior.value.uploads <= r.uploads
    && |r.uploads| <= |prior.value.uploads| + 1
  }

  lemma RememberedMoves(expected: int, uploadId: string, sha256: string, prior: Option<Record>)
    requires Remembered(expected, uploadId, sha256, prior).Ok?
    ensures OneMore(prior, Remembered(expected, uploadId, sha256, prior).value)
  {}

  lemma RememberWrites(env: Env, w: World, binding: Binding, expected: int, uploadId: string, sha256: string)
    requires Inv(env, w) && RememberUpload(env.codec, w.db, binding, expected, uploadId, sha256).1.Ok?
    ensures var (db, r) := RememberUpload(env.codec, w.db, binding, expected, uploadId, sha256);
      && KeyFor(binding) == Some(r.value.key) && db == w.db[r.value.key := r.value]
      && Remembered(expected, uploadId, sha256, At(w.db, r.value.key)) == r && OneMore(At(w.db, r.value.key), r.value)
      && RecordInv(env, r.value, r.value.key, Past(w, r.value.key))
  {
    Transacted(env, w, binding, (prior, key) => Remembered(expected, uploadId, sha256, prior));
    var key := KeyFor(binding).value;
    RememberedMoves(expected, uploadId, sha256, At(w.db, key));
    RememberedKeeps(env, expected, uploadId, sha256, At(w.db, key), key, Past(w, key));
  }

  lemma SaveWrites(env: Env, w: World, binding: Binding, expected: int, bytes: Bytes)
    requires EnvOk(env) && Inv(env, w) && Save(env.codec, w.db, binding, expected, bytes).1.Ok?
    ensures var (db, r) := Save(env.codec, w.db, binding, expected, bytes);
      && KeyFor(binding) == Some(r.value.key) && db == w.db[r.value.key := r.value]
      && Saved(binding, expected, bytes, env.codec.digest(bytes), At(w.db, r.value.key), r.value.key) == r
      && RecordInv(env, r.value, r.value.key, Past(w, r.value.key) + [VersionOf(r.value)])
  {
    Transacted(env, w, binding, (prior, key) => Saved(binding, expected, bytes, env.codec.digest(bytes), prior, key));
    var key := KeyFor(binding).value;
    SavedKeeps(env, binding, expected, bytes, At(w.db, key), key, Past(w, key));
  }

  lemma SettingsWrites(env: Env, w: World, binding: Binding, expected: int, settings: Settings, target: Option<Target>)
    requires Inv(env, w) && SaveSettings(env.codec, w.db, binding, expected, settings, target).1.Ok?
    ensures var (db, r) := SaveSettings(env.codec, w.db, binding, expected, settings, target);
      && KeyFor(binding) == Some(r.value.key) && db == w.db[r.value.key := r.value]
      && SettingsSaved(expected, settings, At(w.db, r.value.key)) == r
      && RecordInv(env, r.value, r.value.key, Past(w, r.value.key) + [VersionOf(r.value)])
  {
    Transacted(env, w, binding, (prior, key) => SettingsSaved(expected, settings, prior));
    var key := KeyFor(binding).value;
    SettingsSavedKeeps(env, expected, settings, At(w.db, key), key, Past(w, key));
  }

  /** How a record moves when an event succeeds. */
  predicate Moves(prior: Option<Record>, r: Record, e: Event) {
    if NewRevision(e) then NextRevision(prior, r) else OneMore(prior, r)
  }

  /** A successful event writes one record and nothing else: a new revision, or at most one more upload reference. */
  ghost predicate OneWritten(env: Env, w: World, e: Event, w': World) {
    var r := Effect(env, w, e).1;
    && r.Ok? && w'.db == w.db[r.value.key := r.value]
    && w'.past == (if NewRevision(e) then w.past[r.value.key := Past(w, r.value.key) + [VersionOf(r.value)]] else w.past)
    && RecordInv(env, r.value, r.value.key, Past(w', r.value.key)) && Moves(At(w.db, r.value.key), r.value, e)
  }

  predicate NextRevision(prior: Option<Record>, r: Record) {
    && r.revision == (if prior.Some? then prior.value.revision else 0) + 1
    && r.uploads == (if prior.Some? then prior.value.uploads else [])
  }

  lemma SaveMoves(binding: Binding, expected: int, bytes: Bytes, sha256: string, prior: Option<Record>, key: Key)
    requires Saved(binding, expected, bytes, sha256, prior, key).Ok?
    ensures NextRevision(prior, Saved(binding, expected, bytes, sha256, prior, key).value)
  {}

  lemma SettingsMove(expected: int, settings: Settings, prior: Option<Record>)
    requires SettingsSaved(expected, settings, prior).Ok?
    ensures NextRevision(prior, SettingsSaved(expected, settings, prior).value)
  {}

  lemma Revised(env: Env, w: World, e: Event, r: Record)
    requires Effect(env, w, e) == (w.db[r.key := r], Ok(r)) && NewRevision(e)
    requires RecordInv(env, r, r.key, Past(w, r.key) + [VersionOf(r)]) && NextRevision(At(w.db, r.key), r)
    ensures OneWritten(env, w, e, Step(env, w, e))
  {}

  lemma OneSave(env: Env, w: World, e: Event)
    requires EnvOk(env) && Inv(env, w) && Effect(env, w, e).1.Ok? && e.SaveEvent?
    ensures OneWritten(env, w, e, Step(env, w, e))
  {
    SaveWrites(env, w, e.binding, e.expected, e.bytes);
    var r := Effect(env, w, e).1.value;
    SaveMoves(e.binding, e.expected, e.bytes, env.codec.digest(e.bytes), At(w.db, r.key), r.key);
    Revised(env, w, e, r);
  }

  lemma OneSettings(env: Env, w: World, e: Event)
    requires EnvOk(env) && Inv(env, w) && Effect(env, w, e).1.Ok? && e.SettingsEvent?
    ensures OneWritten(env, w, e, Step(env, w, e))
  {
    SettingsWrites(env, w, e.binding, e.expected, e.settings, e.target);
    var r := Effect(env, w, e).1.value;
    SettingsMove(e.expected, e.settings, At(w.db, r.key));
    Revised(env, w, e, r);
  }

  lemma Rewritten(env: Env, w: World, e: Event, r: Record)
    requires Effect(env, w, e) == (w.db[r.key := r], Ok(r)) && !NewRevision(e)
    requires RecordInv(env, r, r.key, Past(w, r.key)) && OneMore(At(w.db, r.key), r)
    ensures OneWritten(env, w, e, Step(env, w, e))
  {}

  lemma OneRemember(env: Env, w: World, e: Event)
    requires EnvOk(env) && Inv(env, w) && Effect(env, w, e).1.Ok? && e.RememberEvent?
    ensures OneWritten(env, w, e, Step(env, w, e))
  {
    RememberWrites(env, w, e.binding, e.expected, e.uploadId, e.sha256);
    Rewritten(env, w, e, Effect(env, w, e).1.value);
  }

  lemma OnePrepare(env: Env, w: World, e: Event)
    requires EnvOk(env) && Inv(env, w) && Effect(env, w, e).1.Ok? && e.PrepareRemember?
    ensures OneWritten(env, w, e, Step(env, w, e))
  {
    var r := PrepareWrites(env, w, e);
    Rewritten(env, w, e, r);
  }

  lemma PrepareEffect(env: Env, w: World, e: Event)
    requires e.PrepareRemember? && Effect(env, w, e).1.Ok?
    ensures e.id in w.flights
    ensures var f := w.flights[e.id];
      Effect(env, w, e) == RememberUpload(env.codec, w.db, f.source.binding, f.source.revision, f.uploadId, f.source.sha256)
  {}

  /** The record a finished preparation writes. */
  lemma PrepareWrites(env: Env, w: World, e: Event) returns (r: Record)
    requires EnvOk(env) && Inv(env, w) && e.PrepareRemember? && Effect(env, w, e).1.Ok?
    ensures e.id in w.flights && Effect(env, w, e) == (w.db[r.key := r], Ok(r))
    ensures var f := w.flights[e.id];
      && KeyFor(f.source.binding) == Some(r.key) && OneMore(At(w.db, r.key), r) && RecordInv(env, r, r.key, Past(w, r.key))
      && Remembered(f.source.revision, f.uploadId, f.source.sha256, At(w.db, r.key)) == Ok(r)
  {
    PrepareEffect(env, w, e);
    var f := w.flights[e.id];
    RememberWrites(env, w, f.source.binding, f.source.revision, f.uploadId, f.source.sha256);
    r := RememberUpload(env.codec, w.db, f.source.binding, f.source.revision, f.uploadId, f.source.sha256).1.value;
  }

  lemma OneWrite(env: Env, w: World, e: Event)
    requires EnvOk(env) && Inv(env, w) && Effect(env, w, e).1.Ok?
    ensures OneWritten(env, w, e, Step(env, w, e))
  {
    match e
    case SaveEvent(_, _, _) => OneSave(env, w, e);
    case SettingsEvent(_, _, _, _) => OneSettings(env, w, e);
    case RememberEvent(_, _, _, _) => OneRemember(env, w, e);
    case PrepareRemember(_) => OnePrepare(env, w, e);
  }

  lemma FailedWritesNothing(env: Env, w: World, e: Event)
    requires Effect(env, w, e).1.Err?
    ensures Step(env, w, e).db == w.db && Step(env, w, e).past == w.past
  {}

  lemma PastGrows(env: Env, w: World, e: Event, key: Key)
    ensures Past(w, key) <= Past(Step(env, w, e), key)
  {}

  lemma FlightStays(env: Env, f: Flight, w: World, e: Event)
    requires FlightInv(env, f, w)
    ensures FlightInv(env, f, Step(env, w, e))
  {
    PastGrows(env, w, e, KeyFor(f.source.binding).value);
  }

  /** A preparation that starts has loaded the current version of its record. */
  lemma FlightStarts(env: Env, w: World, e: Event)
    requires Inv(env, w) && e.PrepareLoad? && e.id !in w.flights && e.id in Step(env, w, e).flights
    ensures FlightInv(env, Step(env, w, e).flights[e.id], w)
  {
    LoadedRecord(env, w, e);
    RecordParts(env, w, KeyFor(e.binding).value);
    LoadedVersion(env, w, e);
  }

  lemma LoadedRecord(env: Env, w: World, e: Event)
    requires e.PrepareLoad? && e.id !in w.flights && e.id in Step(env, w, e).flights
    ensures KeyFor(e.binding).Some? && KeyFor(e.binding).value in w.db
  {}

  lemma LoadedVersion(env: Env, w: World, e: Event)
    requires e.PrepareLoad? && e.id !in w.flights && e.id in Step(env, w, e).flights
    requires var key := KeyFor(e.binding); key.Some? && key.value in w.db && HeadInv(env, w.db[key.value], key.value, Past(w, key.value))
    ensures FlightInv(env, Step(env, w, e).flights[e.id], w)
  {}

  lemma FlightsFrom(env: Env, w: World, e: Event, id: nat)
    requires id in Step(env, w, e).flights && !(e.PrepareLoad? && e.id == id && id !in w.flights)
    ensures id in w.flights && Step(env, w, e).flights[id] == w.flights[id]
  {}

  lemma StepRecords(env: Env, w: World, e: Event, key: Key)
    requires EnvOk(env) && Inv(env, w) && key in Step(env, w, e).db
    ensures RecordInv(env, Step(env, w, e).db[key], key, Past(Step(env, w, e), key))
  {
    if Effect(env, w, e).1.Ok? {
      OneWrite(env, w, e);
      OtherRecords(env, w, e, Step(env, w, e), key);
    } else {
      FailedWritesNothing(env, w, e);
    }
  }

  lemma OtherRecords(env: Env, w: World, e: Event, w': World, key: Key)
    requires OneWritten(env, w, e, w') && key in w'.db && (key in w.db ==> RecordInv(env, w.db[key], key, Past(w, key)))
    ensures RecordInv(env, w'.db[key], key, Past(w', key))
  {}

  lemma StepKeys(env: Env, w: World, e: Event, key: Key)
    requires EnvOk(env) && Inv(env, w) && key in Step(env, w, e).past
    ensures key in Step(env, w, e).db
  {
    if Effect(env, w, e).1.Ok? { OneWrite(env, w, e); } else { FailedWritesNothing(env, w, e); }
  }

  lemma StepFlights(env: Env, w: World, e: Event, id: nat)
    requires Inv(env, w) && id in Step(env, w, e).flights
    ensures FlightInv(env, Step(env, w, e).flights[id], Step(env, w, e))
  {
    if e.PrepareLoad? && e.id == id && id !in w.flights { FlightStarts(env, w, e); } else { FlightsFrom(env, w, e, id); }
    FlightStays(env, Step(env, w, e).flights[id], w, e);
  }

  /** Every event keeps the invariant, whatever tab it comes from. */
  lemma StepKeeps(env: Env, w: World, e: Event)
    requires EnvOk(env) && Inv(env, w)
    ensures Inv(env, Step(env, w, e))
  {
    var w' := Step(env, w, e);
    forall key | key in w'.db ensures RecordInv(env, w'.db[key], key, Past(w', key)) { StepRecords(env, w, e, key); }
    forall key | key in w'.past ensures key in w'.db { StepKeys(env, w, e, key); }
    forall id | id in w'.flights ensures FlightInv(env, w'.flights[id], w') { StepFlights(env, w, e, id); }
    forall id | id in w'.remembered ensures RememberedInv(env, w'.remembered[id], w') { StepRemembered(env, w, e, id); }
  }

  lemma FindStays(a: seq<Reference>, b: seq<Reference>, id: string)
    requires a <= b && FindUpload(a, id).Some?
    ensures FindUpload(b, id).Some?
  {
    var k :| 0 <= k < |a| && a[k] == FindUpload(a, id).value;
    assert b[k].uploadId == id;
  }

  /** What a finished preparation left stays. */
  lemma RememberedStays(env: Env, f: Flight, w: World, e: Event)
    requires EnvOk(env) && Inv(env, w) && RememberedInv(env, f, w)
    ensures RememberedInv(env, f, Step(env, w, e))
  {
    var key := KeyFor(f.source.binding).value;
    FlightStays(env, f, w, e);
    StepUploads(env, w, e, key);
    FindStays(w.db[key].uploads, Step(env, w, e).db[key].uploads, f.uploadId);
  }

  lemma StepUploads(env: Env, w: World, e: Event, key: Key)
    requires EnvOk(env) && Inv(env, w) && key in w.db
    ensures key in Step(env, w, e).db && w.db[key].uploads <= Step(env, w, e).db[key].uploads
  {
    if Effect(env, w, e).1.Ok? { OneWrite(env, w, e); } else { FailedWritesNothing(env, w, e); }
  }

  lemma FoundLast(s: seq<Reference>, r: Reference)
    ensures FindUpload(s + [r], r.uploadId).Some?
  {
    assert (s + [r])[|s|] == r;
  }

  /** A preparation that finishes leaves its reference. */
  lemma RememberedStarts(env: Env, w: World, e: Event)
    requires EnvOk(env) && Inv(env, w) && e.PrepareRemember? && Effect(env, w, e).1.Ok?
    ensures RememberedInv(env, w.flights[e.id], Step(env, w, e))
  {
    var r := PrepareWrites(env, w, e);
    var f := w.flights[e.id];
    FlightAt(env, w, e.id);
    FlightStays(env, f, w, e);
    UploadFound(f.source.revision, f.uploadId, f.source.sha256, At(w.db, r.key));
  }

  lemma UploadFound(expected: int, uploadId: string, sha256: string, prior: Option<Record>)
    requires Remembered(expected, uploadId, sha256, prior).Ok?
    ensures FindUpload(Remembered(expected, uploadId, sha256, prior).value.uploads, uploadId).Some?
  {
    if FindUpload(prior.value.uploads, uploadId).None? {
      FoundLast(prior.value.uploads, Reference(uploadId, expected, sha256, prior.value.settings.value));
    }
  }

  lemma StepRemembered(env: Env, w: World, e: Event, id: nat)
    requires EnvOk(env) && Inv(env, w) && id in Step(env, w, e).remembered
    ensures RememberedInv(env, Step(env, w, e).remembered[id], Step(env, w, e))
  {
    if e.PrepareRemember? && e.id == id && Effect(env, w, e).1.Ok? {
      RememberedStarts(env, w, e);
    } else {
      RememberedStays(env, w.remembered[id], w, e);
    }
  }

  /** At the end of every run of the store, its invariant holds. */
  lemma {:induction false} RunKeeps(env: Env, w: World, events: seq<Event>)
    requires EnvOk(env) && Inv(env, w)
    ensures Inv(env, Run(env, w, events))
    decreases |events|
  {
    if events != [] {
      RunKeeps(env, w, events[..|events| - 1]);
      StepKeeps(env, Run(env, w, events[..|events| - 1]), events[|events| - 1]);
    }
  }

  lemma EmptyRun(env: Env, events: seq<Event>)
    requires EnvOk(env)
    ensures Inv(env, Run(env, Empty, events))
  {
    RunKeeps(env, Empty, events);
  }

  /** In every run, what is stored passes check on the next read, until a revision leaves the safe integers. */
  lemma StoredPasses(env: Env, events: seq<Event>, key: Key)
    requires EnvOk(env) && key in Run(env, Empty, events).db
    ensures var r := Run(env, Empty, events).db[key];
      && 1 <= r.revision <= MAX_SAFE + 1
      && (Passes(env.codec, r, key) <==> r.revision <= MAX_SAFE)
  {
    EmptyRun(env, events);
    var w := Run(env, Empty, events);
    PassesExactly(env, w.db[key], key, Past(w, key));
  }

  /** Replacing the artwork of a record at the last safe revision succeeds, and the next read of it is refused. */
  lemma LastRevisionFails(env: Env, db: Db, binding: Binding, bytes: Bytes)
    requires KeyFor(binding).Some? && KeyFor(binding).value in db
    requires Passes(env.codec, db[KeyFor(binding).value], KeyFor(binding).value)
    requires db[KeyFor(binding).value].revision == MAX_SAFE && env.codec.accepts(bytes)
    ensures var (after, r) := Save(env.codec, db, binding, MAX_SAFE, bytes);
      r.Ok? && Loaded(env.codec, after, binding) == Err(Integrity)
  {
    var key := KeyFor(binding).value;
    var (after, r) := Save(env.codec, db, binding, MAX_SAFE, bytes);
    assert r == Saved(binding, MAX_SAFE, bytes, env.codec.digest(bytes), Some(db[key]), key);
    assert after[key].revision == MAX_SAFE + 1;
  }

  /** Saving one artwork again and again reaches every revision, the first that is no safe integer included. */
  lemma {:induction false} EveryRevisionReached(env: Env, binding: Binding, bytes: Bytes, n: nat) returns (events: seq<Event>)
    requires EnvOk(env) && KeyFor(binding).Some? && env.codec.accepts(bytes) && n <= MAX_SAFE + 1
    ensures |events| == n && RevisionOf(Run(env, Empty, events), KeyFor(binding).value) == n
  {
    events := [];
    if n > 0 {
      var before := EveryRevisionReached(env, binding, bytes, n - 1);
      EmptyRun(env, before);
      SaveAgain(env, Run(env, Empty, before), binding, n - 1, bytes);
      events := before + [SaveEvent(binding, n - 1, bytes)];
      assert events[..n - 1] == before;
    }
  }

  lemma SaveAgain(env: Env, w: World, binding: Binding, expected: nat, bytes: Bytes)
    requires Inv(env, w) && KeyFor(binding).Some? && env.codec.accepts(bytes) && expected <= MAX_SAFE
    requires RevisionOf(w, KeyFor(binding).value) == expected
    ensures RevisionOf(Step(env, w, SaveEvent(binding, expected, bytes)), KeyFor(binding).value) == expected + 1
  {
    var key := KeyFor(binding).value;
    if key in w.db { PassesExactly(env, w.db[key], key, Past(w, key)); }
    SaveSucceeds(env.codec, w.db, binding, expected, bytes);
  }

  lemma SaveSucceeds(codec: Codec, db: Db, binding: Binding, expected: nat, bytes: Bytes)
    requires KeyFor(binding).Some? && codec.accepts(bytes) && expected <= MAX_SAFE
    requires var key := KeyFor(binding).value;
      (key in db ==> Passes(codec, db[key], key)) && expected == if key in db then db[key].revision else 0
    ensures var (after, r) := Save(codec, db, binding, expected, bytes);
      KeyFor(binding).value in after && after[KeyFor(binding).value].revision == expected + 1
  {
    var key := KeyFor(binding).value;
    assert Saved(binding, expected, bytes, codec.digest(bytes), At(db, key), key).Ok?;
  }

  // ---- what a run does to one record ------------------------------------------------------------------

  /** A later world: references are only appended, versions only added, and the target never changes. */
  ghost predicate Later(w: World, w': World, key: Key) {
    && key in w.db && key in w'.db
    && w.db[key].uploads <= w'.db[key].uploads && Past(w, key) <= Past(w', key)
    && w'.db[key].binding == w.db[key].binding
  }

  lemma StepLater(env: Env, w: World, e: Event, key: Key)
    requires EnvOk(env) && Inv(env, w) && key in w.db
    ensures Later(w, Step(env, w, e), key)
  {
    PastGrows(env, w, e, key);
    if Effect(env, w, e).1.Ok? {
      OneWrite(env, w, e);
      var r := Effect(env, w, e).1.value;
      if r.key == key {
        assert RecordInv(env, w.db[key], key, Past(w, key));
        KeyForInjective(r.binding, w.db[key].binding);
      }
    } else {
      FailedWritesNothing(env, w, e);
    }
  }

  lemma {:induction false} UploadsOnlyAppended(env: Env, w: World, events: seq<Event>, key: Key)
    requires EnvOk(env) && Inv(env, w) && key in w.db
    ensures Inv(env, Run(env, w, events)) && Later(w, Run(env, w, events), key)
    decreases |events|
  {
    if events != [] {
      var init := events[..|events| - 1];
      UploadsOnlyAppended(env, w, init, key);
      StepKeeps(env, Run(env, w, init), events[|events| - 1]);
      StepLater(env, Run(env, w, init), events[|events| - 1], key);
    }
  }

  predicate WritesKey(env: Env, w: World, e: Event, key: Key) {
    NewRevision(e) && Effect(env, w, e).1.Ok? && Effect(env, w, e).1.value.key == key
  }

  /** The successful content and settings writes of a run to one record. */
  function Writes(env: Env, w: World, events: seq<Event>, key: Key): nat
    decreases |events|
  {
    if events == [] then 0
    else
      var init := events[..|events| - 1];
      Writes(env, w, init, key) + (if WritesKey(env, Run(env, w, init), events[|events| - 1], key) then 1 else 0)
  }

  function RevisionOf(w: World, key: Key): int { if key in w.db then w.db[key].revision else 0 }

  lemma StepCounts(env: Env, w: World, e: Event, key: Key)
    requires EnvOk(env) && Inv(env, w)
    ensures RevisionOf(Step(env, w, e), key) == RevisionOf(w, key) + (if WritesKey(env, w, e, key) then 1 else 0)
  {
    if Effect(env, w, e).1.Ok? { OneWrite(env, w, e); } else { FailedWritesNothing(env, w, e); }
  }

  /** A record's revision is the number of content and settings writes; references to uploads never move it. */
  lemma {:induction false} RevisionCountsWrites(env: Env, events: seq<Event>, key: Key)
    requires EnvOk(env)
    ensures RevisionOf(Run(env, Empty, events), key) == Writes(env, Empty, events, key)
    decreases |events|
  {
    if events != [] {
      var init := events[..|events| - 1];
      RevisionCountsWrites(env, init, key);
      EmptyRun(env, init);
      StepCounts(env, Run(env, Empty, init), events[|events| - 1], key);
    }
  }

  /** A reference and a world at its revision: the same artwork and settings. */
  lemma ReferenceBinds(env: Env, w: World, events: seq<Event>, key: Key, i: nat)
    requires EnvOk(env) && Inv(env, w) && key in w.db
    requires key in Run(env, w, events).db && i < |Run(env, w, events).db[key].uploads|
    ensures var r, head := Run(env, w, events).db[key].uploads[i], w.db[key];
      r.artworkRevision == head.revision ==> r.sha256 == head.sha256 && Some(r.settings) == head.settings
  {
    UploadsOnlyAppended(env, w, events, key);
    RecordParts(env, w, key);
    RecordParts(env, Run(env, w, events), key);
    ReferenceBindsLater(env, w, Run(env, w, events), key, i);
  }

  lemma ReferenceBindsLater(env: Env, w: World, w': World, key: Key, i: nat)
    requires Later(w, w', key) && i < |w'.db[key].uploads|
    requires HeadInv(env, w.db[key], key, Past(w, key)) && RefInv(w'.db[key].uploads[i], Past(w', key))
    ensures var r, head := w'.db[key].uploads[i], w.db[key];
      r.artworkRevision == head.revision ==> r.sha256 == head.sha256 && Some(r.settings) == head.settings
  {
    if w'.db[key].uploads[i].artworkRevision == w.db[key].revision {
      VersionsAgree(w'.db[key].uploads[i], w.db[key], Past(w, key), Past(w', key));
    }
  }

  lemma RecordParts(env: Env, w: World, key: Key)
    requires Inv(env, w) && key in w.db
    ensures HeadInv(env, w.db[key], key, Past(w, key))
    ensures forall i :: 0 <= i < |w.db[key].uploads| ==> RefInv(w.db[key].uploads[i], Past(w, key))
  {
    assert RecordInv(env, w.db[key], key, Past(w, key));
  }

  lemma VersionsAgree(r: Reference, head: Record, past: seq<Version>, later: seq<Version>)
    requires past <= later && 1 <= head.revision == |past| && past[head.revision - 1] == VersionOf(head)
    requires r.artworkRevision == head.revision && later[r.artworkRevision - 1] == Version(r.sha256, Some(r.settings))
    ensures r.sha256 == head.sha256 && Some(r.settings) == head.settings
  {}

  /** The version a reference names holds the reference's artwork and settings. */
  predicate RefAt(r: Reference, past: seq<Version>) {
    1 <= r.artworkRevision <= |past| && past[r.artworkRevision - 1] == Version(r.sha256, Some(r.settings))
  }

  lemma RefVersion(env: Env, w: World, key: Key, i: nat)
    requires Inv(env, w) && key in w.db && i < |w.db[key].uploads|
    ensures RefAt(w.db[key].uploads[i], Past(w, key))
  {
    assert RecordInv(env, w.db[key], key, Past(w, key));
    assert RefInv(w.db[key].uploads[i], Past(w, key));
  }

  lemma PrefixOfPrefix<T>(s: seq<T>, n: nat, k: nat)
    requires k <= n <= |s|
    ensures s[..n][..k] == s[..k] && s[..|s|] == s
  {}

  /** Every listed version was once the stored record. */
  lemma {:induction false} VersionsWereStored(env: Env, events: seq<Event>, key: Key, revision: nat) returns (k: nat)
    requires EnvOk(env) && 1 <= revision <= |Past(Run(env, Empty, events), key)|
    ensures k <= |events| && key in Run(env, Empty, events[..k]).db
    ensures var r := Run(env, Empty, events[..k]).db[key];
      r.revision == revision && VersionOf(r) == Past(Run(env, Empty, events), key)[revision - 1]
    decreases |events|
  {
    assert events != [];
    var init := events[..|events| - 1];
    var w := Run(env, Empty, init);
    if revision <= |Past(w, key)| {
      PastGrows(env, w, events[|events| - 1], key);
      k := VersionsWereStored(env, init, key, revision);
      PrefixOfPrefix(events, |init|, k);
    } else {
      k := |events|;
      PrefixOfPrefix(events, k, k);
      EmptyRun(env, init);
      LastVersion(env, w, events[|events| - 1], key, revision);
    }
  }

  lemma LastVersion(env: Env, w: World, e: Event, key: Key, revision: nat)
    requires EnvOk(env) && Inv(env, w) && |Past(w, key)| < revision <= |Past(Step(env, w, e), key)|
    ensures key in Step(env, w, e).db && Step(env, w, e).db[key].revision == revision
    ensures VersionOf(Step(env, w, e).db[key]) == Past(Step(env, w, e), key)[revision - 1]
  {
    if Effect(env, w, e).1.Ok? {
      OneWrite(env, w, e);
      WrittenVersion(env, w, e, Step(env, w, e), key, revision);
    } else {
      FailedWritesNothing(env, w, e);
    }
  }

  lemma WrittenVersion(env: Env, w: World, e: Event, w': World, key: Key, revision: nat)
    requires OneWritten(env, w, e, w') && |Past(w, key)| < revision <= |Past(w', key)|
    ensures key in w'.db && w'.db[key].revision == revision && VersionOf(w'.db[key]) == Past(w', key)[revision - 1]
  {}

  lemma RunRefVersion(env: Env, events: seq<Event>, key: Key, i: nat)
    requires EnvOk(env) && key in Run(env, Empty, events).db && i < |Run(env, Empty, events).db[key].uploads|
    ensures RefAt(Run(env, Empty, events).db[key].uploads[i], Past(Run(env, Empty, events), key))
  {
    EmptyRun(env, events);
    RefVersion(env, Run(env, Empty, events), key, i);
  }

  /** Every upload reference holds the artwork and settings its record had, at some point of the run, at its revision. */
  lemma ReferenceWasStored(env: Env, events: seq<Event>, key: Key, i: nat) returns (k: nat)
    requires EnvOk(env) && key in Run(env, Empty, events).db && i < |Run(env, Empty, events).db[key].uploads|
    ensures k <= |events| && key in Run(env, Empty, events[..k]).db
    ensures var r, stored := Run(env, Empty, events).db[key].uploads[i], Run(env, Empty, events[..k]).db[key];
      stored.revision == r.artworkRevision && stored.sha256 == r.sha256 && stored.settings == Some(r.settings)
  {
    RunRefVersion(env, events, key, i);
    k := VersionsWereStored(env, events, key, Run(env, Empty, events).db[key].uploads[i].artworkRevision);
  }

  // ---- preparations -----------------------------------------------------------------------------------

  /** Upload ids come from sourceUploadId: no reference is remembered except by a preparation. */
  ghost predicate Honest(events: seq<Event>) { forall k :: 0 <= k < |events| ==> !events[k].RememberEvent? }

  function SourceOf(b: Binding, r: Reference): Source { Source(b, r.artworkRevision, r.sha256, r.settings) }

  predicate Sourced(env: Env, r: Record) {
    forall i :: 0 <= i < |r.uploads| ==> r.uploads[i].uploadId == env.uploadId(SourceOf(r.binding, r.uploads[i]))
  }

  /** The check of history() on every stored reference. */
  ghost predicate SourceInv(env: Env, w: World) { forall key :: key in w.db ==> Sourced(env, w.db[key]) }

  /** The source of a preparation whose revision is still current holds the current artwork and settings. */
  lemma FlightIsCurrent(env: Env, w: World, id: nat, key: Key)
    requires Inv(env, w) && id in w.flights && KeyFor(w.flights[id].source.binding) == Some(key)
    requires key in w.db && w.db[key].revision == w.flights[id].source.revision
    ensures var s := w.flights[id].source;
      w.db[key].binding == s.binding && w.db[key].sha256 == s.sha256 && w.db[key].settings == Some(s.settings)
  {
    FlightAt(env, w, id);
    RecordParts(env, w, key);
    SourceIsCurrent(env, w, w.flights[id], key);
  }

  lemma SourceIsCurrent(env: Env, w: World, f: Flight, key: Key)
    requires FlightInv(env, f, w) && KeyFor(f.source.binding) == Some(key)
    requires key in w.db && HeadInv(env, w.db[key], key, Past(w, key)) && w.db[key].revision == f.source.revision
    ensures w.db[key].binding == f.source.binding && w.db[key].sha256 == f.source.sha256 && w.db[key].settings == Some(f.source.settings)
  {
    KeyForInjective(f.source.binding, w.db[key].binding);
  }

  lemma FlightAt(env: Env, w: World, id: nat)
    requires Inv(env, w) && id in w.flights
    ensures FlightInv(env, w.flights[id], w)
  {}

  /** What rememberUpload adds to a record, when the remembered source is current. */
  lemma RememberedSourced(env: Env, prior: Record, f: Flight)
    requires Sourced(env, prior) && f.uploadId == env.uploadId(f.source)
    requires prior.binding == f.source.binding && prior.settings == Some(f.source.settings)
    ensures match Remembered(f.source.revision, f.uploadId, f.source.sha256, Some(prior))
            case Ok(r) => Sourced(env, r)
            case Err(e) => e == IdentityConflict ==>
              exists b: Source :: b != f.source && env.uploadId(b) == env.uploadId(f.source)
  {
    var existing := FindUpload(prior.uploads, f.uploadId);
    if existing.Some? {
      var b := SourceOf(prior.binding, existing.value);
      assert env.uploadId(b) == f.uploadId;
    }
  }

  lemma PrepareSourced(env: Env, w: World, e: Event)
    requires EnvOk(env) && Inv(env, w) && SourceInv(env, w) && e.PrepareRemember? && Effect(env, w, e).1.Ok?
    ensures Sourced(env, Effect(env, w, e).1.value)
  {
    var r := PrepareWrites(env, w, e);
    var f := w.flights[e.id];
    FlightIsCurrent(env, w, e.id, r.key);
    RememberedSourced(env, w.db[r.key], f);
  }

  lemma StepSourced(env: Env, w: World, e: Event)
    requires EnvOk(env) && Inv(env, w) && SourceInv(env, w) && !e.RememberEvent?
    ensures SourceInv(env, Step(env, w, e))
  {
    if Effect(env, w, e).1.Ok? {
      OneWrite(env, w, e);
      var r := Effect(env, w, e).1.value;
      if e.PrepareRemember? {
        PrepareSourced(env, w, e);
      } else if r.key in w.db {
        assert RecordInv(env, w.db[r.key], r.key, Past(w, r.key));
        KeyForInjective(r.binding, w.db[r.key].binding);
        assert Sourced(env, w.db[r.key]);
      }
    } else {
      FailedWritesNothing(env, w, e);
    }
  }

  /** The binding check of history() never fires: every reference names the upload its own source determines. */
  lemma {:induction false} HistoryBinds(env: Env, events: seq<Event>)
    requires EnvOk(env) && Honest(events)
    ensures SourceInv(env, Run(env, Empty, events))
    decreases |events|
  {
    if events != [] {
      var init := events[..|events| - 1];
      HistoryBinds(env, init);
      EmptyRun(env, init);
      StepSourced(env, Run(env, Empty, init), events[|events| - 1]);
    }
  }

  /** The identity conflict is unreachable: meeting it exhibits two sources with the same upload id. */
  lemma NoIdentityConflict(env: Env, events: seq<Event>, e: Event) returns (a: Source, b: Source)
    requires EnvOk(env) && Honest(events) && !e.RememberEvent?
    requires Effect(env, Run(env, Empty, events), e).1 == Err(IdentityConflict)
    ensures a != b && env.uploadId(a) == env.uploadId(b)
  {
    EmptyRun(env, events);
    HistoryBinds(env, events);
    OnlyRemembersConflict(env, Run(env, Empty, events), e);
    a, b := ConflictCollides(env, Run(env, Empty, events), e.id);
  }

  lemma OnlyRemembersConflict(env: Env, w: World, e: Event)
    requires Effect(env, w, e).1 == Err(IdentityConflict) && !e.RememberEvent?
    ensures e.PrepareRemember? && e.id in w.flights
  {}

  lemma ConflictCollides(env: Env, w: World, id: nat) returns (a: Source, b: Source)
    requires Inv(env, w) && SourceInv(env, w) && id in w.flights
    requires Effect(env, w, PrepareRemember(id)).1 == Err(IdentityConflict)
    ensures a != b && env.uploadId(a) == env.uploadId(b)
  {
    var f := w.flights[id];
    a := f.source;
    var key := KeyFor(a.binding).value;
    PrepareFails(env, w, id);
    FlightIsCurrent(env, w, id, key);
    RememberedSourced(env, w.db[key], f);
    b :| b != f.source && env.uploadId(b) == env.uploadId(f.source);
  }

  lemma PrepareFails(env: Env, w: World, id: nat)
    requires id in w.flights && Effect(env, w, PrepareRemember(id)).1 == Err(IdentityConflict)
    ensures var f := w.flights[id];
      var key := KeyFor(f.source.binding);
      && key.Some? && key.value in w.db && w.db[key.value].revision == f.source.revision
      && Remembered(f.source.revision, f.uploadId, f.source.sha256, Some(w.db[key.value])) == Err(IdentityConflict)
  {
    var f := w.flights[id];
    RememberFails(env.codec, w.db, f.source.binding, f.source.revision, f.uploadId, f.source.sha256);
  }

  lemma RememberFails(codec: Codec, db: Db, binding: Binding, expected: int, uploadId: string, sha256: string)
    requires RememberUpload(codec, db, binding, expected, uploadId, sha256).1 == Err(IdentityConflict)
    ensures KeyFor(binding).Some? && KeyFor(binding).value in db && db[KeyFor(binding).value].revision == expected
    ensures Remembered(expected, uploadId, sha256, Some(db[KeyFor(binding).value])) == Err(IdentityConflict)
  {}

  /** Every preparation of a run that is still on its way or has left its reference. */
  function Prepared(w: World): map<nat, Flight> { w.flights + w.remembered }

  lemma RunFlight(env: Env, events: seq<Event>, id: nat)
    requires EnvOk(env) && id in Prepared(Run(env, Empty, events))
    ensures FlightInv(env, Prepared(Run(env, Empty, events))[id], Run(env, Empty, events))
  {
    EmptyRun(env, events);
    var w := Run(env, Empty, events);
    if id in w.remembered { assert RememberedInv(env, w.remembered[id], w); }
  }

  /** Two preparations of one artwork revision, finished or not, resume the same durable upload. */
  lemma SameSourceSameUpload(env: Env, events: seq<Event>, i: nat, j: nat)
    requires EnvOk(env)
    requires var p := Prepared(Run(env, Empty, events));
      && i in p && j in p && p[i].source.binding == p[j].source.binding && p[i].source.revision == p[j].source.revision
    ensures var p := Prepared(Run(env, Empty, events)); p[i] == p[j]
  {
    var p := Prepared(Run(env, Empty, events));
    RunFlight(env, events, i);
    RunFlight(env, events, j);
    assert p[i].source == p[j].source;
  }

  /** Preparing a revision again after a preparation of it has finished stores no second reference. */
  lemma PrepareAgain(env: Env, events: seq<Event>, i: nat, j: nat)
    requires EnvOk(env)
    requires var w := Run(env, Empty, events);
      && i in w.remembered && j in w.flights && w.remembered[i].source.binding == w.flights[j].source.binding
      && w.remembered[i].source.revision == w.flights[j].source.revision
    requires Effect(env, Run(env, Empty, events), PrepareRemember(j)).1.Ok?
    ensures Step(env, Run(env, Empty, events), PrepareRemember(j)).db == Run(env, Empty, events).db
  {
    var w := Run(env, Empty, events);
    EmptyRun(env, events);
    AgainAt(env, w, i, j);
  }

  lemma AgainAt(env: Env, w: World, i: nat, j: nat)
    requires Inv(env, w) && i in w.remembered && j in w.flights
    requires w.remembered[i].source.binding == w.flights[j].source.binding
    requires w.remembered[i].source.revision == w.flights[j].source.revision
    requires Effect(env, w, PrepareRemember(j)).1.Ok?
    ensures Step(env, w, PrepareRemember(j)).db == w.db
  {
    FinishedAt(env, w, i);
    FlightAt(env, w, j);
    RememberTwice(env, w, w.remembered[i], w.flights[j], j);
  }

  lemma FinishedAt(env: Env, w: World, id: nat)
    requires Inv(env, w) && id in w.remembered
    ensures RememberedInv(env, w.remembered[id], w)
  {}

  lemma RememberTwice(env: Env, w: World, f: Flight, g: Flight, id: nat)
    requires RememberedInv(env, f, w) && FlightInv(env, g, w) && id in w.flights && w.flights[id] == g
    requires f.source.binding == g.source.binding && f.source.revision == g.source.revision
    requires Effect(env, w, PrepareRemember(id)).1.Ok?
    ensures Step(env, w, PrepareRemember(id)).db == w.db
  {
    assert f.source == g.source;
    Repeated(env.codec, w.db, g.source.binding, g.source.revision, g.uploadId, g.source.sha256);
  }

  lemma Repeated(codec: Codec, db: Db, binding: Binding, expected: int, uploadId: string, sha256: string)
    requires KeyFor(binding).Some? && KeyFor(binding).value in db
    requires FindUpload(db[KeyFor(binding).value].uploads, uploadId).Some?
    ensures RememberUpload(codec, db, binding, expected, uploadId, sha256).0 == db
  {
    var key := KeyFor(binding).value;
    var r := Remembered(expected, uploadId, sha256, Some(db[key]));
    assert r.Err? || r == Ok(db[key]);
  }
}
