/**
 * What each write of the external artwork store does to a record, when it is refused, and what a record holds after
 * any run: the artwork last saved and the settings last saved.
 */
module ArtworkEffects {
  import opened Results
  import opened ArtworkStore
  import opened ArtworkHistory
  import SafeText

  // ---- when a write is accepted -----------------------------------------------------------------------

  /** A record reads back while its revision is a safe integer. */
  ghost predicate ReadsBack(codec: Codec, db: Db, key: Key) {
    key in db ==> 1 <= db[key].revision && (Passes(codec, db[key], key) <==> db[key].revision <= MAX_SAFE)
  }

  lemma PassesAt(env: Env, w: World, key: Key)
    requires Inv(env, w)
    ensures ReadsBack(env.codec, w.db, key)
  {
    if key in w.db { PassesExactly(env, w.db[key], key, Past(w, key)); }
  }

  lemma TransactExact(codec: Codec, db: Db, binding: Binding, update: Update)
    ensures Transact(codec, db, binding, update).1.Ok? <==>
              && KeyFor(binding).Some?
              && var key := KeyFor(binding).value;
                 (key in db ==> Passes(codec, db[key], key)) && update(At(db, key), key).Ok?
    ensures Transact(codec, db, binding, update).1.Err? ==> Transact(codec, db, binding, update).0 == db
  {
  }

  function RevisionIn(db: Db, key: Key): int { if key in db then db[key].revision else 0 }

  lemma SaveDecides(codec: Codec, db: Db, binding: Binding, expected: int, bytes: Bytes)
    requires KeyFor(binding).Some? ==> ReadsBack(codec, db, KeyFor(binding).value)
    ensures Save(codec, db, binding, expected, bytes).1.Ok? <==>
              && KeyFor(binding).Some? && codec.accepts(bytes)
              && 0 <= expected <= MAX_SAFE && RevisionIn(db, KeyFor(binding).value) == expected
    ensures Save(codec, db, binding, expected, bytes).1.Err? ==> Save(codec, db, binding, expected, bytes).0 == db
  {
    TransactExact(codec, db, binding, (prior, key) => Saved(binding, expected, bytes, codec.digest(bytes), prior, key));
  }

  /** Artwork is saved exactly over the revision it was based on: none for a new record. */
  lemma SaveExact(env: Env, w: World, e: Event)
    requires EnvOk(env) && Inv(env, w) && e.SaveEvent?
    ensures Effect(env, w, e).1.Ok? <==>
              && KeyFor(e.binding).Some? && env.codec.accepts(e.bytes)
              && 0 <= e.expected <= MAX_SAFE && RevisionIn(w.db, KeyFor(e.binding).value) == e.expected
    ensures Effect(env, w, e).1.Err? ==> Step(env, w, e).db == w.db
  {
    if KeyFor(e.binding).Some? { PassesAt(env, w, KeyFor(e.binding).value); }
    SaveDecides(env.codec, w.db, e.binding, e.expected, e.bytes);
  }

  /** The settings can be sold with this target: every key is safe, the track is one of the target's, and a color is a
      swatch of one of its channels, or none is chosen. */
  predicate Sellable(s: Settings, t: Target) {
    && (forall key :: key in {s.itemKey, s.styleKey, s.layerTrackKey} ==> SafeText.IsSafeKey(key, 128))
    && s.layerTrackKey in t.tracks
    && match (s.colorChannelKey, s.defaultSwatchKey)
       case (None, None) => true
       case (Some(channel), Some(swatch)) =>
         && SafeText.IsSafeKey(channel, 128) && SafeText.IsSafeKey(swatch, 128)
         && exists k :: 0 <= k < |t.colors| && t.colors[k].key == channel && swatch in t.colors[k].swatches
       case _ => false
  }

  lemma SettingsDecide(codec: Codec, db: Db, binding: Binding, expected: int, settings: Settings, target: Option<Target>)
    requires KeyFor(binding).Some? ==> ReadsBack(codec, db, KeyFor(binding).value)
    ensures SaveSettings(codec, db, binding, expected, settings, target).1.Ok? <==>
              && KeyFor(binding).Some? && SettingsOk(settings, target) && TargetMatches(binding, target)
              && 1 <= expected <= MAX_SAFE && RevisionIn(db, KeyFor(binding).value) == expected
    ensures SaveSettings(codec, db, binding, expected, settings, target).1.Err? ==>
              SaveSettings(codec, db, binding, expected, settings, target).0 == db
  {
    TransactExact(codec, db, binding, (prior, key) => SettingsSaved(expected, settings, prior));
  }

  lemma SettingsSellable(s: Settings, t: Target)
    ensures SettingsOk(s, Some(t)) <==> Sellable(s, t)
  {
    assert s.itemKey in {s.itemKey, s.styleKey, s.layerTrackKey} && s.styleKey in {s.itemKey, s.styleKey, s.layerTrackKey};
    assert s.layerTrackKey in {s.itemKey, s.styleKey, s.layerTrackKey};
  }

  /** Settings are saved exactly over the revision they were based on, for the published target of the record. */
  lemma SettingsExact(env: Env, w: World, e: Event)
    requires EnvOk(env) && Inv(env, w) && e.SettingsEvent?
    ensures Effect(env, w, e).1.Ok? <==>
              && KeyFor(e.binding).Some? && e.target.Some? && Sellable(e.settings, e.target.value)
              && e.target.value.rootId == e.binding.rootId && e.target.value.makerVersion == e.binding.makerVersion
              && e.target.value.contentCommitment == e.binding.contentCommitment && e.binding.partKey in e.target.value.parts
              && 1 <= e.expected <= MAX_SAFE && RevisionIn(w.db, KeyFor(e.binding).value) == e.expected
    ensures Effect(env, w, e).1.Err? ==> Step(env, w, e).db == w.db
  {
    if KeyFor(e.binding).Some? { PassesAt(env, w, KeyFor(e.binding).value); }
    if e.target.Some? { SettingsSellable(e.settings, e.target.value); }
    SettingsDecide(env.codec, w.db, e.binding, e.expected, e.settings, e.target);
  }

  /** A reference to an upload of what the record holds now. */
  function ReferenceTo(r: Record, uploadId: string): Reference
    requires r.settings.Some?
  { Reference(uploadId, r.revision, r.sha256, r.settings.value) }

  /** An upload is remembered exactly of what the record holds, unless its id already names something else. */
  lemma RememberExact(env: Env, w: World, e: Event)
    requires EnvOk(env) && Inv(env, w) && e.RememberEvent?
    ensures Effect(env, w, e).1.Ok? <==>
              && KeyFor(e.binding).Some? && IsUploadId(e.uploadId) && KeyFor(e.binding).value in w.db
              && var r := w.db[KeyFor(e.binding).value];
                 && r.revision == e.expected <= MAX_SAFE && r.sha256 == e.sha256 && r.settings.Some?
                 && forall i :: 0 <= i < |r.uploads| && r.uploads[i].uploadId == e.uploadId ==> r.uploads[i] == ReferenceTo(r, e.uploadId)
    ensures Effect(env, w, e).1.Ok? ==>
              var key := KeyFor(e.binding).value;
              key in Step(env, w, e).db && ReferenceTo(w.db[key], e.uploadId) in Step(env, w, e).db[key].uploads
  {
    if KeyFor(e.binding).Some? && KeyFor(e.binding).value in w.db {
      var key := KeyFor(e.binding).value;
      PassesAt(env, w, key);
      assert RecordInv(env, w.db[key], key, Past(w, key));
      RememberedExact(e.expected, e.uploadId, e.sha256, w.db[key]);
    }
  }

  lemma RememberedExact(expected: int, uploadId: string, sha256: string, r: Record)
    requires IdsDistinct(r.uploads)
    ensures Remembered(expected, uploadId, sha256, Some(r)).Ok? <==>
              && r.revision == expected && r.sha256 == sha256 && r.settings.Some?
              && forall i :: 0 <= i < |r.uploads| && r.uploads[i].uploadId == uploadId ==> r.uploads[i] == ReferenceTo(r, uploadId)
    ensures Remembered(expected, uploadId, sha256, Some(r)).Ok? ==>
              ReferenceTo(r, uploadId) in Remembered(expected, uploadId, sha256, Some(r)).value.uploads
  {
  }

  // ---- what a write leaves ----------------------------------------------------------------------------

  predicate Saves(env: Env, w: World, e: Event, key: Key) {
    e.SaveEvent? && KeyFor(e.binding) == Some(key) && Effect(env, w, e).1.Ok?
  }

  predicate Sets(env: Env, w: World, e: Event, key: Key) {
    e.SettingsEvent? && KeyFor(e.binding) == Some(key) && Effect(env, w, e).1.Ok?
  }

  /** The artwork of a record changes in a save and its settings in a settings save, to what the event brought. */
  ghost predicate Brings(env: Env, w: World, e: Event, key: Key, w': World) {
    && (key in w'.db <==> key in w.db || Saves(env, w, e, key))
    && (key in w'.db ==>
          && w'.db[key].bytes == (if Saves(env, w, e, key) then e.bytes else if key in w.db then w.db[key].bytes else [])
          && w'.db[key].settings == if Sets(env, w, e, key) then Some(e.settings)
                                    else if key in w.db then w.db[key].settings else None)
  }

  lemma SaveBrings(env: Env, w: World, e: Event, key: Key)
    requires EnvOk(env) && Inv(env, w) && e.SaveEvent? && Effect(env, w, e).1.Ok?
    ensures Brings(env, w, e, key, Step(env, w, e))
  {
    SaveWrites(env, w, e.binding, e.expected, e.bytes);
  }

  lemma SettingsBring(env: Env, w: World, e: Event, key: Key)
    requires EnvOk(env) && Inv(env, w) && e.SettingsEvent? && Effect(env, w, e).1.Ok?
    ensures Brings(env, w, e, key, Step(env, w, e))
  {
    SettingsWrites(env, w, e.binding, e.expected, e.settings, e.target);
  }

  lemma RememberBrings(env: Env, w: World, e: Event, key: Key)
    requires EnvOk(env) && Inv(env, w) && Effect(env, w, e).1.Ok? && !NewRevision(e)
    ensures Brings(env, w, e, key, Step(env, w, e))
  {
    OneWrite(env, w, e);
  }

  lemma FailedBrings(env: Env, w: World, e: Event, key: Key)
    requires Effect(env, w, e).1.Err?
    ensures Brings(env, w, e, key, Step(env, w, e))
  {
    FailedWritesNothing(env, w, e);
  }

  lemma StepBrings(env: Env, w: World, e: Event, key: Key)
    requires EnvOk(env) && Inv(env, w)
    ensures Brings(env, w, e, key, Step(env, w, e))
  {
    if Effect(env, w, e).1.Err? {
      FailedBrings(env, w, e, key);
    } else if e.SaveEvent? {
      SaveBrings(env, w, e, key);
    } else if e.SettingsEvent? {
      SettingsBring(env, w, e, key);
    } else {
      RememberBrings(env, w, e, key);
    }
  }

  /** The artwork of the last accepted save of a run. */
  ghost function LastArtwork(env: Env, events: seq<Event>, key: Key): Option<Bytes>
    decreases |events|
  {
    if events == [] then None
    else
      var init, e := events[..|events| - 1], events[|events| - 1];
      if Saves(env, Run(env, Empty, init), e, key) then Some(e.bytes) else LastArtwork(env, init, key)
  }

  /** The settings of the last accepted settings save of a run. */
  ghost function LastSettings(env: Env, events: seq<Event>, key: Key): Option<Settings>
    decreases |events|
  {
    if events == [] then None
    else
      var init, e := events[..|events| - 1], events[|events| - 1];
      if Sets(env, Run(env, Empty, init), e, key) then Some(e.settings) else LastSettings(env, init, key)
  }

  ghost predicate HoldsLast(env: Env, events: seq<Event>, key: Key, w: World) {
    && (key in w.db <==> LastArtwork(env, events, key).Some?)
    && (key in w.db ==> LastArtwork(env, events, key) == Some(w.db[key].bytes) && LastSettings(env, events, key) == w.db[key].settings)
    && (key !in w.db ==> LastSettings(env, events, key) == None)
  }

  lemma NextHolds(env: Env, events: seq<Event>, key: Key)
    requires EnvOk(env) && events != []
    requires var init := events[..|events| - 1];
      Inv(env, Run(env, Empty, init)) && HoldsLast(env, init, key, Run(env, Empty, init))
    ensures HoldsLast(env, events, key, Run(env, Empty, events))
  {
    var init, e := events[..|events| - 1], events[|events| - 1];
    StepBrings(env, Run(env, Empty, init), e, key);
    if e.SettingsEvent? { SettingsExact(env, Run(env, Empty, init), e); }
  }

  /** After any run a record exists exactly when artwork was saved for its target, and holds the artwork and the settings
      last saved: a save keeps settings, a settings save keeps artwork, and a reference keeps both. */
  lemma {:induction false} RecordHoldsLast(env: Env, events: seq<Event>, key: Key)
    requires EnvOk(env)
    ensures HoldsLast(env, events, key, Run(env, Empty, events))
    decreases |events|
  {
    if events != [] {
      var init := events[..|events| - 1];
      RecordHoldsLast(env, init, key);
      EmptyRun(env, init);
      NextHolds(env, events, key);
    }
  }

  /** What a write returned is what the next load returns, while the revision is a safe integer. */
  lemma WrittenIsLoaded(env: Env, w: World, e: Event, binding: Binding)
    requires EnvOk(env) && Inv(env, w) && Effect(env, w, e).1.Ok?
    requires KeyFor(binding) == Some(Effect(env, w, e).1.value.key) && Effect(env, w, e).1.value.revision <= MAX_SAFE
    ensures Loaded(env.codec, Step(env, w, e).db, binding) == Ok(Some(Effect(env, w, e).1.value))
    ensures env.codec.digest(Effect(env, w, e).1.value.bytes) == Effect(env, w, e).1.value.sha256
  {
    OneWrite(env, w, e);
    WrittenLoads(env, Effect(env, w, e).1.value, Step(env, w, e), binding);
  }

  lemma WrittenLoads(env: Env, r: Record, w: World, binding: Binding)
    requires KeyFor(binding) == Some(r.key) && r.key in w.db && w.db[r.key] == r && RecordInv(env, r, r.key, Past(w, r.key))
    requires r.revision <= MAX_SAFE
    ensures Loaded(env.codec, w.db, binding) == Ok(Some(r)) && env.codec.digest(r.bytes) == r.sha256
  {
    PassesExactly(env, r, r.key, Past(w, r.key));
  }
}
