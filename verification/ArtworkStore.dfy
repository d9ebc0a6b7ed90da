/**
 * maker-v8-composable-artwork-store.js: one record per wallet, immutable Maker target and Part, edited from several
 * tabs through atomic transactions.  Update functions give each transaction's effect; class Store at the end
 * runs them in place, and ArtworkHistory proves what every run keeps.
 */
module ArtworkStore {
  import opened Results
  import opened SafeText
  import ImageHeader

  type Bytes = seq<int>

  const MAX_SAFE: nat := 0x1F_FFFF_FFFF_FFFF

  datatype Binding = Binding(address: string, rootId: string, makerVersion: string, contentCommitment: string, partKey: string)

  /** keyOrder tells apart objects whose fields are listed in another order: JSON.stringify compares that too. */
  datatype Settings = Settings(itemKey: string, styleKey: string, layerTrackKey: string,
    colorChannelKey: Option<string>, defaultSwatchKey: Option<string>, transferable: bool, keyOrder: nat)

  datatype Reference = Reference(uploadId: string, artworkRevision: int, sha256: string, settings: Settings)

  /** The JSON text of the five binding strings. */
  type Key = string

  datatype Record = Record(key: Key, binding: Binding, revision: int, sha256: string, bytes: Bytes,
    settings: Option<Settings>, uploads: seq<Reference>)

  datatype Channel = Channel(key: string, swatches: seq<string>)
  datatype Target = Target(rootId: string, contentCommitment: string, makerVersion: string,
    tracks: seq<string>, colors: seq<Channel>, parts: seq<string>)

  datatype Failure = Invalid | Integrity | Conflict | IdentityConflict | Closed

  type Db = map<Key, Record>
  type Update = (Option<Record>, Key) -> Result<Record, Failure>

  /** SHA-256 as lowercase hexadecimal text, and which bytes are accepted as artwork. */
  datatype Codec = Codec(digest: Bytes -> string, accepts: Bytes -> bool)

  /** pngDimensions does not throw. */
  predicate IsArtwork(bytes: Bytes) { ImageHeader.PngDimensions(bytes).Some? }

  predicate IsLowerId(s: string) {
    |s| == 66 && s[0] == '0' && s[1] == 'x' && IsHash(s[2..])
  }

  predicate IsPositiveDecimal(s: string) {
    |s| > 0 && '1' <= s[0] <= '9' && forall i :: 0 <= i < |s| ==> IsDigit(s[i])
  }

  predicate IsUploadId(s: string) { |s| == 71 && s[..7] == "walrus-" && IsHash(s[7..]) }

  predicate KeysOk(s: Settings) {
    && IsSafeKey(s.itemKey, 128) && IsSafeKey(s.styleKey, 128) && IsSafeKey(s.layerTrackKey, 128)
    && s.colorChannelKey.None? == s.defaultSwatchKey.None?
    && (s.colorChannelKey.Some? ==> IsSafeKey(s.colorChannelKey.value, 128) && IsSafeKey(s.defaultSwatchKey.value, 128))
  }

  /** The chosen track, channel and swatch exist in the published Maker. */
  predicate Targets(s: Settings, t: Target)
    requires s.colorChannelKey.None? == s.defaultSwatchKey.None?
  {
    && s.layerTrackKey in t.tracks
    && (s.colorChannelKey.Some? ==> exists k :: 0 <= k < |t.colors| && t.colors[k].key == s.colorChannelKey.value
                                                && s.defaultSwatchKey.value in t.colors[k].swatches)
  }

  predicate SettingsOk(s: Settings, t: Option<Target>) { KeysOk(s) && (t.Some? ==> Targets(s, t.value)) }

  function Quoted(s: string, rest: string): string { "\"" + (s + ("\"" + rest)) }

  /** JSON.stringify of the five strings, none of which needs escaping. */
  function KeyText(b: Binding): string {
    "[" + Quoted(b.address, "," + Quoted(b.rootId, "," + Quoted(b.makerVersion, ","
    + Quoted(b.contentCommitment, "," + Quoted(b.partKey, "]")))))
  }

  function KeyFor(b: Binding): Option<Key> {
    if IsLowerId(b.address) && IsLowerId(b.rootId) && IsPositiveDecimal(b.makerVersion)
       && IsHash(b.contentCommitment) && IsSafeKey(b.partKey, 128)
    then Some(KeyText(b))
    else None
  }

  predicate QuoteFree(s: string) { forall i :: 0 <= i < |s| ==> s[i] != '\"' }

  /** A quoted text ends at the next quote. */
  lemma QuotedUnique(a: string, x: string, b: string, y: string)
    requires QuoteFree(a) && QuoteFree(b) && Quoted(a, x) == Quoted(b, y)
    ensures a == b && x == y
  {
    var s := Quoted(a, x);
    assert s[1 + |a|] == '\"' && s[1 + |b|] == '\"';
    assert forall i :: 0 <= i < |a| ==> s[1 + i] == a[i];
    assert forall i :: 0 <= i < |b| ==> s[1 + i] == b[i];
    assert |a| == |b|;
    assert a == s[1..1 + |a|] == b && x == s[2 + |a|..] == y;
  }

  lemma AfterComma(c: string, x: string, y: string)
    requires c + x == c + y
    ensures x == y
  {
    assert x == (c + x)[|c|..] && y == (c + y)[|c|..];
  }

  lemma FieldUnique(a: string, x: string, b: string, y: string)
    requires QuoteFree(a) && QuoteFree(b) && "," + Quoted(a, x) == "," + Quoted(b, y)
    ensures a == b && x == y
  {
    AfterComma(",", Quoted(a, x), Quoted(b, y));
    QuotedUnique(a, x, b, y);
  }

  lemma FieldsQuoteFree(b: Binding)
    requires KeyFor(b).Some?
    ensures QuoteFree(b.address) && QuoteFree(b.rootId) && QuoteFree(b.makerVersion) && QuoteFree(b.contentCommitment)
    ensures QuoteFree(b.partKey)
  {
    IdQuoteFree(b.address);
    IdQuoteFree(b.rootId);
  }

  lemma IdQuoteFree(s: string)
    requires IsLowerId(s)
    ensures QuoteFree(s)
  {
    forall i | 0 <= i < |s| ensures s[i] != '\"' {
      if i >= 2 { assert s[2..][i - 2] == s[i]; }
    }
  }

  /** The key tells the binding. */
  lemma KeyForInjective(a: Binding, b: Binding)
    requires KeyFor(a).Some? && KeyFor(a) == KeyFor(b)
    ensures a == b
  {
    FieldsQuoteFree(a);
    FieldsQuoteFree(b);
    TextsTell(a, b);
  }

  lemma TextsTell(a: Binding, b: Binding)
    requires QuoteFree(a.address) && QuoteFree(a.rootId) && QuoteFree(a.makerVersion) && QuoteFree(a.contentCommitment)
    requires QuoteFree(b.address) && QuoteFree(b.rootId) && QuoteFree(b.makerVersion) && QuoteFree(b.contentCommitment)
    requires QuoteFree(a.partKey) && QuoteFree(b.partKey) && KeyText(a) == KeyText(b)
    ensures a == b
  {
    var a4, b4 := Quoted(a.partKey, "]"), Quoted(b.partKey, "]");
    var a3, b3 := Quoted(a.contentCommitment, "," + a4), Quoted(b.contentCommitment, "," + b4);
    var a2, b2 := Quoted(a.makerVersion, "," + a3), Quoted(b.makerVersion, "," + b3);
    var a1, b1 := Quoted(a.rootId, "," + a2), Quoted(b.rootId, "," + b2);
    AfterComma("[", Quoted(a.address, "," + a1), Quoted(b.address, "," + b1));
    QuotedUnique(a.address, "," + a1, b.address, "," + b1);
    FieldUnique(a.rootId, "," + a2, b.rootId, "," + b2);
    FieldUnique(a.makerVersion, "," + a3, b.makerVersion, "," + b3);
    FieldUnique(a.contentCommitment, "," + a4, b.contentCommitment, "," + b4);
    FieldUnique(a.partKey, "]", b.partKey, "]");
  }

  // ---- check ------------------------------------------------------------------------------------------

  predicate ReferenceOk(r: Reference, revision: int) {
    && IsUploadId(r.uploadId) && 1 <= r.artworkRevision <= MAX_SAFE && r.artworkRevision <= revision
    && IsHash(r.sha256) && KeysOk(r.settings)
  }

  predicate IdsDistinct(s: seq<Reference>) {
    forall i, j :: 0 <= i < j < |s| ==> s[i].uploadId != s[j].uploadId
  }

  predicate HeadOk(codec: Codec, r: Record, key: Key) {
    && r.key == key && KeyFor(r.binding) == Some(key) && 1 <= r.revision <= MAX_SAFE
    && codec.digest(r.bytes) == r.sha256 && codec.accepts(r.bytes)
    && (r.settings.Some? ==> KeysOk(r.settings.value))
  }

  predicate ReferencesOk(s: seq<Reference>, revision: int) {
    (forall i :: 0 <= i < |s| ==> ReferenceOk(s[i], revision)) && IdsDistinct(s)
  }

  /** What check() accepts. */
  predicate Passes(codec: Codec, r: Record, key: Key) {
    HeadOk(codec, r, key) && ReferencesOk(r.uploads, r.revision)
  }

  // ---- the three updates ------------------------------------------------------------------------------

  function Saved(binding: Binding, expected: int, bytes: Bytes, hash: string, prior: Option<Record>, key: Key): Result<Record, Failure> {
    if (if prior.Some? then prior.value.revision else 0) != expected then Err(Conflict)
    else Ok(Record(key, binding, expected + 1, hash, bytes,
                   if prior.Some? then prior.value.settings else None,
                   if prior.Some? then prior.value.uploads else []))
  }

  function SettingsSaved(expected: int, settings: Settings, prior: Option<Record>): Result<Record, Failure> {
    if prior.None? || prior.value.revision != expected then Err(Conflict)
    else Ok(prior.value.(revision := prior.value.revision + 1, settings := Some(settings)))
  }

  /** Array.prototype.find by upload id. */
  function FindUpload(s: seq<Reference>, uploadId: string): (r: Option<Reference>)
    ensures r.Some? ==> r.value in s && r.value.uploadId == uploadId
    ensures r.None? ==> forall i :: 0 <= i < |s| ==> s[i].uploadId != uploadId
  {
    if s == [] then None else if s[0].uploadId == uploadId then Some(s[0]) else FindUpload(s[1..], uploadId)
  }

  function Remembered(expected: int, uploadId: string, sha256: string, prior: Option<Record>): Result<Record, Failure> {
    if prior.None? || prior.value.revision != expected || prior.value.sha256 != sha256 || prior.value.settings.None? then Err(Conflict)
    else
      var reference := Reference(uploadId, expected, sha256, prior.value.settings.value);
      var existing := FindUpload(prior.value.uploads, uploadId);
      if existing.None? then Ok(prior.value.(uploads := prior.value.uploads + [reference]))
      else if existing.value != reference then Err(IdentityConflict)
      else Ok(prior.value)
  }

  function At(db: Db, key: Key): Option<Record> { if key in db then Some(db[key]) else None }

  /** One transaction: check what is stored, update it, and put the result unless something was thrown. */
  function Transact(codec: Codec, db: Db, binding: Binding, update: Update): (Db, Result<Record, Failure>) {
    var key := KeyFor(binding);
    if key.None? then (db, Err(Invalid))
    else if key.value in db && !Passes(codec, db[key.value], key.value) then (db, Err(Integrity))
    else
      match update(At(db, key.value), key.value)
      case Ok(record) => (db[key.value := record], Ok(record))
      case Err(e) => (db, Err(e))
  }

  function Loaded(codec: Codec, db: Db, binding: Binding): Result<Option<Record>, Failure> {
    var key := KeyFor(binding);
    if key.None? then Err(Invalid)
    else if key.value in db && !Passes(codec, db[key.value], key.value) then Err(Integrity)
    else Ok(At(db, key.value))
  }

  function Save(codec: Codec, db: Db, binding: Binding, expected: int, bytes: Bytes): (Db, Result<Record, Failure>) {
    if !codec.accepts(bytes) || !(0 <= expected <= MAX_SAFE) then (db, Err(Invalid))
    else Transact(codec, db, binding, (prior, key) => Saved(binding, expected, bytes, codec.digest(bytes), prior, key))
  }

  /** The settings name this exact target. */
  predicate TargetMatches(binding: Binding, target: Option<Target>) {
    && target.Some? && target.value.rootId == binding.rootId && target.value.contentCommitment == binding.contentCommitment
    && target.value.makerVersion == binding.makerVersion && binding.partKey in target.value.parts
  }

  function SaveSettings(codec: Codec, db: Db, binding: Binding, expected: int, settings: Settings, target: Option<Target>)
    : (Db, Result<Record, Failure>)
  {
    if !SettingsOk(settings, target) || !(1 <= expected <= MAX_SAFE) || !TargetMatches(binding, target) then (db, Err(Invalid))
    else Transact(codec, db, binding, (prior, key) => SettingsSaved(expected, settings, prior))
  }

  function RememberUpload(codec: Codec, db: Db, binding: Binding, expected: int, uploadId: string, sha256: string)
    : (Db, Result<Record, Failure>)
  {
    if !IsUploadId(uploadId) || !IsHash(sha256) then (db, Err(Invalid))
    else Transact(codec, db, binding, (prior, key) => Remembered(expected, uploadId, sha256, prior))
  }

  // ---- the store in place -----------------------------------------------------------------------------

  /** The database connection of one tab; the records are shared by all of them. */
  class Store {
    const codec: Codec
    var records: Db
    var closed: bool

    constructor (digest: Bytes -> string)
      ensures codec == Codec(digest, IsArtwork) && records == map[] && !closed
    {
      codec := Codec(digest, IsArtwork);
      records, closed := map[], false;
    }

    /** The loop of check() over the upload references, with its set of ids. */
    method Check(record: Record, key: Key) returns (ok: bool)
      ensures ok == Passes(codec, record, key)
    {
      if !HeadOk(codec, record, key) { return false; }
      var ids: set<string> := {};
      for k := 0 to |record.uploads|
        invariant ids == set i | 0 <= i < k :: record.uploads[i].uploadId
        invariant forall i :: 0 <= i < k ==> ReferenceOk(record.uploads[i], record.revision)
        invariant forall i, j :: 0 <= i < j < k ==> record.uploads[i].uploadId != record.uploads[j].uploadId
      {
        var reference := record.uploads[k];
        if !ReferenceOk(reference, record.revision) || reference.uploadId in ids { return false; }
        ids := ids + {reference.uploadId};
      }
      return true;
    }

    method Transaction(binding: Binding, update: Update) returns (r: Result<Record, Failure>)
      modifies this
      ensures closed == old(closed)
      ensures closed ==> records == old(records) && r.Err?
      ensures !closed ==> (records, r) == old(Transact(codec, records, binding, update))
    {
      var key := KeyFor(binding);
      if key.None? { return Err(Invalid); }
      if closed { return Err(Closed); }
      if key.value in records {
        var ok := Check(records[key.value], key.value);
        if !ok { return Err(Integrity); }
      }
      r := update(if key.value in records then Some(records[key.value]) else None, key.value);
      if r.Ok? { records := records[key.value := r.value]; }
    }

    method Load(binding: Binding) returns (r: Result<Option<Record>, Failure>)
      ensures closed ==> r.Err?
      ensures !closed ==> r == Loaded(codec, records, binding)
    {
      var key := KeyFor(binding);
      if key.None? { return Err(Invalid); }
      if closed { return Err(Closed); }
      if key.value !in records { return Ok(None); }
      var ok := Check(records[key.value], key.value);
      return if ok then Ok(Some(records[key.value])) else Err(Integrity);
    }

    method SaveBytes(binding: Binding, expected: int, bytes: Bytes) returns (r: Result<Record, Failure>)
      modifies this
      ensures closed == old(closed)
      ensures closed ==> records == old(records) && r.Err?
      ensures !closed ==> (records, r) == old(Save(codec, records, binding, expected, bytes))
    {
      if !codec.accepts(bytes) { return Err(Invalid); }
      var hash := codec.digest(bytes);
      if !(0 <= expected <= MAX_SAFE) { return Err(Invalid); }
      r := Transaction(binding, (prior, key) => Saved(binding, expected, bytes, hash, prior, key));
    }

    method SaveProductSettings(binding: Binding, expected: int, settings: Settings, target: Option<Target>) returns (r: Result<Record, Failure>)
      modifies this
      ensures closed == old(closed)
      ensures closed ==> records == old(records) && r.Err?
      ensures !closed ==> (records, r) == old(SaveSettings(codec, records, binding, expected, settings, target))
    {
      if !SettingsOk(settings, target) { return Err(Invalid); }
      if !(1 <= expected <= MAX_SAFE) || !TargetMatches(binding, target) { return Err(Invalid); }
      r := Transaction(binding, (prior, key) => SettingsSaved(expected, settings, prior));
    }

    method RememberUploadReference(binding: Binding, expected: int, uploadId: string, sha256: string) returns (r: Result<Record, Failure>)
      modifies this
      ensures closed == old(closed)
      ensures closed ==> records == old(records) && r.Err?
      ensures !closed ==> (records, r) == old(RememberUpload(codec, records, binding, expected, uploadId, sha256))
    {
      if !IsUploadId(uploadId) || !IsHash(sha256) { return Err(Invalid); }
      r := Transaction(binding, (prior, key) => Remembered(expected, uploadId, sha256, prior));
    }

    method Close()
      modifies this
      ensures closed && records == old(records)
    {
      closed := true;
    }
  }
}
