/**
 * createMakerV8AssetQuiltV8().prepare of maker-v8-asset-quilt.js: concurrent preparations of one asset group pin one
 * layout by compare-and-swap and share one upload.  Tick is the code of prepare between two awaits; class Preparation
 * runs it in place.
 */
module AssetQuilt {
  import opened Results
  import opened Base64
  import QuiltPatch
  import SafeText
  import Ordering
  import Sequences

  datatype Asset = Asset(assetId: string, mediaType: string, bytesBase64: string)
  datatype Blob = Blob(identifier: string, contents: Bytes)
  datatype SourceRow = SourceRow(assetId: string, mediaType: string, byteLength: nat, sha256: string)
  datatype Patch = Patch(identifier: string, start: int, end: int)
  datatype Quilt = Quilt(bytes: Bytes, patches: seq<Patch>)

  /** SHA-256, the hash of an owner's source list, the upload identity, and the quilt encoder, which may refuse. */
  datatype Env = Env(hash: Bytes -> string, sourceHash: (string, seq<SourceRow>) -> string,
    uploadId: (string, string) -> string, encode: (seq<Blob>, int) -> Option<Quilt>)

  // ---- the asset group --------------------------------------------------------------------------------

  predicate IsOwner(s: string) {
    |s| == 66 && s[0] == '0' && s[1] == 'x' && SafeText.IsHash(s[2..]) && exists k :: 2 <= k < 66 && s[k] != '0'
  }

  predicate IsAssetId(s: string) {
    0 < |s| <= 128 && SafeText.IsAlphanumeric(s[0]) && forall k :: 0 <= k < |s| ==> SafeText.IsKeyTail(s[k])
  }

  predicate AssetOk(a: Asset) {
    && IsAssetId(a.assetId) && FromBase64(a.bytesBase64).Some? && FromBase64(a.bytesBase64).value != [] && a.mediaType != ""
  }

  ghost predicate AssetsOk(s: seq<Asset>) {
    && (forall k :: 0 <= k < |s| ==> AssetOk(s[k]))
    && (forall i, j :: 0 <= i < j < |s| ==> s[i].assetId != s[j].assetId)
  }

  function ById(a: Asset): Ordering.SortKey { Ordering.SortKey(0.0, a.assetId) }

  function BlobOf(a: Asset): Blob {
    Blob(a.assetId, var b := FromBase64(a.bytesBase64); if b.Some? then b.value else [])
  }

  function RowOf(env: Env, a: Asset): SourceRow {
    SourceRow(a.assetId, a.mediaType, |BlobOf(a).contents|, env.hash(BlobOf(a).contents))
  }

  /** The group of one prepare call, before its first await; its binding key is its upload identity. */
  datatype Group = Group(owner: string, sorted: seq<Asset>, blobs: seq<Blob>, sourceSha256: string, uploadId: string)

  function GroupOf(env: Env, owner: string, sorted: seq<Asset>): Group {
    var rows := Sequences.Map((a: Asset) => RowOf(env, a), sorted);
    var sourceSha256 := env.sourceHash(owner, rows);
    Group(owner, sorted, Sequences.Map(BlobOf, sorted), sourceSha256, env.uploadId(owner, sourceSha256))
  }

  ghost predicate InputOk(owner: string, assets: seq<Asset>) {
    IsOwner(owner) && |assets| > 1 && AssetsOk(Ordering.Sort(assets, ById))
  }

  ghost function Ids(s: seq<Asset>): set<string> { set k | 0 <= k < |s| :: s[k].assetId }

  lemma AssetsSnoc(s: seq<Asset>, a: Asset)
    ensures AssetsOk(s + [a]) <==> AssetsOk(s) && AssetOk(a) && a.assetId !in Ids(s)
    ensures Ids(s + [a]) == Ids(s) + {a.assetId}
  {
    var t := s + [a];
    assert forall k :: 0 <= k < |s| ==> t[k] == s[k];
    assert t[|s|] == a;
  }

  lemma AssetsPrefix(s: seq<Asset>, k: nat)
    requires k <= |s| && AssetsOk(s)
    ensures AssetsOk(s[..k])
  {}

  /** The loop over the sorted assets, with the set of identifiers seen so far. */
  method CheckAssets(sorted: seq<Asset>) returns (ok: bool)
    ensures ok <==> AssetsOk(sorted)
  {
    var seen: set<string> := {};
    for k := 0 to |sorted|
      invariant seen == Ids(sorted[..k]) && AssetsOk(sorted[..k])
    {
      assert sorted[..k + 1] == sorted[..k] + [sorted[k]];
      AssetsSnoc(sorted[..k], sorted[k]);
      if !AssetOk(sorted[k]) || sorted[k].assetId in seen {
        if AssetsOk(sorted) { AssetsPrefix(sorted, k + 1); }
        return false;
      }
      seen := seen + {sorted[k].assetId};
    }
    assert sorted[..|sorted|] == sorted;
    return true;
  }

  /** The checks before the first await. */
  method MakeGroup(env: Env, owner: string, assets: seq<Asset>) returns (r: Option<Group>)
    ensures r.Some? <==> InputOk(owner, assets)
    ensures r.Some? ==> r.value == GroupOf(env, owner, Ordering.Sort(assets, ById))
  {
    if !IsOwner(owner) || |assets| <= 1 { return None; }
    var sorted := Ordering.Sort(assets, ById);
    var ok := CheckAssets(sorted);
    return if ok then Some(GroupOf(env, owner, sorted)) else None;
  }

  // ---- one preparation --------------------------------------------------------------------------------

  datatype Binding = Binding(revision: nat, owner: string, sourceSha256: string, numShards: int, quiltSha256: string)

  /** progress counts the upload's own later transitions; they change nothing else. */
  datatype Upload = Upload(owner: string, bytes: Bytes, blobId: string, progress: nat)

  datatype Store = Store(bindings: map<string, Binding>, uploads: map<string, Upload>)

  datatype Transport = Transport(assetId: string, blobId: string)
  datatype Outcome = Outcome(uploadId: string, blobId: string, assets: seq<Transport>)

  datatype Failure = BadShards | EncodeFailed | PublisherFailed | BindingDrift | QuiltDrift | UploadDrift | IndexDrift

  /** Where a preparation waits. */
  datatype Stage =
    | LoadBinding
    | ReadShards
    | SaveBinding(proposed: Binding)
    | ReloadBinding
    | LoadUpload(binding: Binding, quilt: Quilt)
    | CreateUpload(binding: Binding, quilt: Quilt)
    | ReloadUpload(binding: Binding, quilt: Quilt)
    | LoadContent(binding: Binding, quilt: Quilt, upload: Upload)
    | Done(outcome: Outcome)
    | Failed(failure: Failure)

  predicate ShardsOk(n: int) { 3 < n <= 65535 }

  predicate BindingOk(g: Group, b: Binding) {
    b.revision == 1 && b.owner == g.owner && b.sourceSha256 == g.sourceSha256 && ShardsOk(b.numShards)
  }

  /** With a binding in hand: encode again in its layout. */
  function Bound(env: Env, g: Group, b: Binding): Stage {
    if !BindingOk(g, b) then Failed(BindingDrift)
    else
      var quilt := env.encode(g.blobs, b.numShards);
      if quilt.None? then Failed(EncodeFailed)
      else if env.hash(quilt.value.bytes) != b.quiltSha256 then Failed(QuiltDrift)
      else LoadUpload(b, quilt.value)
  }

  function Proposed(env: Env, g: Group, n: int): Stage {
    if !ShardsOk(n) then Failed(BadShards)
    else
      var quilt := env.encode(g.blobs, n);
      if quilt.None? then Failed(EncodeFailed)
      else SaveBinding(Binding(1, g.owner, g.sourceSha256, n, env.hash(quilt.value.bytes)))
  }

  predicate PatchFits(quilt: Quilt, sorted: seq<Asset>, blobId: string, k: nat)
    requires k < |sorted|
  {
    && k < |quilt.patches| && quilt.patches[k].identifier == sorted[k].assetId
    && QuiltPatch.PatchId(blobId, quilt.patches[k].start, quilt.patches[k].end).Some?
  }

  function TransportOf(quilt: Quilt, sorted: seq<Asset>, blobId: string, k: nat): Transport
    requires k < |sorted| && PatchFits(quilt, sorted, blobId, k)
  {
    Transport(sorted[k].assetId, QuiltPatch.PatchId(blobId, quilt.patches[k].start, quilt.patches[k].end).value)
  }

  predicate AllFit(quilt: Quilt, sorted: seq<Asset>, blobId: string) {
    forall k: nat :: k < |sorted| ==> PatchFits(quilt, sorted, blobId, k)
  }

  function OutcomeOf(g: Group, quilt: Quilt, blobId: string): Outcome
    requires AllFit(quilt, g.sorted, blobId)
  {
    Outcome(g.uploadId, blobId, seq(|g.sorted|, k requires 0 <= k < |g.sorted| => TransportOf(quilt, g.sorted, blobId, k)))
  }

  function Finish(env: Env, g: Group, b: Binding, quilt: Quilt, upload: Upload, content: Upload): Stage {
    if env.hash(upload.bytes) != b.quiltSha256 || content.owner != g.owner || env.hash(content.bytes) != b.quiltSha256
       || content.bytes != quilt.bytes
    then Failed(UploadDrift)
    else if !AllFit(quilt, g.sorted, upload.blobId) then Failed(IndexDrift)
    else Done(OutcomeOf(g, quilt, upload.blobId))
  }

  /** The code between two awaits.  n is the live shard count and blob the identity the publisher would give an upload. */
  function Tick(env: Env, s: Store, g: Group, stage: Stage, n: int, blob: Bytes): (Store, Stage) {
    match stage
    case LoadBinding => (s, if g.uploadId in s.bindings then Bound(env, g, s.bindings[g.uploadId]) else ReadShards)
    case ReadShards => (s, Proposed(env, g, n))
    case SaveBinding(p) =>
      (if g.uploadId in s.bindings then s else s.(bindings := s.bindings[g.uploadId := p]), ReloadBinding)
    case ReloadBinding =>
      (s, if g.uploadId in s.bindings then Bound(env, g, s.bindings[g.uploadId]) else Failed(BindingDrift))
    case LoadUpload(b, q) =>
      (s, if g.uploadId in s.uploads then LoadContent(b, q, s.uploads[g.uploadId]) else CreateUpload(b, q))
    case CreateUpload(b, q) =>
      if g.uploadId in s.uploads then (s, ReloadUpload(b, q))
      else if !IsBytes(blob) || |blob| != 32 then (s, Failed(PublisherFailed))
      else (s.(uploads := s.uploads[g.uploadId := Upload(g.owner, q.bytes, Url64(blob), 0)]), ReloadUpload(b, q))
    case ReloadUpload(b, q) =>
      (s, if g.uploadId in s.uploads then LoadContent(b, q, s.uploads[g.uploadId]) else Failed(UploadDrift))
    case LoadContent(b, q, u) =>
      (s, if g.uploadId in s.uploads then Finish(env, g, b, q, u, s.uploads[g.uploadId]) else Failed(UploadDrift))
    case Done(_) => (s, stage)
    case Failed(_) => (s, stage)
  }

  // ---- in place ---------------------------------------------------------------------------------------

  /** The durable publisher all tabs share. */
  class Publisher {
    var bindings: map<string, Binding>
    var uploads: map<string, Upload>

    constructor ()
      ensures State() == Store(map[], map[])
    {
      bindings, uploads := map[], map[];
    }

    function State(): Store
      reads this
    { Store(bindings, uploads) }

    /** savePublicationBinding with no expected revision: the mismatch is caught by the caller. */
    method CreateBinding(key: string, value: Binding)
      modifies this
      ensures uploads == old(uploads)
      ensures bindings == if key in old(bindings) then old(bindings) else old(bindings)[key := value]
    {
      if key !in bindings { bindings := bindings[key := value]; }
    }

    /** prepare: an existing upload is left alone. */
    method CreateUpload(key: string, value: Upload)
      modifies this
      ensures bindings == old(bindings)
      ensures uploads == if key in old(uploads) then old(uploads) else old(uploads)[key := value]
    {
      if key !in uploads { uploads := uploads[key := value]; }
    }
  }

  class Preparation {
    const env: Env
    const publisher: Publisher
    const group: Group
    var stage: Stage

    constructor (env: Env, publisher: Publisher, group: Group)
      ensures this.env == env && this.publisher == publisher && this.group == group && stage == LoadBinding
    {
      this.env, this.publisher, this.group := env, publisher, group;
      stage := LoadBinding;
    }

    /** The transports, made one by one; the first unfit patch throws. */
    method MakeTransports(quilt: Quilt, blobId: string) returns (r: Option<seq<Transport>>)
      ensures r.Some? <==> AllFit(quilt, group.sorted, blobId)
      ensures r.Some? ==> OutcomeOf(group, quilt, blobId) == Outcome(group.uploadId, blobId, r.value)
    {
      var transports: seq<Transport> := [];
      for k := 0 to |group.sorted|
        invariant |transports| == k
        invariant forall i: nat :: i < k ==> PatchFits(quilt, group.sorted, blobId, i)
                                              && transports[i] == TransportOf(quilt, group.sorted, blobId, i)
      {
        if !PatchFits(quilt, group.sorted, blobId, k) { return None; }
        transports := transports + [TransportOf(quilt, group.sorted, blobId, k)];
      }
      return Some(transports);
    }

    method UseBinding()
      requires group.uploadId in publisher.bindings
      modifies this
      ensures stage == Bound(env, group, publisher.bindings[group.uploadId])
    {
      var binding := publisher.bindings[group.uploadId];
      if !BindingOk(group, binding) { stage := Failed(BindingDrift); return; }
      var quilt := env.encode(group.blobs, binding.numShards);
      if quilt.None? { stage := Failed(EncodeFailed); return; }
      if env.hash(quilt.value.bytes) != binding.quiltSha256 { stage := Failed(QuiltDrift); return; }
      stage := LoadUpload(binding, quilt.value);
    }

    method Resume(n: int, blob: Bytes)
      modifies this, publisher
      ensures (publisher.State(), stage) == old(Tick(env, publisher.State(), group, stage, n, blob))
    {
      match stage
      case LoadBinding =>
        if group.uploadId in publisher.bindings { UseBinding(); } else { stage := ReadShards; }
      case ReadShards => stage := Proposed(env, group, n);
      case SaveBinding(proposed) =>
        publisher.CreateBinding(group.uploadId, proposed);
        stage := ReloadBinding;
      case ReloadBinding =>
        if group.uploadId in publisher.bindings { UseBinding(); } else { stage := Failed(BindingDrift); }
      case LoadUpload(b, q) =>
        stage := if group.uploadId in publisher.uploads then LoadContent(b, q, publisher.uploads[group.uploadId]) else CreateUpload(b, q);
      case CreateUpload(b, q) =>
        if group.uploadId !in publisher.uploads && (!IsBytes(blob) || |blob| != 32) { stage := Failed(PublisherFailed); return; }
        if group.uploadId !in publisher.uploads {
          publisher.CreateUpload(group.uploadId, Upload(group.owner, q.bytes, Url64(blob), 0));
        }
        stage := ReloadUpload(b, q);
      case ReloadUpload(b, q) =>
        stage := if group.uploadId in publisher.uploads then LoadContent(b, q, publisher.uploads[group.uploadId]) else Failed(UploadDrift);
      case LoadContent(b, q, u) =>
        if group.uploadId !in publisher.uploads { stage := Failed(UploadDrift); return; }
        var content := publisher.uploads[group.uploadId];
        if env.hash(u.bytes) != b.quiltSha256 || content.owner != group.owner || env.hash(content.bytes) != b.quiltSha256
           || content.bytes != q.bytes
        { stage := Failed(UploadDrift); return; }
        var transports := MakeTransports(q, u.blobId);
        stage := if transports.None? then Failed(IndexDrift) else Done(Outcome(group.uploadId, u.blobId, transports.value));
      case Done(_) =>
      case Failed(_) =>
    }
  }
}
