/** What a quilt preparation hashes, stores and hands out, in terms of the assets it was given. */
module QuiltMeaning {
  import opened Results
  import opened Base64
  import opened AssetQuilt
  import Ordering
  import QuiltPatch
  import Sequences

  // ---- the group --------------------------------------------------------------------------------------

  /** The asset's bytes: its text is their canonical Base64. */
  ghost predicate BytesOf(a: Asset, b: Bytes) { IsBytes(b) && b != [] && ToBase64(b) == a.bytesBase64 }

  ghost predicate InIdOrder(s: seq<Asset>) { forall i, j :: 0 <= i < j < |s| ==> Ordering.TextLess(s[i].assetId, s[j].assetId) }

  /** The group holds the assets in order of their ids; it is hashed and encoded from each one's id, type and bytes. */
  ghost predicate GroupHolds(env: Env, owner: string, assets: seq<Asset>, g: Group, rows: seq<SourceRow>) {
    && g.owner == owner && multiset(g.sorted) == multiset(assets) && InIdOrder(g.sorted) && |g.blobs| == |g.sorted| == |rows|
    && (forall k :: 0 <= k < |rows| ==>
          && g.blobs[k].identifier == g.sorted[k].assetId && BytesOf(g.sorted[k], g.blobs[k].contents)
          && rows[k] == SourceRow(g.sorted[k].assetId, g.sorted[k].mediaType, |g.blobs[k].contents|, env.hash(g.blobs[k].contents)))
    && g.sourceSha256 == env.sourceHash(owner, rows) && g.uploadId == env.uploadId(owner, g.sourceSha256)
  }

  lemma SortedById(assets: seq<Asset>)
    requires AssetsOk(Ordering.Sort(assets, ById))
    ensures multiset(Ordering.Sort(assets, ById)) == multiset(assets) && InIdOrder(Ordering.Sort(assets, ById))
  {
    Ordering.SortKeeps(assets, ById);
    var s := Ordering.Sort(assets, ById);
    forall i, j | 0 <= i < j < |s| ensures Ordering.TextLess(s[i].assetId, s[j].assetId) {
      assert Ordering.Le(ById(s[i]), ById(s[j]));
      Ordering.TextTotal(s[i].assetId, s[j].assetId);
    }
  }

  lemma GroupTells(env: Env, owner: string, assets: seq<Asset>) returns (rows: seq<SourceRow>)
    requires InputOk(owner, assets)
    ensures GroupHolds(env, owner, assets, GroupOf(env, owner, Ordering.Sort(assets, ById)), rows)
  {
    var sorted := Ordering.Sort(assets, ById);
    SortedById(assets);
    rows := Sequences.Map((a: Asset) => RowOf(env, a), sorted);
    forall k | 0 <= k < |sorted| ensures BytesOf(sorted[k], BlobOf(sorted[k]).contents) { assert AssetOk(sorted[k]); }
  }

  /** A text is accepted exactly when it is the canonical Base64 of some bytes. */
  lemma CanonicalExactly(t: string)
    ensures FromBase64(t).Some? <==> exists b: Bytes :: IsBytes(b) && ToBase64(b) == t
  {
    if b: Bytes :| IsBytes(b) && ToBase64(b) == t { FromToBase64(b); }
  }

  // ---- the steps --------------------------------------------------------------------------------------

  /** A layout is proposed exactly for 4 to 65535 shards that the encoder takes, with the hash of the encoded quilt. */
  lemma ProposedExactly(env: Env, s: Store, g: Group, n: int, blob: Bytes)
    ensures var (t, stage) := Tick(env, s, g, ReadShards, n, blob);
      && t == s
      && (stage == Failed(BadShards) <==> n < 4 || n > 65535)
      && (stage == Failed(EncodeFailed) <==> 4 <= n <= 65535 && env.encode(g.blobs, n).None?)
      && (stage.SaveBinding? <==> 4 <= n <= 65535 && env.encode(g.blobs, n).Some?)
      && (stage.SaveBinding? ==> stage.proposed == Binding(1, g.owner, g.sourceSha256, n, env.hash(env.encode(g.blobs, n).value.bytes)))
  {
  }

  /** The stored binding pins the layout of this group: its owner and sources, and a quilt of the pinned hash. */
  ghost predicate Pinned(env: Env, g: Group, b: Binding, q: Quilt) {
    && b.revision == 1 && b.owner == g.owner && b.sourceSha256 == g.sourceSha256 && 4 <= b.numShards <= 65535
    && env.encode(g.blobs, b.numShards) == Some(q) && env.hash(q.bytes) == b.quiltSha256
  }

  /** Whatever the store holds, a preparation goes on from a binding exactly when it pins the group's own layout. */
  lemma BoundExactly(env: Env, s: Store, g: Group, b: Binding, q: Quilt, n: int, blob: Bytes)
    requires g.uploadId in s.bindings
    ensures Tick(env, s, g, LoadBinding, n, blob) == Tick(env, s, g, ReloadBinding, n, blob)
    ensures Tick(env, s, g, LoadBinding, n, blob) == (s, LoadUpload(b, q)) <==> s.bindings[g.uploadId] == b && Pinned(env, g, b, q)
  {
  }

  /** Patch k of the quilt is asset k's, in range. */
  predicate PatchIs(q: Quilt, sorted: seq<Asset>, k: nat)
    requires k < |sorted|
  { k < |q.patches| && q.patches[k].identifier == sorted[k].assetId && 0 < q.patches[k].start < q.patches[k].end <= 65535 }

  /** Whatever the store holds, a preparation is done exactly when the upload is the group's own quilt, of the pinned hash,
      with a patch for each asset in order; then each asset is handed the identity that reads back to that patch. */
  lemma DoneExactly(env: Env, s: Store, g: Group, b: Binding, q: Quilt, u: Upload, n: int, blob: Bytes)
    requires IdBytes(u.blobId, 32).Some?
    ensures var stage := Tick(env, s, g, LoadContent(b, q, u), n, blob).1;
      && (stage.Done? <==>
            && env.hash(u.bytes) == b.quiltSha256 && g.uploadId in s.uploads && s.uploads[g.uploadId].owner == g.owner
            && s.uploads[g.uploadId].bytes == q.bytes && env.hash(q.bytes) == b.quiltSha256
            && forall k: nat {:trigger PatchIs(q, g.sorted, k)} :: k < |g.sorted| ==> PatchIs(q, g.sorted, k))
      && (stage.Done? ==>
            && stage.outcome.uploadId == g.uploadId && stage.outcome.blobId == u.blobId && |stage.outcome.assets| == |g.sorted|
            && forall k: nat :: k < |g.sorted| ==>
                 && stage.outcome.assets[k].assetId == g.sorted[k].assetId && k < |q.patches|
                 && QuiltPatch.ReadPatch(stage.outcome.assets[k].blobId) == Some((u.blobId, q.patches[k].start, q.patches[k].end)))
  {
    forall k: nat | k < |g.sorted| ensures PatchFits(q, g.sorted, u.blobId, k) <==> PatchIs(q, g.sorted, k) {
      FitsExactly(q, g.sorted, u.blobId, k);
    }
    forall k: nat | k < |g.sorted| && PatchIs(q, g.sorted, k)
      ensures var id := QuiltPatch.PatchId(u.blobId, q.patches[k].start, q.patches[k].end);
        id.Some? && QuiltPatch.ReadPatch(id.value) == Some((u.blobId, q.patches[k].start, q.patches[k].end))
    { QuiltPatch.PatchRoundTrip(u.blobId, q.patches[k].start, q.patches[k].end); }
  }

  lemma FitsExactly(q: Quilt, sorted: seq<Asset>, blobId: string, k: nat)
    requires k < |sorted| && IdBytes(blobId, 32).Some?
    ensures PatchFits(q, sorted, blobId, k) <==> PatchIs(q, sorted, k)
  {
    if PatchIs(q, sorted, k) { QuiltPatch.PatchRoundTrip(blobId, q.patches[k].start, q.patches[k].end); }
  }
}
