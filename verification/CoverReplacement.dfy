/** prepareCreatorCover of maker-v8-creator-cover.js: replace or remove a Maker's cover image. */
module CoverReplacement {
  import opened Results
  import opened JsonReferences
  import opened Keyed
  import opened Sequences
  import opened AssetDocument
  import opened AssetRules
  import Base64
  import FreshKeys
  import ImageHeader

  const MAX_SAFE: nat := 0x1F_FFFF_FFFF_FFFF

  datatype Failure = Unavailable | BadImage(outcome: ImageHeader.Outcome)

  datatype CoverResult = CoverResult(commands: seq<Command>, upserts: seq<Upsert>, deletes: seq<Delete>,
    width: Option<int>, height: Option<int>, mediaType: Option<string>, changed: bool)

  const Unchanged := CoverResult([], [], [], None, None, None, false)

  function CoverName(n: nat): string { "maker-cover" + "-" + FreshKeys.Decimal(n) }

  lemma CoverNamesDiffer()
    ensures FreshKeys.Distinct(CoverName)
  {
    forall i: nat, j: nat | i != j ensures CoverName(i) != CoverName(j) {
      if CoverName(i) == CoverName(j) { FreshKeys.NumberedInjective("maker-cover", "maker-cover", i, j); }
    }
  }

  function UsedIds(d: Document, rows: seq<Row>): set<string> {
    FreshKeys.Members(Keys(DescriptorKey, d.assets)) + FreshKeys.Members(Keys(RowKey, rows))
  }

  /** nextCoverId */
  function NextCoverId(d: Document, rows: seq<Row>): string {
    var used := UsedIds(d, rows);
    CoverName(FreshKeys.FirstFree(CoverName, used, 1, |used|))
  }

  function RowsOf(rows: seq<Row>, id: string): seq<Row> { Keep((r: Row) => r.assetId == id, rows) }

  /** savedCover: the one durable row of the cover, as its descriptor says. */
  predicate SavedCover(d: Document, rows: seq<Row>, id: string) {
    var descriptor := Lookup(DescriptorKey, d.assets, id);
    var found := RowsOf(rows, id);
    && descriptor.Some? && |found| == 1 && 1 <= found[0].revision <= MAX_SAFE
    && found[0].kind == descriptor.value.kind && found[0].mediaType == descriptor.value.mediaType
    && found[0].byteLength == descriptor.value.byteLength
    && LengthOf(found[0].bytesBase64) == Some(descriptor.value.byteLength)
  }

  function MediaType(m: ImageHeader.Media): string { if m.Png? then "image/png" else "image/jpeg" }

  /** The commands and byte mutations that make next the cover; bytes are its content. */
  function Replacement(d: Document, rows: seq<Row>, next: Option<string>, mediaType: string, bytes: Base64.Bytes): CoverResult
    requires Base64.IsBytes(bytes) && (d.cover.Some? ==> SavedCover(d, rows, d.cover.value))
  {
    var drop := d.cover.Some? && !MentionedElsewhere(d, COVER, d.cover.value);
    CoverResult(
      (if next.Some? then [UpsertAsset(Descriptor(next.value, "cover", mediaType, |bytes|))] else [])
        + [SetMetadata(d.metadata, next)] + (if drop then [RemoveAsset(d.cover.value)] else []),
      if next.Some? then [Upsert(next.value, None, "cover", mediaType, Base64.ToBase64(bytes))] else [],
      if drop then [Delete(d.cover.value, RowsOf(rows, d.cover.value)[0].revision)] else [],
      None, None, None, true)
  }

  function PrepareCover(d: Document, rows: seq<Row>, bytes: Base64.Bytes, remove: bool): Result<CoverResult, Failure>
    requires Base64.IsBytes(bytes)
  {
    if remove && d.cover.None? then Ok(Unchanged)
    else if d.cover.Some? && !SavedCover(d, rows, d.cover.value) then Err(Unavailable)
    else if remove then Ok(Replacement(d, rows, None, "", bytes))
    else
      var image := ImageHeader.Inspect(bytes);
      if !image.Found? then Err(BadImage(image))
      else
        var mediaType := MediaType(image.media);
        var same := d.cover.Some? && RowsOf(rows, d.cover.value)[0].bytesBase64 == Base64.ToBase64(bytes)
                    && RowsOf(rows, d.cover.value)[0].mediaType == mediaType;
        var r := if same then Unchanged else Replacement(d, rows, Some(NextCoverId(d, rows)), mediaType, bytes);
        Ok(r.(width := Some(image.width), height := Some(image.height), mediaType := Some(mediaType)))
  }

  /** The result once the next cover is known, filled field by field. */
  method FillResult(d: Document, rows: seq<Row>, next: Option<string>, mediaType: string, bytes: Base64.Bytes) returns (r: CoverResult)
    requires Base64.IsBytes(bytes) && (d.cover.Some? ==> SavedCover(d, rows, d.cover.value))
    ensures r == Replacement(d, rows, next, mediaType, bytes)
  {
    r := Unchanged;
    if next.Some? {
      r := r.(commands := [UpsertAsset(Descriptor(next.value, "cover", mediaType, |bytes|))],
              upserts := [Upsert(next.value, None, "cover", mediaType, Base64.ToBase64(bytes))]);
    }
    r := r.(commands := r.commands + [SetMetadata(d.metadata, next)]);
    if d.cover.Some? && !MentionedElsewhere(d, COVER, d.cover.value) {
      r := r.(commands := r.commands + [RemoveAsset(d.cover.value)],
              deletes := [Delete(d.cover.value, RowsOf(rows, d.cover.value)[0].revision)]);
    }
    r := r.(changed := true);
  }

  /** prepareCreatorCover after its checks of the document. */
  method PrepareCreatorCover(d: Document, rows: seq<Row>, bytes: Base64.Bytes, remove: bool) returns (r: Result<CoverResult, Failure>)
    requires Base64.IsBytes(bytes)
    ensures r == PrepareCover(d, rows, bytes, remove)
  {
    if remove && d.cover.None? { return Ok(Unchanged); }
    if d.cover.Some? && !SavedCover(d, rows, d.cover.value) { return Err(Unavailable); }
    var result;
    if remove {
      result := FillResult(d, rows, None, "", bytes);
      return Ok(result);
    }
    var image := ImageHeader.InspectImage(bytes);
    if !image.Found? { return Err(BadImage(image)); }
    var text, mediaType := Base64.ToBase64(bytes), MediaType(image.media);
    if d.cover.Some? && RowsOf(rows, d.cover.value)[0].bytesBase64 == text && RowsOf(rows, d.cover.value)[0].mediaType == mediaType {
      result := Unchanged;
    } else {
      CoverNamesDiffer();
      var next := FreshKeys.SearchBounded(CoverName, UsedIds(d, rows));
      result := FillResult(d, rows, next, mediaType, bytes);
    }
    return Ok(result.(width := Some(image.width), height := Some(image.height), mediaType := Some(mediaType)));
  }

  // ---- what the replacement keeps ---------------------------------------------------------------------

  /** Every asset mentioned anywhere else before the edit is still there, with the same descriptor and bytes. */
  ghost predicate KeepsMentioned(d: Document, s: Store, e: Document, t: Store, hole: Path) {
    forall path: Path, id: string :: Mentions(d, path, id) && !(hole <= path) && HasAsset(d, id) ==>
      HasAsset(e, id) && Lookup(DescriptorKey, e.assets, id) == Lookup(DescriptorKey, d.assets, id)
      && id in t && id in s && t[id] == s[id]
  }

  lemma KeyUsed<T>(key: T -> string, s: seq<T>, id: string)
    requires Lookup(key, s, id).Some?
    ensures id in FreshKeys.Members(Keys(key, s))
  {
    assert Keys(key, s)[Find(key, s, id)] == id;
  }

  /** The search for a cover id always succeeds, with one no descriptor and no durable row has. */
  lemma NextCoverIsFresh(d: Document, rows: seq<Row>)
    ensures Lookup(DescriptorKey, d.assets, NextCoverId(d, rows)).None? && Lookup(RowKey, rows, NextCoverId(d, rows)).None?
  {
    CoverNamesDiffer();
    var used := UsedIds(d, rows);
    FreshKeys.FirstFreeIsFree(CoverName, used, 1);
    if Lookup(DescriptorKey, d.assets, NextCoverId(d, rows)).Some? { KeyUsed(DescriptorKey, d.assets, NextCoverId(d, rows)); }
    if Lookup(RowKey, rows, NextCoverId(d, rows)).Some? { KeyUsed(RowKey, rows, NextCoverId(d, rows)); }
  }

  lemma RowOfSnapshot(rows: seq<Row>, s: Store, id: string)
    requires Snapshot(rows, s) && |RowsOf(rows, id)| >= 1
    ensures id in s && RowsOf(rows, id)[0] == s[id]
  {
    var r := RowsOf(rows, id)[0];
    KeepMember((x: Row) => x.assetId == id, rows, r);
    var k :| 0 <= k < |rows| && rows[k] == r;
    FindOnly(RowKey, rows, k);
    assert Lookup(RowKey, rows, id) == Some(r);
  }

  function Added(assets: seq<Descriptor>, next: Option<Descriptor>): seq<Descriptor> {
    if next.Some? then Upserted(DescriptorKey, assets, next.value) else assets
  }

  function Dropped(assets: seq<Descriptor>, id: Option<string>): seq<Descriptor> {
    if id.Some? && Find(DescriptorKey, assets, id.value) < |assets| then
      var i := Find(DescriptorKey, assets, id.value);
      assets[..i] + assets[i + 1..]
    else assets
  }

  /** The commands of a replacement, run in order. */
  lemma RunCommands(d: Document, next: Option<Descriptor>, cover: Option<string>, drop: Option<string>)
    requires drop.Some? ==> Lookup(DescriptorKey, Added(d.assets, next), drop.value).Some?
    ensures ApplyAll(d, (if next.Some? then [UpsertAsset(next.value)] else []) + [SetMetadata(d.metadata, cover)]
                        + (if drop.Some? then [RemoveAsset(drop.value)] else []))
            == Some(d.(cover := cover, assets := Dropped(Added(d.assets, next), drop)))
  {
    var last := if drop.Some? then [RemoveAsset(drop.value)] else [];
    var e := d.(assets := Added(d.assets, next), cover := cover);
    RunLast(e, drop);
    var mid := [SetMetadata(d.metadata, cover)] + last;
    assert mid[0] == SetMetadata(d.metadata, cover) && mid[1..] == last;
    assert ApplyAll(d.(assets := Added(d.assets, next)), mid) == ApplyAll(e, last);
    if next.Some? {
      var all := [UpsertAsset(next.value)] + [SetMetadata(d.metadata, cover)] + last;
      assert all[0] == UpsertAsset(next.value) && all[1..] == mid;
    } else {
      assert [] + [SetMetadata(d.metadata, cover)] + last == mid;
    }
  }

  lemma RunLast(e: Document, drop: Option<string>)
    requires drop.Some? ==> Lookup(DescriptorKey, e.assets, drop.value).Some?
    ensures ApplyAll(e, if drop.Some? then [RemoveAsset(drop.value)] else []) == Some(e.(assets := Dropped(e.assets, drop)))
  {
    if drop.Some? { RunOne(e, RemoveAsset(drop.value)); }
  }

  /** The byte mutations of a replacement: none meets a changed revision. */
  lemma RunMutations(s: Store, drop: Option<Delete>, upsert: Option<Upsert>, draftRevision: int)
    requires drop.Some? ==> RevisionIn(s, drop.value.assetId) == Some(drop.value.expectedRevision)
    requires upsert.Some? ==> upsert.value.expectedRevision.None? && upsert.value.assetId !in s && LengthOf(upsert.value.bytesBase64).Some?
    ensures var after := if drop.Some? then s - {drop.value.assetId} else s;
      Mutate(s, if drop.Some? then [drop.value] else [], if upsert.Some? then [upsert.value] else [], draftRevision)
      == Some(if upsert.Some? then after[upsert.value.assetId := NewRow(upsert.value, draftRevision)] else after)
  {
    var after := if drop.Some? then s - {drop.value.assetId} else s;
    var deletes := if drop.Some? then [drop.value] else [];
    var upserts := if upsert.Some? then [upsert.value] else [];
    assert Mutate(s, deletes, upserts, draftRevision) == Mutate(after, [], upserts, draftRevision) by {
      if drop.Some? { assert deletes[1..] == []; }
    }
    if upsert.Some? {
      assert upserts[1..] == [];
      assert Mutate(after[upsert.value.assetId := NewRow(upsert.value, draftRevision)], [], [], draftRevision)
          == Some(after[upsert.value.assetId := NewRow(upsert.value, draftRevision)]);
    }
  }

  function NewRow(u: Upsert, draftRevision: int): Row
    requires LengthOf(u.bytesBase64).Some?
  { Row(u.assetId, draftRevision + 1, u.kind, u.mediaType, LengthOf(u.bytesBase64).value, u.bytesBase64) }

  function AddedRow(s: Store, next: Option<Descriptor>, row: Option<Row>): Store {
    if next.Some? && row.Some? then s[next.value.id := row.value] else s
  }

  function DroppedRow(s: Store, id: Option<string>): Store { if id.Some? then s - {id.value} else s }

  lemma AddFresh(assets: seq<Descriptor>, s: Store, next: Option<Descriptor>, row: Option<Row>)
    requires Agree(assets, s) && next.Some? == row.Some?
    requires next.Some? ==> Matches(next.value, row.value)
    ensures Agree(Added(assets, next), AddedRow(s, next, row))
    ensures forall k :: Lookup(DescriptorKey, Added(assets, next), k) ==
                          if next.Some? && k == next.value.id then next else Lookup(DescriptorKey, assets, k)
  {
    if next.Some? {
      UpsertedLookup(DescriptorKey, assets, next.value);
      AgreeUpsert(assets, s, next.value, row.value);
    }
  }

  lemma DropOne(assets: seq<Descriptor>, s: Store, id: Option<string>)
    requires Agree(assets, s) && (id.Some? ==> Lookup(DescriptorKey, assets, id.value).Some?)
    ensures Agree(Dropped(assets, id), DroppedRow(s, id))
    ensures forall k :: Lookup(DescriptorKey, Dropped(assets, id), k) == if Some(k) == id then None else Lookup(DescriptorKey, assets, k)
  {
    if id.Some? {
      var i := Find(DescriptorKey, assets, id.value);
      RemovedLookup(DescriptorKey, assets, i);
      AgreeRemove(assets, s, i);
    }
  }

  /** What a replacement makes of the document and of the durable rows. */
  function NextDocument(d: Document, next: Option<Descriptor>, drop: Option<string>): Document {
    d.(cover := if next.Some? then Some(next.value.id) else None, assets := Dropped(Added(d.assets, next), drop))
  }

  function NextStore(s: Store, next: Option<Descriptor>, row: Option<Row>, drop: Option<string>): Store {
    DroppedRow(AddedRow(s, next, row), drop)
  }

  /** Dropping only an unmentioned asset and adding only a fresh one keeps every mention whole. */
  lemma ReplacementKeeps(d: Document, s: Store, next: Option<Descriptor>, row: Option<Row>, drop: Option<string>)
    requires Agree(d.assets, s) && next.Some? == row.Some?
    requires next.Some? ==> Matches(next.value, row.value) && Lookup(DescriptorKey, d.assets, next.value.id).None?
    requires drop.Some? ==> Lookup(DescriptorKey, d.assets, drop.value).Some? && !MentionedElsewhere(d, COVER, drop.value)
    ensures var e, t := NextDocument(d, next, drop), NextStore(s, next, row, drop);
      && Agree(e.assets, t) && Replaces(d, e, COVER, e.cover) && Preserves(d, e, COVER, {}) && KeepsMentioned(d, s, e, t, COVER)
      && (e.cover.Some? ==> HasAsset(e, e.cover.value) && Lookup(DescriptorKey, e.assets, e.cover.value) == next)
  {
    var e, t := NextDocument(d, next, drop), NextStore(s, next, row, drop);
    AddFresh(d.assets, s, next, row);
    DropOne(Added(d.assets, next), AddedRow(s, next, row), drop);
    CoverReplaced(d, e.cover, e.assets);
    CoverPreserves(d, e.cover, e.assets);
    MentionedKept(d, s, next, row, drop);
  }

  lemma MentionedKept(d: Document, s: Store, next: Option<Descriptor>, row: Option<Row>, drop: Option<string>)
    requires Agree(d.assets, s) && next.Some? == row.Some?
    requires next.Some? ==> Matches(next.value, row.value) && Lookup(DescriptorKey, d.assets, next.value.id).None?
    requires drop.Some? ==> Lookup(DescriptorKey, d.assets, drop.value).Some? && !MentionedElsewhere(d, COVER, drop.value)
    ensures KeepsMentioned(d, s, NextDocument(d, next, drop), NextStore(s, next, row, drop), COVER)
  {
    var e, t := NextDocument(d, next, drop), NextStore(s, next, row, drop);
    AddFresh(d.assets, s, next, row);
    DropOne(Added(d.assets, next), AddedRow(s, next, row), drop);
    if drop.Some? { MentionedExactly(d, COVER, drop.value); }
    forall path: Path, id: string | Mentions(d, path, id) && !(COVER <= path) && HasAsset(d, id)
      ensures HasAsset(e, id) && Lookup(DescriptorKey, e.assets, id) == Lookup(DescriptorKey, d.assets, id)
      ensures id in t && id in s && t[id] == s[id]
    {
      assert Some(id) != drop;
      assert Lookup(DescriptorKey, d.assets, id).Some?;
    }
  }

  function DropOf(d: Document): Option<string> {
    if d.cover.Some? && !MentionedElsewhere(d, COVER, d.cover.value) then d.cover else None
  }

  /** The new cover's descriptor, when the edit does not only remove the old one. */
  function NextOf(d: Document, rows: seq<Row>, bytes: Base64.Bytes, remove: bool, mediaType: string): Option<Descriptor> {
    if remove then None else Some(Descriptor(NextCoverId(d, rows), "cover", mediaType, |bytes|))
  }

  lemma CommandsRun(d: Document, rows: seq<Row>, next: Option<Descriptor>, mediaType: string, bytes: Base64.Bytes)
    requires Base64.IsBytes(bytes) && (d.cover.Some? ==> SavedCover(d, rows, d.cover.value)) && Distinct(DescriptorKey, d.assets)
    requires next.Some? ==> next.value == Descriptor(next.value.id, "cover", mediaType, |bytes|)
    ensures ApplyAll(d, Replacement(d, rows, if next.Some? then Some(next.value.id) else None, mediaType, bytes).commands)
            == Some(NextDocument(d, next, DropOf(d)))
  {
    if next.Some? { UpsertedLookup(DescriptorKey, d.assets, next.value); }
    RunCommands(d, next, if next.Some? then Some(next.value.id) else None, DropOf(d));
  }

  function DeleteOf(d: Document, rows: seq<Row>): Option<Delete>
    requires d.cover.Some? ==> SavedCover(d, rows, d.cover.value)
  { if DropOf(d).Some? then Some(Delete(d.cover.value, RowsOf(rows, d.cover.value)[0].revision)) else None }

  function UpsertOf(next: Option<Descriptor>, bytes: Base64.Bytes): Option<Upsert>
    requires Base64.IsBytes(bytes)
  { if next.Some? then Some(Upsert(next.value.id, None, "cover", next.value.mediaType, Base64.ToBase64(bytes))) else None }

  lemma MutationLists(d: Document, rows: seq<Row>, next: Option<Descriptor>, mediaType: string, bytes: Base64.Bytes)
    requires Base64.IsBytes(bytes) && (d.cover.Some? ==> SavedCover(d, rows, d.cover.value))
    requires next.Some? ==> next.value.mediaType == mediaType
    ensures var r := Replacement(d, rows, if next.Some? then Some(next.value.id) else None, mediaType, bytes);
      && r.deletes == (if DeleteOf(d, rows).Some? then [DeleteOf(d, rows).value] else [])
      && r.upserts == (if UpsertOf(next, bytes).Some? then [UpsertOf(next, bytes).value] else [])
  {}

  lemma SwapStore(s: Store, drop: string, id: string, row: Row)
    requires drop != id
    ensures (s - {drop})[id := row] == s[id := row] - {drop}
  {}

  lemma MutationsRun(d: Document, rows: seq<Row>, s: Store, next: Option<Descriptor>, mediaType: string, bytes: Base64.Bytes, draftRevision: int)
    requires Base64.IsBytes(bytes) && (d.cover.Some? ==> SavedCover(d, rows, d.cover.value)) && Snapshot(rows, s)
    requires next.Some? ==> next.value.mediaType == mediaType && next.value.id !in s
    ensures var r := Replacement(d, rows, if next.Some? then Some(next.value.id) else None, mediaType, bytes);
      Mutate(s, r.deletes, r.upserts, draftRevision)
      == Some(NextStore(s, next, if next.Some? then Some(CoverRow(next.value, bytes, draftRevision)) else None, DropOf(d)))
  {
    MutationLists(d, rows, next, mediaType, bytes);
    if DropOf(d).Some? { RowOfSnapshot(rows, s, d.cover.value); }
    StoresRun(s, DeleteOf(d, rows), next, bytes, draftRevision);
  }

  lemma StoresRun(s: Store, drop: Option<Delete>, next: Option<Descriptor>, bytes: Base64.Bytes, draftRevision: int)
    requires Base64.IsBytes(bytes) && (next.Some? ==> next.value.id !in s)
    requires drop.Some? ==> RevisionIn(s, drop.value.assetId) == Some(drop.value.expectedRevision) && drop.value.assetId in s
    ensures Mutate(s, if drop.Some? then [drop.value] else [],
                   if UpsertOf(next, bytes).Some? then [UpsertOf(next, bytes).value] else [], draftRevision)
      == Some(NextStore(s, next, if next.Some? then Some(CoverRow(next.value, bytes, draftRevision)) else None,
                        if drop.Some? then Some(drop.value.assetId) else None))
  {
    Base64.FromToBase64(bytes);
    RunMutations(s, drop, UpsertOf(next, bytes), draftRevision);
    if drop.Some? && next.Some? { SwapStore(s, drop.value.assetId, next.value.id, CoverRow(next.value, bytes, draftRevision)); }
  }

  function CoverRow(d: Descriptor, bytes: Base64.Bytes, draftRevision: int): Row
    requires Base64.IsBytes(bytes)
  { Row(d.id, draftRevision + 1, "cover", d.mediaType, |bytes|, Base64.ToBase64(bytes)) }

  /**
   * A document and durable rows after an edit: still alike, one reference new, every other mention in place except
   * below the lost places, and every asset mentioned elsewhere whole.
   */
  ghost predicate Safe(d: Document, s: Store, e: Document, t: Store, hole: Path, next: Option<string>, lost: set<Path>) {
    && Agree(e.assets, t) && Replaces(d, e, hole, next) && Preserves(d, e, hole, lost) && KeepsMentioned(d, s, e, t, hole)
    && (next.Some? ==> HasAsset(e, next.value) && next.value in t)
  }

  /**
   * An accepted cover edit applies in full: its commands run, its byte mutations meet the revisions they expect, and
   * the result is safe.  The new cover has the uploaded bytes.
   */
  lemma CoverEditIsSafe(d: Document, rows: seq<Row>, s: Store, bytes: Base64.Bytes, remove: bool, draftRevision: int)
    requires Base64.IsBytes(bytes) && Agree(d.assets, s) && Snapshot(rows, s)
    requires PrepareCover(d, rows, bytes, remove).Ok? && PrepareCover(d, rows, bytes, remove).value.changed
    ensures var r := PrepareCover(d, rows, bytes, remove).value;
      && ApplyAll(d, r.commands).Some? && Mutate(s, r.deletes, r.upserts, draftRevision).Some?
      && var e, t := ApplyAll(d, r.commands).value, Mutate(s, r.deletes, r.upserts, draftRevision).value;
         && e == d.(cover := e.cover, assets := e.assets) && Safe(d, s, e, t, COVER, e.cover, {})
         && e.cover == (if remove then None else Some(NextCoverId(d, rows)))
         && (!remove ==> t[e.cover.value].bytesBase64 == Base64.ToBase64(bytes))
  {
    var mediaType := if remove then "" else MediaType(ImageHeader.Inspect(bytes).media);
    var next, drop := NextOf(d, rows, bytes, remove, mediaType), DropOf(d);
    var row := if remove then None else Some(CoverRow(next.value, bytes, draftRevision));
    NextCoverIsFresh(d, rows);
    CommandsRun(d, rows, next, mediaType, bytes);
    MutationsRun(d, rows, s, next, mediaType, bytes, draftRevision);
    ReplacementKeeps(d, s, next, row, drop);
    CoverOutcome(d, s, next, row, drop);
  }

  lemma CoverOutcome(d: Document, s: Store, next: Option<Descriptor>, row: Option<Row>, drop: Option<string>)
    requires next.Some? == row.Some? && Agree(NextDocument(d, next, drop).assets, NextStore(s, next, row, drop))
    requires next.Some? ==> HasAsset(NextDocument(d, next, drop), next.value.id)
    ensures next.Some? ==> next.value.id in NextStore(s, next, row, drop) && NextStore(s, next, row, drop)[next.value.id] == row.value
  {
    if next.Some? { assert Lookup(DescriptorKey, NextDocument(d, next, drop).assets, next.value.id).Some?; }
  }

  /** The replaced cover is removed exactly when nothing else in the document mentions it. */
  lemma OldCoverRemovedExactly(d: Document, rows: seq<Row>, bytes: Base64.Bytes, remove: bool)
    requires Base64.IsBytes(bytes) && Distinct(DescriptorKey, d.assets) && d.cover.Some?
    requires PrepareCover(d, rows, bytes, remove).Ok? && PrepareCover(d, rows, bytes, remove).value.changed
    ensures RemoveAsset(d.cover.value) in PrepareCover(d, rows, bytes, remove).value.commands <==>
            !exists path: Path :: Mentions(d, path, d.cover.value) && !(COVER <= path)
  {
    MentionedExactly(d, COVER, d.cover.value);
    var c := PrepareCover(d, rows, bytes, remove).value.commands;
    if DropOf(d).Some? { assert c[|c| - 1] == RemoveAsset(d.cover.value); }
  }
}
