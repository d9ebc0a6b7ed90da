/** What accepted Style artwork and covers make of the document and of the durable rows, and when they are accepted. */
module StyleEffects {
  import opened Results
  import opened JsonReferences
  import opened Keyed
  import opened AssetDocument
  import opened AssetRules
  import opened CoverReplacement
  import opened StyleReplacement
  import Base64
  import ImageHeader
  import PngHeader

  // ---- the fitted transform ---------------------------------------------------------------------------

  /** Scaled by n millionths, the PNG fits the canvas and is not enlarged. */
  predicate FitsAt(c: Canvas, width: nat, height: nat, n: nat) {
    n <= 1_000_000 && n * width <= c.width * 1_000_000 && n * height <= c.height * 1_000_000
  }

  /** x is the whole number nearest to the margin that centers size, scaled by n millionths, in limit. */
  predicate Centers(x: int, limit: nat, size: nat, n: nat) {
    2_000_000 * x <= limit * 1_000_000 - n * size + 1_000_000 < 2_000_000 * x + 2_000_000
  }

  /** The largest scale, n millionths, at which the PNG fits, centered at x and y, without rotation. */
  ghost predicate FittedBy(c: Canvas, width: nat, height: nat, n: nat, x: int, y: int, transform: Json) {
    && FitsAt(c, width, height, n) && !FitsAt(c, width, height, n + 1) && Centers(x, c.width, width, n) && Centers(y, c.height, height, n)
    && transform == Obj(map["x" := Num(x as real), "y" := Num(y as real), "scale" := Num(n as real / 1_000_000.0), "rotation" := Num(0.0)])
  }

  ghost predicate Fitted(c: Canvas, width: nat, height: nat, transform: Json) {
    exists n, x, y :: FittedBy(c, width, height, n, x, y, transform)
  }

  lemma RatioFloor(limit: nat, size: nat, n: nat)
    requires size > 0
    ensures n as real <= limit as real / size as real * 1000000.0 <==> n * size <= limit * 1_000_000
  {
    var q, s := limit as real / size as real, size as real;
    assert q * s == limit as real;
    RatioTimes(n as real, q * 1000000.0, s);
    assert q * 1000000.0 * s == limit as real * 1000000.0;
    assert n as real * s == (n * size) as real && limit as real * 1000000.0 == (limit * 1_000_000) as real;
  }

  lemma RatioTimes(a: real, b: real, s: real)
    requires s > 0.0
    ensures a <= b <==> a * s <= b * s
  {
  }

  lemma MinScaled(a: real, b: real, n: real)
    ensures n <= Min(1.0, Min(a, b)) * 1000000.0 <==> n <= 1000000.0 && n <= a * 1000000.0 && n <= b * 1000000.0
  {
  }

  /** The number of millionths of the fitted scale. */
  function Millionths(c: Canvas, width: nat, height: nat): int
    requires width > 0 && height > 0
  { (Min(1.0, Min(c.width as real / width as real, c.height as real / height as real)) * 1000000.0).Floor }

  lemma NonNegativeRatio(limit: nat, size: nat)
    requires size > 0
    ensures limit as real / size as real >= 0.0
  {
    var q := limit as real / size as real;
    assert q * size as real == limit as real;
  }

  lemma ScaleIsLargest(c: Canvas, width: nat, height: nat)
    requires width > 0 && height > 0
    ensures var n := Millionths(c, width, height); n >= 0 && FitsAt(c, width, height, n) && !FitsAt(c, width, height, n + 1)
  {
    var a, b := c.width as real / width as real, c.height as real / height as real;
    NonNegativeRatio(c.width, width);
    NonNegativeRatio(c.height, height);
    var n := Millionths(c, width, height);
    MinScaled(a, b, n as real);
    MinScaled(a, b, (n + 1) as real);
    RatioFloor(c.width, width, n);
    RatioFloor(c.height, height, n);
    RatioFloor(c.width, width, n + 1);
    RatioFloor(c.height, height, n + 1);
  }

  lemma MarginCenters(limit: nat, size: nat, n: nat)
    ensures Centers(Margin(limit, size, n as real / 1_000_000.0), limit, size, n)
  {
    var x := Margin(limit, size, n as real / 1_000_000.0);
    assert size as real * (n as real / 1_000_000.0) == (n * size) as real / 1_000_000.0;
    assert x as real <= (limit as real - (n * size) as real / 1_000_000.0) / 2.0 + 0.5 < x as real + 1.0;
    assert (2_000_000 * x) as real == 2_000_000.0 * x as real;
    assert (limit * 1_000_000 - n * size + 1_000_000) as real == 1_000_000.0 * limit as real - (n * size) as real + 1_000_000.0;
  }

  function Transform(x: int, y: int, scale: real): Json {
    Obj(map["x" := Num(x as real), "y" := Num(y as real), "scale" := Num(scale), "rotation" := Num(0.0)])
  }

  lemma FitShape(c: Canvas, width: nat, height: nat, scale: real, x: int, y: int)
    requires width > 0 && height > 0 && scale == FitScale(c, width, height)
    requires x == Margin(c.width, width, scale) && y == Margin(c.height, height, scale)
    ensures Fit(c, width, height) == Transform(x, y, scale)
  {
  }

  lemma FittedIs(c: Canvas, width: nat, height: nat, n: nat, x: int, y: int)
    requires FitsAt(c, width, height, n) && !FitsAt(c, width, height, n + 1)
    requires Centers(x, c.width, width, n) && Centers(y, c.height, height, n)
    ensures Fitted(c, width, height, Transform(x, y, n as real / 1_000_000.0))
  {
    assert FittedBy(c, width, height, n, x, y, Transform(x, y, n as real / 1_000_000.0));
  }

  lemma ScaleIs(c: Canvas, width: nat, height: nat)
    requires width > 0 && height > 0
    ensures FitScale(c, width, height) == Millionths(c, width, height) as real / 1_000_000.0
  {
  }

  /** The parts of the fitted transform. */
  lemma FitParts(c: Canvas, width: nat, height: nat) returns (n: nat, x: int, y: int)
    requires width > 0 && height > 0
    ensures FitsAt(c, width, height, n) && !FitsAt(c, width, height, n + 1)
    ensures Centers(x, c.width, width, n) && Centers(y, c.height, height, n)
    ensures n as real / 1_000_000.0 == FitScale(c, width, height)
    ensures x == Margin(c.width, width, FitScale(c, width, height)) && y == Margin(c.height, height, FitScale(c, width, height))
  {
    ScaleIsLargest(c, width, height);
    ScaleIs(c, width, height);
    n := Millionths(c, width, height);
    x, y := Margin(c.width, width, n as real / 1_000_000.0), Margin(c.height, height, n as real / 1_000_000.0);
    MarginCenters(c.width, width, n);
    MarginCenters(c.height, height, n);
  }

  lemma FitDone(c: Canvas, width: nat, height: nat)
    requires width > 0 && height > 0
    ensures Fitted(c, width, height, Fit(c, width, height))
  {
    var n, x, y := FitParts(c, width, height);
    FittedIs(c, width, height, n, x, y);
    FitShape(c, width, height, n as real / 1_000_000.0, x, y);
  }

  // ---- the style --------------------------------------------------------------------------------------

  predicate HasFlag(payload: map<string, Json>, flag: string) {
    "animacraftEditor" in payload && match payload["animacraftEditor"]
      case Obj(fields) => flag in fields && fields[flag] == Bool(true)
      case _ => false
  }

  /** The editor's fields stay, but its position awaits confirmation. */
  ghost predicate Unconfirmed(was: map<string, Json>, now: map<string, Json>) {
    && "animacraftEditor" in now && now["animacraftEditor"].Obj?
    && var fields := now["animacraftEditor"].fields;
       && "positionConfirmed" in fields && fields["positionConfirmed"] == Bool(false)
       && forall k :: k != "positionConfirmed" ==>
            (k in fields <==> "animacraftEditor" in was && was["animacraftEditor"].Obj? && k in was["animacraftEditor"].fields)
            && (k in fields ==> fields[k] == was["animacraftEditor"].fields[k])
  }

  /** The style shows the asset.  The identity of the old source is gone; a locked position stays, any other is fitted
      again; nothing else of the style changes. */
  ghost predicate Placed(c: Canvas, x: Style, y: Style, id: string, width: nat, height: nat) {
    && y == x.(assetId := Some(id), payload := y.payload, transform := y.transform)
    && "animacraftSourceAsset" !in y.payload
    && (forall k :: k != "animacraftEditor" && k != "animacraftSourceAsset" ==>
          (k in y.payload <==> k in x.payload) && (k in y.payload ==> y.payload[k] == x.payload[k]))
    && if HasFlag(x.payload, "positionLocked") then
         y.transform == x.transform && "animacraftEditor" in y.payload && y.payload["animacraftEditor"] == x.payload["animacraftEditor"]
       else Fitted(c, width, height, y.transform) && Unconfirmed(x.payload, y.payload)
  }

  lemma NextIsPlaced(c: Canvas, x: Style, id: string, width: nat, height: nat)
    requires width > 0 && height > 0
    ensures Placed(c, x, NextStyle(c, x, id, width, height), id, width, height)
  {
    FitDone(c, width, height);
  }

  /** An asset only this style shows keeps its id; a first or a shared one gets an id no descriptor and no row has. */
  ghost predicate RightId(d: Document, rows: seq<Row>, p: nat, i: nat, s: nat, id: string)
    requires AtStyle(d.parts, p, i, s)
  {
    var was := StyleAt(d.parts, p, i, s).assetId;
    if was.Some? && !exists path: Path :: Mentions(d, path, was.value) && !(StyleHole(p, i, s) <= path) then Some(id) == was
    else Lookup(DescriptorKey, d.assets, id).None? && Lookup(RowKey, rows, id).None?
  }

  lemma IdIsRight(d: Document, rows: seq<Row>, p: nat, i: nat, s: nat)
    requires AtStyle(d.parts, p, i, s)
    ensures RightId(d, rows, p, i, s, NextAssetId(d, rows, p, i, s))
  {
    var x := StyleAt(d.parts, p, i, s);
    if x.assetId.None? {
      ExclusiveIsFresh(d.parts[p].key + "-" + d.parts[p].items[i].key + "-" + x.key, d, rows);
    } else {
      MentionedExactly(d, StyleHole(p, i, s), x.assetId.value);
      ExclusiveIsFresh(x.assetId.value, d, rows);
    }
  }

  /** A first artwork is a layer; a replaced one keeps its kind. */
  ghost predicate RightKind(d: Document, was: Option<string>, kind: string) {
    match was
    case None => kind == "layer"
    case Some(id) => exists a :: Lookup(DescriptorKey, d.assets, id) == Some(a) && a.kind == kind
  }

  /** The document and the rows hold the artwork under this id: descriptor and row of one kind, as a PNG of these bytes,
      at the next revision of a replaced row or the draft's of a new one. */
  ghost predicate Holds(e: Document, s: Store, t: Store, id: string, kind: string, mediaType: string, bytes: Base64.Bytes, draftRevision: int)
    requires Base64.IsBytes(bytes)
  {
    && Lookup(DescriptorKey, e.assets, id) == Some(Descriptor(id, kind, mediaType, |bytes|))
    && id in t && t[id] == Row(id, (if id in s then s[id].revision else draftRevision) + 1, kind, mediaType, |bytes|, Base64.ToBase64(bytes))
    && forall other :: other != id && other in t ==> other in s && t[other] == s[other]
  }

  lemma StylePlaced(d: Document, rows: seq<Row>, p: nat, i: nat, s: nat, width: nat, height: nat)
    requires AtStyle(d.parts, p, i, s) && width > 0 && height > 0
    ensures var id := NextAssetId(d, rows, p, i, s);
      var parts := NextParts(d, p, i, s, id, width, height);
      AtStyle(parts, p, i, s) && Placed(d.canvas, StyleAt(d.parts, p, i, s), StyleAt(parts, p, i, s), id, width, height)
  {
    var x, id := StyleAt(d.parts, p, i, s), NextAssetId(d, rows, p, i, s);
    NextIsPlaced(d.canvas, x, id, width, height);
    if !Rewrites(d, p, i, s) { assert x.assetId == Some(id); }
  }

  /** The edit of one style: it is placed, and document and rows hold its bytes. */
  ghost predicate Lands(d: Document, rows: seq<Row>, store: Store, p: nat, i: nat, s: nat, bytes: Base64.Bytes, draftRevision: int, r: StyleResult)
    requires AtStyle(d.parts, p, i, s) && Base64.IsBytes(bytes)
  {
    && r.width >= 0 && r.height >= 0
    && ApplyAll(d, r.commands).Some? && Mutate(store, [], [r.upsert], draftRevision).Some?
    && var e, t := ApplyAll(d, r.commands).value, Mutate(store, [], [r.upsert], draftRevision).value;
       var x, id := StyleAt(d.parts, p, i, s), r.upsert.assetId;
       && AtStyle(e.parts, p, i, s) && Placed(d.canvas, x, StyleAt(e.parts, p, i, s), id, r.width, r.height)
       && RightId(d, rows, p, i, s, id) && RightKind(d, x.assetId, r.upsert.kind)
       && Holds(e, store, t, id, r.upsert.kind, "image/png", bytes, draftRevision)
  }

  lemma EditHolds(d: Document, rows: seq<Row>, store: Store, p: nat, i: nat, s: nat, bytes: Base64.Bytes, draftRevision: int, e: Document, row: Row)
    requires AtStyle(d.parts, p, i, s) && Base64.IsBytes(bytes) && Distinct(DescriptorKey, d.assets)
    requires var id := StyleAt(d.parts, p, i, s).assetId; id.Some? ==> SavedAsset(d, rows, id.value)
    requires var next := NextDescriptor(d, rows, p, i, s, |bytes|);
      && e.assets == Upserted(DescriptorKey, d.assets, next) && Matches(next, row) && row.bytesBase64 == Base64.ToBase64(bytes)
      && row.revision == (if next.id in store then store[next.id].revision else draftRevision) + 1
    ensures var next := NextDescriptor(d, rows, p, i, s, |bytes|);
      && Holds(e, store, store[next.id := row], next.id, next.kind, "image/png", bytes, draftRevision)
      && RightKind(d, StyleAt(d.parts, p, i, s).assetId, next.kind)
  {
    UpsertedLookup(DescriptorKey, d.assets, NextDescriptor(d, rows, p, i, s, |bytes|));
  }

  lemma EditLands(d: Document, rows: seq<Row>, store: Store, p: nat, i: nat, s: nat, bytes: Base64.Bytes, width: nat, height: nat, draftRevision: int)
    requires AtStyle(d.parts, p, i, s) && Base64.IsBytes(bytes) && width > 0 && height > 0
    requires var id := StyleAt(d.parts, p, i, s).assetId; id.Some? ==> SavedAsset(d, rows, id.value)
    requires Find(PartKey, d.parts, d.parts[p].key) == p && Distinct(DescriptorKey, d.assets) && Snapshot(rows, store)
    ensures Lands(d, rows, store, p, i, s, bytes, draftRevision, StyleEdit(d, rows, p, i, s, bytes, width, height))
  {
    var next := NextDescriptor(d, rows, p, i, s, |bytes|);
    StyleCommandsRun(d, rows, p, i, s, bytes, width, height);
    var row := StyleMutationRuns(d, rows, store, p, i, s, bytes, width, height, draftRevision);
    var e := d.(assets := Upserted(DescriptorKey, d.assets, next), parts := NextParts(d, p, i, s, next.id, width, height));
    StylePlaced(d, rows, p, i, s, width, height);
    IdIsRight(d, rows, p, i, s);
    EditHolds(d, rows, store, p, i, s, bytes, draftRevision, e, row);
  }

  /** Accepted artwork ends where it belongs: the style is placed with an asset that is its own, and document and durable
      rows hold exactly the uploaded bytes under it, as a PNG of the dimensions its header has. */
  lemma StyleEditPlaces(d: Document, rows: seq<Row>, store: Store, partKey: string, itemKey: string, styleKey: string, bytes: Base64.Bytes,
    draftRevision: int) returns (p: nat, i: nat, s: nat)
    requires Base64.IsBytes(bytes) && Agree(d.assets, store) && Snapshot(rows, store)
    requires PrepareStylePng(d, rows, partKey, itemKey, styleKey, bytes, false).Ok?
    ensures AtStyle(d.parts, p, i, s) && d.parts[p].key == partKey && d.parts[p].items[i].key == itemKey
    ensures StyleAt(d.parts, p, i, s).key == styleKey
    ensures var r := PrepareStylePng(d, rows, partKey, itemKey, styleKey, bytes, false).value;
      Lands(d, rows, store, p, i, s, bytes, draftRevision, r) && PngHeader.IsPrinted(bytes, r.width, r.height)
  {
    p := Find(PartKey, d.parts, partKey);
    i := Find(ItemKey, d.parts[p].items, itemKey);
    s := Find(StyleKey, d.parts[p].items[i].styles, styleKey);
    var size := ImageHeader.PngDimensions(bytes).value;
    PngHeader.PngExactly(bytes, size.0, size.1);
    assert PartKey(d.parts[p]) == partKey && ItemKey(d.parts[p].items[i]) == itemKey;
    EditLands(d, rows, store, p, i, s, bytes, size.0, size.1, draftRevision);
  }

  /** Artwork is accepted exactly for a style that exists and is not locked, whose editor metadata is well formed, from a
      PNG within the limits, when the artwork it replaces is as saved. */
  lemma StyleAcceptedExactly(d: Document, rows: seq<Row>, partKey: string, itemKey: string, styleKey: string, bytes: Base64.Bytes, styleLocked: bool)
    requires Base64.IsBytes(bytes)
    ensures PrepareStylePng(d, rows, partKey, itemKey, styleKey, bytes, styleLocked).Ok? <==>
              && !styleLocked && StyleExists(d, partKey, itemKey, styleKey)
              && var p := Find(PartKey, d.parts, partKey);
                 var i := Find(ItemKey, d.parts[p].items, itemKey);
                 var x := d.parts[p].items[i].styles[Find(StyleKey, d.parts[p].items[i].styles, styleKey)];
                 && EditorOk(x.payload) && !HasFlag(x.payload, "styleLocked") && (x.assetId.Some? ==> SavedAsset(d, rows, x.assetId.value))
                 && exists width: nat, height: nat :: PngHeader.IsPrinted(bytes, width, height) && |bytes| <= 12 * 0x10_0000
                      && 1 <= width <= 8192 && 1 <= height <= 8192 && width * height <= 32 * 0x10_0000
  {
    forall width: nat, height: nat
      ensures ImageHeader.PngDimensions(bytes) == Some((width, height)) <==>
                PngHeader.IsPrinted(bytes, width, height) && |bytes| <= 12 * 0x10_0000
                && 1 <= width <= 8192 && 1 <= height <= 8192 && width * height <= 32 * 0x10_0000
    { PngHeader.PngExactly(bytes, width, height); }
    var size := ImageHeader.PngDimensions(bytes);
    if size.Some? {
      var width: nat, height: nat := size.value.0, size.value.1;
      assert PngHeader.IsPrinted(bytes, width, height);
    }
  }

  // ---- the cover --------------------------------------------------------------------------------------

  /** A PNG signature makes it a PNG, anything else a JPEG. */
  function MediaOf(bytes: Base64.Bytes): string {
    if |bytes| >= 33 && bytes[..8] == [0x89, 0x50, 0x4e, 0x47, 0x0d, 0x0a, 0x1a, 0x0a] then "image/png" else "image/jpeg"
  }

  lemma {:induction false} ScanFindsJpeg(b: ImageHeader.Bytes, at: nat)
    requires at <= |b|
    ensures ImageHeader.Scan(b, at).Found? ==> ImageHeader.Scan(b, at).media == ImageHeader.Jpeg
    decreases |b| - at
  {
    if at < |b| && b[at] == 0xff {
      var m := ImageHeader.SkipFill(b, at + 1);
      if m < |b| && !ImageHeader.Forbidden(b[m]) {
        if b[m] == 1 {
          ScanFindsJpeg(b, m + 1);
        } else if m + 3 <= |b| && ImageHeader.U16(b, m + 1) >= 2 && m + 1 + ImageHeader.U16(b, m + 1) <= |b| {
          ScanFindsJpeg(b, m + 1 + ImageHeader.U16(b, m + 1));
        }
      }
    }
  }

  lemma MediaFound(bytes: Base64.Bytes)
    ensures ImageHeader.Inspect(bytes).Found? ==> MediaType(ImageHeader.Inspect(bytes).media) == MediaOf(bytes)
  {
    if |bytes| >= 2 { ScanFindsJpeg(bytes, 2); }
  }

  /** The uploaded cover is under a new id, and the document and the rows hold exactly its bytes under that id; a removed
      cover leaves none.  The result tells the dimensions and type that were read. */
  lemma CoverEditPlaces(d: Document, rows: seq<Row>, s: Store, bytes: Base64.Bytes, remove: bool, draftRevision: int)
    requires Base64.IsBytes(bytes) && Agree(d.assets, s) && Snapshot(rows, s)
    requires PrepareCover(d, rows, bytes, remove).Ok? && PrepareCover(d, rows, bytes, remove).value.changed
    ensures var r := PrepareCover(d, rows, bytes, remove).value;
      && ApplyAll(d, r.commands).Some? && Mutate(s, r.deletes, r.upserts, draftRevision).Some?
      && var e, t := ApplyAll(d, r.commands).value, Mutate(s, r.deletes, r.upserts, draftRevision).value;
         && e.cover.Some? == !remove
         && (!remove ==>
               && Lookup(DescriptorKey, d.assets, e.cover.value).None? && Lookup(RowKey, rows, e.cover.value).None?
               && Holds(e, s, t, e.cover.value, "cover", MediaOf(bytes), bytes, draftRevision)
               && ImageHeader.Inspect(bytes).Found? && r.mediaType == Some(MediaOf(bytes))
               && r.width == Some(ImageHeader.Inspect(bytes).width) && r.height == Some(ImageHeader.Inspect(bytes).height))
  {
    var mediaType := if remove then "" else MediaType(ImageHeader.Inspect(bytes).media);
    var next, drop := NextOf(d, rows, bytes, remove, mediaType), DropOf(d);
    var row := if remove then None else Some(CoverRow(next.value, bytes, draftRevision));
    MediaFound(bytes);
    NextCoverIsFresh(d, rows);
    CommandsRun(d, rows, next, mediaType, bytes);
    MutationsRun(d, rows, s, next, mediaType, bytes, draftRevision);
    if !remove { CoverHolds(d, rows, s, next.value, bytes, draftRevision); }
  }

  lemma CoverHolds(d: Document, rows: seq<Row>, s: Store, next: Descriptor, bytes: Base64.Bytes, draftRevision: int)
    requires Base64.IsBytes(bytes) && Agree(d.assets, s) && Lookup(DescriptorKey, d.assets, next.id).None?
    requires next == Descriptor(next.id, "cover", next.mediaType, |bytes|) && (DropOf(d).Some? ==> HasAsset(d, d.cover.value))
    ensures Holds(NextDocument(d, Some(next), DropOf(d)), s, NextStore(s, Some(next), Some(CoverRow(next, bytes, draftRevision)), DropOf(d)),
                  next.id, "cover", next.mediaType, bytes, draftRevision)
  {
    Base64.FromToBase64(bytes);
    var row := Some(CoverRow(next, bytes, draftRevision));
    AddFresh(d.assets, s, Some(next), row);
    DropOne(Added(d.assets, Some(next)), AddedRow(s, Some(next), row), DropOf(d));
  }

  /** Nothing is to be done exactly when there is no cover to remove, or the saved cover has these bytes and this type. */
  lemma CoverUnchangedExactly(d: Document, rows: seq<Row>, bytes: Base64.Bytes, remove: bool)
    requires Base64.IsBytes(bytes) && PrepareCover(d, rows, bytes, remove).Ok?
    ensures var r := PrepareCover(d, rows, bytes, remove).value;
      && (r.changed <==> r.commands != []) && (!r.changed ==> r.upserts == [] && r.deletes == [])
      && (!r.changed <==> if remove then d.cover.None?
            else d.cover.Some? && RowsOf(rows, d.cover.value) != [] && RowsOf(rows, d.cover.value)[0].bytesBase64 == Base64.ToBase64(bytes)
                 && RowsOf(rows, d.cover.value)[0].mediaType == MediaOf(bytes))
  {
    MediaFound(bytes);
  }

  /** A cover is replaced exactly when the present one, if any, is as saved and the new one, if any, can be read. */
  lemma CoverAcceptedExactly(d: Document, rows: seq<Row>, bytes: Base64.Bytes, remove: bool)
    requires Base64.IsBytes(bytes)
    ensures PrepareCover(d, rows, bytes, remove).Ok? <==>
              && (d.cover.Some? ==> SavedCover(d, rows, d.cover.value)) && (remove || ImageHeader.Inspect(bytes).Found?)
  {
  }

  // ---- the saved artwork ------------------------------------------------------------------------------

  /** Row k and no other is the asset's. */
  ghost predicate OnlyRow(rows: seq<Row>, id: string, k: nat) {
    k < |rows| && rows[k].assetId == id && forall j :: 0 <= j < |rows| && j != k ==> rows[j].assetId != id
  }

  lemma {:induction false} NoRow(rows: seq<Row>, id: string)
    ensures RowsOf(rows, id) == [] <==> forall k :: 0 <= k < |rows| ==> rows[k].assetId != id
  {
    if rows != [] {
      NoRow(rows[1..], id);
      assert forall k :: 1 <= k < |rows| ==> rows[k] == rows[1..][k - 1];
    }
  }

  lemma {:induction false} OneRow(rows: seq<Row>, id: string, k: nat)
    ensures OnlyRow(rows, id, k) ==> RowsOf(rows, id) == [rows[k]]
    ensures |RowsOf(rows, id)| == 1 ==> exists j: nat :: OnlyRow(rows, id, j)
  {
    if rows == [] { return; }
    var rest := rows[1..];
    NoRow(rest, id);
    assert forall j :: 1 <= j < |rows| ==> rows[j] == rest[j - 1];
    if rows[0].assetId == id {
      if RowsOf(rest, id) == [] { assert OnlyRow(rows, id, 0); }
      if OnlyRow(rows, id, k) { assert k == 0; }
    } else {
      OneRow(rest, id, if k > 0 then k - 1 else 0);
      if j: nat :| OnlyRow(rest, id, j) { assert OnlyRow(rows, id, j + 1); }
      if OnlyRow(rows, id, k) { assert OnlyRow(rest, id, k - 1); }
    }
  }

  /** Exactly one row is the asset's, saved at a revision, with the kind, type and length the descriptor tells. */
  ghost predicate AsDescribed(d: Document, rows: seq<Row>, id: string, k: nat) {
    && OnlyRow(rows, id, k) && 1 <= rows[k].revision < 0x20_0000_0000_0000
    && var x := Lookup(DescriptorKey, d.assets, id);
       x.Some? && x.value.kind == rows[k].kind && x.value.mediaType == rows[k].mediaType && x.value.byteLength == rows[k].byteLength
  }

  /** A Style's artwork is as saved exactly when its row is as described; of a cover the bytes are read as well. */
  lemma SavedExactly(d: Document, rows: seq<Row>, id: string)
    ensures SavedAsset(d, rows, id) <==> exists k: nat :: AsDescribed(d, rows, id, k)
    ensures SavedCover(d, rows, id) <==>
              exists k: nat :: AsDescribed(d, rows, id, k)
                && exists b :: |b| == rows[k].byteLength && Base64.IsBytes(b) && Base64.ToBase64(b) == rows[k].bytesBase64
  {
    forall k: nat | OnlyRow(rows, id, k) ensures RowsOf(rows, id) == [rows[k]] { OneRow(rows, id, k); }
    OneRow(rows, id, 0);
    if |RowsOf(rows, id)| == 1 {
      var k: nat :| OnlyRow(rows, id, k);
      assert RowsOf(rows, id)[0] == rows[k];
      assert SavedAsset(d, rows, id) ==> AsDescribed(d, rows, id, k);
    }
    forall b | Base64.IsBytes(b) ensures Base64.FromBase64(Base64.ToBase64(b)) == Some(b) { Base64.FromToBase64(b); }
  }
}
