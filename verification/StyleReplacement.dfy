/** prepareCreatorStylePng of maker-v8-creator-image.js: give a Style new PNG artwork. */
module StyleReplacement {
  import opened Results
  import opened JsonReferences
  import opened Keyed
  import opened Sequences
  import opened AssetDocument
  import opened AssetRules
  import opened CoverReplacement
  import Base64
  import FreshKeys
  import ImageHeader
  import SafeText

  datatype StyleFailure = StyleLocked | StyleNotFound | EditorInvalid | PngInvalid | AssetUnavailable

  datatype StyleResult = StyleResult(commands: seq<Command>, upsert: Upsert, width: int, height: int)

  const EDITOR := "animacraftEditor"
  const SOURCE := "animacraftSourceAsset"
  const PNG := "image/png"

  // ---- the fresh id -----------------------------------------------------------------------------------

  /** String.prototype.slice(0, end): a negative end counts from the back. */
  function SliceTo(s: string, end: int): string {
    if end >= 0 then (if end < |s| then s[..end] else s)
    else if -end < |s| then s[..|s| + end] else ""
  }

  function StyleTail(n: nat): string { "-style" + "-" + FreshKeys.Decimal(n) }

  function StyleName(oldId: string, n: nat): string { SliceTo(oldId, 128 - |StyleTail(n)|) + StyleTail(n) }

  function Candidates(oldId: string): nat -> string { (n: nat) => StyleName(oldId, n) }

  /** However the old id is cut to make room, two candidates are never the same. */
  lemma CandidatesDiffer(oldId: string)
    ensures FreshKeys.Distinct(Candidates(oldId))
  {
    forall i: nat, j: nat | i != j ensures Candidates(oldId)(i) != Candidates(oldId)(j) {
      if StyleName(oldId, i) == StyleName(oldId, j) {
        var p, q := SliceTo(oldId, 128 - |StyleTail(i)|), SliceTo(oldId, 128 - |StyleTail(j)|);
        assert StyleName(oldId, i) == (p + "-style") + "-" + FreshKeys.Decimal(i);
        assert StyleName(oldId, j) == (q + "-style") + "-" + FreshKeys.Decimal(j);
        FreshKeys.NumberedInjective(p + "-style", q + "-style", i, j);
      }
    }
  }

  /** A candidate made from key text is a safe key of at most 128 characters. */
  lemma CandidateSafe(oldId: string, n: nat)
    requires oldId != "" && SafeText.IsAlphanumeric(oldId[0]) && (forall k :: 0 <= k < |oldId| ==> SafeText.IsKeyTail(oldId[k]))
    requires n < 1_000_000_000
    ensures SafeText.IsSafeKey(StyleName(oldId, n), 128)
  {
    FreshKeys.DecimalShort(n, 1_000_000_000, 9);
    var cut, name := SliceTo(oldId, 128 - |StyleTail(n)|), StyleName(oldId, n);
    assert 0 < |cut| && cut[0] == oldId[0] && name[|cut|] == '-';
    assert name[0] == oldId[0];
    assert name[|cut| + 1] == 's';
  }

  /** exclusiveAssetId */
  function ExclusiveId(oldId: string, d: Document, rows: seq<Row>): string {
    var used := UsedIds(d, rows);
    StyleName(oldId, FreshKeys.FirstFree(Candidates(oldId), used, 1, |used|))
  }

  /** The search for an exclusive id always succeeds, with one no descriptor and no durable row has. */
  lemma ExclusiveIsFresh(oldId: string, d: Document, rows: seq<Row>)
    ensures Lookup(DescriptorKey, d.assets, ExclusiveId(oldId, d, rows)).None? && Lookup(RowKey, rows, ExclusiveId(oldId, d, rows)).None?
  {
    CandidatesDiffer(oldId);
    var used, id := UsedIds(d, rows), ExclusiveId(oldId, d, rows);
    FreshKeys.FirstFreeIsFree(Candidates(oldId), used, 1);
    if Lookup(DescriptorKey, d.assets, id).Some? { KeyUsed(DescriptorKey, d.assets, id); }
    if Lookup(RowKey, rows, id).Some? { KeyUsed(RowKey, rows, id); }
  }

  // ---- the fitted transform, in exact rationals -------------------------------------------------------

  function Min(a: real, b: real): real { if a <= b then a else b }

  /** Quantised down to six places. */
  function FitScale(c: Canvas, width: nat, height: nat): real
    requires width > 0 && height > 0
  {
    (Min(1.0, Min(c.width as real / width as real, c.height as real / height as real)) * 1000000.0).Floor as real / 1000000.0
  }

  function Round(x: real): int { (x + 0.5).Floor }

  /** What is left on the near side of a centered size. */
  function Margin(limit: nat, size: nat, scale: real): int { Round((limit as real - size as real * scale) / 2.0) }

  function Fit(c: Canvas, width: nat, height: nat): Json
    requires width > 0 && height > 0
  {
    var scale := FitScale(c, width, height);
    Obj(map["x" := Num(Margin(c.width, width, scale) as real), "y" := Num(Margin(c.height, height, scale) as real),
            "scale" := Num(scale), "rotation" := Num(0.0)])
  }

  lemma ScaleBound(scale: real, limit: real, size: real)
    requires size > 0.0 && scale <= limit / size
    ensures size * scale <= limit
  {
    assert size * (limit / size) == limit;
  }

  lemma ScalePositive(limit: real, size: real)
    requires 1.0 <= limit && 1.0 <= size <= 8192.0
    ensures limit / size * 1000000.0 >= 1.0
  {
    assert limit / size * size == limit;
    if limit / size * 1000000.0 < 1.0 {
      assert limit / size < 0.000001;
      SmallProduct(limit / size, size);
      assert false;
    }
  }

  lemma SmallProduct(x: real, size: real)
    requires x < 0.000001 && 1.0 <= size <= 8192.0
    ensures x * size < 1.0
  {
    if x >= 0.0 {
      ProductGrows(x, size, 8192.0);
      assert x * 8192.0 < 1.0;
    } else {
      ProductGrows(-x, 0.0, size);
    }
  }

  lemma ProductGrows(x: real, a: real, b: real)
    requires x >= 0.0 && a <= b
    ensures x * a <= x * b
  {}

  /** The whole PNG fits on the canvas, never enlarged and never vanishing. */
  lemma FitNeverGrows(c: Canvas, width: nat, height: nat)
    requires 1 <= width <= 8192 && 1 <= height <= 8192 && 1 <= c.width && 1 <= c.height
    ensures var scale := FitScale(c, width, height);
      0.0 < scale <= 1.0 && width as real * scale <= c.width as real && height as real * scale <= c.height as real
  {
    var w, h := c.width as real / width as real, c.height as real / height as real;
    var scale := FitScale(c, width, height);
    ScalePositive(c.width as real, width as real);
    ScalePositive(c.height as real, height as real);
    assert scale <= Min(1.0, Min(w, h));
    ScaleBound(scale, c.width as real, width as real);
    ScaleBound(scale, c.height as real, height as real);
  }

  // ---- the edit ---------------------------------------------------------------------------------------

  predicate FlagOk(fields: map<string, Json>, name: string) { name in fields ==> fields[name].Bool? }

  /** Editor metadata is absent, or an object whose flags are booleans. */
  predicate EditorOk(payload: map<string, Json>) {
    EDITOR in payload ==> payload[EDITOR].Obj? && FlagOk(payload[EDITOR].fields, "styleLocked")
                          && FlagOk(payload[EDITOR].fields, "positionLocked") && FlagOk(payload[EDITOR].fields, "positionConfirmed")
  }

  predicate EditorFlag(payload: map<string, Json>, name: string) {
    EDITOR in payload && payload[EDITOR].Obj? && name in payload[EDITOR].fields && payload[EDITOR].fields[name] == Bool(true)
  }

  function EditorFields(payload: map<string, Json>): map<string, Json> {
    if EDITOR in payload && payload[EDITOR].Obj? then payload[EDITOR].fields else map[]
  }

  /** The source identity of the old artwork goes; an unlocked position is fitted again and awaits confirmation. */
  function NextStyle(c: Canvas, style: Style, assetId: string, width: nat, height: nat): Style
    requires width > 0 && height > 0
  {
    var kept := style.payload - {SOURCE};
    if EditorFlag(style.payload, "positionLocked") then style.(assetId := Some(assetId), payload := kept)
    else style.(assetId := Some(assetId), transform := Fit(c, width, height),
                payload := kept[EDITOR := Obj(EditorFields(style.payload)["positionConfirmed" := Bool(false)])])
  }

  predicate StyleExists(d: Document, partKey: string, itemKey: string, styleKey: string) {
    var p := Find(PartKey, d.parts, partKey);
    p < |d.parts| &&
    var i := Find(ItemKey, d.parts[p].items, itemKey);
    i < |d.parts[p].items| && Find(StyleKey, d.parts[p].items[i].styles, styleKey) < |d.parts[p].items[i].styles|
  }

  /** The style's artwork has one durable row, as its descriptor says. */
  predicate SavedAsset(d: Document, rows: seq<Row>, id: string) {
    var descriptor, found := Lookup(DescriptorKey, d.assets, id), RowsOf(rows, id);
    && descriptor.Some? && |found| == 1 && 1 <= found[0].revision <= MAX_SAFE
    && found[0].kind == descriptor.value.kind && found[0].mediaType == descriptor.value.mediaType
    && found[0].byteLength == descriptor.value.byteLength
  }

  /** Does anything but this style mention its asset? */
  predicate Shared(d: Document, p: nat, i: nat, s: nat)
    requires AtStyle(d.parts, p, i, s)
  {
    var id := StyleAt(d.parts, p, i, s).assetId;
    id.Some? && MentionedElsewhere(d, StyleHole(p, i, s), id.value)
  }

  /** A first or shared artwork gets an id of its own; an exclusive one keeps its id. */
  predicate NeedsFresh(d: Document, p: nat, i: nat, s: nat)
    requires AtStyle(d.parts, p, i, s)
  { StyleAt(d.parts, p, i, s).assetId.None? || Shared(d, p, i, s) }

  function NextAssetId(d: Document, rows: seq<Row>, p: nat, i: nat, s: nat): string
    requires AtStyle(d.parts, p, i, s)
  {
    var style := StyleAt(d.parts, p, i, s);
    if style.assetId.None? then ExclusiveId(d.parts[p].key + "-" + d.parts[p].items[i].key + "-" + style.key, d, rows)
    else if Shared(d, p, i, s) then ExclusiveId(style.assetId.value, d, rows)
    else style.assetId.value
  }

  predicate Rewrites(d: Document, p: nat, i: nat, s: nat)
    requires AtStyle(d.parts, p, i, s)
  {
    var payload := StyleAt(d.parts, p, i, s).payload;
    NeedsFresh(d, p, i, s) || !EditorFlag(payload, "positionLocked") || SOURCE in payload
  }

  function NextDescriptor(d: Document, rows: seq<Row>, p: nat, i: nat, s: nat, length: nat): Descriptor
    requires AtStyle(d.parts, p, i, s)
    requires var id := StyleAt(d.parts, p, i, s).assetId; id.Some? ==> Lookup(DescriptorKey, d.assets, id.value).Some?
  {
    var id := StyleAt(d.parts, p, i, s).assetId;
    Descriptor(NextAssetId(d, rows, p, i, s), if id.None? then "layer" else Lookup(DescriptorKey, d.assets, id.value).value.kind, PNG, length)
  }

  function StyleEdit(d: Document, rows: seq<Row>, p: nat, i: nat, s: nat, bytes: Base64.Bytes, width: nat, height: nat): StyleResult
    requires AtStyle(d.parts, p, i, s) && Base64.IsBytes(bytes) && width > 0 && height > 0
    requires var id := StyleAt(d.parts, p, i, s).assetId; id.Some? ==> SavedAsset(d, rows, id.value)
  {
    var style, row := StyleAt(d.parts, p, i, s), NextDescriptor(d, rows, p, i, s, |bytes|);
    StyleResult(
      [UpsertAsset(row)]
        + (if Rewrites(d, p, i, s) then [UpsertPart(WithStyle(d.parts, p, i, s, NextStyle(d.canvas, style, row.id, width, height)))] else []),
      Upsert(row.id, if NeedsFresh(d, p, i, s) then None else Some(RowsOf(rows, style.assetId.value)[0].revision), row.kind, PNG,
             Base64.ToBase64(bytes)),
      width, height)
  }

  function PrepareStylePng(d: Document, rows: seq<Row>, partKey: string, itemKey: string, styleKey: string, bytes: Base64.Bytes,
    styleLocked: bool): Result<StyleResult, StyleFailure>
    requires Base64.IsBytes(bytes)
  {
    if styleLocked then Err(StyleLocked)
    else if !StyleExists(d, partKey, itemKey, styleKey) then Err(StyleNotFound)
    else
      var p := Find(PartKey, d.parts, partKey);
      var i := Find(ItemKey, d.parts[p].items, itemKey);
      var s := Find(StyleKey, d.parts[p].items[i].styles, styleKey);
      var style, size := StyleAt(d.parts, p, i, s), ImageHeader.PngDimensions(bytes);
      if !EditorOk(style.payload) then Err(EditorInvalid)
      else if EditorFlag(style.payload, "styleLocked") then Err(StyleLocked)
      else if size.None? then Err(PngInvalid)
      else if style.assetId.Some? && !SavedAsset(d, rows, style.assetId.value) then Err(AssetUnavailable)
      else Ok(StyleEdit(d, rows, p, i, s, bytes, size.value.0, size.value.1))
  }

  /** prepareCreatorStylePng after its checks of the document; commands are pushed one after the other. */
  method PrepareCreatorStylePng(d: Document, rows: seq<Row>, partKey: string, itemKey: string, styleKey: string, bytes: Base64.Bytes,
    styleLocked: bool) returns (r: Result<StyleResult, StyleFailure>)
    requires Base64.IsBytes(bytes)
    ensures r == PrepareStylePng(d, rows, partKey, itemKey, styleKey, bytes, styleLocked)
  {
    if styleLocked { return Err(StyleLocked); }
    if !StyleExists(d, partKey, itemKey, styleKey) { return Err(StyleNotFound); }
    var p := Find(PartKey, d.parts, partKey);
    var i := Find(ItemKey, d.parts[p].items, itemKey);
    var s := Find(StyleKey, d.parts[p].items[i].styles, styleKey);
    var style := StyleAt(d.parts, p, i, s);
    if !EditorOk(style.payload) { return Err(EditorInvalid); }
    if EditorFlag(style.payload, "styleLocked") { return Err(StyleLocked); }
    var size := ImageHeader.PngDimensions(bytes);
    if size.None? { return Err(PngInvalid); }
    if style.assetId.Some? && !SavedAsset(d, rows, style.assetId.value) { return Err(AssetUnavailable); }
    var result := FillStyleResult(d, rows, p, i, s, bytes, size.value.0, size.value.1);
    return Ok(result);
  }

  method FillStyleResult(d: Document, rows: seq<Row>, p: nat, i: nat, s: nat, bytes: Base64.Bytes, width: nat, height: nat)
    returns (r: StyleResult)
    requires AtStyle(d.parts, p, i, s) && Base64.IsBytes(bytes) && width > 0 && height > 0
    requires var id := StyleAt(d.parts, p, i, s).assetId; id.Some? ==> SavedAsset(d, rows, id.value)
    ensures r == StyleEdit(d, rows, p, i, s, bytes, width, height)
  {
    var style := StyleAt(d.parts, p, i, s);
    var id := FindAssetId(d, rows, p, i, s);
    var row := NextDescriptor(d, rows, p, i, s, |bytes|);
    var commands := [UpsertAsset(row)];
    if Rewrites(d, p, i, s) {
      commands := commands + [UpsertPart(WithStyle(d.parts, p, i, s, NextStyle(d.canvas, style, id, width, height)))];
    }
    var revision := if NeedsFresh(d, p, i, s) then None else Some(RowsOf(rows, style.assetId.value)[0].revision);
    return StyleResult(commands, Upsert(id, revision, row.kind, PNG, Base64.ToBase64(bytes)), width, height);
  }

  /** The search loop, when the artwork needs an id of its own. */
  method FindAssetId(d: Document, rows: seq<Row>, p: nat, i: nat, s: nat) returns (id: string)
    requires AtStyle(d.parts, p, i, s)
    ensures id == NextAssetId(d, rows, p, i, s)
  {
    var style := StyleAt(d.parts, p, i, s);
    if style.assetId.Some? && !Shared(d, p, i, s) { return style.assetId.value; }
    var oldId := if style.assetId.None? then d.parts[p].key + "-" + d.parts[p].items[i].key + "-" + style.key else style.assetId.value;
    CandidatesDiffer(oldId);
    var found := FreshKeys.SearchBounded(Candidates(oldId), UsedIds(d, rows));
    return found.value;
  }

  // ---- what the edit keeps ----------------------------------------------------------------------------

  lemma ObjTame(f: map<string, Json>, g: map<string, Json>)
    requires forall k :: k in f ==> FieldTame(f, g, k)
    ensures Tame(Obj(f), Obj(g))
  {
    forall rel: Path, id: string | Refers(Obj(f), rel, id) ensures Refers(Obj(g), rel, id) {
      GetStep(Obj(f), rel);
      assert rel[0].Field?;
      assert Refers(f[rel[0].name], rel[1..], id);
      assert FieldTame(f, g, rel[0].name);
      GetStep(Obj(g), rel);
    }
  }

  lemma NoTexts(f: map<string, Json>)
    requires forall k :: k in f ==> f[k].Num? || f[k].Bool?
    ensures Textless(Obj(f))
  {
    forall rel: Path, id: string ensures !Refers(Obj(f), rel, id) {
      if rel != [] {
        GetStep(Obj(f), rel);
        if rel[0].Field? && rel[0].name in f && rel[1..] != [] { GetStep(f[rel[0].name], rel[1..]); }
      }
    }
  }

  lemma EditorTame(payload: map<string, Json>)
    requires EditorOk(payload)
    ensures var f := EditorFields(payload)["positionConfirmed" := Bool(false)];
      if EDITOR in payload then Tame(Obj(f), payload[EDITOR]) else Textless(Obj(f))
  {
    var f := EditorFields(payload)["positionConfirmed" := Bool(false)];
    if EDITOR in payload {
      var g := payload[EDITOR].fields;
      forall k | k in f ensures FieldTame(f, g, k) {
        if k == "positionConfirmed" { TextlessBool(f[k]); } else { TameSelf(f[k]); }
      }
      ObjTame(f, g);
    } else {
      NoTexts(f);
    }
  }

  lemma NextPayloadTame(next: map<string, Json>, payload: map<string, Json>)
    requires EditorOk(payload)
    requires next == payload - {SOURCE}
          || next == (payload - {SOURCE})[EDITOR := Obj(EditorFields(payload)["positionConfirmed" := Bool(false)])]
    ensures Tame(Obj(next), Obj(payload))
  {
    EditorTame(payload);
    forall k | k in next ensures FieldTame(next, payload, k) {
      if k in payload && next[k] == payload[k] { TameSelf(payload[k]); }
    }
    ObjTame(next, payload);
  }

  /** All of the payload but the old artwork's source identity survives. */
  lemma PayloadSurvives(next: map<string, Json>, payload: map<string, Json>)
    requires EditorOk(payload)
    requires next == payload - {SOURCE}
          || next == (payload - {SOURCE})[EDITOR := Obj(EditorFields(payload)["positionConfirmed" := Bool(false)])]
    ensures TameOutside(Obj(payload), Obj(next), [Field(SOURCE)])
  {
    forall k | k in payload && k != SOURCE ensures FieldTame(payload, next, k) {
      if next[k] == payload[k] { TameSelf(payload[k]); } else { EditorSurvives(payload); }
    }
    FieldsTame(payload, next, SOURCE);
  }

  lemma EditorSurvives(payload: map<string, Json>)
    requires EditorOk(payload) && EDITOR in payload
    ensures Tame(payload[EDITOR], Obj(EditorFields(payload)["positionConfirmed" := Bool(false)]))
  {
    var f := payload[EDITOR].fields;
    var g := f["positionConfirmed" := Bool(false)];
    forall k | k in f ensures FieldTame(f, g, k) {
      if k == "positionConfirmed" { TextlessBool(f[k]); } else { TameSelf(f[k]); }
    }
    ObjTame(f, g);
  }

  lemma TextlessBool(v: Json)
    requires v.Bool?
    ensures Textless(v)
  {
    forall rel: Path, id: string ensures !Refers(v, rel, id) {
      if rel != [] { GetStep(v, rel); }
    }
  }

  /** What a rewritten style gives up: the old source identity and, unless its position is locked, its transform. */
  function LostPlaces(d: Document, p: nat, i: nat, s: nat): set<Path>
    requires AtStyle(d.parts, p, i, s)
  {
    if !Rewrites(d, p, i, s) then {}
    else if EditorFlag(StyleAt(d.parts, p, i, s).payload, "positionLocked") then {StylePlace(p, i, s, [Field("payload")] + [Field(SOURCE)])}
    else {StylePlace(p, i, s, [Field("payload")] + [Field(SOURCE)]), StylePlace(p, i, s, [Field("transform")])}
  }

  lemma NextStyleTame(c: Canvas, style: Style, assetId: string, width: nat, height: nat)
    requires width > 0 && height > 0 && EditorOk(style.payload)
    ensures StyleTame(NextStyle(c, style, assetId, width, height), style)
  {
    var next := NextStyle(c, style, assetId, width, height);
    NextPayloadTame(next.payload, style.payload);
    if next.transform != style.transform { NoTexts(Fit(c, width, height).fields); }
  }

  function NextParts(d: Document, p: nat, i: nat, s: nat, assetId: string, width: nat, height: nat): seq<Part>
    requires AtStyle(d.parts, p, i, s) && width > 0 && height > 0
  {
    if Rewrites(d, p, i, s) then
      d.parts[p := WithStyle(d.parts, p, i, s, NextStyle(d.canvas, StyleAt(d.parts, p, i, s), assetId, width, height))]
    else d.parts
  }

  lemma RunTwo(d: Document, row: Descriptor, part: Option<Part>, p: nat)
    requires part.Some? ==> p < |d.parts| && Find(PartKey, d.parts, part.value.key) == p
    ensures ApplyAll(d, [UpsertAsset(row)] + (if part.Some? then [UpsertPart(part.value)] else []))
         == Some(d.(assets := Upserted(DescriptorKey, d.assets, row), parts := if part.Some? then d.parts[p := part.value] else d.parts))
  {
    RunPart(d.(assets := Upserted(DescriptorKey, d.assets, row)), part, p);
    RunCons(d, UpsertAsset(row), if part.Some? then [UpsertPart(part.value)] else []);
  }

  lemma RunPart(e: Document, part: Option<Part>, p: nat)
    requires part.Some? ==> p < |e.parts| && Find(PartKey, e.parts, part.value.key) == p
    ensures ApplyAll(e, if part.Some? then [UpsertPart(part.value)] else [])
         == Some(e.(parts := if part.Some? then e.parts[p := part.value] else e.parts))
  {
    if part.Some? { RunOne(e, UpsertPart(part.value)); }
  }

  lemma StyleCommandsRun(d: Document, rows: seq<Row>, p: nat, i: nat, s: nat, bytes: Base64.Bytes, width: nat, height: nat)
    requires AtStyle(d.parts, p, i, s) && Base64.IsBytes(bytes) && width > 0 && height > 0
    requires var id := StyleAt(d.parts, p, i, s).assetId; id.Some? ==> SavedAsset(d, rows, id.value)
    requires Find(PartKey, d.parts, d.parts[p].key) == p
    ensures var row := NextDescriptor(d, rows, p, i, s, |bytes|);
      ApplyAll(d, StyleEdit(d, rows, p, i, s, bytes, width, height).commands)
      == Some(d.(assets := Upserted(DescriptorKey, d.assets, row), parts := NextParts(d, p, i, s, row.id, width, height)))
  {
    var row := NextDescriptor(d, rows, p, i, s, |bytes|);
    var next := NextStyle(d.canvas, StyleAt(d.parts, p, i, s), row.id, width, height);
    RunTwo(d, row, if Rewrites(d, p, i, s) then Some(WithStyle(d.parts, p, i, s, next)) else None, p);
  }

  /** The style afterwards names its artwork, and nothing else in the document is new. */
  lemma StyleMentions(d: Document, p: nat, i: nat, s: nat, row: Descriptor, width: nat, height: nat, assets: seq<Descriptor>)
    requires AtStyle(d.parts, p, i, s) && width > 0 && height > 0 && EditorOk(StyleAt(d.parts, p, i, s).payload)
    requires !NeedsFresh(d, p, i, s) ==> StyleAt(d.parts, p, i, s).assetId == Some(row.id)
    ensures Replaces(d, d.(assets := assets, parts := NextParts(d, p, i, s, row.id, width, height)), StyleHole(p, i, s), Some(row.id))
  {
    var style := StyleAt(d.parts, p, i, s);
    if Rewrites(d, p, i, s) {
      NextStyleTame(d.canvas, style, row.id, width, height);
      StyleReplaced(d, p, i, s, NextStyle(d.canvas, style, row.id, width, height), assets);
    } else {
      StyleTop(d, p, i, s);
      TameSelf(ToJson(d));
      ReplacesWith(d, d, StyleHole(p, i, s), Some(row.id), assets);
    }
  }

  /** Everything the document mentioned it still mentions, but for the style's own asset and the lost places. */
  lemma StylePreserves(d: Document, p: nat, i: nat, s: nat, id: string, width: nat, height: nat, assets: seq<Descriptor>)
    requires AtStyle(d.parts, p, i, s) && width > 0 && height > 0 && EditorOk(StyleAt(d.parts, p, i, s).payload)
    ensures Preserves(d, d.(assets := assets, parts := NextParts(d, p, i, s, id, width, height)), StyleHole(p, i, s), LostPlaces(d, p, i, s))
  {
    var style := StyleAt(d.parts, p, i, s);
    if Rewrites(d, p, i, s) {
      var next := NextStyle(d.canvas, style, id, width, height);
      PayloadSurvives(next.payload, style.payload);
      StyleLoses(d, p, i, s, next, [Field(SOURCE)], LostPlaces(d, p, i, s), assets);
    } else {
      forall path: Path, text: string | Mentions(d, path, text) ensures Mentions(d.(assets := assets), path, text) {
        AssetsAside(d, assets, path, text);
      }
    }
  }

  /** A fresh id is nobody's; a kept id is mentioned by this style alone. */
  lemma OthersKeepTheirs(d: Document, rows: seq<Row>, p: nat, i: nat, s: nat, path: Path, id: string)
    requires AtStyle(d.parts, p, i, s) && Mentions(d, path, id) && !(StyleHole(p, i, s) <= path) && HasAsset(d, id)
    ensures id != NextAssetId(d, rows, p, i, s)
  {
    var style := StyleAt(d.parts, p, i, s);
    if style.assetId.None? {
      ExclusiveIsFresh(d.parts[p].key + "-" + d.parts[p].items[i].key + "-" + style.key, d, rows);
    } else {
      ExclusiveIsFresh(style.assetId.value, d, rows);
      MentionedExactly(d, StyleHole(p, i, s), style.assetId.value);
    }
  }

  lemma MentionedKeep(d: Document, rows: seq<Row>, store: Store, p: nat, i: nat, s: nat, row: Descriptor, r: Row, e: Document)
    requires AtStyle(d.parts, p, i, s) && Agree(d.assets, store) && Matches(row, r) && row.id == NextAssetId(d, rows, p, i, s)
    requires e.assets == Upserted(DescriptorKey, d.assets, row)
    ensures KeepsMentioned(d, store, e, store[row.id := r], StyleHole(p, i, s))
  {
    var t := store[row.id := r];
    UpsertedLookup(DescriptorKey, d.assets, row);
    forall path: Path, id: string | Mentions(d, path, id) && !(StyleHole(p, i, s) <= path) && HasAsset(d, id)
      ensures HasAsset(e, id) && Lookup(DescriptorKey, e.assets, id) == Lookup(DescriptorKey, d.assets, id)
      ensures id in t && id in store && t[id] == store[id]
    {
      OthersKeepTheirs(d, rows, p, i, s, path, id);
      assert Lookup(DescriptorKey, d.assets, id).Some?;
    }
  }

  lemma StyleKeepsMentioned(d: Document, rows: seq<Row>, store: Store, p: nat, i: nat, s: nat, row: Descriptor, r: Row, width: nat, height: nat)
    requires AtStyle(d.parts, p, i, s) && width > 0 && height > 0 && EditorOk(StyleAt(d.parts, p, i, s).payload)
    requires Agree(d.assets, store) && Matches(row, r) && row.id == NextAssetId(d, rows, p, i, s)
    ensures var e := d.(assets := Upserted(DescriptorKey, d.assets, row), parts := NextParts(d, p, i, s, row.id, width, height));
      Safe(d, store, e, store[row.id := r], StyleHole(p, i, s), Some(row.id), LostPlaces(d, p, i, s))
  {
    var e := d.(assets := Upserted(DescriptorKey, d.assets, row), parts := NextParts(d, p, i, s, row.id, width, height));
    StyleMentions(d, p, i, s, row, width, height, e.assets);
    StylePreserves(d, p, i, s, row.id, width, height, e.assets);
    UpsertedLookup(DescriptorKey, d.assets, row);
    AgreeUpsert(d.assets, store, row, r);
    MentionedKeep(d, rows, store, p, i, s, row, r, e);
    assert Lookup(DescriptorKey, e.assets, row.id) == Some(row);
  }

  lemma StyleMutationRuns(d: Document, rows: seq<Row>, store: Store, p: nat, i: nat, s: nat, bytes: Base64.Bytes, width: nat, height: nat,
    draftRevision: int) returns (row: Row)
    requires AtStyle(d.parts, p, i, s) && Base64.IsBytes(bytes) && width > 0 && height > 0
    requires var id := StyleAt(d.parts, p, i, s).assetId; id.Some? ==> SavedAsset(d, rows, id.value)
    requires Snapshot(rows, store)
    ensures var r := StyleEdit(d, rows, p, i, s, bytes, width, height);
      && Mutate(store, [], [r.upsert], draftRevision) == Some(store[r.upsert.assetId := row])
      && Matches(NextDescriptor(d, rows, p, i, s, |bytes|), row) && row.bytesBase64 == Base64.ToBase64(bytes)
      && row.revision == (if r.upsert.assetId in store then store[r.upsert.assetId].revision else draftRevision) + 1
  {
    var u := StyleEdit(d, rows, p, i, s, bytes, width, height).upsert;
    Base64.FromToBase64(bytes);
    RevisionMet(d, rows, store, p, i, s, u.assetId);
    row := MutateOne(store, u, draftRevision);
  }

  lemma MutateOne(store: Store, u: Upsert, draftRevision: int) returns (row: Row)
    requires RevisionIn(store, u.assetId) == u.expectedRevision && LengthOf(u.bytesBase64).Some?
    ensures Mutate(store, [], [u], draftRevision) == Some(store[u.assetId := row])
    ensures row.assetId == u.assetId && row.kind == u.kind && row.mediaType == u.mediaType
    ensures row.byteLength == LengthOf(u.bytesBase64).value && row.bytesBase64 == u.bytesBase64
    ensures row.revision == (if u.assetId in store then store[u.assetId].revision else draftRevision) + 1
  {
    row := Row(u.assetId, (if u.assetId in store then store[u.assetId].revision else draftRevision) + 1, u.kind, u.mediaType,
               LengthOf(u.bytesBase64).value, u.bytesBase64);
    MutateStep(store, u, draftRevision, row);
  }

  lemma MutateStep(store: Store, u: Upsert, draftRevision: int, row: Row)
    requires RevisionIn(store, u.assetId) == u.expectedRevision && LengthOf(u.bytesBase64).Some?
    requires row.revision == (if u.assetId in store then store[u.assetId].revision else draftRevision) + 1
    requires row == Row(u.assetId, row.revision, u.kind, u.mediaType, LengthOf(u.bytesBase64).value, u.bytesBase64)
    ensures Mutate(store, [], [u], draftRevision) == Some(store[u.assetId := row])
  {
    MutateFirst(store, [u], draftRevision, row);
    assert [u][1..] == [];
  }

  lemma MutateFirst(store: Store, upserts: seq<Upsert>, draftRevision: int, row: Row)
    requires upserts != []
    requires var u := upserts[0];
      && RevisionIn(store, u.assetId) == u.expectedRevision && LengthOf(u.bytesBase64).Some?
      && row.revision == (if u.assetId in store then store[u.assetId].revision else draftRevision) + 1
      && row == Row(u.assetId, row.revision, u.kind, u.mediaType, LengthOf(u.bytesBase64).value, u.bytesBase64)
    ensures Mutate(store, [], upserts, draftRevision) == Mutate(store[upserts[0].assetId := row], [], upserts[1..], draftRevision)
  {}

  lemma RevisionMet(d: Document, rows: seq<Row>, store: Store, p: nat, i: nat, s: nat, id: string)
    requires AtStyle(d.parts, p, i, s) && Snapshot(rows, store) && id == NextAssetId(d, rows, p, i, s)
    requires var was := StyleAt(d.parts, p, i, s).assetId; was.Some? ==> SavedAsset(d, rows, was.value)
    ensures RevisionIn(store, id) == if NeedsFresh(d, p, i, s) then None else Some(RowsOf(rows, id)[0].revision)
  {
    var style := StyleAt(d.parts, p, i, s);
    if style.assetId.None? {
      ExclusiveIsFresh(d.parts[p].key + "-" + d.parts[p].items[i].key + "-" + style.key, d, rows);
    } else {
      ExclusiveIsFresh(style.assetId.value, d, rows);
      RowOfSnapshot(rows, store, style.assetId.value);
    }
  }

  /**
   * Accepted artwork applies in full: the commands run, the byte mutation meets the revision it expects, and the
   * result is safe.  The style names the uploaded bytes, no other style and no other part of the document changed, and
   * what anything else mentions is whole.
   */
  lemma StyleEditIsSafe(d: Document, rows: seq<Row>, store: Store, partKey: string, itemKey: string, styleKey: string, bytes: Base64.Bytes,
    draftRevision: int) returns (p: nat, i: nat, s: nat)
    requires Base64.IsBytes(bytes) && Agree(d.assets, store) && Snapshot(rows, store)
    requires PrepareStylePng(d, rows, partKey, itemKey, styleKey, bytes, false).Ok?
    ensures AtStyle(d.parts, p, i, s) && d.parts[p].key == partKey && d.parts[p].items[i].key == itemKey
    ensures StyleAt(d.parts, p, i, s).key == styleKey
    ensures var r := PrepareStylePng(d, rows, partKey, itemKey, styleKey, bytes, false).value;
      && ApplyAll(d, r.commands).Some? && Mutate(store, [], [r.upsert], draftRevision).Some?
      && var e, t := ApplyAll(d, r.commands).value, Mutate(store, [], [r.upsert], draftRevision).value;
         && AtStyle(e.parts, p, i, s) && StyleAt(e.parts, p, i, s).assetId == Some(r.upsert.assetId)
         && e == SetStyle(d, p, i, s, StyleAt(e.parts, p, i, s)).(assets := e.assets)
         && Safe(d, store, e, t, StyleHole(p, i, s), Some(r.upsert.assetId), LostPlaces(d, p, i, s))
         && t[r.upsert.assetId].bytesBase64 == Base64.ToBase64(bytes)
  {
    p := Find(PartKey, d.parts, partKey);
    i := Find(ItemKey, d.parts[p].items, itemKey);
    s := Find(StyleKey, d.parts[p].items[i].styles, styleKey);
    var size := ImageHeader.PngDimensions(bytes).value;
    StyleCommandsRun(d, rows, p, i, s, bytes, size.0, size.1);
    var row := StyleMutationRuns(d, rows, store, p, i, s, bytes, size.0, size.1, draftRevision);
    StyleKeepsMentioned(d, rows, store, p, i, s, NextDescriptor(d, rows, p, i, s, |bytes|), row, size.0, size.1);
    OnlyStyleChanges(d, rows, p, i, s, size.0, size.1);
  }

  lemma OnlyStyleChanges(d: Document, rows: seq<Row>, p: nat, i: nat, s: nat, width: nat, height: nat)
    requires AtStyle(d.parts, p, i, s) && width > 0 && height > 0
    ensures var id := NextAssetId(d, rows, p, i, s); var parts := NextParts(d, p, i, s, id, width, height);
      && AtStyle(parts, p, i, s) && StyleAt(parts, p, i, s).assetId == Some(id)
      && d.(parts := parts) == SetStyle(d, p, i, s, StyleAt(parts, p, i, s))
  {
    SetTwice(d, p, i, s, StyleAt(d.parts, p, i, s), StyleAt(d.parts, p, i, s));
  }
}
