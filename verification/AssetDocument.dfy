/**
 * The parts of a Maker document that asset replacement touches, its JSON tree, the workspace commands of
 * maker-v8-workspace.js and the durable asset rows of a draft.
 */
module AssetDocument {
  import opened Results
  import opened JsonReferences
  import opened Keyed
  import Base64

  datatype Descriptor = Descriptor(id: string, kind: string, mediaType: string, byteLength: nat)

  /** What stays untouched is kept as JSON in fields and others. */
  datatype Style = Style(key: string, assetId: Option<string>, payload: map<string, Json>, transform: Json, fields: map<string, Json>)
  datatype Item = Item(key: string, styles: seq<Style>, fields: map<string, Json>)
  datatype Part = Part(key: string, items: seq<Item>, fields: map<string, Json>)
  datatype Canvas = Canvas(width: nat, height: nat, pixelMode: string)

  datatype Document = Document(assets: seq<Descriptor>, cover: Option<string>, metadata: map<string, Json>, canvas: Canvas,
    parts: seq<Part>, others: map<string, Json>)

  function DescriptorKey(d: Descriptor): string { d.id }
  function PartKey(p: Part): string { p.key }
  function ItemKey(i: Item): string { i.key }
  function StyleKey(s: Style): string { s.key }

  // ---- the JSON tree ----------------------------------------------------------------------------------

  const ASSETS := Field("assets")
  const COVER := [Field("metadata"), Field("coverAssetId")]

  function Text(s: Option<string>): Json { if s.Some? then Str(s.value) else Null }

  function DescriptorJson(d: Descriptor): Json {
    Obj(map["id" := Str(d.id), "kind" := Str(d.kind), "mediaType" := Str(d.mediaType), "byteLength" := Num(d.byteLength as real)])
  }

  function StyleFields(s: Style): map<string, Json> {
    s.fields["key" := Str(s.key)]["assetId" := Text(s.assetId)]["payload" := Obj(s.payload)]["transform" := s.transform]
  }
  function StyleJson(s: Style): Json { Obj(StyleFields(s)) }

  function StylesJson(styles: seq<Style>): Json { Arr(seq(|styles|, k requires 0 <= k < |styles| => StyleJson(styles[k]))) }

  function ItemJson(i: Item): Json { Obj(i.fields["key" := Str(i.key)]["styles" := StylesJson(i.styles)]) }

  function ItemsJson(items: seq<Item>): Json { Arr(seq(|items|, k requires 0 <= k < |items| => ItemJson(items[k]))) }

  function PartJson(p: Part): Json { Obj(p.fields["key" := Str(p.key)]["items" := ItemsJson(p.items)]) }

  function PartsJson(parts: seq<Part>): Json { Arr(seq(|parts|, k requires 0 <= k < |parts| => PartJson(parts[k]))) }

  function MetadataJson(d: Document): Json { Obj(d.metadata["coverAssetId" := Text(d.cover)]) }

  function CanvasJson(c: Canvas): Json {
    Obj(map["width" := Num(c.width as real), "height" := Num(c.height as real), "pixelMode" := Str(c.pixelMode)])
  }

  function TopFields(d: Document): map<string, Json> {
    d.others["assets" := Arr(seq(|d.assets|, k requires 0 <= k < |d.assets| => DescriptorJson(d.assets[k])))]
            ["metadata" := MetadataJson(d)]["canvas" := CanvasJson(d.canvas)]["parts" := PartsJson(d.parts)]
  }

  function ToJson(d: Document): Json { Obj(TopFields(d)) }

  // ---- references to assets ---------------------------------------------------------------------------

  /** Some place outside the descriptors holds this text. */
  ghost predicate Mentions(d: Document, path: Path, id: string) { !([ASSETS] <= path) && Refers(ToJson(d), path, id) }

  predicate HasAsset(d: Document, id: string) { Find(DescriptorKey, d.assets, id) < |d.assets| }

  /** The visit of the document that skips the descriptors and one place: sharedCover and hasOtherReference. */
  predicate MentionedElsewhere(d: Document, hole: Path, id: string) { Visit(ToJson(d), [], {[ASSETS], hole}, id) }

  lemma ClearOfTwo(path: Path, hole: Path)
    requires hole != []
    ensures Clear([], path, {[ASSETS], hole}) <==> !([ASSETS] <= path) && !(hole <= path)
  {
    if [ASSETS] <= path { assert [] + path[..1] == [ASSETS]; }
    if hole <= path { assert [] + path[..|hole|] == hole; }
    if !Clear([], path, {[ASSETS], hole}) {
      var k :| 1 <= k <= |path| && [] + path[..k] in {[ASSETS], hole};
      assert [] + path[..k] == path[..k];
    }
  }

  /** The search finds the text exactly when some place other than the skipped one holds it. */
  lemma MentionedExactly(d: Document, hole: Path, id: string)
    requires hole != []
    ensures MentionedElsewhere(d, hole, id) <==> exists path :: Mentions(d, path, id) && !(hole <= path)
  {
    VisitExact(ToJson(d), [], {[ASSETS], hole}, id);
    if MentionedElsewhere(d, hole, id) {
      var rel :| Refers(ToJson(d), rel, id) && Clear([], rel, {[ASSETS], hole});
      ClearOfTwo(rel, hole);
      assert Mentions(d, rel, id) && !(hole <= rel);
    }
    forall path ensures Clear([], path, {[ASSETS], hole}) <==> !([ASSETS] <= path) && !(hole <= path) {
      ClearOfTwo(path, hole);
    }
    if path :| Mentions(d, path, id) && !(hole <= path) {
      assert Refers(ToJson(d), path, id) && Clear([], path, {[ASSETS], hole});
    }
  }

  // ---- commands ---------------------------------------------------------------------------------------

  datatype Command = UpsertAsset(row: Descriptor) | RemoveAsset(key: string)
    | SetMetadata(metadata: map<string, Json>, cover: Option<string>) | UpsertPart(part: Part)

  function Upserted<T>(key: T -> string, s: seq<T>, x: T): seq<T> {
    var i := Find(key, s, key(x));
    if i < |s| then s[i := x] else s + [x]
  }

  /** None is the error of removing a row that is not there. */
  function ApplyCommand(d: Document, c: Command): Option<Document> {
    match c
    case UpsertAsset(row) => Some(d.(assets := Upserted(DescriptorKey, d.assets, row)))
    case RemoveAsset(key) =>
      var i := Find(DescriptorKey, d.assets, key);
      if i < |d.assets| then Some(d.(assets := d.assets[..i] + d.assets[i + 1..])) else None
    case SetMetadata(metadata, cover) => Some(d.(metadata := metadata, cover := cover))
    case UpsertPart(part) => Some(d.(parts := Upserted(PartKey, d.parts, part)))
  }

  function ApplyAll(d: Document, commands: seq<Command>): Option<Document>
    decreases |commands|
  {
    if commands == [] then Some(d)
    else
      var next := ApplyCommand(d, commands[0]);
      if next.None? then None else ApplyAll(next.value, commands[1..])
  }

  lemma RunCons(d: Document, c: Command, rest: seq<Command>)
    requires ApplyCommand(d, c).Some?
    ensures ApplyAll(d, [c] + rest) == ApplyAll(ApplyCommand(d, c).value, rest)
  {
    var all := [c] + rest;
    assert all[0] == c && all[1..] == rest;
  }

  lemma RunOne(d: Document, c: Command)
    ensures ApplyAll(d, [c]) == ApplyCommand(d, c)
  {
    assert [c][1..] == [];
  }

  // ---- durable rows -----------------------------------------------------------------------------------

  datatype Row = Row(assetId: string, revision: int, kind: string, mediaType: string, byteLength: int, bytesBase64: string)

  type Store = map<string, Row>

  datatype Upsert = Upsert(assetId: string, expectedRevision: Option<int>, kind: string, mediaType: string, bytesBase64: string)
  datatype Delete = Delete(assetId: string, expectedRevision: int)

  function RowKey(r: Row): string { r.assetId }

  function RevisionIn(s: Store, id: string): Option<int> { if id in s then Some(s[id].revision) else None }

  /** Bytes of canonical base64 text; None is the refused text. */
  function LengthOf(bytesBase64: string): Option<nat> {
    var b := Base64.FromBase64(bytesBase64);
    if b.Some? then Some(|b.value|) else None
  }

  /** Deletes, then upserts, each against the revision it was prepared on. */
  function Mutate(s: Store, deletes: seq<Delete>, upserts: seq<Upsert>, draftRevision: int): Option<Store>
    decreases |deletes| + |upserts|
  {
    if deletes != [] then
      if RevisionIn(s, deletes[0].assetId) != Some(deletes[0].expectedRevision) then None
      else Mutate(s - {deletes[0].assetId}, deletes[1..], upserts, draftRevision)
    else if upserts != [] then
      var u := upserts[0];
      if RevisionIn(s, u.assetId) != u.expectedRevision || LengthOf(u.bytesBase64).None? then None
      else
        var revision := (if u.assetId in s then s[u.assetId].revision else draftRevision) + 1;
        Mutate(s[u.assetId := Row(u.assetId, revision, u.kind, u.mediaType, LengthOf(u.bytesBase64).value, u.bytesBase64)],
               deletes, upserts[1..], draftRevision)
    else Some(s)
  }

  predicate Matches(d: Descriptor, r: Row) {
    r.assetId == d.id && r.kind == d.kind && r.mediaType == d.mediaType && r.byteLength == d.byteLength
  }

  /** One descriptor and one durable row to each asset, alike in kind, media type and length. */
  ghost predicate Agree(assets: seq<Descriptor>, s: Store) {
    && Distinct(DescriptorKey, assets)
    && (forall id :: id in s <==> Lookup(DescriptorKey, assets, id).Some?)
    && (forall id :: id in s ==> Matches(Lookup(DescriptorKey, assets, id).value, s[id]))
  }

  /** The rows handed to the editor are the durable rows, in any order. */
  ghost predicate Snapshot(rows: seq<Row>, s: Store) {
    && Distinct(RowKey, rows)
    && (forall id :: id in s <==> Lookup(RowKey, rows, id).Some?)
    && (forall id :: id in s ==> Lookup(RowKey, rows, id) == Some(s[id]))
  }
}
