/** Base row compilation of maker-v8-base-rows.js: a document's canonical order, and its rows by category. */
module BaseRows {
  import opened Results
  import opened SafeText
  import opened Ordering
  import opened Sequences

  const U64_LIMIT: int := 0x1_0000_0000_0000_0000

  datatype Track = Track(key: string, title: string, renderOrder: int, locked: bool)

  datatype Stop = Stop(offset: real, rgba: int)

  datatype Swatch = Swatch(key: string, title: string, rgba: int, stops: seq<Stop>)

  datatype Channel = Channel(key: string, title: string, defaultSwatch: string, swatches: seq<Swatch>)

  datatype Transform = Transform(x: real, y: real, scale: real, rotation: real)

  /** Fields the row copies unchanged, visibility condition and payload among them, are one text. */
  datatype Style = Style(key: string, displayOrder: int, trackKey: string, assetId: string, isProtected: bool,
                         transform: Transform, opacity: real, rest: string)

  datatype Item = Item(key: string, isPublic: bool, displayOrder: int, styles: seq<Style>, rest: string)

  datatype Part = Part(key: string, renderOrder: int, menuOrder: int, capacity: int, items: seq<Item>, rest: string)

  datatype Asset = Asset(id: string, kind: string, mediaType: string, byteLength: int)

  datatype Transport = Transport(byteLength: int, mediaType: string, blobId: string, sha256: string)

  datatype Document = Document(tracks: seq<Track>, colors: seq<Channel>, parts: seq<Part>, assets: seq<Asset>,
                               evidence: Option<string>)

  type Certified = map<string, Transport>

  // ---- canonical order --------------------------------------------------------------------------------

  function TrackOrder(t: Track): SortKey { SortKey(t.renderOrder as real, t.key) }

  function ChannelOrder(c: Channel): SortKey { SortKey(0.0, c.key) }

  function SwatchOrder(s: Swatch): SortKey { SortKey(0.0, s.key) }

  function StopOrder(s: Stop): SortKey { SortKey(s.offset, "") }

  function PartOrder(p: Part): SortKey { SortKey(p.menuOrder as real, p.key) }

  function ItemOrder(i: Item): SortKey { SortKey(i.displayOrder as real, i.key) }

  function StyleOrder(s: Style): SortKey { SortKey(s.displayOrder as real, s.key) }

  function AssetOrder(a: Asset): SortKey { SortKey(0.0, a.id) }

  function CanonicalSwatch(s: Swatch): Swatch { s.(stops := Sort(s.stops, StopOrder)) }

  function CanonicalChannel(c: Channel): Channel {
    c.(swatches := Map(CanonicalSwatch, Sort(c.swatches, SwatchOrder)))
  }

  function CanonicalItem(i: Item): Item { i.(styles := Sort(i.styles, StyleOrder)) }

  predicate IsPublic(i: Item) { i.isPublic }

  function CanonicalPart(p: Part): Part {
    p.(items := Map(CanonicalItem, Sort(Keep(IsPublic, p.items), ItemOrder)))
  }

  function PublicParts(d: Document): seq<Part> { Map(CanonicalPart, Sort(d.parts, PartOrder)) }

  function StylesOfItems(p: Part, items: seq<Item>): seq<(Part, Item, Style)> {
    if items == [] then []
    else
      var i := items[|items| - 1];
      StylesOfItems(p, items[..|items| - 1]) + seq(|i.styles|, k requires 0 <= k < |i.styles| => (p, i, i.styles[k]))
  }

  function StylesOf(parts: seq<Part>): seq<(Part, Item, Style)> {
    if parts == [] then []
    else StylesOf(parts[..|parts| - 1]) + StylesOfItems(parts[|parts| - 1], parts[|parts| - 1].items)
  }

  function ItemsOf(parts: seq<Part>): seq<(Part, Item)> {
    if parts == [] then []
    else
      var p := parts[|parts| - 1];
      ItemsOf(parts[..|parts| - 1]) + seq(|p.items|, k requires 0 <= k < |p.items| => (p, p.items[k]))
  }

  predicate Referenced(d: Document, parts: seq<Part>, id: string) {
    d.evidence == Some(id) || exists s :: s in StylesOf(parts) && s.2.assetId == id
  }

  function AssetRows(d: Document, parts: seq<Part>): seq<Asset> {
    Sort(Keep((a: Asset) => Referenced(d, parts, a.id), d.assets), AssetOrder)
  }

  function FindAsset(assets: seq<Asset>, id: string): (r: Option<Asset>)
    ensures r.Some? ==> r.value in assets && r.value.id == id
    ensures r.None? ==> forall a :: a in assets ==> a.id != id
  {
    if assets == [] then None
    else if assets[0].id == id then Some(assets[0])
    else FindAsset(assets[1..], id)
  }

  // ---- one row ----------------------------------------------------------------------------------------

  predicate IsU64(n: int) { 0 <= n < U64_LIMIT }

  /** The exact fixed-point value, when there is one. */
  function Fixed(value: real, multiplier: int, maximum: real): Option<int> {
    if value < 0.0 || value > maximum then None
    else
      var scaled := (value * multiplier as real).Floor;
      if scaled as real == value * multiplier as real then Some(scaled) else None
  }

  /** Sign and magnitude; zero is never negative. */
  function Signed(value: real, maximum: real): Option<(bool, int)> {
    match Fixed(if value < 0.0 then -value else value, 1000, maximum)
    case None => None
    case Some(magnitude) => Some((magnitude != 0 && value < 0.0, magnitude))
  }

  datatype TrackRow = TrackRow(sequence: nat, track: Track)

  datatype SwatchRow = SwatchRow(key: string, title: string, rgba: int, stops: seq<(int, int)>)

  datatype ColorRow = ColorRow(sequence: nat, key: string, title: string, defaultSwatch: string, swatches: seq<SwatchRow>)

  datatype PartRow = PartRow(sequence: nat, key: string, renderOrder: int, menuOrder: int, capacity: int,
                             trackKeys: seq<string>, rest: string)

  datatype ItemRow = ItemRow(sequence: nat, partKey: string, itemKey: string, displayOrder: int, rest: string)

  datatype StyleRow = StyleRow(sequence: nat, partKey: string, itemKey: string, styleKey: string, displayOrder: int,
                               trackKey: string, assetId: string, blobId: string, sha256: string, isProtected: bool,
                               x: (bool, int), y: (bool, int), scale: int, rotation: (bool, int), opacity: int,
                               assetKind: string, rest: string)

  datatype AssetRow = AssetRow(sequence: nat, id: string, kind: string, mediaType: string, byteLength: int, sha256: string)

  function MakeTrack(n: nat, t: Track): Option<TrackRow> {
    if IsU64(t.renderOrder) then Some(TrackRow(n, t)) else None
  }

  function MakeStops(stops: seq<Stop>): Option<seq<(int, int)>> {
    if stops == [] then Some([])
    else
      match (MakeStops(stops[..|stops| - 1]), Fixed(stops[|stops| - 1].offset, 1_000_000, 1.0))
      case (Some(before), Some(offset)) => Some(before + [(offset, stops[|stops| - 1].rgba)])
      case _ => None
  }

  function MakeSwatches(swatches: seq<Swatch>): Option<seq<SwatchRow>> {
    if swatches == [] then Some([])
    else
      var s := swatches[|swatches| - 1];
      match (MakeSwatches(swatches[..|swatches| - 1]), MakeStops(s.stops))
      case (Some(before), Some(stops)) => Some(before + [SwatchRow(s.key, s.title, s.rgba, stops)])
      case _ => None
  }

  function MakeColor(n: nat, c: Channel): Option<ColorRow> {
    match MakeSwatches(c.swatches)
    case None => None
    case Some(swatches) => Some(ColorRow(n, c.key, c.title, c.defaultSwatch, swatches))
  }

  predicate UsesTrack(p: Part, key: string) {
    exists i, s :: i in p.items && s in i.styles && s.trackKey == key
  }

  /** The keys, in the order of the sorted tracks, of the tracks the part's public styles use. */
  function TrackKeys(p: Part, tracks: seq<Track>): seq<string> {
    if tracks == [] then []
    else
      var t := tracks[|tracks| - 1];
      TrackKeys(p, tracks[..|tracks| - 1]) + if UsesTrack(p, t.key) then [t.key] else []
  }

  function MakePart(n: nat, p: Part, tracks: seq<Track>): Option<PartRow> {
    if IsU64(p.renderOrder) && IsU64(p.menuOrder) && IsU64(p.capacity) then
      Some(PartRow(n, p.key, p.renderOrder, p.menuOrder, p.capacity, TrackKeys(p, tracks), p.rest))
    else None
  }

  function MakeItem(n: nat, at: (Part, Item)): Option<ItemRow> {
    if IsU64(at.1.displayOrder) then Some(ItemRow(n, at.0.key, at.1.key, at.1.displayOrder, at.1.rest)) else None
  }

  const SEAL_CIPHERTEXT := "application/vnd.animacraft.seal-ciphertext"

  /** Certified bytes match the descriptor, or are ciphertext for a protected style. */
  predicate TransportFits(s: Style, asset: Asset, t: Transport) {
    && (if s.isProtected then t.mediaType == SEAL_CIPHERTEXT
        else asset.byteLength == t.byteLength && asset.mediaType == t.mediaType)
    && 0 < Utf8Length(t.blobId) <= 512 && IsHash(t.sha256)
  }

  function MakeStyle(n: nat, at: (Part, Item, Style), assets: seq<Asset>, certified: Certified): Option<StyleRow> {
    var s, asset := at.2, FindAsset(assets, at.2.assetId);
    if asset.None? || s.assetId !in certified || !IsU64(s.displayOrder)
       || !TransportFits(s, asset.value, certified[s.assetId]) then None
    else
      var t := certified[s.assetId];
      match (Signed(s.transform.x, 8192.0), Signed(s.transform.y, 8192.0), Fixed(s.transform.scale, 1_000_000, 100.0),
             Signed(s.transform.rotation, 360.0), Fixed(s.opacity, 1_000_000, 1.0))
      case (Some(x), Some(y), Some(scale), Some(rotation), Some(opacity)) =>
        Some(StyleRow(n, at.0.key, at.1.key, s.key, s.displayOrder, s.trackKey, s.assetId, t.blobId, t.sha256,
                      s.isProtected, x, y, scale, rotation, opacity, asset.value.kind, s.rest))
      case _ => None
  }

  const MAX_ASSET_BYTES: int := 8 * 1024 * 1024

  function MakeAsset(n: nat, a: Asset, certified: Certified): Option<AssetRow> {
    if a.id !in certified then None
    else
      var t := certified[a.id];
      if 0 < t.byteLength <= MAX_ASSET_BYTES && IsHash(t.sha256) then
        Some(AssetRow(n, a.id, a.kind, t.mediaType, t.byteLength, t.sha256))
      else None
  }

  // ---- all rows ---------------------------------------------------------------------------------------

  datatype Rows = Rows(track: seq<TrackRow>, color: seq<ColorRow>, part: seq<PartRow>, item: seq<ItemRow>,
                       style: seq<StyleRow>, asset: seq<AssetRow>)

  /** Row i is made, with sequence i, from the i-th input of its category. */
  ghost predicate Made<T, R>(rows: seq<R>, inputs: seq<T>, make: (nat, T) -> Option<R>) {
    |rows| == |inputs| && forall i: nat :: i < |rows| ==> make(i, inputs[i]) == Some(rows[i])
  }

  ghost predicate PartsMade(rows: seq<PartRow>, parts: seq<Part>, tracks: seq<Track>) {
    |rows| == |parts| && forall i: nat :: i < |rows| ==> MakePart(i, parts[i], tracks) == Some(rows[i])
  }

  ghost predicate StylesMade(rows: seq<StyleRow>, styles: seq<(Part, Item, Style)>, assets: seq<Asset>, certified: Certified) {
    |rows| == |styles| && forall i: nat :: i < |rows| ==> MakeStyle(i, styles[i], assets, certified) == Some(rows[i])
  }

  ghost predicate AssetsMade(rows: seq<AssetRow>, assets: seq<Asset>, certified: Certified) {
    |rows| == |assets| && forall i: nat :: i < |rows| ==> MakeAsset(i, assets[i], certified) == Some(rows[i])
  }

  /** The rows of a document: every category made in canonical order. */
  ghost predicate RowsOf(rows: Rows, d: Document, certified: Certified) {
    var tracks, parts := Sort(d.tracks, TrackOrder), PublicParts(d);
    && Made(rows.track, tracks, MakeTrack)
    && Made(rows.color, Map(CanonicalChannel, Sort(d.colors, ChannelOrder)), MakeColor)
    && PartsMade(rows.part, parts, tracks)
    && Made(rows.item, ItemsOf(parts), MakeItem)
    && StylesMade(rows.style, StylesOf(parts), d.assets, certified)
    && AssetsMade(rows.asset, AssetRows(d, parts), certified)
  }

  // ---- document validity ------------------------------------------------------------------------------

  ghost predicate Distinct<T>(s: seq<T>, key: T -> SortKey) {
    forall i, j :: 0 <= i < j < |s| ==> key(s[i]).text != key(s[j]).text
  }

  ghost predicate PartUnique(p: Part) {
    Distinct(p.items, ItemOrder) && forall i :: i in p.items ==> Distinct(i.styles, StyleOrder)
  }

  /** The part of document validation that canonical order rests on: keys unique in every list. */
  ghost predicate KeysUnique(d: Document) {
    && Distinct(d.tracks, TrackOrder) && Distinct(d.colors, ChannelOrder)
    && Distinct(d.parts, PartOrder) && Distinct(d.assets, AssetOrder)
    && (forall c :: c in d.colors ==> Distinct(c.swatches, SwatchOrder))
    && (forall p :: p in d.parts ==> PartUnique(p))
  }

  lemma DistinctIdentify<T>(s: seq<T>, key: T -> SortKey)
    requires Distinct(s, key)
    ensures KeysIdentify(s, key)
  {
  }

  // ---- canonicalisation -------------------------------------------------------------------------------

  lemma {:induction false} KeepDistinct<T>(p: T -> bool, s: seq<T>, key: T -> SortKey)
    requires KeysIdentify(s, key)
    ensures KeysIdentify(Keep(p, s), key)
  {
    forall x, y | x in Keep(p, s) && y in Keep(p, s) && key(x) == key(y) ensures x == y {
      KeepMember(p, s, x);
      KeepMember(p, s, y);
    }
  }

  lemma {:induction false} InsertMap<T(!new)>(x: T, s: seq<T>, f: T -> T, key: T -> SortKey)
    requires forall y :: key(f(y)) == key(y)
    ensures Insert(f(x), Map(f, s), key) == Map(f, Insert(x, s, key))
  {
    if s != [] && !Le(key(x), key(s[0])) {
      InsertMap(x, s[1..], f, key);
      assert Map(f, s)[1..] == Map(f, s[1..]);
      assert Insert(x, s, key)[1..] == Insert(x, s[1..], key);
    } else {
      assert ([x] + s)[1..] == s;
    }
  }

  /** Bringing each element to canonical form commutes with sorting. */
  lemma {:induction false} SortMap<T(!new)>(s: seq<T>, f: T -> T, key: T -> SortKey)
    requires forall y :: key(f(y)) == key(y)
    ensures Sort(Map(f, s), key) == Map(f, Sort(s, key))
  {
    if s != [] {
      SortMap(s[1..], f, key);
      assert Map(f, s)[1..] == Map(f, s[1..]);
      InsertMap(s[0], Sort(s[1..], key), f, key);
    }
  }

  /** Replacing one element by another of the same canonical form changes nothing. */
  lemma SortMapUpdate<T(!new)>(s: seq<T>, i: nat, x: T, f: T -> T, key: T -> SortKey)
    requires i < |s| && f(s[i]) == f(x) && forall y :: key(f(y)) == key(y)
    ensures Map(f, Sort(s[i := x], key)) == Map(f, Sort(s, key))
  {
    SortMap(s, f, key);
    SortMap(s[i := x], f, key);
    assert Map(f, s[i := x]) == Map(f, s);
  }

  /** One list of the document, at any level, is rearranged. */
  ghost predicate Rearranged(d: Document, e: Document) {
    || (e == d.(tracks := e.tracks) && multiset(d.tracks) == multiset(e.tracks))
    || (e == d.(colors := e.colors) && multiset(d.colors) == multiset(e.colors))
    || (e == d.(parts := e.parts) && multiset(d.parts) == multiset(e.parts))
    || (e == d.(assets := e.assets) && multiset(d.assets) == multiset(e.assets))
    || (exists i, s :: RearrangedSwatches(d, e, i, s))
    || (exists i, items :: RearrangedItems(d, e, i, items))
    || (exists i, j, styles :: RearrangedStyles(d, e, i, j, styles))
  }

  ghost predicate RearrangedSwatches(d: Document, e: Document, i: int, s: seq<Swatch>) {
    && 0 <= i < |d.colors| && multiset(d.colors[i].swatches) == multiset(s)
    && e == d.(colors := d.colors[i := d.colors[i].(swatches := s)])
  }

  ghost predicate RearrangedItems(d: Document, e: Document, i: int, items: seq<Item>) {
    && 0 <= i < |d.parts| && multiset(d.parts[i].items) == multiset(items)
    && e == d.(parts := d.parts[i := d.parts[i].(items := items)])
  }

  ghost predicate RearrangedStyles(d: Document, e: Document, i: int, j: int, styles: seq<Style>) {
    && 0 <= i < |d.parts| && 0 <= j < |d.parts[i].items|
    && multiset(d.parts[i].items[j].styles) == multiset(styles)
    && e == d.(parts := d.parts[i := d.parts[i].(items := d.parts[i].items[j := d.parts[i].items[j].(styles := styles)])])
  }

  lemma ItemsForgotten(p: Part, items: seq<Item>)
    requires Distinct(p.items, ItemOrder) && multiset(p.items) == multiset(items)
    ensures CanonicalPart(p.(items := items)) == CanonicalPart(p)
  {
    KeepMultiset(IsPublic, p.items, items);
    DistinctIdentify(p.items, ItemOrder);
    KeepDistinct(IsPublic, p.items, ItemOrder);
    SortCanonical(Keep(IsPublic, p.items), Keep(IsPublic, items), ItemOrder);
  }

  lemma {:induction false} KeepUpdate(items: seq<Item>, j: nat, x: Item)
    requires j < |items| && CanonicalItem(x) == CanonicalItem(items[j])
    ensures Map(CanonicalItem, Keep(IsPublic, items[j := x])) == Map(CanonicalItem, Keep(IsPublic, items))
  {
    assert x.isPublic == CanonicalItem(x).isPublic == items[j].isPublic;
    if j == 0 {
      assert items[j := x][1..] == items[1..];
      var rest := Keep(IsPublic, items[1..]);
      assert ([x] + rest)[1..] == rest && ([items[0]] + rest)[1..] == rest;
    } else {
      assert items[j := x][1..] == items[1..][j - 1 := x];
      KeepUpdate(items[1..], j - 1, x);
      if items[0].isPublic {
        var a, b := Keep(IsPublic, items[1..][j - 1 := x]), Keep(IsPublic, items[1..]);
        assert ([items[0]] + a)[1..] == a && ([items[0]] + b)[1..] == b;
      }
    }
  }

  lemma StylesForgotten(p: Part, j: nat, styles: seq<Style>)
    requires j < |p.items| && Distinct(p.items[j].styles, StyleOrder)
    requires multiset(p.items[j].styles) == multiset(styles)
    ensures CanonicalPart(p.(items := p.items[j := p.items[j].(styles := styles)])) == CanonicalPart(p)
  {
    var x := p.items[j].(styles := styles);
    DistinctIdentify(p.items[j].styles, StyleOrder);
    SortCanonical(p.items[j].styles, styles, StyleOrder);
    KeepUpdate(p.items, j, x);
    SortMap(Keep(IsPublic, p.items), CanonicalItem, ItemOrder);
    SortMap(Keep(IsPublic, p.items[j := x]), CanonicalItem, ItemOrder);
  }

  lemma SwatchesForgotten(c: Channel, s: seq<Swatch>)
    requires Distinct(c.swatches, SwatchOrder) && multiset(c.swatches) == multiset(s)
    ensures CanonicalChannel(c.(swatches := s)) == CanonicalChannel(c)
  {
    DistinctIdentify(c.swatches, SwatchOrder);
    SortCanonical(c.swatches, s, SwatchOrder);
  }

  lemma PartsForgotten(d: Document, e: Document)
    requires KeysUnique(d) && Rearranged(d, e)
    ensures PublicParts(d) == PublicParts(e)
  {
    if multiset(d.parts) == multiset(e.parts) {
      DistinctIdentify(d.parts, PartOrder);
      SortCanonical(d.parts, e.parts, PartOrder);
    } else if exists i, items :: RearrangedItems(d, e, i, items) {
      var i, items :| RearrangedItems(d, e, i, items);
      assert d.parts[i] in d.parts;
      ItemsForgotten(d.parts[i], items);
      SortMapUpdate(d.parts, i, d.parts[i].(items := items), CanonicalPart, PartOrder);
    } else {
      var i, j, styles :| RearrangedStyles(d, e, i, j, styles);
      assert d.parts[i] in d.parts && d.parts[i].items[j] in d.parts[i].items;
      StylesForgotten(d.parts[i], j, styles);
      SortMapUpdate(d.parts, i, d.parts[i].(items := d.parts[i].items[j := d.parts[i].items[j].(styles := styles)]),
                    CanonicalPart, PartOrder);
    }
  }

  lemma ColorsForgotten(d: Document, e: Document)
    requires KeysUnique(d) && Rearranged(d, e)
    ensures Map(CanonicalChannel, Sort(d.colors, ChannelOrder)) == Map(CanonicalChannel, Sort(e.colors, ChannelOrder))
  {
    if multiset(d.colors) == multiset(e.colors) {
      DistinctIdentify(d.colors, ChannelOrder);
      SortCanonical(d.colors, e.colors, ChannelOrder);
    } else {
      var i, s :| RearrangedSwatches(d, e, i, s);
      assert d.colors[i] in d.colors;
      SwatchesForgotten(d.colors[i], s);
      SortMapUpdate(d.colors, i, d.colors[i].(swatches := s), CanonicalChannel, ChannelOrder);
    }
  }

  lemma AssetsKeepMembers(d: Document, e: Document)
    requires Rearranged(d, e)
    ensures multiset(d.assets) == multiset(e.assets) && e.evidence == d.evidence
  {
  }

  lemma FindForgotten(a: seq<Asset>, b: seq<Asset>, id: string)
    requires Distinct(a, AssetOrder) && multiset(a) == multiset(b)
    ensures FindAsset(a, id) == FindAsset(b, id)
  {
    assert forall x :: x in a <==> x in multiset(a);
    assert forall x :: x in b <==> x in multiset(b);
    forall x, y | x in a && y in a && x.id == y.id ensures x == y {
      assert AssetOrder(x).text == AssetOrder(y).text;
    }
  }

  lemma AssetRowsForgotten(d: Document, e: Document, parts: seq<Part>)
    requires Distinct(d.assets, AssetOrder) && multiset(d.assets) == multiset(e.assets) && e.evidence == d.evidence
    ensures AssetRows(d, parts) == AssetRows(e, parts)
  {
    var wanted := (a: Asset) => Referenced(d, parts, a.id);
    var same := (a: Asset) => Referenced(e, parts, a.id);
    KeepMultiset(wanted, d.assets, e.assets);
    KeepAgree(wanted, same, e.assets);
    DistinctIdentify(d.assets, AssetOrder);
    KeepDistinct(wanted, d.assets, AssetOrder);
    KeepAgree(wanted, (a: Asset) => Referenced(d, parts, a.id), d.assets);
    KeepAgree(same, (a: Asset) => Referenced(e, parts, a.id), e.assets);
    SortCanonical(Keep(wanted, d.assets), Keep(same, e.assets), AssetOrder);
  }

  lemma RowsForgetOneOrder(d: Document, e: Document, certified: Certified, rows: Rows)
    requires KeysUnique(d) && Rearranged(d, e)
    ensures RowsOf(rows, d, certified) <==> RowsOf(rows, e, certified)
  {
    PartsForgotten(d, e);
    ColorsForgotten(d, e);
    TracksForgotten(d, e);
    AssetsKeepMembers(d, e);
    AssetRowsForgotten(d, e, PublicParts(d));
    StylesForgotAssets(rows.style, StylesOf(PublicParts(d)), d.assets, e.assets, certified);
  }

  lemma {:induction false} DistinctCount<T>(s: seq<T>, key: T -> SortKey, x: T)
    requires Distinct(s, key)
    ensures multiset(s)[x] <= 1
  {
    if s != [] {
      var n := |s| - 1;
      assert s == s[..n] + [s[n]];
      DistinctCount(s[..n], key, x);
      if s[n] == x { assert x !in s[..n]; }
    }
  }

  lemma DistinctForgetsOrder<T>(a: seq<T>, b: seq<T>, key: T -> SortKey)
    requires Distinct(a, key) && multiset(a) == multiset(b)
    ensures Distinct(b, key)
  {
    forall i, j | 0 <= i < j < |b| ensures key(b[i]).text != key(b[j]).text {
      DistinctCount(a, key, b[i]);
      assert b == b[..j] + b[j..];
      assert b[i] in b[..j] && b[j] in b[j..];
      assert b[i] in multiset(a) && b[j] in multiset(a);
    }
  }

  lemma DistinctUpdate<T>(s: seq<T>, i: nat, x: T, key: T -> SortKey)
    requires Distinct(s, key) && i < |s| && key(x) == key(s[i])
    ensures Distinct(s[i := x], key)
  {
  }

  lemma SwatchesStayUnique(d: Document, e: Document, i: nat, s: seq<Swatch>)
    requires KeysUnique(d) && RearrangedSwatches(d, e, i, s)
    ensures KeysUnique(e)
  {
    assert d.colors[i] in d.colors;
    DistinctUpdate(d.colors, i, e.colors[i], ChannelOrder);
    DistinctForgetsOrder(d.colors[i].swatches, s, SwatchOrder);
  }

  lemma PartStaysUnique(d: Document, i: nat, p: Part)
    requires KeysUnique(d) && i < |d.parts| && PartOrder(p) == PartOrder(d.parts[i])
    requires PartUnique(d.parts[i]) ==> PartUnique(p)
    ensures KeysUnique(d.(parts := d.parts[i := p]))
  {
    var e := d.(parts := d.parts[i := p]);
    assert d.parts[i] in d.parts;
    DistinctUpdate(d.parts, i, p, PartOrder);
    forall q | q in e.parts ensures PartUnique(q) {
      assert q == p || q in d.parts;
    }
  }

  lemma ItemsStayUnique(p: Part, items: seq<Item>)
    requires PartUnique(p) && multiset(p.items) == multiset(items)
    ensures PartUnique(p.(items := items))
  {
    DistinctForgetsOrder(p.items, items, ItemOrder);
    forall i | i in items ensures Distinct(i.styles, StyleOrder) { assert i in multiset(p.items); }
  }

  lemma StylesStayUnique(p: Part, j: nat, styles: seq<Style>)
    requires PartUnique(p) && j < |p.items| && multiset(p.items[j].styles) == multiset(styles)
    ensures PartUnique(p.(items := p.items[j := p.items[j].(styles := styles)]))
  {
    var x := p.items[j].(styles := styles);
    assert p.items[j] in p.items;
    DistinctUpdate(p.items, j, x, ItemOrder);
    DistinctForgetsOrder(p.items[j].styles, styles, StyleOrder);
    forall i | i in p.items[j := x] ensures Distinct(i.styles, StyleOrder) { assert i == x || i in p.items; }
  }

  lemma ListsStayUnique(d: Document, e: Document)
    requires KeysUnique(d)
    requires multiset(d.tracks) == multiset(e.tracks) && multiset(d.colors) == multiset(e.colors)
    requires multiset(d.parts) == multiset(e.parts) && multiset(d.assets) == multiset(e.assets)
    ensures KeysUnique(e)
  {
    DistinctForgetsOrder(d.tracks, e.tracks, TrackOrder);
    DistinctForgetsOrder(d.colors, e.colors, ChannelOrder);
    DistinctForgetsOrder(d.parts, e.parts, PartOrder);
    DistinctForgetsOrder(d.assets, e.assets, AssetOrder);
    assert forall c :: c in e.colors ==> c in multiset(d.colors);
    assert forall p :: p in e.parts ==> p in multiset(d.parts);
  }

  /** Keys stay unique under every rearrangement. */
  lemma KeysStayUnique(d: Document, e: Document)
    requires KeysUnique(d) && Rearranged(d, e)
    ensures KeysUnique(e)
  {
    if i, s :| RearrangedSwatches(d, e, i, s) {
      SwatchesStayUnique(d, e, i, s);
    } else if i, items :| RearrangedItems(d, e, i, items) {
      assert d.parts[i] in d.parts;
      ItemsStayUnique(d.parts[i], items);
      PartStaysUnique(d, i, d.parts[i].(items := items));
    } else if i, j, styles :| RearrangedStyles(d, e, i, j, styles) {
      assert d.parts[i] in d.parts && d.parts[i].items[j] in d.parts[i].items;
      StylesStayUnique(d.parts[i], j, styles);
      PartStaysUnique(d, i, d.parts[i].(items := d.parts[i].items[j := d.parts[i].items[j].(styles := styles)]));
    } else {
      ListsStayUnique(d, e);
    }
  }

  /** Each document is the one before it with one list, at any level, rearranged. */
  ghost predicate Reorderings(ds: seq<Document>) {
    ds != [] && forall k, m :: 0 <= k && m == k + 1 && m < |ds| ==> Rearranged(ds[k], ds[m])
  }

  lemma NextReordering(ds: seq<Document>, k: nat)
    requires Reorderings(ds) && k + 1 < |ds|
    ensures Rearranged(ds[k], ds[k + 1])
  {
  }

  lemma {:induction false} KeysStayUniqueTo(ds: seq<Document>, n: nat)
    requires Reorderings(ds) && KeysUnique(ds[0]) && n < |ds|
    ensures KeysUnique(ds[n])
  {
    if n > 0 {
      KeysStayUniqueTo(ds, n - 1);
      NextReordering(ds, n - 1);
      KeysStayUnique(ds[n - 1], ds[n]);
    }
  }

  lemma NextRows(ds: seq<Document>, certified: Certified, rows: Rows, k: nat)
    requires Reorderings(ds) && KeysUnique(ds[0]) && k + 1 < |ds|
    ensures RowsOf(rows, ds[k], certified) <==> RowsOf(rows, ds[k + 1], certified)
  {
    KeysStayUniqueTo(ds, k);
    NextReordering(ds, k);
    RowsForgetOneOrder(ds[k], ds[k + 1], certified, rows);
  }

  /** Compilation is canonical: however many lists of a document with unique keys are rearranged, at whatever
      levels and in whatever order, the rows stay as they were, and a document without rows stays without. */
  lemma {:induction false} RowsCanonical(ds: seq<Document>, certified: Certified, rows: Rows, n: nat)
    requires Reorderings(ds) && KeysUnique(ds[0]) && n < |ds|
    ensures RowsOf(rows, ds[0], certified) <==> RowsOf(rows, ds[n], certified)
  {
    if n > 0 {
      RowsCanonical(ds, certified, rows, n - 1);
      NextRows(ds, certified, rows, n - 1);
    }
  }

  lemma StylesForgotAssets(rows: seq<StyleRow>, styles: seq<(Part, Item, Style)>, a: seq<Asset>, b: seq<Asset>, certified: Certified)
    requires Distinct(a, AssetOrder) && multiset(a) == multiset(b)
    ensures StylesMade(rows, styles, a, certified) <==> StylesMade(rows, styles, b, certified)
  {
    forall i: nat | i < |styles| ensures MakeStyle(i, styles[i], a, certified) == MakeStyle(i, styles[i], b, certified) {
      FindForgotten(a, b, styles[i].2.assetId);
    }
  }

  lemma TracksForgotten(d: Document, e: Document)
    requires KeysUnique(d) && Rearranged(d, e)
    ensures Sort(d.tracks, TrackOrder) == Sort(e.tracks, TrackOrder)
  {
    assert multiset(d.tracks) == multiset(e.tracks);
    DistinctIdentify(d.tracks, TrackOrder);
    SortCanonical(d.tracks, e.tracks, TrackOrder);
  }

  /** A document has at most one set of rows. */
  lemma RowsOnce(d: Document, certified: Certified, a: Rows, b: Rows)
    requires RowsOf(a, d, certified) && RowsOf(b, d, certified)
    ensures a == b
  {
    assert a.track == b.track && a.color == b.color && a.part == b.part;
    assert a.item == b.item && a.style == b.style && a.asset == b.asset;
  }

  // ---- the compiler -----------------------------------------------------------------------------------

  lemma MadeSnoc<T, R>(rows: seq<R>, inputs: seq<T>, make: (nat, T) -> Option<R>, x: T, row: R)
    requires Made(rows, inputs, make) && make(|inputs|, x) == Some(row)
    ensures Made(rows + [row], inputs + [x], make)
  {
  }

  method MakeTracks(tracks: seq<Track>) returns (r: Option<seq<TrackRow>>)
    ensures r.Some? ==> Made(r.value, tracks, MakeTrack)
    ensures r.None? ==> exists i: nat :: i < |tracks| && MakeTrack(i, tracks[i]) == None
  {
    var rows := [];
    for i := 0 to |tracks|
      invariant Made(rows, tracks[..i], MakeTrack)
    {
      if !IsU64(tracks[i].renderOrder) {
        assert MakeTrack(i, tracks[i]) == None;
        return None;
      }
      MadeSnoc(rows, tracks[..i], MakeTrack, tracks[i], TrackRow(i, tracks[i]));
      rows := rows + [TrackRow(|rows|, tracks[i])];
      assert tracks[..i + 1] == tracks[..i] + [tracks[i]];
    }
    assert tracks[..|tracks|] == tracks;
    return Some(rows);
  }

  method MakeColors(channels: seq<Channel>) returns (r: Option<seq<ColorRow>>)
    ensures r.Some? ==> Made(r.value, channels, MakeColor)
    ensures r.None? ==> exists i: nat :: i < |channels| && MakeColor(i, channels[i]) == None
  {
    var rows := [];
    for i := 0 to |channels|
      invariant Made(rows, channels[..i], MakeColor)
    {
      var row := MakeColor(|rows|, channels[i]);
      if row.None? { return None; }
      MadeSnoc(rows, channels[..i], MakeColor, channels[i], row.value);
      rows := rows + [row.value];
      assert channels[..i + 1] == channels[..i] + [channels[i]];
    }
    assert channels[..|channels|] == channels;
    return Some(rows);
  }

  /** The set of track keys the part's styles use, then the sorted tracks filtered by it. */
  method PartTrackKeys(p: Part, tracks: seq<Track>) returns (keys: seq<string>)
    ensures keys == TrackKeys(p, tracks)
  {
    var used: set<string> := {};
    for i := 0 to |p.items|
      invariant forall k :: k in used <==> exists j, s :: 0 <= j < i && s in p.items[j].styles && s.trackKey == k
    {
      ghost var was := used;
      var styles := p.items[i].styles;
      for n := 0 to |styles|
        invariant forall k :: k in used <==> k in was || exists m :: 0 <= m < n && styles[m].trackKey == k
      {
        used := used + {styles[n].trackKey};
      }
    }
    assert forall k :: k in used <==> UsesTrack(p, k);
    keys := [];
    for i := 0 to |tracks|
      invariant keys == TrackKeys(p, tracks[..i])
    {
      assert tracks[..i + 1][..i] == tracks[..i];
      if tracks[i].key in used { keys := keys + [tracks[i].key]; }
    }
    assert tracks[..|tracks|] == tracks;
  }

  method MakeParts(parts: seq<Part>, tracks: seq<Track>) returns (r: Option<seq<PartRow>>)
    ensures r.Some? ==> PartsMade(r.value, parts, tracks)
    ensures r.None? ==> exists i: nat :: i < |parts| && MakePart(i, parts[i], tracks) == None
  {
    var rows := [];
    for i := 0 to |parts|
      invariant PartsMade(rows, parts[..i], tracks)
    {
      var p := parts[i];
      var keys := PartTrackKeys(p, tracks);
      if !IsU64(p.renderOrder) || !IsU64(p.menuOrder) || !IsU64(p.capacity) {
        assert MakePart(i, parts[i], tracks) == None;
        return None;
      }
      rows := rows + [PartRow(|rows|, p.key, p.renderOrder, p.menuOrder, p.capacity, keys, p.rest)];
      assert parts[..i + 1] == parts[..i] + [p];
    }
    assert parts[..|parts|] == parts;
    return Some(rows);
  }

  lemma {:induction false} StylesPrefix(parts: seq<Part>, n: nat)
    requires n <= |parts|
    ensures StylesOf(parts[..n]) <= StylesOf(parts) && ItemsOf(parts[..n]) <= ItemsOf(parts)
    decreases |parts| - n
  {
    if n == |parts| {
      assert parts[..n] == parts;
    } else {
      StylesPrefix(parts, n + 1);
      assert parts[..n + 1][..n] == parts[..n];
    }
  }

  lemma {:induction false} ItemStylesPrefix(p: Part, items: seq<Item>, n: nat)
    requires n <= |items|
    ensures StylesOfItems(p, items[..n]) <= StylesOfItems(p, items)
    decreases |items| - n
  {
    if n == |items| {
      assert items[..n] == items;
    } else {
      ItemStylesPrefix(p, items, n + 1);
      assert items[..n + 1][..n] == items[..n];
    }
  }

  /** Where the nested loops stand: all styles of the earlier parts, of the earlier items of this part, and
      the first k of this item. */
  function StylesBefore(parts: seq<Part>, n: nat, i: nat, k: nat): seq<(Part, Item, Style)>
    requires n < |parts| && i < |parts[n].items| && k <= |parts[n].items[i].styles|
  {
    var p := parts[n];
    StylesOf(parts[..n]) + (StylesOfItems(p, p.items[..i]) + seq(k, m requires 0 <= m < k => (p, p.items[i], p.items[i].styles[m])))
  }

  lemma StylesBeforeFits(parts: seq<Part>, n: nat, i: nat, k: nat)
    requires n < |parts| && i < |parts[n].items| && k <= |parts[n].items[i].styles|
    ensures StylesBefore(parts, n, i, k) <= StylesOf(parts)
  {
    var p := parts[n];
    assert p.items[..i + 1][..i] == p.items[..i];
    ItemStylesPrefix(p, p.items, i + 1);
    assert parts[..n + 1][..n] == parts[..n];
    StylesPrefix(parts, n + 1);
  }

  method MakeItemStyles(parts: seq<Part>, n: nat, i: nat, before: seq<StyleRow>, assets: seq<Asset>, certified: Certified)
    returns (r: Option<seq<StyleRow>>)
    requires n < |parts| && i < |parts[n].items|
    requires StylesMade(before, StylesOf(parts[..n]) + StylesOfItems(parts[n], parts[n].items[..i]), assets, certified)
    ensures r.Some? ==> StylesMade(r.value, StylesOf(parts[..n]) + StylesOfItems(parts[n], parts[n].items[..i + 1]), assets, certified)
    ensures r.None? ==> exists m: nat :: m < |StylesOf(parts)| && MakeStyle(m, StylesOf(parts)[m], assets, certified) == None
  {
    var p, item := parts[n], parts[n].items[i];
    var rows := before;
    assert StylesBefore(parts, n, i, 0) == StylesOf(parts[..n]) + StylesOfItems(p, p.items[..i]);
    for k := 0 to |item.styles|
      invariant StylesMade(rows, StylesBefore(parts, n, i, k), assets, certified)
    {
      var at := (p, item, item.styles[k]);
      assert StylesBefore(parts, n, i, k + 1) == StylesBefore(parts, n, i, k) + [at];
      var row := MakeStyle(|rows|, at, assets, certified);
      if row.None? {
        StylesBeforeFits(parts, n, i, k + 1);
        assert StylesOf(parts)[|rows|] == StylesBefore(parts, n, i, k + 1)[|rows|] == at;
        return None;
      }
      rows := rows + [row.value];
    }
    assert p.items[..i + 1][..i] == p.items[..i];
    assert StylesBefore(parts, n, i, |item.styles|) == StylesOf(parts[..n]) + StylesOfItems(p, p.items[..i + 1]);
    return Some(rows);
  }

  function ItemsBefore(parts: seq<Part>, n: nat, i: nat): seq<(Part, Item)>
    requires n < |parts| && i <= |parts[n].items|
  {
    ItemsOf(parts[..n]) + seq(i, k requires 0 <= k < i => (parts[n], parts[n].items[k]))
  }

  lemma ItemsBeforeFits(parts: seq<Part>, n: nat, i: nat)
    requires n < |parts| && i <= |parts[n].items|
    ensures ItemsBefore(parts, n, i) <= ItemsOf(parts)
  {
    assert parts[..n + 1][..n] == parts[..n];
    StylesPrefix(parts, n + 1);
  }

  /** One part's items and their styles, appended to both row lists. */
  method MakePartItems(parts: seq<Part>, n: nat, items: seq<ItemRow>, styles: seq<StyleRow>, assets: seq<Asset>, certified: Certified)
    returns (r: Option<(seq<ItemRow>, seq<StyleRow>)>)
    requires n < |parts|
    requires Made(items, ItemsOf(parts[..n]), MakeItem) && StylesMade(styles, StylesOf(parts[..n]), assets, certified)
    ensures r.Some? ==> Made(r.value.0, ItemsOf(parts[..n + 1]), MakeItem)
                        && StylesMade(r.value.1, StylesOf(parts[..n + 1]), assets, certified)
    ensures r.None? ==> Impossible(parts, assets, certified)
  {
    var p := parts[n];
    var itemRows, styleRows := items, styles;
    assert ItemsBefore(parts, n, 0) == ItemsOf(parts[..n]);
    assert StylesOf(parts[..n]) + StylesOfItems(p, p.items[..0]) == StylesOf(parts[..n]);
    for i := 0 to |p.items|
      invariant Made(itemRows, ItemsBefore(parts, n, i), MakeItem)
      invariant StylesMade(styleRows, StylesOf(parts[..n]) + StylesOfItems(p, p.items[..i]), assets, certified)
    {
      var at := (p, p.items[i]);
      assert ItemsBefore(parts, n, i + 1) == ItemsBefore(parts, n, i) + [at];
      var row := MakeItem(|itemRows|, at);
      if row.None? {
        ItemsBeforeFits(parts, n, i + 1);
        assert ItemsOf(parts)[|itemRows|] == ItemsBefore(parts, n, i + 1)[|itemRows|] == at;
        return None;
      }
      MadeSnoc(itemRows, ItemsBefore(parts, n, i), MakeItem, at, row.value);
      itemRows := itemRows + [row.value];
      var more := MakeItemStyles(parts, n, i, styleRows, assets, certified);
      if more.None? { return None; }
      styleRows := more.value;
    }
    assert parts[..n + 1][..n] == parts[..n];
    assert p.items[..|p.items|] == p.items;
    assert ItemsBefore(parts, n, |p.items|) == ItemsOf(parts[..n + 1]);
    return Some((itemRows, styleRows));
  }

  /** Some item or style of these parts has no row. */
  ghost predicate Impossible(parts: seq<Part>, assets: seq<Asset>, certified: Certified) {
    || (exists m: nat :: m < |ItemsOf(parts)| && MakeItem(m, ItemsOf(parts)[m]) == None)
    || (exists m: nat :: m < |StylesOf(parts)| && MakeStyle(m, StylesOf(parts)[m], assets, certified) == None)
  }

  method MakeAllItems(parts: seq<Part>, assets: seq<Asset>, certified: Certified)
    returns (r: Option<(seq<ItemRow>, seq<StyleRow>)>)
    ensures r.Some? ==> Made(r.value.0, ItemsOf(parts), MakeItem) && StylesMade(r.value.1, StylesOf(parts), assets, certified)
    ensures r.None? ==> Impossible(parts, assets, certified)
  {
    var items, styles := [], [];
    assert parts[..0] == [];
    for n := 0 to |parts|
      invariant Made(items, ItemsOf(parts[..n]), MakeItem)
      invariant StylesMade(styles, StylesOf(parts[..n]), assets, certified)
    {
      var more := MakePartItems(parts, n, items, styles, assets, certified);
      if more.None? { return None; }
      items, styles := more.value.0, more.value.1;
    }
    assert parts[..|parts|] == parts;
    return Some((items, styles));
  }

  method MakeAssets(assets: seq<Asset>, certified: Certified) returns (r: Option<seq<AssetRow>>)
    ensures r.Some? ==> AssetsMade(r.value, assets, certified)
    ensures r.None? ==> exists i: nat :: i < |assets| && MakeAsset(i, assets[i], certified) == None
  {
    var rows := [];
    for i := 0 to |assets|
      invariant AssetsMade(rows, assets[..i], certified)
    {
      var row := MakeAsset(|rows|, assets[i], certified);
      if row.None? { return None; }
      rows := rows + [row.value];
      assert assets[..i + 1] == assets[..i] + [assets[i]];
    }
    assert assets[..|assets|] == assets;
    return Some(rows);
  }

  /** The compiler produces the document's rows whenever it has any. */
  method CompileRows(d: Document, certified: Certified) returns (r: Option<Rows>)
    ensures r.Some? ==> RowsOf(r.value, d, certified)
    ensures r.None? ==> forall rows :: !RowsOf(rows, d, certified)
  {
    var parts := PublicParts(d);
    var tracks := Sort(d.tracks, TrackOrder);
    var track := MakeTracks(tracks);
    if track.None? { return None; }
    var color := MakeColors(Map(CanonicalChannel, Sort(d.colors, ChannelOrder)));
    if color.None? { return None; }
    var part := MakeParts(parts, tracks);
    if part.None? { return None; }
    var items := MakeAllItems(parts, d.assets, certified);
    if items.None? { return None; }
    var asset := MakeAssets(AssetRows(d, parts), certified);
    if asset.None? { return None; }
    return Some(Rows(track.value, color.value, part.value, items.value.0, items.value.1, asset.value));
  }

  // ---- what the rows say ------------------------------------------------------------------------------

  lemma StyleSequence(n: nat, at: (Part, Item, Style), assets: seq<Asset>, certified: Certified)
    ensures MakeStyle(n, at, assets, certified).Some? ==>
              var r := MakeStyle(n, at, assets, certified).value;
              r.sequence == n && r.assetId == at.2.assetId && r.partKey == at.0.key && FindAsset(assets, r.assetId).Some?
  {
  }

  /** In every category row i carries sequence i. */
  lemma RowsNumbered(rows: Rows, d: Document, certified: Certified)
    requires RowsOf(rows, d, certified)
    ensures forall i: nat :: i < |rows.track| ==> rows.track[i].sequence == i
    ensures forall i: nat :: i < |rows.color| ==> rows.color[i].sequence == i
    ensures forall i: nat :: i < |rows.part| ==> rows.part[i].sequence == i
    ensures forall i: nat :: i < |rows.item| ==> rows.item[i].sequence == i
    ensures forall i: nat :: i < |rows.style| ==> rows.style[i].sequence == i
    ensures forall i: nat :: i < |rows.asset| ==> rows.asset[i].sequence == i
  {
    TracksNumbered(rows, d, certified);
    PartsNumbered(rows, d, certified);
    StylesNumbered(rows, d, certified);
  }

  lemma TracksNumbered(rows: Rows, d: Document, certified: Certified)
    requires RowsOf(rows, d, certified)
    ensures forall i: nat :: i < |rows.track| ==> rows.track[i].sequence == i
    ensures forall i: nat :: i < |rows.color| ==> rows.color[i].sequence == i
  {
    forall i: nat | i < |rows.track| ensures rows.track[i].sequence == i {
      assert MakeTrack(i, Sort(d.tracks, TrackOrder)[i]) == Some(rows.track[i]);
    }
    forall i: nat | i < |rows.color| ensures rows.color[i].sequence == i {
      assert MakeColor(i, Map(CanonicalChannel, Sort(d.colors, ChannelOrder))[i]) == Some(rows.color[i]);
    }
  }

  lemma PartsNumbered(rows: Rows, d: Document, certified: Certified)
    requires RowsOf(rows, d, certified)
    ensures forall i: nat :: i < |rows.part| ==> rows.part[i].sequence == i
    ensures forall i: nat :: i < |rows.item| ==> rows.item[i].sequence == i
  {
    var parts := PublicParts(d);
    forall i: nat | i < |rows.part| ensures rows.part[i].sequence == i {
      assert MakePart(i, parts[i], Sort(d.tracks, TrackOrder)) == Some(rows.part[i]);
    }
    forall i: nat | i < |rows.item| ensures rows.item[i].sequence == i {
      assert MakeItem(i, ItemsOf(parts)[i]) == Some(rows.item[i]);
    }
  }

  lemma StylesNumbered(rows: Rows, d: Document, certified: Certified)
    requires RowsOf(rows, d, certified)
    ensures forall i: nat :: i < |rows.style| ==> rows.style[i].sequence == i
    ensures forall i: nat :: i < |rows.asset| ==> rows.asset[i].sequence == i
  {
    var parts := PublicParts(d);
    forall i: nat | i < |rows.style| ensures rows.style[i].sequence == i {
      StyleSequence(i, StylesOf(parts)[i], d.assets, certified);
      assert MakeStyle(i, StylesOf(parts)[i], d.assets, certified) == Some(rows.style[i]);
    }
    forall i: nat | i < |rows.asset| ensures rows.asset[i].sequence == i {
      assert MakeAsset(i, AssetRows(d, parts)[i], certified) == Some(rows.asset[i]);
    }
  }

  lemma {:induction false} TrackKeysUsed(p: Part, tracks: seq<Track>, key: string)
    ensures key in TrackKeys(p, tracks) <==> UsesTrack(p, key) && exists t :: t in tracks && t.key == key
  {
    if tracks != [] {
      var last := tracks[|tracks| - 1];
      TrackKeysUsed(p, tracks[..|tracks| - 1], key);
      assert tracks == tracks[..|tracks| - 1] + [last];
    }
  }

  /** A position in the sorted tracks for every listed key, increasing along the list. */
  lemma {:induction false} TrackKeysInOrder(p: Part, tracks: seq<Track>) returns (at: seq<nat>)
    ensures |at| == |TrackKeys(p, tracks)|
    ensures forall i :: 0 <= i < |at| ==> at[i] < |tracks| && tracks[at[i]].key == TrackKeys(p, tracks)[i]
    ensures forall i, j :: 0 <= i < j < |at| ==> at[i] < at[j]
  {
    at := [];
    if tracks != [] {
      var n := |tracks| - 1;
      at := TrackKeysInOrder(p, tracks[..n]);
      if UsesTrack(p, tracks[n].key) { at := at + [n]; }
    }
  }

  /** Each part row lists exactly the tracks its public styles use, in render order. */
  lemma PartTracks(rows: Rows, d: Document, certified: Certified, i: nat) returns (at: seq<nat>)
    requires RowsOf(rows, d, certified) && i < |rows.part|
    ensures var tracks, keys := Sort(d.tracks, TrackOrder), rows.part[i].trackKeys;
      && (forall key :: key in keys <==> UsesTrack(PublicParts(d)[i], key) && exists t :: t in d.tracks && t.key == key)
      && |at| == |keys| && (forall n :: 0 <= n < |at| ==> at[n] < |tracks| && tracks[at[n]].key == keys[n])
      && (forall m, n :: 0 <= m < n < |at| ==> at[m] < at[n] && Le(TrackOrder(tracks[at[m]]), TrackOrder(tracks[at[n]])))
  {
    var tracks := Sort(d.tracks, TrackOrder);
    var p := PublicParts(d)[i];
    assert MakePart(i, p, tracks) == Some(rows.part[i]);
    forall key ensures key in TrackKeys(p, tracks) <==> UsesTrack(p, key) && exists t :: t in d.tracks && t.key == key {
      TrackKeysUsed(p, tracks, key);
      SameMembers(d.tracks, TrackOrder);
    }
    at := TrackKeysInOrder(p, tracks);
    SortKeeps(d.tracks, TrackOrder);
  }

  /** Every style row's asset has exactly one asset row. */
  lemma StyleAssetRow(rows: Rows, d: Document, certified: Certified, i: nat) returns (k: nat)
    requires RowsOf(rows, d, certified) && KeysUnique(d) && i < |rows.style|
    ensures k < |rows.asset| && rows.asset[k].id == rows.style[i].assetId
    ensures forall j: nat :: j < |rows.asset| && rows.asset[j].id == rows.style[i].assetId ==> j == k
  {
    var parts := PublicParts(d);
    var s := StylesOf(parts)[i];
    assert MakeStyle(i, s, d.assets, certified) == Some(rows.style[i]);
    var asset := FindAsset(d.assets, s.2.assetId).value;
    assert s in StylesOf(parts);
    var wanted := (a: Asset) => Referenced(d, parts, a.id);
    KeepAgree(wanted, (a: Asset) => Referenced(d, parts, a.id), d.assets);
    KeepMember(wanted, d.assets, asset);
    SameMembers(Keep(wanted, d.assets), AssetOrder);
    var assets := AssetRows(d, parts);
    assert asset in assets;
    k :| 0 <= k < |assets| && assets[k] == asset;
    assert MakeAsset(k, assets[k], certified) == Some(rows.asset[k]);
    AssetRowsDistinct(d, parts);
    forall j: nat | j < |rows.asset| && rows.asset[j].id == rows.style[i].assetId ensures j == k {
      assert MakeAsset(j, assets[j], certified) == Some(rows.asset[j]);
    }
  }

  lemma {:induction false} InsertDistinct<T>(x: T, s: seq<T>, key: T -> SortKey)
    requires Distinct([x] + s, key)
    ensures Distinct(Insert(x, s, key), key)
    ensures forall y :: y in Insert(x, s, key) ==> y == x || y in s
  {
    var all := [x] + s;
    assert forall i :: 0 <= i < |s| ==> all[i + 1] == s[i];
    if s != [] && !Le(key(x), key(s[0])) {
      forall i, j | 0 <= i < j < |s| ensures key(s[i]).text != key(s[j]).text {
        assert key(all[i + 1]).text != key(all[j + 1]).text;
      }
      forall i | 0 <= i < |s| ensures key(x).text != key(s[i]).text {
        assert key(all[0]).text != key(all[i + 1]).text;
      }
      InsertDistinct(x, s[1..], key);
      var r := Insert(x, s[1..], key);
      forall i | 0 <= i < |r| ensures key(s[0]).text != key(r[i]).text {
        assert r[i] == x || r[i] in s[1..];
      }
    }
  }

  lemma {:induction false} SortDistinct<T>(s: seq<T>, key: T -> SortKey)
    requires Distinct(s, key)
    ensures Distinct(Sort(s, key), key)
  {
    if s != [] {
      SortDistinct(s[1..], key);
      SortKeeps(s[1..], key);
      var rest := Sort(s[1..], key);
      forall i | 0 <= i < |rest| ensures key(s[0]).text != key(rest[i]).text {
        assert rest[i] in multiset(rest) && rest[i] in multiset(s[1..]);
        var j :| 0 <= j < |s[1..]| && s[1..][j] == rest[i];
        assert s[j + 1] == rest[i];
      }
      InsertDistinct(s[0], rest, key);
    }
  }

  lemma {:induction false} KeepDistinctKeys<T>(p: T -> bool, s: seq<T>, key: T -> SortKey)
    requires Distinct(s, key)
    ensures Distinct(Keep(p, s), key)
  {
    if s != [] {
      KeepDistinctKeys(p, s[1..], key);
      var rest := Keep(p, s[1..]);
      forall i | 0 <= i < |rest| ensures key(s[0]).text != key(rest[i]).text {
        KeepMember(p, s[1..], rest[i]);
        var j :| 0 <= j < |s[1..]| && s[1..][j] == rest[i];
        assert s[j + 1] == rest[i];
      }
    }
  }

  lemma AssetRowsDistinct(d: Document, parts: seq<Part>)
    requires Distinct(d.assets, AssetOrder)
    ensures forall i, j :: 0 <= i < j < |AssetRows(d, parts)| ==> AssetRows(d, parts)[i].id != AssetRows(d, parts)[j].id
  {
    var wanted := (a: Asset) => Referenced(d, parts, a.id);
    KeepAgree(wanted, (a: Asset) => Referenced(d, parts, a.id), d.assets);
    KeepDistinctKeys(wanted, d.assets, AssetOrder);
    SortDistinct(Keep(wanted, d.assets), AssetOrder);
    var s := AssetRows(d, parts);
    forall i, j | 0 <= i < j < |s| ensures s[i].id != s[j].id {
      assert AssetOrder(s[i]).text != AssetOrder(s[j]).text;
    }
  }
}
