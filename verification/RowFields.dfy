/** Compiled rows read back to the document, field by field, and are made exactly when every field has its row form. */
module RowFields {
  import opened Results
  import opened SafeText
  import opened Ordering
  import opened Sequences
  import opened BaseRows
  import opened RowMeaning

  // ---- one row ----------------------------------------------------------------------------------------

  /** The descriptor the row's kind comes from, alike with the certified bytes unless the style is protected. */
  ghost predicate DescribedBy(r: StyleRow, s: Style, a: Asset, t: Transport) {
    && a.id == s.assetId && r.assetKind == a.kind
    && (!s.isProtected ==> a.byteLength == t.byteLength && a.mediaType == t.mediaType)
    && (s.isProtected ==> t.mediaType == SEAL_CIPHERTEXT)
  }

  /** A style row is this style of this item of this part: the fixed-point fields read back to its transform and
      opacity, the asset is its own, with the certified blob and hash. */
  ghost predicate StyleReads(r: StyleRow, p: Part, i: Item, s: Style, assets: seq<Asset>, certified: Certified) {
    && r.partKey == p.key && r.itemKey == i.key && r.styleKey == s.key && r.displayOrder == s.displayOrder
    && r.trackKey == s.trackKey && r.assetId == s.assetId && r.isProtected == s.isProtected && r.rest == s.rest
    && Milli(r.x) == s.transform.x && Milli(r.y) == s.transform.y && Milli(r.rotation) == s.transform.rotation
    && Ppm(r.scale) == s.transform.scale && Ppm(r.opacity) == s.opacity
    && s.assetId in certified && r.blobId == certified[s.assetId].blobId && r.sha256 == certified[s.assetId].sha256
    && exists a :: a in assets && DescribedBy(r, s, a, certified[s.assetId])
  }

  lemma NumbersRead(t: Transform, opacity: real)
    ensures Signed(t.x, 8192.0).Some? ==> Milli(Signed(t.x, 8192.0).value) == t.x
    ensures Signed(t.y, 8192.0).Some? ==> Milli(Signed(t.y, 8192.0).value) == t.y
    ensures Signed(t.rotation, 360.0).Some? ==> Milli(Signed(t.rotation, 360.0).value) == t.rotation
    ensures Fixed(t.scale, 1_000_000, 100.0).Some? ==> Ppm(Fixed(t.scale, 1_000_000, 100.0).value) == t.scale
    ensures Fixed(opacity, 1_000_000, 1.0).Some? ==> Ppm(Fixed(opacity, 1_000_000, 1.0).value) == opacity
  {
    SignedReads(t.x, 8192.0);
    SignedReads(t.y, 8192.0);
    SignedReads(t.rotation, 360.0);
    PpmReads(t.scale, 100.0);
    PpmReads(opacity, 1.0);
  }

  lemma StyleRowReads(n: nat, at: (Part, Item, Style), assets: seq<Asset>, certified: Certified, r: StyleRow)
    requires MakeStyle(n, at, assets, certified) == Some(r)
    ensures r.sequence == n && StyleReads(r, at.0, at.1, at.2, assets, certified)
  {
    NumbersRead(at.2.transform, at.2.opacity);
    var a := FindAsset(assets, at.2.assetId).value;
    assert a in assets && DescribedBy(r, at.2, a, certified[at.2.assetId]);
  }

  predicate ItemReads(r: ItemRow, p: Part, i: Item) {
    r.partKey == p.key && r.itemKey == i.key && r.displayOrder == i.displayOrder && r.rest == i.rest
  }

  /** Some public style of the part is drawn on this track. */
  ghost predicate DrawsOn(p: Part, key: string) { exists i, s :: i in p.items && i.isPublic && s in i.styles && s.trackKey == key }

  ghost predicate PartReads(r: PartRow, p: Part, tracks: seq<Track>) {
    && r.key == p.key && r.renderOrder == p.renderOrder && r.menuOrder == p.menuOrder && r.capacity == p.capacity && r.rest == p.rest
    && forall key :: key in r.trackKeys <==> DrawsOn(p, key) && exists t :: t in tracks && t.key == key
  }

  function StopBack(v: (int, int)): Stop { Stop(Ppm(v.0), v.1) }

  /** The stops in order of offset; equal offsets keep the author's order. */
  ghost predicate StopsRead(row: seq<(int, int)>, stops: seq<Stop>) {
    var back := Map(StopBack, row);
    && (forall i, j :: 0 <= i < j < |back| ==> back[i].offset <= back[j].offset)
    && forall offset :: AtOffset(back, offset) == AtOffset(stops, offset)
  }

  function AtOffset(stops: seq<Stop>, offset: real): seq<Stop> {
    if stops == [] then [] else (if stops[0].offset == offset then [stops[0]] else []) + AtOffset(stops[1..], offset)
  }

  ghost predicate SwatchReads(r: SwatchRow, s: Swatch) {
    r.key == s.key && r.title == s.title && r.rgba == s.rgba && StopsRead(r.stops, s.stops)
  }

  ghost predicate ColorReads(r: ColorRow, c: Channel, swatches: seq<Swatch>) {
    && r.key == c.key && r.title == c.title && r.defaultSwatch == c.defaultSwatch
    && multiset(swatches) == multiset(c.swatches) && SwatchesInOrder(swatches) && |swatches| == |r.swatches|
    && forall k :: 0 <= k < |swatches| ==> SwatchReads(r.swatches[k], swatches[k])
  }

  // ---- items and styles -------------------------------------------------------------------------------

  ghost predicate EveryItem(o: Arrangement, at: seq<(nat, nat)>) {
    && (forall k :: 0 <= k < |at| ==> at[k].0 < |o.items| && at[k].1 < |o.items[at[k].0]|)
    && (forall k, l :: 0 <= k < l < |at| ==> at[k].0 < at[l].0 || (at[k].0 == at[l].0 && at[k].1 < at[l].1))
    && (forall a: nat, b: nat :: a < |o.items| && b < |o.items[a]| ==> (a, b) in at)
  }

  /** The item rows are the public items of every part, each once, in the author's order. */
  lemma ItemRowsRead(rows: Rows, d: Document, certified: Certified) returns (o: Arrangement, at: seq<(nat, nat)>)
    requires RowsOf(rows, d, certified) && KeysUnique(d)
    ensures Arranges(o, d) && |at| == |rows.item| && EveryItem(o, at)
    ensures forall k :: 0 <= k < |at| ==>
              rows.item[k].sequence == k && ItemReads(rows.item[k], o.parts[at[k].0], o.items[at[k].0][at[k].1])
  {
    o := ArrangementOf(d);
    Arranged(d);
    CanonicalIs(d);
    var parts := PublicParts(d);
    at := ItemPositions(parts);
    forall k | 0 <= k < |at|
      ensures rows.item[k].sequence == k && ItemReads(rows.item[k], o.parts[at[k].0], o.items[at[k].0][at[k].1])
    { assert MakeItem(k, ItemsOf(parts)[k]) == Some(rows.item[k]); }
  }

  ghost predicate EveryStyle(o: Arrangement, at: seq<(nat, nat, nat)>)
    requires |o.items| == |o.styles| && forall a :: 0 <= a < |o.items| ==> |o.styles[a]| == |o.items[a]|
  {
    && (forall k :: 0 <= k < |at| ==>
          at[k].0 < |o.items| && at[k].1 < |o.items[at[k].0]| && at[k].2 < |o.styles[at[k].0][at[k].1]|)
    && Lexed(at)
    && (forall a: nat, b: nat, s: nat :: a < |o.items| && b < |o.items[a]| && s < |o.styles[a][b]| ==> (a, b, s) in at)
  }

  /** The style rows are the styles of every public item, each once, in the author's order. */
  lemma StyleRowsRead(rows: Rows, d: Document, certified: Certified) returns (o: Arrangement, at: seq<(nat, nat, nat)>)
    requires RowsOf(rows, d, certified) && KeysUnique(d)
    ensures Arranges(o, d) && |at| == |rows.style| && EveryStyle(o, at)
    ensures forall k :: 0 <= k < |at| ==>
              var (a, b, s) := at[k];
              rows.style[k].sequence == k
              && StyleReads(rows.style[k], o.parts[a], o.items[a][b], o.styles[a][b][s], d.assets, certified)
  {
    o := ArrangementOf(d);
    Arranged(d);
    CanonicalIs(d);
    var parts := PublicParts(d);
    at := StylePositions(parts);
    forall k | 0 <= k < |at|
      ensures rows.style[k].sequence == k
      ensures StyleReads(rows.style[k], o.parts[at[k].0], o.items[at[k].0][at[k].1], o.styles[at[k].0][at[k].1][at[k].2], d.assets, certified)
    {
      assert StyleIs(parts, at[k], StylesOf(parts)[k]);
      StyleRowReads(k, StylesOf(parts)[k], d.assets, certified, rows.style[k]);
    }
  }

  // ---- tracks, parts and assets -----------------------------------------------------------------------

  /** The track rows are the tracks, in render order. */
  lemma TrackRowsRead(rows: Rows, d: Document, certified: Certified) returns (tracks: seq<Track>)
    requires RowsOf(rows, d, certified) && KeysUnique(d)
    ensures multiset(tracks) == multiset(d.tracks) && TracksInOrder(tracks) && |tracks| == |rows.track|
    ensures forall k :: 0 <= k < |tracks| ==> rows.track[k] == TrackRow(k, tracks[k])
  {
    tracks := Sort(d.tracks, TrackOrder);
    SortedStrictly(d.tracks, TrackOrder);
    forall k | 0 <= k < |tracks| ensures rows.track[k] == TrackRow(k, tracks[k]) {
      assert MakeTrack(k, tracks[k]) == Some(rows.track[k]);
    }
  }

  lemma DrawsOnUses(p: Part, key: string)
    ensures UsesTrack(CanonicalPart(p), key) <==> DrawsOn(p, key)
  {
    var c := CanonicalPart(p);
    var sorted := SortedItems(p);
    if UsesTrack(c, key) {
      var i, s :| i in c.items && s in i.styles && s.trackKey == key;
      var k :| 0 <= k < |c.items| && c.items[k] == i;
      ItemListed(p, sorted[k]);
      SameMembers(sorted[k].styles, StyleOrder);
      assert sorted[k] in p.items && s in sorted[k].styles;
    }
    if DrawsOn(p, key) {
      var i, s :| i in p.items && i.isPublic && s in i.styles && s.trackKey == key;
      ItemListed(p, i);
      var k :| 0 <= k < |sorted| && sorted[k] == i;
      SameMembers(i.styles, StyleOrder);
      assert c.items[k] in c.items && s in c.items[k].styles;
    }
  }

  /** The part rows are the parts, in menu order, each with the tracks its public styles are drawn on. */
  lemma PartRowsRead(rows: Rows, d: Document, certified: Certified) returns (parts: seq<Part>)
    requires RowsOf(rows, d, certified) && KeysUnique(d)
    ensures multiset(parts) == multiset(d.parts) && PartsInOrder(parts) && |parts| == |rows.part|
    ensures forall k :: 0 <= k < |parts| ==> rows.part[k].sequence == k && PartReads(rows.part[k], parts[k], d.tracks)
  {
    parts := Sort(d.parts, PartOrder);
    SortedStrictly(d.parts, PartOrder);
    forall k | 0 <= k < |parts| ensures rows.part[k].sequence == k && PartReads(rows.part[k], parts[k], d.tracks) {
      assert MakePart(k, PublicParts(d)[k], Sort(d.tracks, TrackOrder)) == Some(rows.part[k]);
      forall key ensures key in rows.part[k].trackKeys <==> DrawsOn(parts[k], key) && exists t :: t in d.tracks && t.key == key {
        TrackKeysUsed(PublicParts(d)[k], Sort(d.tracks, TrackOrder), key);
        DrawsOnUses(parts[k], key);
        SameMembers(d.tracks, TrackOrder);
      }
    }
  }

  // ---- colors -----------------------------------------------------------------------------------------

  lemma {:induction false} AtOffsetHaving(stops: seq<Stop>, offset: real)
    ensures AtOffset(stops, offset) == Having(stops, StopOrder, SortKey(offset, ""))
  {
    if stops != [] { AtOffsetHaving(stops[1..], offset); }
  }

  lemma {:induction false} StopsBack(stops: seq<Stop>)
    requires MakeStops(stops).Some?
    ensures Map(StopBack, MakeStops(stops).value) == stops
  {
    if stops != [] {
      var n := |stops| - 1;
      StopsBack(stops[..n]);
      PpmReads(stops[n].offset, 1.0);
      MapConcat(StopBack, MakeStops(stops[..n]).value, MakeStops(stops).value[n..]);
      assert MakeStops(stops).value == MakeStops(stops[..n]).value + MakeStops(stops).value[n..];
      assert Map(StopBack, MakeStops(stops).value)[n] == stops[n];
      assert stops == stops[..n] + [stops[n]];
    }
  }

  lemma SortedStopsRead(stops: seq<Stop>, row: seq<(int, int)>)
    requires MakeStops(Sort(stops, StopOrder)) == Some(row)
    ensures StopsRead(row, stops)
  {
    var back := Map(StopBack, row);
    StopsBack(Sort(stops, StopOrder));
    SortKeeps(stops, StopOrder);
    forall offset ensures AtOffset(back, offset) == AtOffset(stops, offset) {
      AtOffsetHaving(back, offset);
      AtOffsetHaving(stops, offset);
      SortStable(stops, StopOrder, SortKey(offset, ""));
    }
    forall i, j | 0 <= i < j < |back| ensures back[i].offset <= back[j].offset {
      assert Le(StopOrder(back[i]), StopOrder(back[j]));
    }
  }

  lemma {:induction false} SwatchesMade(swatches: seq<Swatch>)
    requires MakeSwatches(swatches).Some?
    ensures |MakeSwatches(swatches).value| == |swatches|
    ensures forall k :: 0 <= k < |swatches| ==>
              var r, s := MakeSwatches(swatches).value[k], swatches[k];
              r.key == s.key && r.title == s.title && r.rgba == s.rgba && MakeStops(s.stops) == Some(r.stops)
  {
    if swatches != [] { SwatchesMade(swatches[..|swatches| - 1]); }
  }

  lemma ColorRowReads(n: nat, c: Channel, r: ColorRow) returns (swatches: seq<Swatch>)
    requires MakeColor(n, CanonicalChannel(c)) == Some(r) && Distinct(c.swatches, SwatchOrder)
    ensures r.sequence == n && ColorReads(r, c, swatches)
  {
    swatches := Sort(c.swatches, SwatchOrder);
    SortedStrictly(c.swatches, SwatchOrder);
    SwatchesMade(Map(CanonicalSwatch, swatches));
    forall k | 0 <= k < |swatches| ensures SwatchReads(r.swatches[k], swatches[k]) {
      SortedStopsRead(swatches[k].stops, r.swatches[k].stops);
    }
  }

  ghost predicate ColorIs(r: ColorRow, c: Channel) { exists swatches :: ColorReads(r, c, swatches) }

  /** The color rows are the channels, by key, with their swatches by key and the stops of each by offset. */
  lemma ColorRowsRead(rows: Rows, d: Document, certified: Certified) returns (channels: seq<Channel>)
    requires RowsOf(rows, d, certified) && KeysUnique(d)
    ensures multiset(channels) == multiset(d.colors) && ChannelsInOrder(channels) && |channels| == |rows.color|
    ensures forall k :: 0 <= k < |channels| ==> rows.color[k].sequence == k && ColorIs(rows.color[k], channels[k])
  {
    channels := Sort(d.colors, ChannelOrder);
    SortedStrictly(d.colors, ChannelOrder);
    forall k | 0 <= k < |channels| ensures rows.color[k].sequence == k && ColorIs(rows.color[k], channels[k]) {
      assert MakeColor(k, Map(CanonicalChannel, channels)[k]) == Some(rows.color[k]);
      assert channels[k] in multiset(d.colors);
      var swatches := ColorRowReads(k, channels[k], rows.color[k]);
    }
  }

  // ---- assets -----------------------------------------------------------------------------------------

  /** Some public item has this style. */
  ghost predicate IsPublicStyle(d: Document, s: Style) { exists p, i :: p in d.parts && i in p.items && i.isPublic && s in i.styles }

  lemma StyleListed(d: Document, s: Style)
    ensures IsPublicStyle(d, s) <==> exists v :: v in StylesOf(PublicParts(d)) && v.2 == s
  {
    if v :| v in StylesOf(PublicParts(d)) && v.2 == s { ListedIsPublic(d, v); }
    if IsPublicStyle(d, s) { var v := PublicIsListed(d, s); }
  }

  /** A position of the canonical parts is one of the arrangement. */
  lemma PositionStyle(d: Document, x: (nat, nat, nat))
    ensures var o, parts := ArrangementOf(d), PublicParts(d);
      (x.0 < |o.parts| && x.1 < |o.items[x.0]| && x.2 < |o.styles[x.0][x.1]|)
      <==> (x.0 < |parts| && x.1 < |parts[x.0].items| && x.2 < |parts[x.0].items[x.1].styles|)
    ensures var o, parts := ArrangementOf(d), PublicParts(d);
      x.0 < |o.parts| && x.1 < |o.items[x.0]| && x.2 < |o.styles[x.0][x.1]| ==>
        parts[x.0].items[x.1].styles[x.2] == o.styles[x.0][x.1][x.2]
  {
    CanonicalIs(d);
  }

  lemma ListedIsPublic(d: Document, v: (Part, Item, Style))
    requires v in StylesOf(PublicParts(d))
    ensures IsPublicStyle(d, v.2)
  {
    var parts := PublicParts(d);
    var at := StylePositions(parts);
    var k :| 0 <= k < |at| && StylesOf(parts)[k] == v;
    assert StyleIs(parts, at[k], v);
    PositionStyle(d, at[k]);
    PositionIsPublic(d, at[k].0, at[k].1, at[k].2);
  }

  lemma PublicIsListed(d: Document, s: Style) returns (v: (Part, Item, Style))
    requires IsPublicStyle(d, s)
    ensures v in StylesOf(PublicParts(d)) && v.2 == s
  {
    var parts := PublicParts(d);
    var at := StylePositions(parts);
    var a, b, c := PublicHasPosition(d, s);
    PositionStyle(d, (a, b, c));
    assert (a, b, c) in at;
    var k :| 0 <= k < |at| && at[k] == (a, b, c);
    v := StylesOf(parts)[k];
    assert StyleIs(parts, at[k], v);
  }

  lemma PositionIsPublic(d: Document, a: nat, b: nat, s: nat)
    requires var o := ArrangementOf(d); a < |o.parts| && b < |o.items[a]| && s < |o.styles[a][b]|
    ensures IsPublicStyle(d, ArrangementOf(d).styles[a][b][s])
  {
    var o := ArrangementOf(d);
    SameMembers(d.parts, PartOrder);
    ItemListed(o.parts[a], o.items[a][b]);
    SameMembers(o.items[a][b].styles, StyleOrder);
    assert o.parts[a] in d.parts && o.items[a][b] in o.parts[a].items;
  }

  lemma PublicHasPosition(d: Document, style: Style) returns (a: nat, b: nat, s: nat)
    requires IsPublicStyle(d, style)
    ensures var o := ArrangementOf(d); a < |o.parts| && b < |o.items[a]| && s < |o.styles[a][b]| && o.styles[a][b][s] == style
  {
    var o := ArrangementOf(d);
    var p, i :| p in d.parts && i in p.items && i.isPublic && style in i.styles;
    SameMembers(d.parts, PartOrder);
    a :| a < |o.parts| && o.parts[a] == p;
    ItemListed(p, i);
    b :| b < |o.items[a]| && o.items[a][b] == i;
    SameMembers(i.styles, StyleOrder);
    s :| s < |o.styles[a][b]| && o.styles[a][b][s] == style;
  }

  /** Some public style shows this asset, or it is the rights evidence. */
  ghost predicate Needed(d: Document, id: string) { d.evidence == Some(id) || exists s :: IsPublicStyle(d, s) && s.assetId == id }

  lemma NeededIsReferenced(d: Document, id: string)
    ensures Needed(d, id) <==> Referenced(d, PublicParts(d), id)
  {
    if s :| IsPublicStyle(d, s) && s.assetId == id { StyleListed(d, s); }
    if v :| v in StylesOf(PublicParts(d)) && v.2.assetId == id { StyleListed(d, v.2); }
  }

  ghost predicate AssetReads(r: AssetRow, a: Asset, certified: Certified) {
    && r.id == a.id && r.kind == a.kind && a.id in certified
    && r.mediaType == certified[a.id].mediaType && r.byteLength == certified[a.id].byteLength && r.sha256 == certified[a.id].sha256
  }

  lemma AssetListed(d: Document, a: Asset)
    ensures a in AssetRows(d, PublicParts(d)) <==> a in d.assets && Needed(d, a.id)
  {
    var wanted := (x: Asset) => Referenced(d, PublicParts(d), x.id);
    KeepAgree(wanted, (x: Asset) => Referenced(d, PublicParts(d), x.id), d.assets);
    SameMembers(Keep(wanted, d.assets), AssetOrder);
    KeepMember(wanted, d.assets, a);
    NeededIsReferenced(d, a.id);
  }

  /** The asset rows are the needed assets, by id, with what certification says of their bytes. */
  lemma AssetRowsRead(rows: Rows, d: Document, certified: Certified) returns (assets: seq<Asset>)
    requires RowsOf(rows, d, certified) && KeysUnique(d)
    ensures AssetsInOrder(assets) && |assets| == |rows.asset|
    ensures forall a :: a in assets <==> a in d.assets && Needed(d, a.id)
    ensures forall k :: 0 <= k < |assets| ==> rows.asset[k].sequence == k && AssetReads(rows.asset[k], assets[k], certified)
  {
    assets := AssetRows(d, PublicParts(d));
    forall a ensures a in assets <==> a in d.assets && Needed(d, a.id) { AssetListed(d, a); }
    AssetsSorted(d);
    forall k | 0 <= k < |assets| ensures rows.asset[k].sequence == k && AssetReads(rows.asset[k], assets[k], certified) {
      assert MakeAsset(k, assets[k], certified) == Some(rows.asset[k]);
    }
  }

  lemma AssetsSorted(d: Document)
    requires KeysUnique(d)
    ensures AssetsInOrder(AssetRows(d, PublicParts(d)))
  {
    var wanted := (x: Asset) => Referenced(d, PublicParts(d), x.id);
    KeepAgree(wanted, (x: Asset) => Referenced(d, PublicParts(d), x.id), d.assets);
    KeepDistinctKeys(wanted, d.assets, AssetOrder);
    SortedStrictly(Keep(wanted, d.assets), AssetOrder);
  }
}
