/** Exactly which documents and certified bytes compile. */
module RowAcceptance {
  import opened Results
  import opened SafeText
  import opened Ordering
  import opened Sequences
  import opened BaseRows
  import opened RowMeaning
  import opened RowFields

  predicate FitsU64(n: int) { 0 <= n <= 0xFFFF_FFFF_FFFF_FFFF }

  predicate PartFits(p: Part) { FitsU64(p.renderOrder) && FitsU64(p.menuOrder) && FitsU64(p.capacity) }

  ghost predicate StopFits(s: Stop) { 0.0 <= s.offset <= 1.0 && Whole(s.offset, 1_000_000) }

  ghost predicate ChannelFits(c: Channel) { forall s, stop :: s in c.swatches && stop in s.stops ==> StopFits(stop) }

  /** The numbers of a style have fixed-point forms. */
  ghost predicate NumbersFit(t: Transform, opacity: real) {
    && -8192.0 <= t.x <= 8192.0 && Whole(t.x, 1000) && -8192.0 <= t.y <= 8192.0 && Whole(t.y, 1000)
    && -360.0 <= t.rotation <= 360.0 && Whole(t.rotation, 1000)
    && 0.0 <= t.scale <= 100.0 && Whole(t.scale, 1_000_000) && 0.0 <= opacity <= 1.0 && Whole(opacity, 1_000_000)
  }

  /** The asset's bytes are certified, with a bounded blob id and a hash: as described, or sealed for a protected style. */
  predicate BytesFit(s: Style, a: Asset, certified: Certified) {
    && s.assetId in certified
    && var t := certified[s.assetId];
       && t.blobId != "" && Utf8Length(t.blobId) <= 512 && IsHash(t.sha256)
       && if s.isProtected then t.mediaType == "application/vnd.animacraft.seal-ciphertext"
          else t.byteLength == a.byteLength && t.mediaType == a.mediaType
  }

  ghost predicate StyleFits(s: Style, assets: seq<Asset>, certified: Certified) {
    && FitsU64(s.displayOrder) && NumbersFit(s.transform, s.opacity)
    && exists a :: a in assets && a.id == s.assetId && BytesFit(s, a, certified)
  }

  predicate AssetFits(a: Asset, certified: Certified) {
    a.id in certified && 0 < certified[a.id].byteLength <= 0x80_0000 && IsHash(certified[a.id].sha256)
  }

  // ---- each row ---------------------------------------------------------------------------------------

  ghost predicate StopsAllFit(stops: seq<Stop>) { forall s :: s in stops ==> StopFits(s) }

  lemma StopsAllSnoc(stops: seq<Stop>, s: Stop)
    ensures StopsAllFit(stops + [s]) <==> StopsAllFit(stops) && StopFits(s)
  {
    if StopsAllFit(stops + [s]) {
      assert s in stops + [s];
      forall x | x in stops ensures StopFits(x) { assert x in stops + [s]; }
    }
  }

  lemma {:induction false} StopsFit(stops: seq<Stop>)
    ensures MakeStops(stops).Some? <==> StopsAllFit(stops)
  {
    if stops != [] {
      var n := |stops| - 1;
      StopsFit(stops[..n]);
      PpmReads(stops[n].offset, 1.0);
      StopsAllSnoc(stops[..n], stops[n]);
      assert stops == stops[..n] + [stops[n]];
    }
  }

  lemma {:induction false} SwatchesFit(swatches: seq<Swatch>)
    ensures MakeSwatches(swatches).Some? <==> forall s :: s in swatches ==> MakeStops(s.stops).Some?
  {
    if swatches != [] {
      var n := |swatches| - 1;
      SwatchesFit(swatches[..n]);
      assert swatches == swatches[..n] + [swatches[n]];
    }
  }

  lemma SwatchFits(s: Swatch)
    ensures MakeStops(CanonicalSwatch(s).stops).Some? <==> forall stop :: stop in s.stops ==> StopFits(stop)
  {
    StopsFit(Sort(s.stops, StopOrder));
    SameMembers(s.stops, StopOrder);
  }

  lemma ColorFits(n: nat, c: Channel)
    ensures MakeColor(n, CanonicalChannel(c)).Some? <==> ChannelFits(c)
  {
    var sorted := Sort(c.swatches, SwatchOrder);
    var canonical := Map(CanonicalSwatch, sorted);
    SwatchesFit(canonical);
    SameMembers(c.swatches, SwatchOrder);
    forall s | s in canonical ensures exists x :: x in c.swatches && s == CanonicalSwatch(x) {
      var k :| 0 <= k < |canonical| && canonical[k] == s;
      assert sorted[k] in c.swatches;
    }
    forall x | x in c.swatches ensures CanonicalSwatch(x) in canonical {
      var k :| 0 <= k < |sorted| && sorted[k] == x;
      assert canonical[k] == CanonicalSwatch(x);
    }
    forall x: Swatch ensures MakeStops(CanonicalSwatch(x).stops).Some? <==> forall stop :: stop in x.stops ==> StopFits(stop) {
      SwatchFits(x);
    }
  }

  lemma NumbersExact(t: Transform, opacity: real)
    ensures NumbersFit(t, opacity) <==>
              && Signed(t.x, 8192.0).Some? && Signed(t.y, 8192.0).Some? && Fixed(t.scale, 1_000_000, 100.0).Some?
              && Signed(t.rotation, 360.0).Some? && Fixed(opacity, 1_000_000, 1.0).Some?
  {
    SignedReads(t.x, 8192.0);
    SignedReads(t.y, 8192.0);
    SignedReads(t.rotation, 360.0);
    PpmReads(t.scale, 100.0);
    PpmReads(opacity, 1.0);
  }

  lemma {:induction false} Utf8Positive(s: string)
    ensures Utf8Length(s) > 0 <==> s != ""
  {
  }

  lemma DescriptorFound(s: Style, assets: seq<Asset>, certified: Certified)
    requires Distinct(assets, AssetOrder)
    ensures (exists a :: a in assets && a.id == s.assetId && BytesFit(s, a, certified))
            <==> FindAsset(assets, s.assetId).Some? && BytesFit(s, FindAsset(assets, s.assetId).value, certified)
  {
    forall a, b | a in assets && b in assets && a.id == b.id ensures a == b { assert AssetOrder(a).text == AssetOrder(b).text; }
  }

  lemma StyleExact(n: nat, at: (Part, Item, Style), assets: seq<Asset>, certified: Certified)
    requires Distinct(assets, AssetOrder)
    ensures MakeStyle(n, at, assets, certified).Some? <==> StyleFits(at.2, assets, certified)
  {
    var s := at.2;
    NumbersExact(s.transform, s.opacity);
    DescriptorFound(s, assets, certified);
    if s.assetId in certified { Utf8Positive(certified[s.assetId].blobId); }
  }

  // ---- all rows ---------------------------------------------------------------------------------------

  lemma Makes<T, R>(inputs: seq<T>, make: (nat, T) -> Option<R>) returns (rows: seq<R>)
    requires forall i: nat :: i < |inputs| ==> make(i, inputs[i]).Some?
    ensures Made(rows, inputs, make)
  {
    rows := seq(|inputs|, i requires 0 <= i < |inputs| => make(i, inputs[i]).value);
  }

  ghost predicate TracksMade(d: Document) { exists rows :: Made(rows, Sort(d.tracks, TrackOrder), MakeTrack) }

  ghost predicate TracksFit(d: Document) { forall t :: t in d.tracks ==> FitsU64(t.renderOrder) }

  lemma TracksExactly(d: Document)
    ensures TracksMade(d) <==> TracksFit(d)
  {
    var tracks := Sort(d.tracks, TrackOrder);
    SameMembers(d.tracks, TrackOrder);
    if TracksFit(d) {
      forall i: nat | i < |tracks| ensures MakeTrack(i, tracks[i]).Some? { assert tracks[i] in d.tracks; }
      var rows := Makes(tracks, MakeTrack);
    }
    if rows :| Made(rows, tracks, MakeTrack) {
      forall t | t in d.tracks ensures FitsU64(t.renderOrder) {
        var k: nat :| k < |tracks| && tracks[k] == t;
        assert MakeTrack(k, tracks[k]) == Some(rows[k]);
      }
    }
  }

  ghost predicate ColorsMade(d: Document) { exists rows :: Made(rows, Map(CanonicalChannel, Sort(d.colors, ChannelOrder)), MakeColor) }

  ghost predicate ColorsFit(d: Document) { forall c :: c in d.colors ==> ChannelFits(c) }

  lemma ColorsExactly(d: Document)
    ensures ColorsMade(d) <==> ColorsFit(d)
  {
    var channels := Sort(d.colors, ChannelOrder);
    var canonical := Map(CanonicalChannel, channels);
    SameMembers(d.colors, ChannelOrder);
    if ColorsFit(d) {
      forall i: nat | i < |canonical| ensures MakeColor(i, canonical[i]).Some? {
        assert channels[i] in d.colors;
        ColorFits(i, channels[i]);
      }
      var rows := Makes(canonical, MakeColor);
    }
    if rows :| Made(rows, canonical, MakeColor) {
      forall c | c in d.colors ensures ChannelFits(c) {
        var k: nat :| k < |channels| && channels[k] == c;
        assert MakeColor(k, canonical[k]) == Some(rows[k]);
        ColorFits(k, c);
      }
    }
  }

  ghost predicate HasParts(d: Document) { exists rows :: PartsMade(rows, PublicParts(d), Sort(d.tracks, TrackOrder)) }

  ghost predicate PartsFit(d: Document) { forall p :: p in d.parts ==> PartFits(p) }

  lemma PartExact(n: nat, p: Part, tracks: seq<Track>)
    ensures MakePart(n, CanonicalPart(p), tracks).Some? <==> PartFits(p)
  {
  }

  lemma PartsExactly(d: Document)
    ensures HasParts(d) <==> PartsFit(d)
  {
    var parts, sorted, tracks := PublicParts(d), Sort(d.parts, PartOrder), Sort(d.tracks, TrackOrder);
    SameMembers(d.parts, PartOrder);
    if PartsFit(d) {
      forall i: nat | i < |parts| ensures MakePart(i, parts[i], tracks).Some? {
        assert sorted[i] in d.parts;
        PartExact(i, sorted[i], tracks);
      }
      assert PartsMade(seq(|parts|, i requires 0 <= i < |parts| => MakePart(i, parts[i], tracks).value), parts, tracks);
    }
    if rows :| PartsMade(rows, parts, tracks) {
      forall p | p in d.parts ensures PartFits(p) {
        var k: nat :| k < |sorted| && sorted[k] == p;
        assert MakePart(k, parts[k], tracks) == Some(rows[k]);
        PartExact(k, p, tracks);
      }
    }
  }

  ghost predicate ItemShows(v: (Part, Item), p: Part, i: Item, d: Document) {
    p in d.parts && i in p.items && i.isPublic && i.displayOrder == v.1.displayOrder
  }

  /** Position k of the item rows shows a public item of the document. */
  lemma ItemShown(d: Document, at: seq<(nat, nat)>, k: nat) returns (p: Part, i: Item)
    requires ItemsAt(PublicParts(d), at) && k < |at|
    ensures ItemShows(ItemsOf(PublicParts(d))[k], p, i, d)
  {
    var o := ArrangementOf(d);
    CanonicalIs(d);
    p, i := o.parts[at[k].0], o.items[at[k].0][at[k].1];
    SameMembers(d.parts, PartOrder);
    ItemListed(p, i);
    assert p in o.parts && i in o.items[at[k].0];
  }

  lemma ItemPlace(d: Document, p: Part, i: Item) returns (a: nat, b: nat)
    requires p in d.parts && i in p.items && i.isPublic
    ensures var o := ArrangementOf(d); a < |o.parts| && b < |o.items[a]| && o.items[a][b] == i
  {
    var o := ArrangementOf(d);
    SameMembers(d.parts, PartOrder);
    a :| a < |o.parts| && o.parts[a] == p;
    ItemListed(p, i);
    b :| b < |o.items[a]| && o.items[a][b] == i;
  }

  lemma ShownItem(d: Document, at: seq<(nat, nat)>, p: Part, i: Item) returns (k: nat)
    requires ItemsAt(PublicParts(d), at) && p in d.parts && i in p.items && i.isPublic
    ensures k < |at| && ItemShows(ItemsOf(PublicParts(d))[k], p, i, d)
  {
    CanonicalIs(d);
    var a, b := ItemPlace(d, p, i);
    assert (a, b) in at;
    k :| k < |at| && at[k] == (a, b);
  }

  ghost predicate ItemsMade(d: Document) { exists rows :: Made(rows, ItemsOf(PublicParts(d)), MakeItem) }

  ghost predicate ItemsFit(d: Document) { forall p, i :: p in d.parts && i in p.items && i.isPublic ==> FitsU64(i.displayOrder) }

  lemma ItemsExactly(d: Document)
    ensures ItemsMade(d) <==> ItemsFit(d)
  {
    var items := ItemsOf(PublicParts(d));
    var at := ItemPositions(PublicParts(d));
    if ItemsFit(d) {
      forall k: nat | k < |items| ensures MakeItem(k, items[k]).Some? { var p, i := ItemShown(d, at, k); }
      var rows := Makes(items, MakeItem);
    }
    if rows :| Made(rows, items, MakeItem) {
      forall p, i | p in d.parts && i in p.items && i.isPublic ensures FitsU64(i.displayOrder) {
        var k := ShownItem(d, at, p, i);
        assert MakeItem(k, items[k]) == Some(rows[k]);
      }
    }
  }

  ghost predicate HasStyles(d: Document, certified: Certified) {
    exists rows :: StylesMade(rows, StylesOf(PublicParts(d)), d.assets, certified)
  }

  ghost predicate StylesFit(d: Document, certified: Certified) { forall s :: IsPublicStyle(d, s) ==> StyleFits(s, d.assets, certified) }

  lemma StylesExactly(d: Document, certified: Certified)
    requires KeysUnique(d)
    ensures HasStyles(d, certified) <==> StylesFit(d, certified)
  {
    var styles := StylesOf(PublicParts(d));
    if StylesFit(d, certified) {
      forall k: nat | k < |styles| ensures MakeStyle(k, styles[k], d.assets, certified).Some? {
        StyleListed(d, styles[k].2);
        StyleExact(k, styles[k], d.assets, certified);
      }
      var rows := seq(|styles|, i requires 0 <= i < |styles| => MakeStyle(i, styles[i], d.assets, certified).value);
      assert StylesMade(rows, styles, d.assets, certified);
    }
    if rows :| StylesMade(rows, styles, d.assets, certified) {
      forall s | IsPublicStyle(d, s) ensures StyleFits(s, d.assets, certified) {
        var v := PublicIsListed(d, s);
        var k: nat :| k < |styles| && styles[k] == v;
        assert MakeStyle(k, styles[k], d.assets, certified) == Some(rows[k]);
        StyleExact(k, styles[k], d.assets, certified);
      }
    }
  }

  ghost predicate HasAssets(d: Document, certified: Certified) { exists rows :: AssetsMade(rows, AssetRows(d, PublicParts(d)), certified) }

  ghost predicate AssetsFit(d: Document, certified: Certified) {
    forall a :: a in d.assets && Needed(d, a.id) ==> AssetFits(a, certified)
  }

  lemma AssetsExactly(d: Document, certified: Certified)
    ensures HasAssets(d, certified) <==> AssetsFit(d, certified)
  {
    var assets := AssetRows(d, PublicParts(d));
    if AssetsFit(d, certified) {
      forall k: nat | k < |assets| ensures MakeAsset(k, assets[k], certified).Some? { AssetListed(d, assets[k]); }
      assert AssetsMade(seq(|assets|, i requires 0 <= i < |assets| => MakeAsset(i, assets[i], certified).value), assets, certified);
    }
    if rows :| AssetsMade(rows, assets, certified) {
      forall a | a in d.assets && Needed(d, a.id) ensures AssetFits(a, certified) {
        AssetListed(d, a);
        var k: nat :| k < |assets| && assets[k] == a;
        assert MakeAsset(k, assets[k], certified) == Some(rows[k]);
      }
    }
  }

  /** What compilation asks of a document whose keys are unique. */
  ghost predicate Compilable(d: Document, certified: Certified) {
    TracksFit(d) && ColorsFit(d) && PartsFit(d) && ItemsFit(d) && StylesFit(d, certified) && AssetsFit(d, certified)
  }

  lemma RowsExist(d: Document, certified: Certified)
    ensures (exists rows :: RowsOf(rows, d, certified))
            <==> TracksMade(d) && ColorsMade(d) && HasParts(d) && ItemsMade(d) && HasStyles(d, certified) && HasAssets(d, certified)
  {
    if TracksMade(d) && ColorsMade(d) && HasParts(d) && ItemsMade(d) && HasStyles(d, certified) && HasAssets(d, certified) {
      var t :| Made(t, Sort(d.tracks, TrackOrder), MakeTrack);
      var c :| Made(c, Map(CanonicalChannel, Sort(d.colors, ChannelOrder)), MakeColor);
      var p :| PartsMade(p, PublicParts(d), Sort(d.tracks, TrackOrder));
      var i :| Made(i, ItemsOf(PublicParts(d)), MakeItem);
      var s :| StylesMade(s, StylesOf(PublicParts(d)), d.assets, certified);
      var a :| AssetsMade(a, AssetRows(d, PublicParts(d)), certified);
      assert RowsOf(Rows(t, c, p, i, s, a), d, certified);
    }
  }

  /** A document with unique keys compiles exactly when every number has its fixed-width or fixed-point form and every
      asset a public style shows, or the rights evidence, is certified as it must be. */
  lemma CompilesExactly(d: Document, certified: Certified)
    requires KeysUnique(d)
    ensures (exists rows :: RowsOf(rows, d, certified)) <==> Compilable(d, certified)
  {
    RowsExist(d, certified);
    TracksExactly(d);
    ColorsExactly(d);
    PartsExactly(d);
    ItemsExactly(d);
    StylesExactly(d, certified);
    AssetsExactly(d, certified);
  }
}
