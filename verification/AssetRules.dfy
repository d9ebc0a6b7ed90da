/** How replacing one reference changes what a document mentions, and what that means for the assets it needs. */
module AssetRules {
  import opened Results
  import opened JsonReferences
  import opened Keyed
  import opened AssetDocument

  // ---- texts of a changed tree ------------------------------------------------------------------------

  /** Every text of v stands at the same place in w. */
  ghost predicate Tame(v: Json, w: Json) { forall rel: Path, id: string :: Refers(v, rel, id) ==> Refers(w, rel, id) }

  ghost predicate Textless(v: Json) { forall rel: Path, id: string :: !Refers(v, rel, id) }

  ghost predicate TameOutside(v: Json, w: Json, hole: Path) {
    forall rel: Path, id: string :: Refers(v, rel, id) && !(hole <= rel) ==> Refers(w, rel, id)
  }

  lemma GetStep(v: Json, rel: Path)
    requires rel != []
    ensures Get(v, rel) == if Child(v, rel[0]).None? then None else Get(Child(v, rel[0]).value, rel[1..])
  {}

  ghost predicate FieldTame(f: map<string, Json>, g: map<string, Json>, k: string)
    requires k in f
  { (k in g && Tame(f[k], g[k])) || Textless(f[k]) }

  /** Fields that keep their texts, all but one. */
  lemma FieldsTame(f: map<string, Json>, g: map<string, Json>, name: string)
    requires forall k :: k in f && k != name ==> FieldTame(f, g, k)
    ensures TameOutside(Obj(f), Obj(g), [Field(name)])
  {
    forall rel: Path, id: string | Refers(Obj(f), rel, id) && !([Field(name)] <= rel) ensures Refers(Obj(g), rel, id) {
      GetStep(Obj(f), rel);
      assert [rel[0]] <= rel;
      assert rel[0].Field? && rel[0].name != name;
      assert Refers(f[rel[0].name], rel[1..], id);
      assert FieldTame(f, g, rel[0].name);
      GetStep(Obj(g), rel);
    }
  }

  lemma Deeper(at: Segment, hole: Path, rel: Path)
    requires rel != [] && rel[0] == at
    ensures [at] + hole <= rel <==> hole <= rel[1..]
  {
    assert rel == [at] + rel[1..];
    if [at] + hole <= rel { assert rel[1..][..|hole|] == ([at] + hole)[1..]; }
  }

  lemma FieldInside(f: map<string, Json>, k: string, v: Json, hole: Path)
    requires k in f && TameOutside(v, f[k], hole)
    ensures TameOutside(Obj(f[k := v]), Obj(f), [Field(k)] + hole)
  {
    forall rel: Path, id: string | Refers(Obj(f[k := v]), rel, id) && !([Field(k)] + hole <= rel) ensures Refers(Obj(f), rel, id) {
      GetStep(Obj(f[k := v]), rel);
      GetStep(Obj(f), rel);
      if rel[0] == Field(k) {
        Deeper(Field(k), hole, rel);
        assert Refers(v, rel[1..], id);
      }
    }
  }

  lemma IndexInside(s: seq<Json>, i: nat, v: Json, hole: Path)
    requires i < |s| && TameOutside(v, s[i], hole)
    ensures TameOutside(Arr(s[i := v]), Arr(s), [Index(i)] + hole)
  {
    forall rel: Path, id: string | Refers(Arr(s[i := v]), rel, id) && !([Index(i)] + hole <= rel) ensures Refers(Arr(s), rel, id) {
      GetStep(Arr(s[i := v]), rel);
      GetStep(Arr(s), rel);
      if rel[0] == Index(i) {
        Deeper(Index(i), hole, rel);
        assert Refers(v, rel[1..], id);
      }
    }
  }

  // ---- one reference replaced -------------------------------------------------------------------------

  /** Only the place hole is new: it mentions next, or nothing, and every other mention was there before. */
  ghost predicate Replaces(d: Document, e: Document, hole: Path, next: Option<string>) {
    && (forall path: Path, id: string :: Mentions(e, path, id) && !(hole <= path) ==> Mentions(d, path, id))
    && (forall path: Path, id: string :: Mentions(e, path, id) && hole <= path ==> path == hole && next == Some(id))
    && (next.Some? ==> Mentions(e, hole, next.value))
  }

  ghost predicate Below(places: set<Path>, path: Path) { exists place :: place in places && place <= path }

  /** Every mention stays, apart from the replaced place and what stood below the lost ones. */
  ghost predicate Preserves(d: Document, e: Document, hole: Path, lost: set<Path>) {
    forall path: Path, id: string :: Mentions(d, path, id) && !(hole <= path) && !Below(lost, path) ==> Mentions(e, path, id)
  }

  lemma GetConcat(v: Json, a: Path, b: Path)
    ensures Get(v, a + b) == if Get(v, a).None? then None else Get(Get(v, a).value, b)
    decreases |a|
  {
    if a == [] {
      assert a + b == b;
    } else {
      assert (a + b)[1..] == a[1..] + b && (a + b)[0] == a[0];
      if Child(v, a[0]).Some? { GetConcat(Child(v, a[0]).value, a[1..], b); }
    }
  }

  lemma AtHole(v: Json, hole: Path, next: Option<string>, path: Path, id: string)
    requires Get(v, hole) == Some(Text(next)) && hole <= path && Refers(v, path, id)
    ensures path == hole && next == Some(id)
  {
    var rest := path[|hole|..];
    assert path == hole + rest;
    GetConcat(v, hole, rest);
    if rest != [] { GetStep(Text(next), rest); }
  }

  /** The descriptors do not count as mentions. */
  lemma AssetsAside(d: Document, assets: seq<Descriptor>, path: Path, id: string)
    ensures Mentions(d.(assets := assets), path, id) <==> Mentions(d, path, id)
  {
    if path != [] && path[0] != ASSETS {
      var e := d.(assets := assets);
      GetStep(ToJson(d), path);
      GetStep(ToJson(e), path);
      assert Child(ToJson(e), path[0]) == Child(ToJson(d), path[0]);
    } else if path != [] {
      assert [ASSETS] <= path;
    }
  }

  lemma ReplacesWith(d: Document, e: Document, hole: Path, next: Option<string>, assets: seq<Descriptor>)
    requires TameOutside(ToJson(e), ToJson(d), hole) && Get(ToJson(e), hole) == Some(Text(next))
    requires hole != [] && hole[0] != ASSETS
    ensures Replaces(d, e.(assets := assets), hole, next)
  {
    var f := e.(assets := assets);
    if next.Some? {
      assert Mentions(e, hole, next.value);
      AssetsAside(e, assets, hole, next.value);
    }
    forall path: Path, id: string | Mentions(f, path, id) ensures if hole <= path then path == hole && next == Some(id) else Mentions(d, path, id) {
      AssetsAside(e, assets, path, id);
      if hole <= path { AtHole(ToJson(e), hole, next, path, id); }
    }
  }

  // ---- the cover --------------------------------------------------------------------------------------

  lemma TameSelf(v: Json)
    ensures Tame(v, v)
  {}

  lemma CoverTree(d: Document, cover: Option<string>)
    ensures ToJson(d.(cover := cover)) == Obj(TopFields(d)["metadata" := MetadataJson(d.(cover := cover))])
    ensures "metadata" in TopFields(d) && TopFields(d)["metadata"] == MetadataJson(d)
    ensures Get(ToJson(d), COVER) == Some(Text(d.cover))
  {
    var e := d.(cover := cover);
    assert TopFields(e) == TopFields(d)["metadata" := MetadataJson(e)];
    GetStep(ToJson(d), COVER);
    GetStep(MetadataJson(d), COVER[1..]);
    assert COVER[1..][0] == Field("coverAssetId");
  }

  lemma CoverReplaced(d: Document, cover: Option<string>, assets: seq<Descriptor>)
    ensures Replaces(d, d.(cover := cover, assets := assets), COVER, cover)
  {
    var e := d.(cover := cover);
    CoverTree(d, cover);
    CoverTree(e, cover);
    var f, g := d.metadata["coverAssetId" := Text(cover)], d.metadata["coverAssetId" := Text(d.cover)];
    forall k | k in f && k != "coverAssetId" ensures FieldTame(f, g, k) { TameSelf(f[k]); }
    FieldsTame(f, g, "coverAssetId");
    FieldInside(TopFields(d), "metadata", MetadataJson(e), [Field("coverAssetId")]);
    assert [Field("metadata")] + [Field("coverAssetId")] == COVER;
    ReplacesWith(d, e, COVER, cover, assets);
    assert e.(assets := assets) == d.(cover := cover, assets := assets);
  }

  /** Changing the cover back replaces nothing else, so changing it loses nothing else. */
  lemma CoverPreserves(d: Document, cover: Option<string>, assets: seq<Descriptor>)
    ensures Preserves(d, d.(cover := cover, assets := assets), COVER, {})
  {
    var e := d.(cover := cover, assets := assets);
    CoverReplaced(e, d.cover, d.assets);
    assert e.(cover := d.cover, assets := d.assets) == d;
  }

  // ---- a style ----------------------------------------------------------------------------------------

  predicate AtStyle(parts: seq<Part>, p: nat, i: nat, s: nat) {
    p < |parts| && i < |parts[p].items| && s < |parts[p].items[i].styles|
  }

  function StyleAt(parts: seq<Part>, p: nat, i: nat, s: nat): Style
    requires AtStyle(parts, p, i, s)
  { parts[p].items[i].styles[s] }

  function WithStyle(parts: seq<Part>, p: nat, i: nat, s: nat, style: Style): Part
    requires AtStyle(parts, p, i, s)
  {
    var item := parts[p].items[i];
    parts[p].(items := parts[p].items[i := item.(styles := item.styles[s := style])])
  }

  /** A place inside one style. */
  function StylePlace(p: nat, i: nat, s: nat, rel: Path): Path {
    [Field("parts")] + ([Index(p)] + ([Field("items")] + ([Index(i)] + ([Field("styles")] + ([Index(s)] + rel)))))
  }

  function StyleHole(p: nat, i: nat, s: nat): Path { StylePlace(p, i, s, [Field("assetId")]) }

  lemma StylesTree(item: Item, s: nat, style: Style, hole: Path)
    requires s < |item.styles| && TameOutside(StyleJson(style), StyleJson(item.styles[s]), hole)
    ensures TameOutside(ItemJson(item.(styles := item.styles[s := style])), ItemJson(item), [Field("styles")] + ([Index(s)] + hole))
  {
    var json := StylesJson(item.styles).items;
    var next := item.(styles := item.styles[s := style]);
    IndexInside(json, s, StyleJson(style), hole);
    assert StylesJson(next.styles) == Arr(json[s := StyleJson(style)]);
    var fields := item.fields["key" := Str(item.key)]["styles" := StylesJson(item.styles)];
    FieldInside(fields, "styles", StylesJson(next.styles), [Index(s)] + hole);
    assert ItemJson(next) == Obj(fields["styles" := StylesJson(next.styles)]);
  }

  lemma ItemsTree(part: Part, i: nat, item: Item, hole: Path)
    requires i < |part.items| && TameOutside(ItemJson(item), ItemJson(part.items[i]), hole)
    ensures TameOutside(PartJson(part.(items := part.items[i := item])), PartJson(part), [Field("items")] + ([Index(i)] + hole))
  {
    var json := ItemsJson(part.items).items;
    var next := part.(items := part.items[i := item]);
    IndexInside(json, i, ItemJson(item), hole);
    assert ItemsJson(next.items) == Arr(json[i := ItemJson(item)]);
    var fields := part.fields["key" := Str(part.key)]["items" := ItemsJson(part.items)];
    FieldInside(fields, "items", ItemsJson(next.items), [Index(i)] + hole);
    assert PartJson(next) == Obj(fields["items" := ItemsJson(next.items)]);
  }

  lemma PartsTree(d: Document, p: nat, part: Part, hole: Path)
    requires p < |d.parts| && TameOutside(PartJson(part), PartJson(d.parts[p]), hole)
    ensures TameOutside(ToJson(d.(parts := d.parts[p := part])), ToJson(d), [Field("parts")] + ([Index(p)] + hole))
  {
    var json := PartsJson(d.parts).items;
    var next := d.(parts := d.parts[p := part]);
    IndexInside(json, p, PartJson(part), hole);
    assert PartsJson(next.parts) == Arr(json[p := PartJson(part)]);
    FieldInside(TopFields(d), "parts", PartsJson(next.parts), [Index(p)] + hole);
    assert TopFields(next) == TopFields(d)["parts" := PartsJson(next.parts)];
  }

  /** The style keeps its texts apart from its asset: its transform has none, and its payload only loses some. */
  ghost predicate StyleTame(next: Style, style: Style) {
    && next.key == style.key && next.fields == style.fields && Tame(Obj(next.payload), Obj(style.payload))
    && (next.transform == style.transform || Textless(next.transform))
  }

  lemma StyleTree(next: Style, style: Style)
    requires StyleTame(next, style)
    ensures TameOutside(StyleJson(next), StyleJson(style), [Field("assetId")])
  {
    var f, g := StyleFields(next), StyleFields(style);
    forall k | k in f && k != "assetId" ensures FieldTame(f, g, k) {
      assert k in g;
      TameSelf(f[k]);
    }
    FieldsTame(f, g, "assetId");
  }

  lemma StyleTop(d: Document, p: nat, i: nat, s: nat)
    requires AtStyle(d.parts, p, i, s)
    ensures Get(ToJson(d), StyleHole(p, i, s)) == Some(Text(StyleAt(d.parts, p, i, s).assetId))
  {
    var path := StyleHole(p, i, s);
    GetStep(ToJson(d), path);
    assert Child(ToJson(d), path[0]) == Some(PartsJson(d.parts));
    PartsTop(d.parts, p, i, s);
    assert path[1..] == [Index(p)] + ([Field("items")] + ([Index(i)] + ([Field("styles")] + ([Index(s)] + [Field("assetId")]))));
  }

  lemma PartsTop(parts: seq<Part>, p: nat, i: nat, s: nat)
    requires AtStyle(parts, p, i, s)
    ensures Get(PartsJson(parts), [Index(p)] + ([Field("items")] + ([Index(i)] + ([Field("styles")] + ([Index(s)] + [Field("assetId")])))))
            == Some(Text(StyleAt(parts, p, i, s).assetId))
  {
    var deep := [Field("styles")] + ([Index(s)] + [Field("assetId")]);
    ItemTop(parts[p].items[i], s);
    GetDown(ItemsJson(parts[p].items), Index(i), deep);
    GetDown(PartJson(parts[p]), Field("items"), [Index(i)] + deep);
    GetDown(PartsJson(parts), Index(p), [Field("items")] + ([Index(i)] + deep));
  }

  lemma GetDown(v: Json, at: Segment, rest: Path)
    ensures Get(v, [at] + rest) == if Child(v, at).None? then None else Get(Child(v, at).value, rest)
  {
    GetStep(v, [at] + rest);
    assert ([at] + rest)[1..] == rest;
  }

  lemma ItemTop(item: Item, s: nat)
    requires s < |item.styles|
    ensures Get(ItemJson(item), [Field("styles")] + ([Index(s)] + [Field("assetId")])) == Some(Text(item.styles[s].assetId))
  {
    GetDown(StyleJson(item.styles[s]), Field("assetId"), []);
    assert [Field("assetId")] + [] == [Field("assetId")];
    GetDown(StylesJson(item.styles), Index(s), [Field("assetId")]);
    GetDown(ItemJson(item), Field("styles"), [Index(s)] + [Field("assetId")]);
  }

  /** A style whose texts outside a place were in the old one: so are the document's. */
  lemma StyleSwap(d: Document, p: nat, i: nat, s: nat, style: Style, hole: Path)
    requires AtStyle(d.parts, p, i, s) && TameOutside(StyleJson(style), StyleJson(StyleAt(d.parts, p, i, s)), hole)
    ensures TameOutside(ToJson(SetStyle(d, p, i, s, style)), ToJson(d), StylePlace(p, i, s, hole))
  {
    var part, item := d.parts[p], d.parts[p].items[i];
    StylesTree(item, s, style, hole);
    ItemsTree(part, i, item.(styles := item.styles[s := style]), [Field("styles")] + ([Index(s)] + hole));
    PartsTree(d, p, WithStyle(d.parts, p, i, s, style), [Field("items")] + ([Index(i)] + ([Field("styles")] + ([Index(s)] + hole))));
  }

  function SetStyle(d: Document, p: nat, i: nat, s: nat, style: Style): (e: Document)
    requires AtStyle(d.parts, p, i, s)
    ensures AtStyle(e.parts, p, i, s) && StyleAt(e.parts, p, i, s) == style
  { d.(parts := d.parts[p := WithStyle(d.parts, p, i, s, style)]) }

  lemma SetTwice(d: Document, p: nat, i: nat, s: nat, a: Style, b: Style)
    requires AtStyle(d.parts, p, i, s)
    ensures SetStyle(SetStyle(d, p, i, s, a), p, i, s, b) == SetStyle(d, p, i, s, b)
    ensures SetStyle(d, p, i, s, StyleAt(d.parts, p, i, s)) == d
  {
    var items, styles := d.parts[p].items, d.parts[p].items[i].styles;
    assert styles[s := a][s := b] == styles[s := b] && styles[s := styles[s]] == styles;
    assert items[i := items[i].(styles := styles[s := a])][i := items[i].(styles := styles[s := b])]
        == items[i := items[i].(styles := styles[s := b])];
    assert items[i := items[i]] == items && d.parts[p := d.parts[p]] == d.parts;
    assert SetStyle(SetStyle(d, p, i, s, a), p, i, s, b).parts == SetStyle(d, p, i, s, b).parts;
  }

  /** The texts of one style that survive its change survive in the document. */
  lemma StyleStep(d: Document, p: nat, i: nat, s: nat, a: Style, b: Style, hole: Path)
    requires AtStyle(d.parts, p, i, s) && TameOutside(StyleJson(a), StyleJson(b), hole)
    ensures TameOutside(ToJson(SetStyle(d, p, i, s, a)), ToJson(SetStyle(d, p, i, s, b)), StylePlace(p, i, s, hole))
  {
    StyleSwap(SetStyle(d, p, i, s, b), p, i, s, a, hole);
    SetTwice(d, p, i, s, b, a);
  }

  lemma StyleReplaced(d: Document, p: nat, i: nat, s: nat, style: Style, assets: seq<Descriptor>)
    requires AtStyle(d.parts, p, i, s) && StyleTame(style, StyleAt(d.parts, p, i, s))
    ensures Replaces(d, d.(parts := d.parts[p := WithStyle(d.parts, p, i, s, style)], assets := assets), StyleHole(p, i, s), style.assetId)
  {
    StyleTree(style, StyleAt(d.parts, p, i, s));
    StyleSwap(d, p, i, s, style, [Field("assetId")]);
    var e := SetStyle(d, p, i, s, style);
    StyleTop(e, p, i, s);
    ReplacesWith(d, e, StyleHole(p, i, s), style.assetId, assets);
  }

  // ---- what one style loses ---------------------------------------------------------------------------

  /** Setting one field of a style loses no text elsewhere. */
  lemma FieldSet(a: Style, b: Style, name: string)
    requires forall k :: k in StyleFields(a) && k != name ==> k in StyleFields(b) && StyleFields(b)[k] == StyleFields(a)[k]
    ensures TameOutside(StyleJson(a), StyleJson(b), [Field(name)])
  {
    var f, g := StyleFields(a), StyleFields(b);
    forall k | k in f && k != name ensures FieldTame(f, g, k) { TameSelf(f[k]); }
    FieldsTame(f, g, name);
  }

  lemma PayloadSet(a: Style, b: Style, hole: Path)
    requires b == a.(payload := b.payload) && TameOutside(Obj(a.payload), Obj(b.payload), hole)
    ensures TameOutside(StyleJson(a), StyleJson(b), [Field("payload")] + hole)
  {
    FieldInside(StyleFields(b), "payload", Obj(a.payload), hole);
    assert StyleFields(b)["payload" := Obj(a.payload)] == StyleFields(a);
  }

  /** A style changed in its payload below gone, its transform and its asset loses only what stood there. */
  lemma StyleLoses(d: Document, p: nat, i: nat, s: nat, next: Style, gone: Path, lost: set<Path>, assets: seq<Descriptor>)
    requires AtStyle(d.parts, p, i, s)
    requires next.key == StyleAt(d.parts, p, i, s).key && next.fields == StyleAt(d.parts, p, i, s).fields
    requires TameOutside(Obj(StyleAt(d.parts, p, i, s).payload), Obj(next.payload), gone)
    requires StylePlace(p, i, s, [Field("payload")] + gone) in lost
    requires next.transform == StyleAt(d.parts, p, i, s).transform || StylePlace(p, i, s, [Field("transform")]) in lost
    ensures Preserves(d, SetStyle(d, p, i, s, next).(assets := assets), StyleHole(p, i, s), lost)
  {
    var was := StyleAt(d.parts, p, i, s);
    var filled := was.(payload := next.payload);
    var fitted := filled.(transform := next.transform);
    SetTwice(d, p, i, s, was, was);
    PayloadSet(was, filled, gone);
    StyleStep(d, p, i, s, was, filled, [Field("payload")] + gone);
    FieldSet(filled, fitted, "transform");
    StyleStep(d, p, i, s, filled, fitted, [Field("transform")]);
    FieldSet(fitted, next, "assetId");
    StyleStep(d, p, i, s, fitted, next, [Field("assetId")]);
    var e := SetStyle(d, p, i, s, next);
    forall path: Path, id: string | Mentions(d, path, id) && !(StyleHole(p, i, s) <= path) && !Below(lost, path)
      ensures Mentions(e.(assets := assets), path, id)
    {
      assert Refers(ToJson(SetStyle(d, p, i, s, filled)), path, id);
      assert Refers(ToJson(SetStyle(d, p, i, s, fitted)), path, id);
      AssetsAside(e, assets, path, id);
    }
  }

  // ---- descriptors and durable rows -------------------------------------------------------------------

  lemma UpsertedLookup<T>(key: T -> string, s: seq<T>, x: T)
    requires Distinct(key, s)
    ensures Distinct(key, Upserted(key, s, x))
    ensures forall k :: Lookup(key, Upserted(key, s, x), k) == if k == key(x) then Some(x) else Lookup(key, s, k)
  {
    var i := Find(key, s, key(x));
    if i < |s| { DistinctUpdate(key, s, i, x); } else { DistinctAppend(key, s, x); }
    forall k ensures Lookup(key, Upserted(key, s, x), k) == if k == key(x) then Some(x) else Lookup(key, s, k) {
      if i < |s| { LookupUpdate(key, s, i, x, k); } else { LookupAppend(key, s, x, k); }
    }
  }

  lemma RemovedLookup<T>(key: T -> string, s: seq<T>, i: nat)
    requires Distinct(key, s) && i < |s|
    ensures Distinct(key, s[..i] + s[i + 1..])
    ensures forall k :: Lookup(key, s[..i] + s[i + 1..], k) == if k == key(s[i]) then None else Lookup(key, s, k)
  {
    DistinctRemove(key, s, i);
    forall k ensures Lookup(key, s[..i] + s[i + 1..], k) == if k == key(s[i]) then None else Lookup(key, s, k) {
      LookupRemove(key, s, i, k);
    }
  }

  lemma AgreeUpsert(assets: seq<Descriptor>, s: Store, d: Descriptor, r: Row)
    requires Agree(assets, s) && Matches(d, r)
    ensures Agree(Upserted(DescriptorKey, assets, d), s[d.id := r])
  {
    UpsertedLookup(DescriptorKey, assets, d);
  }

  lemma AgreeRemove(assets: seq<Descriptor>, s: Store, i: nat)
    requires Agree(assets, s) && i < |assets|
    ensures Agree(assets[..i] + assets[i + 1..], s - {assets[i].id})
  {
    RemovedLookup(DescriptorKey, assets, i);
  }
}
