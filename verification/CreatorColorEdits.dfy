/** Every Smart Color edit keeps the document's color references closed, and no run of edits touches a locked style's colors. */
module CreatorColorEdits {
  import opened Results
  import opened ColorText
  import opened Sequences
  import opened Keyed
  import opened CreatorColors
  import opened CreatorColorRules
  import SafeText

  // ---- rows the edits make ----------------------------------------------------------------------------

  lemma LabelAgain(v: Value)
    requires Label(v).Some?
    ensures Label(Text(Label(v).value)) == Label(v)
  {}

  lemma PlainSwatchOk(key: string, text: string, rgba: string)
    requires SafeText.IsSafeKey(key, 128) && Label(Text(text)).Some? && IsRgba(rgba)
    ensures SwatchOk(Swatch(key, text, rgba, Gradient(rgba)))
  {}

  lemma DefaultText()
    ensures Label(Text("Default")).Some? && SafeText.IsSafeKey("default", 128)
  {
    TrimDone("Default");
    SafeText.AsciiLength("Default");
  }

  lemma PresetColors()
    ensures IsRgba(VIOLET) && IsRgba(PINK)
  {}

  lemma VioletOk()
    ensures SwatchOk(Swatch("default", "Default", VIOLET, Gradient(VIOLET)))
  {
    DefaultText();
    PresetColors();
    PlainSwatchOk("default", "Default", VIOLET);
  }

  lemma PinkOk(key: string, text: string)
    requires SafeText.IsSafeKey(key, 128) && Label(Text(text)).Some?
    ensures SwatchOk(NewSwatch(key, text))
  {
    PresetColors();
    PlainSwatchOk(key, text, PINK);
  }

  lemma NewChannelOk(key: string, text: string)
    requires SafeText.IsSafeKey(key, 128) && Trim(text) != "" && SafeText.Utf8Length(text) <= 256
    ensures ChannelOk(NewChannel(key, text))
  {
    VioletOk();
    OneSwatchOk(key, text, Swatch("default", "Default", VIOLET, Gradient(VIOLET)));
  }

  lemma OneSwatchOk(key: string, text: string, s: Swatch)
    requires SafeText.IsSafeKey(key, 128) && Trim(text) != "" && SafeText.Utf8Length(text) <= 256 && SwatchOk(s)
    ensures ChannelOk(Channel(key, text, s.key, [s]))
  {
  }

  lemma AppendSwatchOk(c: Channel, s: Swatch)
    requires ChannelOk(c) && SwatchOk(s) && !HasSwatch(c, s.key)
    ensures ChannelOk(c.(swatches := c.swatches + [s])) && Offers(c.(swatches := c.swatches + [s]), c)
  {
    var next := c.(swatches := c.swatches + [s]);
    DistinctAppend(SwatchKey, c.swatches, s);
    forall k | HasSwatch(c, k) ensures HasSwatch(next, k) {
      assert next.swatches[Find(SwatchKey, c.swatches, k)] == c.swatches[Find(SwatchKey, c.swatches, k)];
    }
  }

  lemma UpdateSwatchOk(c: Channel, j: nat, s: Swatch)
    requires ChannelOk(c) && j < |c.swatches| && SwatchOk(s) && s.key == c.swatches[j].key
    ensures ChannelOk(c.(swatches := c.swatches[j := s])) && Offers(c.(swatches := c.swatches[j := s]), c)
  {
    var next := c.(swatches := c.swatches[j := s]);
    DistinctUpdate(SwatchKey, c.swatches, j, s);
    forall k | HasSwatch(c, k) ensures HasSwatch(next, k) {
      assert SwatchKey(next.swatches[Find(SwatchKey, c.swatches, k)]) == SwatchKey(c.swatches[Find(SwatchKey, c.swatches, k)]);
    }
  }

  lemma EditMiddleOk(s: Swatch, color: string)
    requires SwatchOk(s) && IsRgba(color)
    ensures SwatchOk(EditMiddle(s, color)) && EditMiddle(s, color).key == s.key
  {
    var stops := FullStops(s);
    assert forall k :: 0 <= k < |stops| ==> StopOk(stops[k]);
  }

  lemma StopEditOk(s: Swatch, k: nat, color: string)
    requires SwatchOk(s) && IsRgba(color) && k < |FullStops(s)|
    ensures SwatchOk(s.(stops := FullStops(s)[k := FullStops(s)[k].(rgba := color)]))
  {
    var stops := FullStops(s);
    assert forall j :: 0 <= j < |stops| ==> StopOk(stops[j]);
  }

  lemma EditedSwatchOk(s: Swatch, e: SwatchEdit)
    requires SwatchOk(s) && !e.DeleteSwatch? && EditedSwatch(s, e).Ok?
    ensures SwatchOk(EditedSwatch(s, e).value) && EditedSwatch(s, e).value.key == s.key
  {
    match e
    case SwatchName(value) => LabelAgain(value);
    case SwatchHint(value) =>
    case SwatchMid(value) =>
      EditMiddleOk(s, Rgba(value, if |s.stops| >= 3 then s.stops[Middle(|s.stops|)].rgba else s.rgba).value);
    case SwatchStop(index, value) =>
      StopEditOk(s, index.value, Rgba(value, FullStops(s)[index.value].rgba).value);
  }

  lemma InSwatches(c: Channel, k: string)
    ensures HasSwatch(c, k) <==> exists s :: s in c.swatches && s.key == k
  {
    if s :| s in c.swatches && s.key == k {
      var j :| 0 <= j < |c.swatches| && c.swatches[j] == s;
      assert SwatchKey(c.swatches[j]) == k;
    }
    if HasSwatch(c, k) { assert c.swatches[Find(SwatchKey, c.swatches, k)] in c.swatches; }
  }

  lemma KeptSwatches(c: Channel, swatch: string)
    requires ChannelOk(c)
    ensures var next := SwatchesWithout(c, swatch);
      && Distinct(SwatchKey, next.swatches) && (forall k :: 0 <= k < |next.swatches| ==> SwatchOk(next.swatches[k]))
      && forall k :: HasSwatch(next, k) <==> HasSwatch(c, k) && k != swatch
  {
    var next := SwatchesWithout(c, swatch);
    DistinctKeep(SwatchKey, (s: Swatch) => s.key != swatch, c.swatches);
    forall k ensures HasSwatch(next, k) <==> HasSwatch(c, k) && k != swatch {
      InSwatches(c, k);
      InSwatches(next, k);
    }
    forall k | 0 <= k < |next.swatches| ensures SwatchOk(next.swatches[k]) {
      assert next.swatches[k] in next.swatches && next.swatches[k] in c.swatches;
    }
  }

  /** A deleted swatch leaves the others, and a default among them. */
  lemma SwatchesWithoutOk(c: Channel, swatch: string)
    requires ChannelOk(c) && HasSwatch(c, swatch) && |c.swatches| > 1
    ensures ChannelOk(SwatchesWithout(c, swatch))
    ensures forall k :: HasSwatch(SwatchesWithout(c, swatch), k) <==> HasSwatch(c, k) && k != swatch
  {
    KeptSwatches(c, swatch);
    SomeKept(c, swatch);
    DefaultKept(c, swatch);
  }

  lemma SomeKept(c: Channel, swatch: string)
    requires ChannelOk(c) && HasSwatch(c, swatch) && |c.swatches| > 1
    ensures SwatchesWithout(c, swatch).swatches != []
  {
    KeptSwatches(c, swatch);
    var j := Find(SwatchKey, c.swatches, swatch);
    var other := c.swatches[if j == 0 then 1 else 0];
    assert SwatchKey(other) != SwatchKey(c.swatches[j]);
    InSwatches(c, other.key);
    assert HasSwatch(SwatchesWithout(c, swatch), other.key);
  }

  lemma DefaultKept(c: Channel, swatch: string)
    requires HasSwatch(c, c.defaultSwatchKey) && SwatchesWithout(c, swatch).swatches != []
    requires forall k :: HasSwatch(c, k) && k != swatch ==> HasSwatch(SwatchesWithout(c, swatch), k)
    ensures HasSwatch(SwatchesWithout(c, swatch), SwatchesWithout(c, swatch).defaultSwatchKey)
  {
    var next := SwatchesWithout(c, swatch);
    if c.defaultSwatchKey == swatch { assert SwatchKey(next.swatches[0]) == next.defaultSwatchKey; }
  }

  // ---- each edit keeps references closed --------------------------------------------------------------

  lemma {:induction false} RowsCoverChannels(colors: seq<Channel>)
    requires ColorsOk(colors)
    ensures |colors| <= ColorRows(colors) && forall i :: 0 <= i < |colors| ==> |colors[i].swatches| <= ColorRows(colors)
  {
    if colors != [] {
      assert ChannelOk(colors[0]);
      RowsCoverChannels(colors[1..]);
      forall i | 0 <= i < |colors| ensures |colors[i].swatches| <= ColorRows(colors) {
        if i > 0 { assert colors[i] == colors[1..][i - 1]; }
      }
    }
  }

  lemma AddChannelCloses(d: Document, value: Value)
    requires Closed(d) && ColorRows(d.colors) <= 5000 && ApplyAddChannel(d, value).Ok?
    ensures Closed(ApplyAddChannel(d, value).value.document)
  {
    AddedIs(d, value);
    AddedOk(d, value);
    AppendCloses(d, AddedChannel(d, value));
  }

  /** The row that add-channel appends. */
  function AddedChannel(d: Document, value: Value): Channel
    requires NameOr(value, |d.colors| + 1).Some?
  { NewChannel(UniqueKey(ChannelKey, d.colors, |d.colors| + 1), NameOr(value, |d.colors| + 1).value) }

  lemma AddedIs(d: Document, value: Value)
    requires ApplyAddChannel(d, value).Ok?
    ensures NameOr(value, |d.colors| + 1).Some?
    ensures var c := AddedChannel(d, value);
      ApplyAddChannel(d, value).value.document
      == d.(colors := d.colors + [c], recipe := SetRecipeColor(d.recipe, c.key, c.defaultSwatchKey))
  {}

  lemma AddedOk(d: Document, value: Value)
    requires Closed(d) && ColorRows(d.colors) <= 5000 && NameOr(value, |d.colors| + 1).Some?
    ensures ChannelOk(AddedChannel(d, value)) && !HasChannel(d.colors, AddedChannel(d, value).key)
  {
    var text := AddedName(value, |d.colors| + 1);
    RowsCoverChannels(d.colors);
    UniqueKeyIsFresh(ChannelKey, d.colors, |d.colors| + 1);
    NewChannelOk(UniqueKey(ChannelKey, d.colors, |d.colors| + 1), text);
  }

  lemma AddedName(value: Value, n: nat) returns (text: string)
    requires NameOr(value, n).Some?
    ensures NameOr(value, n) == Some(text) && Trim(text) != "" && SafeText.Utf8Length(text) <= 256
  {
    text := NameOr(value, n).value;
    TrimDone(text);
  }

  lemma AppendCloses(d: Document, c: Channel)
    requires Closed(d) && ChannelOk(c) && !HasChannel(d.colors, c.key)
    ensures Closed(d.(colors := d.colors + [c], recipe := SetRecipeColor(d.recipe, c.key, c.defaultSwatchKey)))
  {
    AppendExtends(d.colors, c);
    ExtendsKeeps(d.colors, d.parts, d.recipe, d.colors + [c]);
    SetRecipeKeeps(d.colors + [c], d.recipe, c.key, c.defaultSwatchKey);
  }

  /** A channel changed in place, offering all it did. */
  lemma UpdateCloses(d: Document, k: nat, c: Channel)
    requires Closed(d) && k < |d.colors| && c.key == d.colors[k].key && ChannelOk(c) && Offers(c, d.colors[k])
    ensures Closed(d.(colors := d.colors[k := c]))
  {
    UpdateExtends(d.colors, k, c);
    ExtendsKeeps(d.colors, d.parts, d.recipe, d.colors[k := c]);
  }

  lemma AddSwatchCloses(d: Document, k: nat, value: Value)
    requires Closed(d) && k < |d.colors| && ColorRows(d.colors) <= 5000 && ApplyChannel(d, k, AddSwatch(value)).Ok?
    ensures Closed(ApplyChannel(d, k, AddSwatch(value)).value)
  {
    RowsCoverChannels(d.colors);
    var channel := d.colors[k];
    var key, text := UniqueKey(SwatchKey, channel.swatches, |channel.swatches| + 1), NameOr(value, |channel.swatches| + 1).value;
    UniqueKeyIsFresh(SwatchKey, channel.swatches, |channel.swatches| + 1);
    LabelAgain(if value.Missing? then Text("Color " + FreshKeys.Decimal(|channel.swatches| + 1)) else value);
    PinkOk(key, text);
    var swatch := NewSwatch(key, text);
    AppendSwatchOk(channel, swatch);
    UpdateCloses(d, k, channel.(swatches := channel.swatches + [swatch]));
  }

  lemma ChannelDefaultCloses(d: Document, k: nat, value: Value)
    requires Closed(d) && k < |d.colors| && ApplyChannel(d, k, ChannelDefault(value)).Ok?
    ensures Closed(ApplyChannel(d, k, ChannelDefault(value)).value)
  {
    DefaultCloses(d, k, value.text);
  }

  lemma DefaultOk(c: Channel, swatch: string)
    requires ChannelOk(c) && HasSwatch(c, swatch)
    ensures ChannelOk(c.(defaultSwatchKey := swatch)) && Offers(c.(defaultSwatchKey := swatch), c)
  {
    assert forall s :: HasSwatch(c.(defaultSwatchKey := swatch), s) == HasSwatch(c, s);
  }

  lemma DefaultCloses(d: Document, k: nat, swatch: string)
    requires Closed(d) && k < |d.colors| && HasSwatch(d.colors[k], swatch)
    ensures var c := d.colors[k].(defaultSwatchKey := swatch);
      Closed(d.(colors := d.colors[k := c], recipe := SetRecipeColor(d.recipe, c.key, swatch)))
  {
    var c := d.colors[k].(defaultSwatchKey := swatch);
    DefaultOk(d.colors[k], swatch);
    UpdateCloses(d, k, c);
    LookupUpdate(ChannelKey, d.colors, k, c, c.key);
    SetRecipeKeeps(d.colors[k := c], d.recipe, c.key, swatch);
  }

  lemma UnlinkOk(colors: seq<Channel>, k: nat, s: Style)
    requires ColorsOk(colors) && k < |colors| && StyleOk(colors, s)
    ensures StyleOk(colors[..k] + colors[k + 1..], Unlink(colors[k].key, s))
  {
    if s.colorChannelKey.Some? { LookupRemove(ChannelKey, colors, k, s.colorChannelKey.value); }
  }

  lemma DeletedStyles(d: Document, k: nat)
    requires Closed(d) && k < |d.colors|
    ensures StylesOk(ApplyDeleteChannel(d, k).colors, ApplyDeleteChannel(d, k).parts)
  {
    var key, colors := d.colors[k].key, d.colors[..k] + d.colors[k + 1..];
    forall s | StyleOk(d.colors, s) ensures StyleOk(colors, Unlink(key, s)) { UnlinkOk(d.colors, k, s); }
    StylesCarry(d.colors, d.parts, colors, (s: Style) => Unlink(key, s));
  }

  lemma DeletedChoices(d: Document, k: nat)
    requires Closed(d) && k < |d.colors|
    ensures RecipeOk(ApplyDeleteChannel(d, k).colors, ApplyDeleteChannel(d, k).recipe)
  {
    var key, colors := d.colors[k].key, d.colors[..k] + d.colors[k + 1..];
    var recipe := Keep((c: Choice) => c.channelKey != key, d.recipe);
    DistinctKeep(ChoiceKey, (c: Choice) => c.channelKey != key, d.recipe);
    forall j | 0 <= j < |recipe| ensures ChoiceOk(colors, recipe[j]) {
      assert recipe[j] in recipe && recipe[j] in d.recipe;
      LookupRemove(ChannelKey, d.colors, k, recipe[j].channelKey);
    }
  }

  lemma DeleteChannelCloses(d: Document, k: nat)
    requires Closed(d) && k < |d.colors|
    ensures Closed(ApplyDeleteChannel(d, k))
  {
    DistinctRemove(ChannelKey, d.colors, k);
    DeletedStyles(d, k);
    DeletedChoices(d, k);
  }

  lemma ResolvesUpdate(colors: seq<Channel>, k: nat, c: Channel, channel: string, swatch: string)
    requires ColorsOk(colors) && k < |colors| && c.key == colors[k].key
    ensures Resolves(colors[k := c], channel, swatch) <==> if channel == c.key then HasSwatch(c, swatch) else Resolves(colors, channel, swatch)
    ensures channel == c.key ==> (Resolves(colors, channel, swatch) <==> HasSwatch(colors[k], swatch))
  {
    FindOnly(ChannelKey, colors, k);
    LookupUpdate(ChannelKey, colors, k, c, channel);
  }

  lemma RelinkStyleOk(colors: seq<Channel>, k: nat, c: Channel, swatch: string, s: Style)
    requires ColorsOk(colors) && k < |colors| && c.key == colors[k].key && StyleOk(colors, s)
    requires HasSwatch(c, c.defaultSwatchKey) && forall x :: HasSwatch(colors[k], x) && x != swatch ==> HasSwatch(c, x)
    ensures StyleOk(colors[k := c], Relink(c.key, swatch, c.defaultSwatchKey, s))
  {
    if s.colorChannelKey.Some? {
      ResolvesUpdate(colors, k, c, s.colorChannelKey.value, s.defaultSwatchKey.value);
      ResolvesUpdate(colors, k, c, s.colorChannelKey.value, c.defaultSwatchKey);
    }
  }

  lemma RechooseOk(colors: seq<Channel>, k: nat, c: Channel, swatch: string, x: Choice)
    requires ColorsOk(colors) && k < |colors| && c.key == colors[k].key && ChoiceOk(colors, x)
    requires HasSwatch(c, c.defaultSwatchKey) && forall y :: HasSwatch(colors[k], y) && y != swatch ==> HasSwatch(c, y)
    ensures ChoiceOk(colors[k := c], Rechoose(c.key, swatch, c.defaultSwatchKey, x))
  {
    ResolvesUpdate(colors, k, c, x.channelKey, x.swatchKey);
    ResolvesUpdate(colors, k, c, x.channelKey, c.defaultSwatchKey);
  }

  lemma RelinkOk(d: Document, k: nat, swatch: string)
    requires Closed(d) && k < |d.colors| && HasSwatch(d.colors[k], swatch) && |d.colors[k].swatches| > 1
    ensures var c := SwatchesWithout(d.colors[k], swatch);
      && c.key == d.colors[k].key && ChannelOk(c)
      && (forall s :: StyleOk(d.colors, s) ==> StyleOk(d.colors[k := c], Relink(c.key, swatch, c.defaultSwatchKey, s)))
      && (forall x :: ChoiceOk(d.colors, x) ==> ChoiceOk(d.colors[k := c], Rechoose(c.key, swatch, c.defaultSwatchKey, x)))
  {
    var c := SwatchesWithout(d.colors[k], swatch);
    SwatchesWithoutOk(d.colors[k], swatch);
    forall s | StyleOk(d.colors, s) ensures StyleOk(d.colors[k := c], Relink(c.key, swatch, c.defaultSwatchKey, s)) {
      RelinkStyleOk(d.colors, k, c, swatch, s);
    }
    forall x | ChoiceOk(d.colors, x) ensures ChoiceOk(d.colors[k := c], Rechoose(c.key, swatch, c.defaultSwatchKey, x)) {
      RechooseOk(d.colors, k, c, swatch, x);
    }
  }

  lemma RecipeCarries(colors: seq<Channel>, recipe: seq<Choice>, colors': seq<Channel>, f: Choice -> Choice)
    requires RecipeOk(colors, recipe) && forall x :: ChoiceOk(colors, x) ==> ChoiceOk(colors', f(x)) && f(x).channelKey == x.channelKey
    ensures RecipeOk(colors', Map(f, recipe))
  {
    DistinctMap(ChoiceKey, f, recipe);
  }

  lemma DeleteSwatchCloses(d: Document, k: nat, swatch: string)
    requires Closed(d) && k < |d.colors| && HasSwatch(d.colors[k], swatch) && |d.colors[k].swatches| > 1
    ensures Closed(ApplyDeleteSwatch(d, k, swatch))
  {
    var c := SwatchesWithout(d.colors[k], swatch);
    RelinkOk(d, k, swatch);
    DistinctUpdate(ChannelKey, d.colors, k, c);
    StylesCarry(d.colors, d.parts, d.colors[k := c], (s: Style) => Relink(c.key, swatch, c.defaultSwatchKey, s));
    RecipeCarries(d.colors, d.recipe, d.colors[k := c], (x: Choice) => Rechoose(c.key, swatch, c.defaultSwatchKey, x));
  }

  /** What a link or a recipe choice of the deleted swatch becomes. */
  function Repaired(c: Channel, swatch: string, s: Style): Style {
    if s.colorChannelKey == Some(c.key) && s.defaultSwatchKey == Some(swatch) then s.(defaultSwatchKey := Some(c.defaultSwatchKey)) else s
  }

  /** A deleted swatch is gone; its links and its recipe choice fall back to the surviving default, which is the old
      one, or the first swatch left when the default itself was deleted; nothing else is relinked. */
  lemma DeleteSwatchRepairs(d: Document, k: nat, swatch: string)
    requires Closed(d) && k < |d.colors| && HasSwatch(d.colors[k], swatch) && |d.colors[k].swatches| > 1
    ensures var e := ApplyDeleteSwatch(d, k, swatch);
      var was, c := d.colors[k], e.colors[k];
      && (forall y :: HasSwatch(c, y) <==> HasSwatch(was, y) && y != swatch)
      && HasSwatch(c, c.defaultSwatchKey)
      && c.defaultSwatchKey == (if was.defaultSwatchKey == swatch then c.swatches[0].key else was.defaultSwatchKey)
      && (forall p, i, s :: AtStyle(d.parts, p, i, s) ==>
            AtStyle(e.parts, p, i, s) && StyleAt(e.parts, p, i, s) == Repaired(c, swatch, StyleAt(d.parts, p, i, s)))
      && RecipeColor(e.recipe, c.key) == if RecipeColor(d.recipe, c.key) == Some(swatch) then Some(c.defaultSwatchKey)
                                         else RecipeColor(d.recipe, c.key)
  {
    var e, was := ApplyDeleteSwatch(d, k, swatch), d.colors[k];
    var c := SwatchesWithout(was, swatch);
    SwatchesWithoutOk(was, swatch);
    SomeKept(was, swatch);
    forall p, i, s | AtStyle(d.parts, p, i, s)
      ensures AtStyle(e.parts, p, i, s) && StyleAt(e.parts, p, i, s) == Repaired(c, swatch, StyleAt(d.parts, p, i, s))
    { MapStylesAt((x: Style) => Relink(was.key, swatch, c.defaultSwatchKey, x), d.parts, p, i, s); }
    RepairedRecipe(d.recipe, was.key, swatch, c.defaultSwatchKey);
  }

  lemma RepairedRecipe(recipe: seq<Choice>, channel: string, swatch: string, fallback: string)
    ensures RecipeColor(Map((c: Choice) => Rechoose(channel, swatch, fallback, c), recipe), channel)
         == if RecipeColor(recipe, channel) == Some(swatch) then Some(fallback) else RecipeColor(recipe, channel)
  {
    var next := Map((c: Choice) => Rechoose(channel, swatch, fallback, c), recipe);
    assert forall j :: 0 <= j < |recipe| ==> ChoiceKey(next[j]) == ChoiceKey(recipe[j]);
    FindIs(ChoiceKey, next, channel, Find(ChoiceKey, recipe, channel));
  }

  lemma SwatchEditCloses(d: Document, k: nat, swatchKey: string, e: SwatchEdit)
    requires Closed(d) && k < |d.colors| && ApplySwatch(d, k, swatchKey, e).Ok?
    ensures Closed(ApplySwatch(d, k, swatchKey, e).value)
  {
    var channel := d.colors[k];
    var j := Find(SwatchKey, channel.swatches, swatchKey);
    if e.DeleteSwatch? {
      DeleteSwatchCloses(d, k, swatchKey);
    } else {
      var s := EditedSwatch(channel.swatches[j], e).value;
      EditedSwatchOk(channel.swatches[j], e);
      UpdateSwatchOk(channel, j, s);
      UpdateCloses(d, k, channel.(swatches := channel.swatches[j := s]));
    }
  }

  lemma ChannelEditCloses(d: Document, k: nat, e: ChannelEdit)
    requires Closed(d) && k < |d.colors| && ColorRows(d.colors) <= 5000 && ApplyChannel(d, k, e).Ok?
    ensures Closed(ApplyChannel(d, k, e).value)
  {
    match e
    case DeleteChannel => DeleteChannelCloses(d, k);
    case ChannelName(value) =>
      var c := d.colors[k].(text := Label(value).value);
      assert forall s :: HasSwatch(d.colors[k], s) ==> HasSwatch(c, s);
      UpdateCloses(d, k, c);
    case AddSwatch(value) => AddSwatchCloses(d, k, value);
    case ChannelDefault(value) => ChannelDefaultCloses(d, k, value);
    case EditSwatch(swatchKey, edit) => SwatchEditCloses(d, k, swatchKey, edit);
  }

  lemma SetStyleAt(parts: seq<Part>, p: nat, i: nat, s: nat, style: Style, q: int, j: int, t: int)
    requires AtStyle(parts, p, i, s)
    ensures AtStyle(SetStyle(parts, p, i, s, style), q, j, t) == AtStyle(parts, q, j, t)
    ensures AtStyle(parts, q, j, t) ==>
      StyleAt(SetStyle(parts, p, i, s, style), q, j, t) == if (q, j, t) == (p, i, s) then style else StyleAt(parts, q, j, t)
  {}

  lemma LinkedOk(colors: seq<Channel>, style: Style, value: string)
    requires ColorsOk(colors) && StyleOk(colors, style) && (value == "" || HasChannel(colors, value))
    ensures StyleOk(colors, Linked(colors, style, value))
  {
    assert forall k :: 0 <= k < |colors| ==> ChannelOk(colors[k]) && colors[k].key != "";
  }

  lemma AssignCloses(d: Document, a: Action)
    requires Closed(d) && a.AssignStyle? && ApplyAssign(d, a).Ok?
    ensures Closed(ApplyAssign(d, a).value.document)
  {
    var p := Find(PartKey, d.parts, a.partKey);
    var i := Find(ItemKey, d.parts[p].items, a.itemKey);
    var s := Find(StyleKey, d.parts[p].items[i].styles, a.styleKey);
    var style := StyleAt(d.parts, p, i, s);
    var next := SetStyle(d.parts, p, i, s, Linked(d.colors, style, a.value.text));
    LinkedOk(d.colors, style, a.value.text);
    forall q, j, t | AtStyle(next, q, j, t) ensures StyleOk(d.colors, StyleAt(next, q, j, t)) {
      SetStyleAt(d.parts, p, i, s, Linked(d.colors, style, a.value.text), q, j, t);
    }
  }

  lemma EditCloses(d: Document, a: Action)
    requires Closed(d) && ColorRows(d.colors) <= 5000 && Apply(d, a).Ok?
    ensures Closed(Apply(d, a).value.document)
  {
    match a
    case AddChannel(value) => AddChannelCloses(d, value);
    case AssignStyle(_, _, _, _) => AssignCloses(d, a);
    case EditChannel(key, e) => ChannelEditCloses(d, Find(ChannelKey, d.colors, key), e);
  }

  /** Of everything validation asks of colors, an edit of a valid document can only exceed a publication limit. */
  lemma OnlyLimitsRefuse(budget: Document -> bool, d: Document, a: Action)
    requires Valid(budget, d) && Apply(d, a).Ok?
    ensures Valid(budget, Apply(d, a).value.document) <==> WithinLimits(budget, Apply(d, a).value.document)
    ensures Prepare(budget, d, a) == Err(InvalidDocument) <==> !WithinLimits(budget, Apply(d, a).value.document)
  {
    EditCloses(d, a);
    LimitsDecide(budget, Apply(d, a).value.document);
    PrepareRefuses(budget, d, a);
  }

  lemma LimitsDecide(budget: Document -> bool, d: Document)
    requires Closed(d)
    ensures Valid(budget, d) <==> WithinLimits(budget, d)
  {
  }

  lemma PrepareRefuses(budget: Document -> bool, d: Document, a: Action)
    requires Valid(budget, d) && Apply(d, a).Ok?
    ensures Prepare(budget, d, a) == Err(InvalidDocument) <==> !Valid(budget, Apply(d, a).value.document)
  {
  }

  // ---- what an edit leaves alone ----------------------------------------------------------------------

  /** A channel's content and its recipe color are the same in both documents. */
  ghost predicate SameColor(d: Document, e: Document, channel: string) {
    Lookup(ChannelKey, d.colors, channel) == Lookup(ChannelKey, e.colors, channel) && RecipeColor(d.recipe, channel) == RecipeColor(e.recipe, channel)
  }

  /** Everything about other channels, and every style that does not link this one, is the same. */
  ghost predicate OnlyTouches(d: Document, e: Document, channel: string) {
    && (forall other :: other != channel ==> SameColor(d, e, other))
    && (forall p, i, s :: AtStyle(d.parts, p, i, s) && StyleAt(d.parts, p, i, s).colorChannelKey != Some(channel) ==>
          AtStyle(e.parts, p, i, s) && StyleAt(e.parts, p, i, s) == StyleAt(d.parts, p, i, s))
  }

  lemma UpdateTouches(d: Document, k: nat, c: Channel, e: Document)
    requires Closed(d) && k < |d.colors| && c.key == d.colors[k].key && e == d.(colors := d.colors[k := c])
    ensures OnlyTouches(d, e, c.key)
  {
    forall other | other != c.key ensures SameColor(d, e, other) {
      LookupUpdate(ChannelKey, d.colors, k, c, other);
    }
  }

  lemma DefaultTouches(d: Document, k: nat, swatch: string, e: Document)
    requires Closed(d) && k < |d.colors|
    requires var c := d.colors[k].(defaultSwatchKey := swatch);
      e == d.(colors := d.colors[k := c], recipe := SetRecipeColor(d.recipe, c.key, swatch))
    ensures OnlyTouches(d, e, d.colors[k].key)
  {
    var c := d.colors[k].(defaultSwatchKey := swatch);
    SetRecipeOthers(d.recipe, c.key, swatch);
    forall other | other != c.key ensures SameColor(d, e, other) { LookupUpdate(ChannelKey, d.colors, k, c, other); }
  }

  lemma {:induction false} KeepRecipe(recipe: seq<Choice>, gone: string, channel: string)
    requires channel != gone
    ensures RecipeColor(Keep((c: Choice) => c.channelKey != gone, recipe), channel) == RecipeColor(recipe, channel)
  {
    if recipe != [] {
      var rest := Keep((c: Choice) => c.channelKey != gone, recipe[1..]);
      KeepRecipe(recipe[1..], gone, channel);
      assert recipe == [recipe[0]] + recipe[1..];
      RecipeCons(recipe[0], recipe[1..], channel);
      RecipeCons(recipe[0], rest, channel);
      assert [] + rest == rest;
      assert Keep((c: Choice) => c.channelKey != gone, recipe) == (if recipe[0].channelKey != gone then [recipe[0]] else []) + rest;
    }
  }

  lemma RecipeCons(c: Choice, rest: seq<Choice>, channel: string)
    ensures RecipeColor([c] + rest, channel) == if c.channelKey == channel then Some(c.swatchKey) else RecipeColor(rest, channel)
  {
    assert ([c] + rest)[1..] == rest;
  }

  lemma MapRecipe(recipe: seq<Choice>, edited: string, swatch: string, fallback: string, channel: string)
    requires channel != edited
    ensures RecipeColor(Map((c: Choice) => Rechoose(edited, swatch, fallback, c), recipe), channel) == RecipeColor(recipe, channel)
  {
    var next := Map((c: Choice) => Rechoose(edited, swatch, fallback, c), recipe);
    assert forall j :: 0 <= j < |recipe| ==> ChoiceKey(next[j]) == ChoiceKey(recipe[j]);
    FindIs(ChoiceKey, next, channel, Find(ChoiceKey, recipe, channel));
  }

  lemma DeleteChannelTouches(d: Document, k: nat, e: Document)
    requires Closed(d) && k < |d.colors| && e == ApplyDeleteChannel(d, k)
    ensures OnlyTouches(d, e, d.colors[k].key)
  {
    var key := d.colors[k].key;
    forall other | other != key ensures SameColor(d, e, other) {
      LookupRemove(ChannelKey, d.colors, k, other);
      KeepRecipe(d.recipe, key, other);
    }
    forall p, i, s | AtStyle(d.parts, p, i, s) && StyleAt(d.parts, p, i, s).colorChannelKey != Some(key)
      ensures AtStyle(e.parts, p, i, s) && StyleAt(e.parts, p, i, s) == StyleAt(d.parts, p, i, s)
    { MapStylesAt((x: Style) => Unlink(key, x), d.parts, p, i, s); }
  }

  lemma DeleteSwatchTouches(d: Document, k: nat, swatch: string, e: Document)
    requires Closed(d) && k < |d.colors| && e == ApplyDeleteSwatch(d, k, swatch)
    ensures OnlyTouches(d, e, d.colors[k].key)
  {
    var key := d.colors[k].key;
    var c := SwatchesWithout(d.colors[k], swatch);
    forall other | other != key ensures SameColor(d, e, other) {
      LookupUpdate(ChannelKey, d.colors, k, c, other);
      MapRecipe(d.recipe, key, swatch, c.defaultSwatchKey, other);
    }
    forall p, i, s | AtStyle(d.parts, p, i, s) && StyleAt(d.parts, p, i, s).colorChannelKey != Some(key)
      ensures AtStyle(e.parts, p, i, s) && StyleAt(e.parts, p, i, s) == StyleAt(d.parts, p, i, s)
    { MapStylesAt((x: Style) => Relink(key, swatch, c.defaultSwatchKey, x), d.parts, p, i, s); }
  }

  lemma ChannelEditTouches(d: Document, k: nat, e: ChannelEdit)
    requires Closed(d) && k < |d.colors| && ApplyChannel(d, k, e).Ok?
    ensures OnlyTouches(d, ApplyChannel(d, k, e).value, d.colors[k].key)
  {
    if e.DeleteChannel? {
      ChannelGoneTouches(d, k, e);
    } else if e.EditSwatch? && e.edit.DeleteSwatch? {
      SwatchGoneTouches(d, k, e);
    } else if e.ChannelDefault? {
      NewDefaultTouches(d, k, e);
    } else {
      RowEditTouches(d, k, e);
    }
  }

  lemma ChannelGoneTouches(d: Document, k: nat, e: ChannelEdit)
    requires Closed(d) && k < |d.colors| && ApplyChannel(d, k, e).Ok? && e.DeleteChannel?
    ensures OnlyTouches(d, ApplyChannel(d, k, e).value, d.colors[k].key)
  {
    DeleteChannelTouches(d, k, ApplyChannel(d, k, e).value);
  }

  lemma SwatchGoneTouches(d: Document, k: nat, e: ChannelEdit)
    requires Closed(d) && k < |d.colors| && ApplyChannel(d, k, e).Ok? && e.EditSwatch? && e.edit.DeleteSwatch?
    ensures OnlyTouches(d, ApplyChannel(d, k, e).value, d.colors[k].key)
  {
    EditSwatchApplied(d, k, e.swatchKey, DeleteSwatch);
    SwatchGone(d, k, e.swatchKey);
    DeleteSwatchTouches(d, k, e.swatchKey, ApplyChannel(d, k, e).value);
  }

  lemma NewDefaultTouches(d: Document, k: nat, e: ChannelEdit)
    requires Closed(d) && k < |d.colors| && ApplyChannel(d, k, e).Ok? && e.ChannelDefault?
    ensures OnlyTouches(d, ApplyChannel(d, k, e).value, d.colors[k].key)
  {
    DefaultIs(d, k, e.value.text);
    DefaultTouches(d, k, e.value.text, ApplyChannel(d, k, e).value);
  }

  lemma DefaultIs(d: Document, k: nat, swatch: string)
    requires Closed(d) && k < |d.colors|
    ensures ApplyChannel(d, k, ChannelDefault(Text(swatch)))
         == if !HasSwatch(d.colors[k], swatch) then Err(NoSwatch)
            else Ok(d.(colors := d.colors[k := d.colors[k].(defaultSwatchKey := swatch)],
                       recipe := SetRecipeColor(d.recipe, d.colors[k].key, swatch)))
  {}

  lemma RowEditTouches(d: Document, k: nat, e: ChannelEdit)
    requires Closed(d) && k < |d.colors| && ApplyChannel(d, k, e).Ok?
    requires !e.DeleteChannel? && !e.ChannelDefault? && !(e.EditSwatch? && e.edit.DeleteSwatch?)
    ensures OnlyTouches(d, ApplyChannel(d, k, e).value, d.colors[k].key)
  {
    UpdatesOne(d, k, e);
    UpdateTouches(d, k, ApplyChannel(d, k, e).value.colors[k], ApplyChannel(d, k, e).value);
  }

  lemma UpdatesOne(d: Document, k: nat, e: ChannelEdit)
    requires Closed(d) && k < |d.colors| && ApplyChannel(d, k, e).Ok?
    requires !e.DeleteChannel? && !e.ChannelDefault? && !(e.EditSwatch? && e.edit.DeleteSwatch?)
    ensures var next := ApplyChannel(d, k, e).value;
      |next.colors| == |d.colors| && next.colors[k].key == d.colors[k].key && next == d.(colors := d.colors[k := next.colors[k]])
  {}

  // ---- locked styles ----------------------------------------------------------------------------------

  /** A style, the channel it links and that channel's recipe color are what they were. */
  ghost predicate Frozen(d: Document, e: Document, p: int, i: int, s: int)
    requires AtStyle(d.parts, p, i, s)
  {
    && AtStyle(e.parts, p, i, s) && StyleAt(e.parts, p, i, s) == StyleAt(d.parts, p, i, s)
    && (StyleAt(d.parts, p, i, s).colorChannelKey.Some? ==> SameColor(d, e, StyleAt(d.parts, p, i, s).colorChannelKey.value))
  }

  lemma TouchesOthers(d: Document, e: Document, channel: string, p: int, i: int, s: int)
    requires OnlyTouches(d, e, channel) && AtStyle(d.parts, p, i, s) && StyleAt(d.parts, p, i, s).colorChannelKey != Some(channel)
    ensures Frozen(d, e, p, i, s)
  {}

  lemma AddedChannelApart(d: Document, c: Channel, other: string)
    requires !HasChannel(d.colors, c.key) && HasChannel(d.colors, other)
    ensures SameColor(d, d.(colors := d.colors + [c], recipe := SetRecipeColor(d.recipe, c.key, c.defaultSwatchKey)), other)
  {
    LookupAppend(ChannelKey, d.colors, c, other);
    SetRecipeOthers(d.recipe, c.key, c.defaultSwatchKey);
  }

  lemma AddedDocument(d: Document, value: Value)
    requires ApplyAddChannel(d, value).Ok?
    ensures NameOr(value, |d.colors| + 1).Some?
    ensures var c := NewChannel(UniqueKey(ChannelKey, d.colors, |d.colors| + 1), NameOr(value, |d.colors| + 1).value);
      ApplyAddChannel(d, value).value.document
      == d.(colors := d.colors + [c], recipe := SetRecipeColor(d.recipe, c.key, c.defaultSwatchKey))
  {}

  lemma AddChannelFrozen(d: Document, value: Value, p: int, i: int, s: int)
    requires Closed(d) && ApplyAddChannel(d, value).Ok? && AtStyle(d.parts, p, i, s)
    ensures Frozen(d, ApplyAddChannel(d, value).value.document, p, i, s)
  {
    AddedDocument(d, value);
    UniqueKeyIsFresh(ChannelKey, d.colors, |d.colors| + 1);
    var c := NewChannel(UniqueKey(ChannelKey, d.colors, |d.colors| + 1), NameOr(value, |d.colors| + 1).value);
    StyleApart(d, c, p, i, s);
  }

  lemma StyleApart(d: Document, c: Channel, p: int, i: int, s: int)
    requires Closed(d) && !HasChannel(d.colors, c.key) && AtStyle(d.parts, p, i, s)
    ensures Frozen(d, d.(colors := d.colors + [c], recipe := SetRecipeColor(d.recipe, c.key, c.defaultSwatchKey)), p, i, s)
  {
    var style := StyleAt(d.parts, p, i, s);
    assert StyleOk(d.colors, style);
    if style.colorChannelKey.Some? { AddedChannelApart(d, c, style.colorChannelKey.value); }
  }

  lemma AssignFrozen(d: Document, a: Action, p: int, i: int, s: int)
    requires Closed(d) && a.AssignStyle? && ApplyAssign(d, a).Ok? && !ApplyAssign(d, a).value.locked
    requires AtStyle(d.parts, p, i, s) && StyleAt(d.parts, p, i, s).locked
    ensures Frozen(d, ApplyAssign(d, a).value.document, p, i, s)
  {
    var q := Find(PartKey, d.parts, a.partKey);
    var j := Find(ItemKey, d.parts[q].items, a.itemKey);
    var t := Find(StyleKey, d.parts[q].items[j].styles, a.styleKey);
    SetStyleAt(d.parts, q, j, t, Linked(d.colors, StyleAt(d.parts, q, j, t), a.value.text), p, i, s);
  }

  lemma ChannelFrozen(d: Document, k: nat, e: ChannelEdit, p: int, i: int, s: int)
    requires Closed(d) && k < |d.colors| && ApplyChannel(d, k, e).Ok? && !ChannelLocked(d.parts, d.colors[k].key)
    requires AtStyle(d.parts, p, i, s) && StyleAt(d.parts, p, i, s).locked
    ensures Frozen(d, ApplyChannel(d, k, e).value, p, i, s)
  {
    assert !IsLockedLink(d.parts[p].items[i].styles[s], d.colors[k].key);
    ChannelEditTouches(d, k, e);
    TouchesOthers(d, ApplyChannel(d, k, e).value, d.colors[k].key, p, i, s);
  }

  /** Edits that are accepted run on; the others leave the document as it is. */
  ghost function Run(budget: Document -> bool, d: Document, actions: seq<Action>): Document
    decreases |actions|
  {
    if actions == [] then d
    else
      var before := Run(budget, d, actions[..|actions| - 1]);
      var r := Prepare(budget, before, actions[|actions| - 1]);
      if r.Ok? then r.value.document else before
  }

  lemma StepFrozen(budget: Document -> bool, d: Document, a: Action, p: int, i: int, s: int)
    requires Prepare(budget, d, a).Ok? && AtStyle(d.parts, p, i, s) && StyleAt(d.parts, p, i, s).locked
    ensures Frozen(d, Prepare(budget, d, a).value.document, p, i, s)
  {
    if Prepare(budget, d, a).value.changed {
      match a
      case AddChannel(value) => AddChannelFrozen(d, value, p, i, s);
      case AssignStyle(_, _, _, _) => AssignFrozen(d, a, p, i, s);
      case EditChannel(key, e) => ChannelFrozen(d, Find(ChannelKey, d.colors, key), e, p, i, s);
    }
  }

  /** Over any run of accepted edits a locked style keeps its link, its channel's whole content and its recipe color. */
  lemma {:induction false} LockedStyleNeverChanges(budget: Document -> bool, d: Document, actions: seq<Action>, p: int, i: int, s: int)
    requires Valid(budget, d) && AtStyle(d.parts, p, i, s) && StyleAt(d.parts, p, i, s).locked
    ensures Valid(budget, Run(budget, d, actions)) && Frozen(d, Run(budget, d, actions), p, i, s)
    decreases |actions|
  {
    if actions != [] {
      var init := actions[..|actions| - 1];
      LockedStyleNeverChanges(budget, d, init, p, i, s);
      var before := Run(budget, d, init);
      var a := actions[|actions| - 1];
      if Prepare(budget, before, a).Ok? { StepFrozen(budget, before, a, p, i, s); }
    }
  }

  // ---- what the editor shows --------------------------------------------------------------------------

  lemma DeleteSwatchApplied(d: Document, k: nat, swatch: string)
    requires Closed(d) && k < |d.colors| && HasSwatch(d.colors[k], swatch)
    ensures ApplyChannel(d, k, EditSwatch(swatch, DeleteSwatch))
         == if |d.colors[k].swatches| <= 1 then Err(LastSwatch) else Ok(ApplyDeleteSwatch(d, k, swatch))
  {
    EditSwatchApplied(d, k, swatch, DeleteSwatch);
    SwatchDeleted(d, k, swatch);
  }

  lemma EditSwatchApplied(d: Document, k: nat, swatch: string, e: SwatchEdit)
    requires Closed(d) && k < |d.colors|
    ensures ApplyChannel(d, k, EditSwatch(swatch, e)) == ApplySwatch(d, k, swatch, e)
  {}

  lemma SwatchGone(d: Document, k: nat, swatch: string)
    requires Closed(d) && k < |d.colors| && ApplySwatch(d, k, swatch, DeleteSwatch).Ok?
    ensures ApplySwatch(d, k, swatch, DeleteSwatch).value == ApplyDeleteSwatch(d, k, swatch)
  {}

  lemma SwatchDeleted(d: Document, k: nat, swatch: string)
    requires Closed(d) && k < |d.colors| && HasSwatch(d.colors[k], swatch)
    ensures ApplySwatch(d, k, swatch, DeleteSwatch)
         == if |d.colors[k].swatches| <= 1 then Err(LastSwatch) else Ok(ApplyDeleteSwatch(d, k, swatch))
  {}

  lemma DeleteSwatchEdit(d: Document, channel: string, swatch: string)
    requires Closed(d) && HasChannel(d.colors, channel) && HasSwatch(d.colors[Find(ChannelKey, d.colors, channel)], swatch)
    ensures var k := Find(ChannelKey, d.colors, channel);
      Apply(d, EditChannel(channel, EditSwatch(swatch, DeleteSwatch)))
      == if |d.colors[k].swatches| <= 1 then Err(LastSwatch)
         else Ok(Edit(ApplyDeleteSwatch(d, k, swatch), ChannelLocked(d.parts, channel), Selected(Some(channel))))
  {
    var e := EditSwatch(swatch, DeleteSwatch);
    DeleteSwatchApplied(d, Find(ChannelKey, d.colors, channel), swatch);
    assert !e.DeleteChannel?;
  }

  lemma DeleteSwatchChanges(d: Document, k: nat, swatch: string)
    requires Closed(d) && k < |d.colors| && HasSwatch(d.colors[k], swatch) && |d.colors[k].swatches| > 1
    ensures ApplyDeleteSwatch(d, k, swatch) != d
  {
    SwatchesWithoutOk(d.colors[k], swatch);
    assert ApplyDeleteSwatch(d, k, swatch).colors[k] == SwatchesWithout(d.colors[k], swatch);
  }

  lemma PrepareOf(budget: Document -> bool, d: Document, a: Action)
    requires Valid(budget, d) && Apply(d, a).Ok? && Apply(d, a).value.document != d
    ensures Prepare(budget, d, a).Ok? <==> WithinLimits(budget, Apply(d, a).value.document) && !Apply(d, a).value.locked
    ensures Prepare(budget, d, a) == Err(InvalidDocument) <==> !WithinLimits(budget, Apply(d, a).value.document)
  {
    OnlyLimitsRefuse(budget, d, a);
  }

  /** The delete control of a swatch is offered exactly when deleting it is accepted, but for the publication limits. */
  lemma CanDeleteExactly(budget: Document -> bool, d: Document, channel: string, swatch: string)
    requires Valid(budget, d) && HasChannel(d.colors, channel) && HasSwatch(d.colors[Find(ChannelKey, d.colors, channel)], swatch)
    ensures var a := EditChannel(channel, EditSwatch(swatch, DeleteSwatch));
      Prepare(budget, d, a).Ok? <==> CanDeleteSwatch(d, channel) && WithinLimits(budget, Apply(d, a).value.document)
  {
    var k := Find(ChannelKey, d.colors, channel);
    DeleteSwatchEdit(d, channel, swatch);
    if |d.colors[k].swatches| > 1 {
      DeleteSwatchChanges(d, k, swatch);
      PrepareOf(budget, d, EditChannel(channel, EditSwatch(swatch, DeleteSwatch)));
    }
  }

  /** After a channel is deleted the selection is a channel that exists, and none only when none is left. */
  lemma SelectionExists(d: Document, a: Action)
    requires Closed(d) && Apply(d, a).Ok? && Apply(d, a).value.selection.Selected?
    ensures SelectionOk(Apply(d, a).value.document.colors, Apply(d, a).value.selection.key)
  {
    match a
    case AddChannel(value) => AddedSelection(d, value);
    case AssignStyle(_, _, _, _) =>
    case EditChannel(key, e) => ChannelSelection(d, Find(ChannelKey, d.colors, key), e);
  }

  lemma AddedSelection(d: Document, value: Value)
    requires Closed(d) && ApplyAddChannel(d, value).Ok?
    ensures ApplyAddChannel(d, value).value.selection.Selected?
    ensures SelectionOk(ApplyAddChannel(d, value).value.document.colors, ApplyAddChannel(d, value).value.selection.key)
  {
    var colors := ApplyAddChannel(d, value).value.document.colors;
    assert ChannelKey(colors[|d.colors|]) == UniqueKey(ChannelKey, d.colors, |d.colors| + 1);
  }

  lemma ChannelSelection(d: Document, k: nat, e: ChannelEdit)
    requires Closed(d) && k < |d.colors| && ApplyChannel(d, k, e).Ok?
    ensures var next := ApplyChannel(d, k, e).value;
      if e.DeleteChannel? then SelectionOk(next.colors, NextSelection(next.colors, k)) else HasChannel(next.colors, d.colors[k].key)
  {
    if e.DeleteChannel? {
      NextSelectionExists(ApplyDeleteChannel(d, k).colors, k);
    } else {
      KeepsChannelAt(d, k, e);
    }
  }

  predicate SelectionOk(colors: seq<Channel>, selected: Option<string>) {
    match selected
    case Some(key) => HasChannel(colors, key)
    case None => colors == []
  }

  lemma NextSelectionExists(colors: seq<Channel>, index: nat)
    ensures SelectionOk(colors, NextSelection(colors, index))
  {
    if colors != [] {
      var at := if index < |colors| then index else |colors| - 1;
      assert ChannelKey(colors[at]) == colors[at].key;
    }
  }

  lemma KeepsChannelAt(d: Document, k: nat, e: ChannelEdit)
    requires Closed(d) && k < |d.colors| && ApplyChannel(d, k, e).Ok? && !e.DeleteChannel?
    ensures HasChannel(ApplyChannel(d, k, e).value.colors, d.colors[k].key)
  {
    KeepsKeyAt(d, k, e);
    HasChannelAt(ApplyChannel(d, k, e).value.colors, k);
  }

  lemma KeepsKeyAt(d: Document, k: nat, e: ChannelEdit)
    requires Closed(d) && k < |d.colors| && ApplyChannel(d, k, e).Ok? && !e.DeleteChannel?
    ensures |ApplyChannel(d, k, e).value.colors| == |d.colors| && ApplyChannel(d, k, e).value.colors[k].key == d.colors[k].key
  {}

  lemma HasChannelAt(colors: seq<Channel>, k: nat)
    requires k < |colors|
    ensures HasChannel(colors, colors[k].key)
  {
    assert ChannelKey(colors[k]) == colors[k].key;
  }
}
