/** What each accepted Smart Color edit makes of the document, and when an edit is accepted at all. */
module ColorEffects {
  import opened Results
  import opened ColorText
  import opened Sequences
  import opened Keyed
  import opened CreatorColors
  import opened CreatorColorRules
  import opened CreatorColorEdits
  import opened SwatchEffects
  import FreshKeys
  import SafeText

  // ---- what is written --------------------------------------------------------------------------------

  /** key is color-n for the first n from initial on whose key no row has. */
  ghost predicate FirstFreeKey(keys: seq<string>, initial: nat, key: string) {
    && key !in keys
    && exists n: nat :: initial <= n && key == "color" + "-" + FreshKeys.Decimal(n)
         && forall m: nat :: initial <= m < n ==> "color" + "-" + FreshKeys.Decimal(m) in keys
  }

  /** The recipe chooses this swatch for the channel, in place of its old choice or after the others. */
  ghost predicate Chosen(before: seq<Choice>, after: seq<Choice>, channel: string, swatch: string) {
    if exists k :: 0 <= k < |before| && before[k].channelKey == channel then
      exists k :: 0 <= k < |before| && before[k].channelKey == channel && after == before[k := Choice(channel, swatch)]
    else after == before + [Choice(channel, swatch)]
  }

  /** The same parts and items, whatever their styles. */
  ghost predicate SameItems(d: seq<Part>, e: seq<Part>) {
    && |d| == |e|
    && forall p :: 0 <= p < |d| ==>
         && d[p].key == e[p].key && |d[p].items| == |e[p].items|
         && forall i :: 0 <= i < |d[p].items| ==>
              d[p].items[i] == e[p].items[i].(styles := d[p].items[i].styles) && |d[p].items[i].styles| == |e[p].items[i].styles|
  }

  /** A new swatch or preset row: its name, its color and the gradient derived from it. */
  ghost predicate IsPreset(s: Swatch, key: string, text: string, rgba: string) {
    s.key == key && s.text == text && s.rgba == rgba && GradientOf(s.stops, rgba)
  }

  /** add-channel: a channel with a fresh key, one violet preset, chosen by the recipe. */
  ghost predicate ChannelAdded(d: Document, e: Document, value: Value, c: Channel) {
    && e == d.(colors := d.colors + [c], recipe := e.recipe)
    && FirstFreeKey(Keys(ChannelKey, d.colors), |d.colors| + 1, c.key) && NamedOr(value, |d.colors| + 1, c.text)
    && c.defaultSwatchKey == "default" && |c.swatches| == 1 && IsPreset(c.swatches[0], "default", "Default", "#7b5cffff")
    && Chosen(d.recipe, e.recipe, c.key, "default")
  }

  /** assign-style-color: one style links the channel and takes its default swatch, or links none; a style that has the
      link already keeps its own swatch. */
  ghost predicate StyleAssigned(d: Document, e: Document, a: Action, p: int, i: int, s: int)
    requires a.AssignStyle?
  {
    && a.value.Text? && AtStyle(d.parts, p, i, s) && AtStyle(e.parts, p, i, s)
    && d.parts[p].key == a.partKey && d.parts[p].items[i].key == a.itemKey && StyleAt(d.parts, p, i, s).key == a.styleKey
    && e == d.(parts := e.parts) && SameItems(d.parts, e.parts)
    && (forall q, j, t :: AtStyle(d.parts, q, j, t) && (q, j, t) != (p, i, s) ==> StyleAt(e.parts, q, j, t) == StyleAt(d.parts, q, j, t))
    && var x, y := StyleAt(d.parts, p, i, s), StyleAt(e.parts, p, i, s);
       && y == x.(colorChannelKey := y.colorChannelKey, defaultSwatchKey := y.defaultSwatchKey)
       && y.colorChannelKey == (if a.value.text == "" then None else Some(a.value.text))
       && if x.colorChannelKey == y.colorChannelKey then y.defaultSwatchKey == x.defaultSwatchKey
          else if a.value.text == "" then y.defaultSwatchKey == None
          else exists k :: 0 <= k < |d.colors| && d.colors[k].key == a.value.text && y.defaultSwatchKey == Some(d.colors[k].defaultSwatchKey)
  }

  /** delete-channel: the channel goes, with every link to it and its recipe choice. */
  ghost predicate ChannelDeleted(d: Document, e: Document, k: int) {
    && 0 <= k < |d.colors| && e == d.(colors := d.colors[..k] + d.colors[k + 1..], parts := e.parts, recipe := e.recipe)
    && SameItems(d.parts, e.parts)
    && (forall p, i, s :: AtStyle(d.parts, p, i, s) ==>
          AtStyle(e.parts, p, i, s) && StyleAt(e.parts, p, i, s) ==
            if StyleAt(d.parts, p, i, s).colorChannelKey == Some(d.colors[k].key)
            then StyleAt(d.parts, p, i, s).(colorChannelKey := None, defaultSwatchKey := None) else StyleAt(d.parts, p, i, s))
    && forall c :: c in e.recipe <==> c in d.recipe && c.channelKey != d.colors[k].key
  }

  /** Channel k of the document becomes c, and nothing else changes. */
  predicate ChannelSet(d: Document, e: Document, k: int, c: Channel) { 0 <= k < |d.colors| && e == d.(colors := d.colors[k := c]) }

  ghost predicate SwatchAdded(d: Document, e: Document, k: int, value: Value, s: Swatch) {
    && 0 <= k < |d.colors|
    && var c := d.colors[k];
       && ChannelSet(d, e, k, c.(swatches := c.swatches + [s]))
       && FirstFreeKey(Keys(SwatchKey, c.swatches), |c.swatches| + 1, s.key)
       && NamedOr(value, |c.swatches| + 1, s.text) && IsPreset(s, s.key, s.text, "#f06f8fff")
  }

  /** channel-default-swatch: the channel's default, and its recipe choice, become one of its swatches. */
  ghost predicate DefaultSet(d: Document, e: Document, k: int, value: Value) {
    && 0 <= k < |d.colors| && value.Text? && (exists s :: s in d.colors[k].swatches && s.key == value.text)
    && e == d.(colors := d.colors[k := d.colors[k].(defaultSwatchKey := value.text)], recipe := e.recipe)
    && Chosen(d.recipe, e.recipe, d.colors[k].key, value.text)
  }

  ghost predicate SwatchChanged(d: Document, e: Document, k: int, swatchKey: string, edit: SwatchEdit, j: int, s: Swatch) {
    && 0 <= k < |d.colors| && 0 <= j < |d.colors[k].swatches| && d.colors[k].swatches[j].key == swatchKey
    && ChannelSet(d, e, k, d.colors[k].(swatches := d.colors[k].swatches[j := s]))
    && SwatchEffect(d.colors[k].swatches[j], edit, s)
  }

  /** delete-swatch: the swatch goes; its links and its recipe choice become the surviving default, which is the old one
      or else the first swatch left. */
  ghost predicate SwatchRemoved(d: Document, e: Document, k: int, swatchKey: string, j: int) {
    && 0 <= k < |d.colors| && 0 <= j < |d.colors[k].swatches| && d.colors[k].swatches[j].key == swatchKey && |d.colors[k].swatches| > 1
    && |e.colors| == |d.colors|
    && var was, c := d.colors[k], e.colors[k];
       && e == d.(colors := d.colors[k := c], parts := e.parts, recipe := e.recipe)
       && c == was.(swatches := was.swatches[..j] + was.swatches[j + 1..], defaultSwatchKey := c.defaultSwatchKey)
       && |c.swatches| > 0 && c.defaultSwatchKey == (if was.defaultSwatchKey == swatchKey then c.swatches[0].key else was.defaultSwatchKey)
       && SameItems(d.parts, e.parts)
       && (forall p, i, s :: AtStyle(d.parts, p, i, s) ==>
             AtStyle(e.parts, p, i, s) && StyleAt(e.parts, p, i, s) == Repaired(c, swatchKey, StyleAt(d.parts, p, i, s)))
       && |e.recipe| == |d.recipe|
       && forall n :: 0 <= n < |d.recipe| ==>
            e.recipe[n] == if d.recipe[n] == Choice(was.key, swatchKey) then Choice(was.key, c.defaultSwatchKey) else d.recipe[n]
  }

  ghost predicate ChannelEffect(d: Document, e: Document, k: int, edit: ChannelEdit) {
    match edit
    case DeleteChannel => ChannelDeleted(d, e, k)
    case ChannelName(value) => exists text :: Named(value, text) && 0 <= k < |d.colors| && ChannelSet(d, e, k, d.colors[k].(text := text))
    case AddSwatch(value) => exists s :: SwatchAdded(d, e, k, value, s)
    case ChannelDefault(value) => DefaultSet(d, e, k, value)
    case EditSwatch(key, DeleteSwatch) => exists j :: SwatchRemoved(d, e, k, key, j)
    case EditSwatch(key, swatchEdit) => exists j, s :: SwatchChanged(d, e, k, key, swatchEdit, j, s)
  }

  /** What an accepted action leaves. */
  ghost predicate Effect(d: Document, a: Action, e: Document) {
    match a
    case AddChannel(value) => exists c :: ChannelAdded(d, e, value, c)
    case AssignStyle(_, _, _, _) => exists p, i, s :: StyleAssigned(d, e, a, p, i, s)
    case EditChannel(key, edit) => exists k :: 0 <= k < |d.colors| && d.colors[k].key == key && ChannelEffect(d, e, k, edit)
  }

  // ---- new rows ---------------------------------------------------------------------------------------

  lemma KeyIsFirstFree<T>(key: T -> string, rows: seq<T>, initial: nat)
    ensures FirstFreeKey(Keys(key, rows), initial, UniqueKey(key, rows, initial))
  {
    UniqueKeyIsFresh(key, rows, initial);
    var keys := Keys(key, rows);
    var used := FreshKeys.Members(keys);
    var n := FreshKeys.FirstFree(ColorName, used, initial, |used|);
    assert UniqueKey(key, rows, initial) == ColorName(n) == "color" + "-" + FreshKeys.Decimal(n);
    ColorNamesDiffer();
    FreshKeys.FirstFreeIsFree(ColorName, used, initial);
    forall m: nat | initial <= m < n ensures "color" + "-" + FreshKeys.Decimal(m) in keys { assert ColorName(m) in used; }
  }

  lemma ChoiceMade(recipe: seq<Choice>, channel: string, swatch: string)
    ensures Chosen(recipe, SetRecipeColor(recipe, channel, swatch), channel, swatch)
  {
    var k := Find(ChoiceKey, recipe, channel);
    if k < |recipe| {
      assert recipe[k].channelKey == channel && recipe[k].(swatchKey := swatch) == Choice(channel, swatch);
    } else {
      forall j | 0 <= j < |recipe| ensures recipe[j].channelKey != channel { assert ChoiceKey(recipe[j]) != channel; }
    }
  }

  lemma AddChannelDone(d: Document, value: Value)
    requires Closed(d) && ApplyAddChannel(d, value).Ok?
    ensures Effect(d, AddChannel(value), ApplyAddChannel(d, value).value.document)
  {
    AddedIs(d, value);
    var c, e := AddedChannel(d, value), ApplyAddChannel(d, value).value.document;
    KeyIsFirstFree(ChannelKey, d.colors, |d.colors| + 1);
    NameOrNames(value, |d.colors| + 1);
    PresetColors();
    GradientDerived(VIOLET);
    ChoiceMade(d.recipe, c.key, "default");
    assert ChannelAdded(d, e, value, c);
  }

  lemma AddSwatchIs(d: Document, k: nat, value: Value, c: Channel, s: Swatch)
    requires Closed(d) && k < |d.colors| && ApplyChannel(d, k, AddSwatch(value)).Ok? && c == d.colors[k]
    requires NameOr(value, |c.swatches| + 1).Some?
    requires s == NewSwatch(UniqueKey(SwatchKey, c.swatches, |c.swatches| + 1), NameOr(value, |c.swatches| + 1).value)
    ensures ApplyChannel(d, k, AddSwatch(value)).value == d.(colors := d.colors[k := c.(swatches := c.swatches + [s])])
  {
  }

  lemma AddSwatchNamed(d: Document, k: nat, value: Value)
    requires Closed(d) && k < |d.colors| && ApplyChannel(d, k, AddSwatch(value)).Ok?
    ensures NameOr(value, |d.colors[k].swatches| + 1).Some?
  {
  }

  lemma PresetMade(key: string, text: string)
    ensures IsPreset(NewSwatch(key, text), key, text, "#f06f8fff")
  {
    PresetColors();
    GradientDerived(PINK);
  }

  lemma AddSwatchDone(d: Document, k: nat, value: Value)
    requires Closed(d) && k < |d.colors| && ApplyChannel(d, k, AddSwatch(value)).Ok?
    ensures ChannelEffect(d, ApplyChannel(d, k, AddSwatch(value)).value, k, AddSwatch(value))
  {
    var c := d.colors[k];
    AddSwatchNamed(d, k, value);
    var key, text := UniqueKey(SwatchKey, c.swatches, |c.swatches| + 1), NameOr(value, |c.swatches| + 1).value;
    AddSwatchIs(d, k, value, c, NewSwatch(key, text));
    KeyIsFirstFree(SwatchKey, c.swatches, |c.swatches| + 1);
    NameOrNames(value, |c.swatches| + 1);
    PresetMade(key, text);
    assert SwatchAdded(d, ApplyChannel(d, k, AddSwatch(value)).value, k, value, NewSwatch(key, text));
  }

  // ---- channels ---------------------------------------------------------------------------------------

  lemma NameIs(d: Document, k: nat, value: Value)
    requires Closed(d) && k < |d.colors| && ApplyChannel(d, k, ChannelName(value)).Ok?
    ensures Label(value).Some? && ChannelSet(d, ApplyChannel(d, k, ChannelName(value)).value, k, d.colors[k].(text := Label(value).value))
  {
  }

  lemma NameDone(d: Document, k: nat, value: Value)
    requires Closed(d) && k < |d.colors| && ApplyChannel(d, k, ChannelName(value)).Ok?
    ensures ChannelEffect(d, ApplyChannel(d, k, ChannelName(value)).value, k, ChannelName(value))
  {
    NameIs(d, k, value);
    LabelNames(value);
  }

  lemma DefaultDone(d: Document, k: nat, value: Value)
    requires Closed(d) && k < |d.colors| && ApplyChannel(d, k, ChannelDefault(value)).Ok?
    ensures ChannelEffect(d, ApplyChannel(d, k, ChannelDefault(value)).value, k, ChannelDefault(value))
  {
    DefaultText(d, k, value);
    DefaultIs(d, k, value.text);
    var c := d.colors[k];
    assert c.swatches[Find(SwatchKey, c.swatches, value.text)] in c.swatches;
    assert SwatchKey(c.swatches[Find(SwatchKey, c.swatches, value.text)]) == value.text;
    ChoiceMade(d.recipe, c.key, value.text);
  }

  lemma DefaultText(d: Document, k: nat, value: Value)
    requires Closed(d) && k < |d.colors| && ApplyChannel(d, k, ChannelDefault(value)).Ok?
    ensures value.Text? && HasSwatch(d.colors[k], value.text)
  {
  }

  lemma MapKeepsItems(f: Style -> Style, parts: seq<Part>)
    ensures SameItems(parts, MapStyles(f, parts))
  {
  }

  lemma DeleteChannelDone(d: Document, k: nat)
    requires Closed(d) && k < |d.colors|
    ensures ChannelDeleted(d, ApplyDeleteChannel(d, k), k)
  {
    var key, e := d.colors[k].key, ApplyDeleteChannel(d, k);
    MapKeepsItems((s: Style) => Unlink(key, s), d.parts);
    forall p, i, s | AtStyle(d.parts, p, i, s)
      ensures AtStyle(e.parts, p, i, s) && StyleAt(e.parts, p, i, s) ==
                if StyleAt(d.parts, p, i, s).colorChannelKey == Some(key)
                then StyleAt(d.parts, p, i, s).(colorChannelKey := None, defaultSwatchKey := None) else StyleAt(d.parts, p, i, s)
    { MapStylesAt((x: Style) => Unlink(key, x), d.parts, p, i, s); }
    forall c ensures c in e.recipe <==> c in d.recipe && c.channelKey != key {
      KeepMember((x: Choice) => x.channelKey != key, d.recipe, c);
    }
  }

  // ---- swatches ---------------------------------------------------------------------------------------

  lemma {:induction false} KeepOthers(swatches: seq<Swatch>, j: nat)
    requires Distinct(SwatchKey, swatches) && j < |swatches|
    ensures Keep((s: Swatch) => s.key != swatches[j].key, swatches) == swatches[..j] + swatches[j + 1..]
  {
    var gone := swatches[j].key;
    var rest := swatches[1..];
    forall a, b | 0 <= a < b < |rest| ensures SwatchKey(rest[a]) != SwatchKey(rest[b]) {
      assert rest[a] == swatches[a + 1] && rest[b] == swatches[b + 1];
    }
    if j > 0 {
      KeepOthers(rest, j - 1);
      assert rest[j - 1] == swatches[j];
      assert SwatchKey(swatches[0]) != SwatchKey(swatches[j]);
      assert [swatches[0]] + (rest[..j - 1] + rest[j..]) == swatches[..j] + swatches[j + 1..];
    } else {
      KeepAll(rest, gone);
      assert swatches[..0] + rest == [] + rest;
    }
  }

  lemma {:induction false} KeepAll(swatches: seq<Swatch>, gone: string)
    requires forall k :: 0 <= k < |swatches| ==> swatches[k].key != gone
    ensures Keep((s: Swatch) => s.key != gone, swatches) == swatches
  {
    if swatches != [] { KeepAll(swatches[1..], gone); }
  }

  lemma RecipeRepaired(d: Document, key: string, swatch: string, fallback: string)
    ensures var r := Map((c: Choice) => Rechoose(key, swatch, fallback, c), d.recipe);
      && |r| == |d.recipe|
      && forall n :: 0 <= n < |d.recipe| ==> r[n] == if d.recipe[n] == Choice(key, swatch) then Choice(key, fallback) else d.recipe[n]
  {
  }

  lemma DeleteSwatchDone(d: Document, k: nat, swatch: string)
    requires Closed(d) && k < |d.colors| && HasSwatch(d.colors[k], swatch) && |d.colors[k].swatches| > 1
    ensures exists j :: SwatchRemoved(d, ApplyDeleteSwatch(d, k, swatch), k, swatch, j)
  {
    var was, e := d.colors[k], ApplyDeleteSwatch(d, k, swatch);
    var j, c := Find(SwatchKey, was.swatches, swatch), SwatchesWithout(was, swatch);
    assert SwatchKey(was.swatches[j]) == swatch;
    KeepOthers(was.swatches, j);
    DeleteSwatchRepairs(d, k, swatch);
    MapKeepsItems((s: Style) => Relink(was.key, swatch, c.defaultSwatchKey, s), d.parts);
    RecipeRepaired(d, was.key, swatch, c.defaultSwatchKey);
    assert SwatchRemoved(d, e, k, swatch, j);
  }

  lemma EditedIs(d: Document, k: nat, swatchKey: string, e: SwatchEdit) returns (j: nat)
    requires Closed(d) && k < |d.colors| && ApplySwatch(d, k, swatchKey, e).Ok? && !e.DeleteSwatch?
    ensures j < |d.colors[k].swatches| && d.colors[k].swatches[j].key == swatchKey && EditedSwatch(d.colors[k].swatches[j], e).Ok?
    ensures ChannelSet(d, ApplySwatch(d, k, swatchKey, e).value, k,
                       d.colors[k].(swatches := d.colors[k].swatches[j := EditedSwatch(d.colors[k].swatches[j], e).value]))
  {
    j := Find(SwatchKey, d.colors[k].swatches, swatchKey);
    assert j < |d.colors[k].swatches| ==> SwatchKey(d.colors[k].swatches[j]) == swatchKey;
  }

  lemma SwatchEditDone(d: Document, k: nat, swatchKey: string, e: SwatchEdit)
    requires Closed(d) && k < |d.colors| && ApplySwatch(d, k, swatchKey, e).Ok?
    ensures ChannelEffect(d, ApplySwatch(d, k, swatchKey, e).value, k, EditSwatch(swatchKey, e))
  {
    if e.DeleteSwatch? {
      SwatchGone(d, k, swatchKey);
      DeletableSwatch(d, k, swatchKey);
      DeleteSwatchDone(d, k, swatchKey);
    } else {
      var j := EditedIs(d, k, swatchKey, e);
      SwatchDone(d.colors[k].swatches[j], e);
      assert SwatchChanged(d, ApplySwatch(d, k, swatchKey, e).value, k, swatchKey, e, j, EditedSwatch(d.colors[k].swatches[j], e).value);
    }
  }

  lemma DeletableSwatch(d: Document, k: nat, swatch: string)
    requires Closed(d) && k < |d.colors| && ApplySwatch(d, k, swatch, DeleteSwatch).Ok?
    ensures HasSwatch(d.colors[k], swatch) && |d.colors[k].swatches| > 1
  {
  }

  lemma ChannelDone(d: Document, k: nat, e: ChannelEdit)
    requires Closed(d) && k < |d.colors| && ApplyChannel(d, k, e).Ok?
    ensures ChannelEffect(d, ApplyChannel(d, k, e).value, k, e)
  {
    match e
    case DeleteChannel => DeleteChannelDone(d, k);
    case ChannelName(value) => NameDone(d, k, value);
    case AddSwatch(value) => AddSwatchDone(d, k, value);
    case ChannelDefault(value) => DefaultDone(d, k, value);
    case EditSwatch(key, edit) =>
      EditSwatchApplied(d, k, key, edit);
      SwatchEditDone(d, k, key, edit);
  }

  // ---- styles -----------------------------------------------------------------------------------------

  lemma SetKeepsItems(parts: seq<Part>, p: nat, i: nat, s: nat, style: Style)
    requires AtStyle(parts, p, i, s)
    ensures SameItems(parts, SetStyle(parts, p, i, s, style))
  {
  }

  lemma AssignIs(d: Document, a: Action) returns (p: nat, i: nat, s: nat)
    requires Closed(d) && a.AssignStyle? && ApplyAssign(d, a).Ok?
    ensures AtStyle(d.parts, p, i, s) && d.parts[p].key == a.partKey && d.parts[p].items[i].key == a.itemKey
    ensures StyleAt(d.parts, p, i, s).key == a.styleKey && a.value.Text? && (a.value.text != "" ==> HasChannel(d.colors, a.value.text))
    ensures ApplyAssign(d, a).value.document
         == d.(parts := SetStyle(d.parts, p, i, s, Linked(d.colors, StyleAt(d.parts, p, i, s), a.value.text)))
  {
    p := Find(PartKey, d.parts, a.partKey);
    assert PartKey(d.parts[p]) == a.partKey;
    i := Find(ItemKey, d.parts[p].items, a.itemKey);
    assert ItemKey(d.parts[p].items[i]) == a.itemKey;
    s := Find(StyleKey, d.parts[p].items[i].styles, a.styleKey);
    assert StyleKey(d.parts[p].items[i].styles[s]) == a.styleKey;
  }

  lemma LinkDone(d: Document, x: Style, value: string)
    requires Closed(d) && (value != "" ==> HasChannel(d.colors, value))
    ensures var y := Linked(d.colors, x, value);
      && y == x.(colorChannelKey := y.colorChannelKey, defaultSwatchKey := y.defaultSwatchKey)
      && y.colorChannelKey == (if value == "" then None else Some(value))
      && if x.colorChannelKey == y.colorChannelKey then y.defaultSwatchKey == x.defaultSwatchKey
         else if value == "" then y.defaultSwatchKey == None
         else exists k :: 0 <= k < |d.colors| && d.colors[k].key == value && y.defaultSwatchKey == Some(d.colors[k].defaultSwatchKey)
  {
    var k := Find(ChannelKey, d.colors, value);
    if k < |d.colors| { assert ChannelKey(d.colors[k]) == value && ChannelOk(d.colors[k]); }
  }

  lemma AssignDone(d: Document, a: Action)
    requires Closed(d) && a.AssignStyle? && ApplyAssign(d, a).Ok?
    ensures Effect(d, a, ApplyAssign(d, a).value.document)
  {
    var p, i, s := AssignIs(d, a);
    var x, e := StyleAt(d.parts, p, i, s), ApplyAssign(d, a).value.document;
    var y := Linked(d.colors, x, a.value.text);
    LinkDone(d, x, a.value.text);
    SetKeepsItems(d.parts, p, i, s, y);
    SetStyleAt(d.parts, p, i, s, y, p, i, s);
    forall q, j, t | AtStyle(d.parts, q, j, t) && (q, j, t) != (p, i, s) ensures StyleAt(e.parts, q, j, t) == StyleAt(d.parts, q, j, t) {
      SetStyleAt(d.parts, p, i, s, y, q, j, t);
    }
    assert StyleAssigned(d, e, a, p, i, s);
  }

  // ---- the whole edit ---------------------------------------------------------------------------------

  lemma EditDone(d: Document, a: Action)
    requires Closed(d) && Apply(d, a).Ok?
    ensures Effect(d, a, Apply(d, a).value.document)
  {
    match a
    case AddChannel(value) => AddChannelDone(d, value);
    case AssignStyle(_, _, _, _) => AssignDone(d, a);
    case EditChannel(key, e) =>
      var k := Find(ChannelKey, d.colors, key);
      assert ChannelKey(d.colors[k]) == key;
      ChannelDone(d, k, e);
  }

  /** An accepted edit has its effect, and nothing else: the outcome is the document with exactly what the action names
      changed, and it is reported as a change exactly when the document is another one. */
  lemma AcceptedHasEffect(budget: Document -> bool, d: Document, a: Action)
    requires Prepare(budget, d, a).Ok?
    ensures Effect(d, a, Prepare(budget, d, a).value.document)
    ensures Prepare(budget, d, a).value.changed <==> Prepare(budget, d, a).value.document != d
  {
    EditDone(d, a);
  }

  // ---- what is selected next, and when an edit is accepted --------------------------------------------

  /** The channel to show next: the new one, the one linked, the one edited, or its successor when it was deleted. */
  ghost predicate Selects(d: Document, a: Action, e: Document, selection: Selection) {
    match a
    case AddChannel(_) => |e.colors| > 0 && selection == Selected(Some(e.colors[|e.colors| - 1].key))
    case AssignStyle(_, _, _, value) => value.Text? && selection == if value.text == "" then Unselected else Selected(Some(value.text))
    case EditChannel(key, edit) =>
      if !edit.DeleteChannel? then selection == Selected(Some(key))
      else if e.colors == [] then selection == Selected(None)
      else exists k, n :: 0 <= k < |d.colors| && d.colors[k].key == key && 0 <= n < |e.colors|
             && n == (if k < |e.colors| then k else |e.colors| - 1) && selection == Selected(Some(e.colors[n].key))
  }

  lemma EditReturns(d: Document, key: string, e: ChannelEdit, k: nat)
    requires Closed(d) && Apply(d, EditChannel(key, e)).Ok? && k == Find(ChannelKey, d.colors, key)
    ensures k < |d.colors| && ApplyChannel(d, k, e).Ok?
    ensures var r := Apply(d, EditChannel(key, e)).value;
      && r.document == ApplyChannel(d, k, e).value
      && r.selection == Selected(if e.DeleteChannel? then NextSelection(r.document.colors, k) else Some(key))
  {
  }

  lemma SuccessorSelected(d: Document, key: string, k: nat, e: Document)
    requires k < |d.colors| && d.colors[k].key == key
    ensures Selects(d, EditChannel(key, DeleteChannel), e, Selected(NextSelection(e.colors, k)))
  {
    var n := if k < |e.colors| then k else |e.colors| - 1;
    assert n == if k < |e.colors| then k else |e.colors| - 1;
  }

  lemma ChannelSelects(d: Document, key: string, e: ChannelEdit)
    requires Closed(d) && Apply(d, EditChannel(key, e)).Ok?
    ensures Selects(d, EditChannel(key, e), Apply(d, EditChannel(key, e)).value.document, Apply(d, EditChannel(key, e)).value.selection)
  {
    var k := Find(ChannelKey, d.colors, key);
    EditReturns(d, key, e, k);
    assert ChannelKey(d.colors[k]) == key;
    if e.DeleteChannel? { SuccessorSelected(d, key, k, ApplyChannel(d, k, e).value); }
  }

  lemma EditSelects(d: Document, a: Action)
    requires Closed(d) && Apply(d, a).Ok?
    ensures Selects(d, a, Apply(d, a).value.document, Apply(d, a).value.selection)
  {
    match a
    case AddChannel(value) => AddedIs(d, value);
    case AssignStyle(_, _, _, _) => var p, i, s := AssignIs(d, a);
    case EditChannel(key, e) => ChannelSelects(d, key, e);
  }

  lemma AcceptedSelects(budget: Document -> bool, d: Document, a: Action)
    requires Prepare(budget, d, a).Ok?
    ensures Selects(d, a, Prepare(budget, d, a).value.document, Prepare(budget, d, a).value.selection)
  {
    EditSelects(d, a);
  }

  ghost predicate HasName(value: Value) { exists text :: Named(value, text) }

  predicate HasColor(value: Value) { value.Text? && IsColorInput(value.text) }

  /** The edit names something of this swatch that can be set so. */
  ghost predicate SwatchAsks(s: Swatch, e: SwatchEdit) {
    match e
    case DeleteSwatch => false
    case SwatchName(value) => HasName(value)
    case SwatchHint(value) => HasColor(value)
    case SwatchMid(value) => HasColor(value)
    case SwatchStop(index, value) => HasColor(value) && index.Some? && 0 <= index.value < if |s.stops| < 2 then 3 else |s.stops|
    case Unknown => false
  }

  ghost predicate ChannelAsks(c: Channel, e: ChannelEdit) {
    match e
    case DeleteChannel => true
    case ChannelName(value) => HasName(value)
    case AddSwatch(value) => value.Missing? || HasName(value)
    case ChannelDefault(value) => value.Text? && exists k :: 0 <= k < |c.swatches| && c.swatches[k].key == value.text
    case EditSwatch(key, edit) =>
      exists k :: 0 <= k < |c.swatches| && c.swatches[k].key == key
        && if edit.DeleteSwatch? then |c.swatches| > 1 else SwatchAsks(c.swatches[k], edit)
  }

  /** The action names something of the document that can be edited so. */
  ghost predicate Asks(d: Document, a: Action) {
    match a
    case AddChannel(value) => value.Missing? || HasName(value)
    case AssignStyle(partKey, itemKey, styleKey, value) =>
      StyleExists(d.parts, partKey, itemKey, styleKey) && value.Text?
      && (value.text == "" || exists k :: 0 <= k < |d.colors| && d.colors[k].key == value.text)
    case EditChannel(key, edit) => SomeChannelAsks(d.colors, key, edit)
  }

  ghost predicate SomeChannelAsks(colors: seq<Channel>, key: string, edit: ChannelEdit) {
    exists k :: 0 <= k < |colors| && colors[k].key == key && ChannelAsks(colors[k], edit)
  }

  lemma NameAsked(value: Value)
    ensures Label(value).Some? <==> HasName(value)
  {
    LabelNames(value);
  }

  lemma {:induction false} AsciiText(s: string)
    requires forall k :: 0 <= k < |s| ==> s[k] as int < 0x80
    ensures SafeText.Utf8Length(s) == |s|
  {
    SafeText.AsciiLength(s);
  }

  lemma NameOrAsked(value: Value, n: nat)
    requires n <= 5001
    ensures NameOr(value, n).Some? <==> value.Missing? || HasName(value)
  {
    NameAsked(value);
    if value.Missing? {
      var text := "Color " + FreshKeys.Decimal(n);
      assert FreshKeys.Power(4) == 10000;
      FreshKeys.DecimalShort(n, 10000, 4);
      AsciiText(text);
      TrimDone(text);
    }
  }

  lemma SwatchAsked(s: Swatch, e: SwatchEdit)
    requires SwatchOk(s) && !e.DeleteSwatch?
    ensures EditedSwatch(s, e).Ok? <==> SwatchAsks(s, e)
  {
    match e
    case SwatchName(value) => NameAsked(value);
    case _ =>
  }

  lemma FoundAt<T>(key: T -> string, s: seq<T>, k: string)
    requires Distinct(key, s)
    ensures (exists j :: 0 <= j < |s| && key(s[j]) == k) <==> Find(key, s, k) < |s|
    ensures forall j :: 0 <= j < |s| && key(s[j]) == k ==> j == Find(key, s, k)
  {
    if Find(key, s, k) < |s| { assert key(s[Find(key, s, k)]) == k; }
  }

  lemma SwatchEditAsked(d: Document, k: nat, key: string, e: SwatchEdit)
    requires Closed(d) && k < |d.colors|
    ensures ApplySwatch(d, k, key, e).Ok? <==> ChannelAsks(d.colors[k], EditSwatch(key, e))
  {
    var swatches := d.colors[k].swatches;
    var j := Find(SwatchKey, swatches, key);
    assert ChannelOk(d.colors[k]);
    FoundAt(SwatchKey, swatches, key);
    if j < |swatches| {
      assert SwatchKey(swatches[j]) == key;
      if !e.DeleteSwatch? { SwatchAsked(swatches[j], e); }
    }
    forall n | 0 <= n < |swatches| && swatches[n].key == key ensures n == j { assert SwatchKey(swatches[n]) == key; }
  }

  lemma {:induction false} RowsBound(colors: seq<Channel>, k: nat)
    requires k < |colors|
    ensures |colors[k].swatches| <= ColorRows(colors)
  {
    if k > 0 { RowsBound(colors[1..], k - 1); }
  }

  lemma DefaultAsked(d: Document, k: nat, value: Value)
    requires Closed(d) && k < |d.colors|
    ensures ApplyChannel(d, k, ChannelDefault(value)).Ok? <==> ChannelAsks(d.colors[k], ChannelDefault(value))
  {
    if value.Text? {
      DefaultIs(d, k, value.text);
      var swatches := d.colors[k].swatches;
      assert ChannelOk(d.colors[k]);
      FoundAt(SwatchKey, swatches, value.text);
      forall n | 0 <= n < |swatches| ensures SwatchKey(swatches[n]) == swatches[n].key {}
    }
  }

  lemma ChannelAsked(d: Document, k: nat, e: ChannelEdit)
    requires Closed(d) && k < |d.colors| && ColorRows(d.colors) <= 5000
    ensures ApplyChannel(d, k, e).Ok? <==> ChannelAsks(d.colors[k], e)
  {
    match e
    case DeleteChannel =>
    case ChannelName(value) => NameAsked(value);
    case AddSwatch(value) =>
      RowsBound(d.colors, k);
      NameOrAsked(value, |d.colors[k].swatches| + 1);
    case ChannelDefault(value) => DefaultAsked(d, k, value);
    case EditSwatch(key, edit) =>
      EditSwatchApplied(d, k, key, edit);
      SwatchEditAsked(d, k, key, edit);
  }

  lemma ChannelFound(d: Document, key: string)
    requires Closed(d)
    ensures HasChannel(d.colors, key) <==> exists k :: 0 <= k < |d.colors| && d.colors[k].key == key
    ensures forall k :: 0 <= k < |d.colors| && d.colors[k].key == key ==> k == Find(ChannelKey, d.colors, key)
  {
    FoundAt(ChannelKey, d.colors, key);
    forall n | 0 <= n < |d.colors| ensures ChannelKey(d.colors[n]) == d.colors[n].key {}
  }

  lemma AddAsked(d: Document, a: Action)
    requires Closed(d) && ColorRows(d.colors) <= 5000 && a.AddChannel?
    ensures Apply(d, a).Ok? <==> Asks(d, a)
  {
    RowsCoverChannels(d.colors);
    NameOrAsked(a.value, |d.colors| + 1);
  }

  lemma AssignAsked(d: Document, a: Action)
    requires Closed(d) && a.AssignStyle?
    ensures Apply(d, a).Ok? <==> Asks(d, a)
  {
    if a.value.Text? { ChannelFound(d, a.value.text); }
  }

  lemma SomeAsks(d: Document, key: string, e: ChannelEdit)
    requires Closed(d) && ColorRows(d.colors) <= 5000
    ensures var k := Find(ChannelKey, d.colors, key);
      SomeChannelAsks(d.colors, key, e) <==> k < |d.colors| && ApplyChannel(d, k, e).Ok?
  {
    ChannelFound(d, key);
    var k := Find(ChannelKey, d.colors, key);
    if k < |d.colors| {
      assert ChannelKey(d.colors[k]) == key;
      ChannelAsked(d, k, e);
    }
  }

  lemma EditIs(d: Document, key: string, e: ChannelEdit)
    requires Closed(d)
    ensures var k := Find(ChannelKey, d.colors, key);
      Apply(d, EditChannel(key, e)).Ok? <==> k < |d.colors| && ApplyChannel(d, k, e).Ok?
  {
  }

  lemma ActionAsked(d: Document, a: Action)
    requires Closed(d) && ColorRows(d.colors) <= 5000
    ensures Apply(d, a).Ok? <==> Asks(d, a)
  {
    match a
    case AddChannel(_) => AddAsked(d, a);
    case AssignStyle(_, _, _, _) => AssignAsked(d, a);
    case EditChannel(key, e) =>
      EditIs(d, key, e);
      SomeAsks(d, key, e);
  }

  /** A whole-style lock stands against the action: of the style assigned, or of a style linked to the channel. */
  ghost predicate Protected(d: Document, a: Action) {
    match a
    case AddChannel(_) => false
    case AssignStyle(partKey, itemKey, styleKey, _) =>
      StyleExists(d.parts, partKey, itemKey, styleKey) &&
      var p := Find(PartKey, d.parts, partKey);
      var i := Find(ItemKey, d.parts[p].items, itemKey);
      d.parts[p].items[i].styles[Find(StyleKey, d.parts[p].items[i].styles, styleKey)].locked
    case EditChannel(key, _) =>
      exists p, i, s :: AtStyle(d.parts, p, i, s) && StyleAt(d.parts, p, i, s).locked && StyleAt(d.parts, p, i, s).colorChannelKey == Some(key)
  }

  lemma LockLinks(parts: seq<Part>, key: string)
    ensures ChannelLocked(parts, key) <==>
              exists p, i, s :: AtStyle(parts, p, i, s) && StyleAt(parts, p, i, s).locked && StyleAt(parts, p, i, s).colorChannelKey == Some(key)
  {
    if p, i, s :| AtStyle(parts, p, i, s) && StyleAt(parts, p, i, s).locked && StyleAt(parts, p, i, s).colorChannelKey == Some(key) {
      assert IsLockedLink(parts[p].items[i].styles[s], key);
    }
    if ChannelLocked(parts, key) {
      var p, i, s :| 0 <= p < |parts| && 0 <= i < |parts[p].items| && 0 <= s < |parts[p].items[i].styles|
                     && IsLockedLink(parts[p].items[i].styles[s], key);
      assert AtStyle(parts, p, i, s) && StyleAt(parts, p, i, s).locked;
    }
  }

  lemma LockAsked(d: Document, a: Action)
    requires Closed(d) && Apply(d, a).Ok?
    ensures Apply(d, a).value.locked <==> Protected(d, a)
  {
    match a
    case AddChannel(_) =>
    case AssignStyle(_, _, _, _) =>
    case EditChannel(key, e) =>
      LockIs(d, key, e);
      LockLinks(d.parts, key);
  }

  lemma LockIs(d: Document, key: string, e: ChannelEdit)
    requires Closed(d) && Apply(d, EditChannel(key, e)).Ok?
    ensures Apply(d, EditChannel(key, e)).value.locked == ChannelLocked(d.parts, key)
  {
  }

  /** What the action writes, when it asks for something there is. */
  function Written(d: Document, a: Action): Document
    requires Closed(d)
  { if Apply(d, a).Ok? then Apply(d, a).value.document else d }

  /** An edit is accepted exactly when the document is valid, the action asks for something there is, the result stays
      within the publication limits, and no lock protects what it would change. */
  lemma AcceptedExactly(budget: Document -> bool, d: Document, a: Action)
    ensures Prepare(budget, d, a).Ok? <==>
              && Valid(budget, d) && Asks(d, a) && WithinLimits(budget, Written(d, a))
              && (Written(d, a) == d || !Protected(d, a))
  {
    if Valid(budget, d) {
      ActionAsked(d, a);
      if Apply(d, a).Ok? {
        LockAsked(d, a);
        EditCloses(d, a);
        AcceptedWhen(budget, d, a);
      }
    }
  }

  lemma AcceptedWhen(budget: Document -> bool, d: Document, a: Action)
    requires Valid(budget, d) && Apply(d, a).Ok?
    ensures Prepare(budget, d, a).Ok? <==>
              var next := Apply(d, a).value; Valid(budget, next.document) && (next.document == d || !next.locked)
  {
  }
}
