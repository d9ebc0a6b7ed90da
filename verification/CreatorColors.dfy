/**
 * maker-v8-creator-colors.js: Smart Color edits of a Maker document.  Apply is what the edit writes before the final
 * validation, Prepare the whole of prepareCreatorColorChange; class Clone writes the edits in place.
 */
module CreatorColors {
  import opened Results
  import opened ColorText
  import opened Sequences
  import opened Keyed
  import FreshKeys
  import SafeText

  datatype Swatch = Swatch(key: string, text: string, rgba: string, stops: seq<Stop>)
  datatype Channel = Channel(key: string, text: string, defaultSwatchKey: string, swatches: seq<Swatch>)
  datatype Style = Style(key: string, colorChannelKey: Option<string>, defaultSwatchKey: Option<string>, locked: bool)
  datatype Item = Item(key: string, isPublic: bool, styles: seq<Style>)
  datatype Part = Part(key: string, items: seq<Item>)
  datatype Choice = Choice(channelKey: string, swatchKey: string)

  /** otherUnits is the seal budget used by what no color edit touches. */
  datatype Document = Document(parts: seq<Part>, colors: seq<Channel>, recipe: seq<Choice>, otherUnits: nat)

  datatype SwatchEdit = DeleteSwatch | SwatchName(value: Value) | SwatchHint(value: Value) | SwatchMid(value: Value)
    | SwatchStop(stopIndex: Option<int>, value: Value) | Unknown

  datatype ChannelEdit = DeleteChannel | ChannelName(value: Value) | AddSwatch(value: Value) | ChannelDefault(value: Value)
    | EditSwatch(swatchKey: string, edit: SwatchEdit)

  datatype Action = AddChannel(value: Value) | AssignStyle(partKey: string, itemKey: string, styleKey: string, value: Value)
    | EditChannel(channelKey: string, edit: ChannelEdit)

  datatype Failure = InvalidDocument | BadLabel | BadColor | NoStyle | NoChannel | NoSwatch | LastSwatch | NoStop | UnknownEdit | Locked

  datatype Selection = Unselected | Selected(key: Option<string>)

  /** What an edit wrote, whether a whole-style lock protects it, and the channel to select next. */
  datatype Edit = Edit(document: Document, locked: bool, selection: Selection)

  datatype Outcome = Outcome(document: Document, changed: bool, selection: Selection)

  // ---- the color part of document validation ----------------------------------------------------------

  function SwatchKey(s: Swatch): string { s.key }
  function ChannelKey(c: Channel): string { c.key }
  function ChoiceKey(c: Choice): string { c.channelKey }

  predicate HasSwatch(c: Channel, k: string) { Find(SwatchKey, c.swatches, k) < |c.swatches| }

  predicate HasChannel(colors: seq<Channel>, k: string) { Find(ChannelKey, colors, k) < |colors| }

  /** A channel and one of its swatches. */
  predicate Resolves(colors: seq<Channel>, channel: string, swatch: string) {
    HasChannel(colors, channel) && HasSwatch(colors[Find(ChannelKey, colors, channel)], swatch)
  }

  predicate SwatchOk(s: Swatch) {
    && SafeText.IsSafeKey(s.key, 128) && Label(Text(s.text)).Some? && IsRgba(s.rgba)
    && forall k :: 0 <= k < |s.stops| ==> StopOk(s.stops[k])
  }

  predicate ChannelOk(c: Channel) {
    && SafeText.IsSafeKey(c.key, 128) && Trim(c.text) != "" && SafeText.Utf8Length(c.text) <= 256
    && (forall k :: 0 <= k < |c.swatches| ==> SwatchOk(c.swatches[k])) && Distinct(SwatchKey, c.swatches)
    && HasSwatch(c, c.defaultSwatchKey)
  }

  predicate ColorsOk(colors: seq<Channel>) {
    (forall i :: 0 <= i < |colors| ==> ChannelOk(colors[i])) && Distinct(ChannelKey, colors)
  }

  /** A style links no channel, or a channel and one of its swatches. */
  predicate StyleOk(colors: seq<Channel>, s: Style) {
    if s.colorChannelKey.None? then s.defaultSwatchKey.None?
    else s.defaultSwatchKey.Some? && Resolves(colors, s.colorChannelKey.value, s.defaultSwatchKey.value)
  }

  predicate AtStyle(parts: seq<Part>, p: int, i: int, s: int) {
    0 <= p < |parts| && 0 <= i < |parts[p].items| && 0 <= s < |parts[p].items[i].styles|
  }

  function StyleAt(parts: seq<Part>, p: int, i: int, s: int): Style
    requires AtStyle(parts, p, i, s)
  { parts[p].items[i].styles[s] }

  ghost predicate StylesOk(colors: seq<Channel>, parts: seq<Part>) {
    forall p, i, s :: AtStyle(parts, p, i, s) ==> StyleOk(colors, StyleAt(parts, p, i, s))
  }

  predicate ChoiceOk(colors: seq<Channel>, c: Choice) { Resolves(colors, c.channelKey, c.swatchKey) }

  predicate RecipeOk(colors: seq<Channel>, recipe: seq<Choice>) {
    (forall k :: 0 <= k < |recipe| ==> ChoiceOk(colors, recipe[k])) && Distinct(ChoiceKey, recipe)
  }

  /** Every color reference resolves, keys are distinct, and every color row is well formed. */
  ghost predicate Closed(d: Document) {
    ColorsOk(d.colors) && StylesOk(d.colors, d.parts) && RecipeOk(d.colors, d.recipe)
  }

  function ColorRows(colors: seq<Channel>): nat {
    if colors == [] then 0 else |colors[0].swatches| + ColorRows(colors[1..])
  }

  function PublicChannels(parts: seq<Part>): set<string> {
    set p, i, s | 0 <= p < |parts| && 0 <= i < |parts[p].items| && 0 <= s < |parts[p].items[i].styles|
      && parts[p].items[i].isPublic && parts[p].items[i].styles[s].colorChannelKey.Some? ::
      parts[p].items[i].styles[s].colorChannelKey.value
  }

  /** The publication limits a color edit can exceed; budget is the size bound on the whole document tree. */
  predicate WithinLimits(budget: Document -> bool, d: Document) {
    ColorRows(d.colors) <= 5000 && d.otherUnits + |PublicChannels(d.parts)| <= 1000 && budget(d)
  }

  ghost predicate Valid(budget: Document -> bool, d: Document) { Closed(d) && WithinLimits(budget, d) }

  // ---- the edits --------------------------------------------------------------------------------------

  function ColorName(n: nat): string { "color" + "-" + FreshKeys.Decimal(n) }

  /** uniqueKey */
  function UniqueKey<T>(key: T -> string, rows: seq<T>, initial: nat): string {
    var used := FreshKeys.Members(Keys(key, rows));
    ColorName(FreshKeys.FirstFree(ColorName, used, initial, |used|))
  }

  function SetRecipeColor(recipe: seq<Choice>, channel: string, swatch: string): seq<Choice> {
    var k := Find(ChoiceKey, recipe, channel);
    if k < |recipe| then recipe[k := recipe[k].(swatchKey := swatch)] else recipe + [Choice(channel, swatch)]
  }

  function MapItem(f: Style -> Style, item: Item): Item { item.(styles := Map(f, item.styles)) }
  function MapPart(f: Style -> Style, part: Part): Part { part.(items := Map((i: Item) => MapItem(f, i), part.items)) }

  /** The loop over every style of the document. */
  function MapStyles(f: Style -> Style, parts: seq<Part>): seq<Part> { Map((p: Part) => MapPart(f, p), parts) }

  predicate IsLockedLink(s: Style, channel: string) { s.locked && s.colorChannelKey == Some(channel) }

  /** creatorColorState().locked of an existing channel: some linked style is locked as a whole. */
  predicate ChannelLocked(parts: seq<Part>, channel: string) {
    exists p, i, s :: 0 <= p < |parts| && 0 <= i < |parts[p].items| && 0 <= s < |parts[p].items[i].styles|
                      && IsLockedLink(parts[p].items[i].styles[s], channel)
  }

  predicate CanDeleteSwatch(d: Document, channel: string) {
    var i := Find(ChannelKey, d.colors, channel);
    i < |d.colors| && !ChannelLocked(d.parts, channel) && |d.colors[i].swatches| > 1
  }

  const VIOLET := "#7b5cffff"
  const PINK := "#f06f8fff"

  function NewChannel(key: string, text: string): Channel {
    Channel(key, text, "default", [Swatch("default", "Default", VIOLET, Gradient(VIOLET))])
  }

  function NewSwatch(key: string, text: string): Swatch { Swatch(key, text, PINK, Gradient(PINK)) }

  /** The name given, or Color N for the N-th row. */
  function NameOr(value: Value, n: nat): Option<string> {
    if value.Missing? then Label(Text("Color " + FreshKeys.Decimal(n))) else Label(value)
  }

  function ApplyAddChannel(d: Document, value: Value): Result<Edit, Failure> {
    var key := UniqueKey(ChannelKey, d.colors, |d.colors| + 1);
    var text := NameOr(value, |d.colors| + 1);
    if text.None? then Err(BadLabel)
    else Ok(Edit(d.(colors := d.colors + [NewChannel(key, text.value)], recipe := SetRecipeColor(d.recipe, key, "default")),
                 false, Selected(Some(key))))
  }

  function PartKey(p: Part): string { p.key }
  function ItemKey(i: Item): string { i.key }
  function StyleKey(s: Style): string { s.key }

  predicate StyleExists(parts: seq<Part>, partKey: string, itemKey: string, styleKey: string) {
    var p := Find(PartKey, parts, partKey);
    p < |parts| &&
    var i := Find(ItemKey, parts[p].items, itemKey);
    i < |parts[p].items| && Find(StyleKey, parts[p].items[i].styles, styleKey) < |parts[p].items[i].styles|
  }

  function SetStyle(parts: seq<Part>, p: nat, i: nat, s: nat, style: Style): seq<Part>
    requires AtStyle(parts, p, i, s)
  {
    parts[p := parts[p].(items := parts[p].items[i := parts[p].items[i].(styles := parts[p].items[i].styles[s := style])])]
  }

  function Linked(colors: seq<Channel>, style: Style, value: string): Style {
    var channel := if value == "" then None else Some(value);
    if style.colorChannelKey == channel then style
    else style.(colorChannelKey := channel,
                defaultSwatchKey := if HasChannel(colors, value) then Some(colors[Find(ChannelKey, colors, value)].defaultSwatchKey) else None)
  }

  function ApplyAssign(d: Document, a: Action): Result<Edit, Failure>
    requires a.AssignStyle?
  {
    if !StyleExists(d.parts, a.partKey, a.itemKey, a.styleKey) then Err(NoStyle)
    else if !a.value.Text? || (a.value.text != "" && !HasChannel(d.colors, a.value.text)) then Err(NoChannel)
    else
      var p := Find(PartKey, d.parts, a.partKey);
      var i := Find(ItemKey, d.parts[p].items, a.itemKey);
      var s := Find(StyleKey, d.parts[p].items[i].styles, a.styleKey);
      var style := d.parts[p].items[i].styles[s];
      Ok(Edit(d.(parts := SetStyle(d.parts, p, i, s, Linked(d.colors, style, a.value.text))), style.locked,
              if a.value.text == "" then Unselected else Selected(Some(a.value.text))))
  }

  function Unlink(channel: string, s: Style): Style {
    if s.colorChannelKey == Some(channel) then s.(colorChannelKey := None, defaultSwatchKey := None) else s
  }

  /** A deleted swatch's links fall back to the channel default. */
  function Relink(channel: string, swatch: string, fallback: string, s: Style): Style {
    if s.colorChannelKey == Some(channel) && s.defaultSwatchKey == Some(swatch) then s.(defaultSwatchKey := Some(fallback)) else s
  }

  function Rechoose(channel: string, swatch: string, fallback: string, c: Choice): Choice {
    if c == Choice(channel, swatch) then c.(swatchKey := fallback) else c
  }

  function ApplyDeleteChannel(d: Document, k: nat): Document
    requires k < |d.colors|
  {
    var key := d.colors[k].key;
    d.(colors := d.colors[..k] + d.colors[k + 1..],
       parts := MapStyles((s: Style) => Unlink(key, s), d.parts),
       recipe := Keep((c: Choice) => c.channelKey != key, d.recipe))
  }

  function NextSelection(colors: seq<Channel>, index: nat): Option<string> {
    if colors == [] then None else Some(colors[if index < |colors| then index else |colors| - 1].key)
  }

  function SwatchesWithout(c: Channel, swatch: string): Channel {
    var kept := Keep((s: Swatch) => s.key != swatch, c.swatches);
    c.(swatches := kept, defaultSwatchKey := if c.defaultSwatchKey == swatch && kept != [] then kept[0].key else c.defaultSwatchKey)
  }

  function ApplyDeleteSwatch(d: Document, k: nat, swatch: string): Document
    requires k < |d.colors|
  {
    var key := d.colors[k].key;
    var channel := SwatchesWithout(d.colors[k], swatch);
    d.(colors := d.colors[k := channel],
       parts := MapStyles((s: Style) => Relink(key, swatch, channel.defaultSwatchKey, s), d.parts),
       recipe := Map((c: Choice) => Rechoose(key, swatch, channel.defaultSwatchKey, c), d.recipe))
  }

  function Middle(n: nat): nat
    requires n > 0
  { (n - 1) / 2 }

  /** The stops an edit of a derived gradient starts from. */
  function FullStops(s: Swatch): seq<Stop>
    requires SwatchOk(s)
  { if |s.stops| < 2 then Gradient(s.rgba) else s.stops }

  function EditMiddle(s: Swatch, color: string): Swatch
    requires SwatchOk(s)
  {
    var stops := FullStops(s);
    s.(rgba := color,
       stops := if |stops| == 2 then [stops[0], Stop(0.5, color), stops[1]]
                else stops[Middle(|stops|) := stops[Middle(|stops|)].(rgba := color)])
  }

  /** The edits of one swatch other than its deletion. */
  function EditedSwatch(s: Swatch, e: SwatchEdit): Result<Swatch, Failure>
    requires SwatchOk(s) && !e.DeleteSwatch?
  {
    match e
    case SwatchName(value) =>
      var text := Label(value);
      if text.None? then Err(BadLabel) else Ok(s.(text := text.value))
    case SwatchHint(value) =>
      var color := Rgba(value, s.rgba);
      if color.None? then Err(BadColor) else Ok(s.(rgba := color.value, stops := Gradient(color.value)))
    case SwatchMid(value) =>
      var color := Rgba(value, if |s.stops| >= 3 then s.stops[Middle(|s.stops|)].rgba else s.rgba);
      if color.None? then Err(BadColor) else Ok(EditMiddle(s, color.value))
    case SwatchStop(index, value) =>
      var stops := FullStops(s);
      if index.None? || !(0 <= index.value < |stops|) then Err(NoStop)
      else
        var color := Rgba(value, stops[index.value].rgba);
        if color.None? then Err(BadColor)
        else Ok(s.(stops := stops[index.value := stops[index.value].(rgba := color.value)]))
    case Unknown => Err(UnknownEdit)
  }

  function ApplySwatch(d: Document, k: nat, swatchKey: string, e: SwatchEdit): Result<Document, Failure>
    requires k < |d.colors| && Closed(d)
  {
    var channel := d.colors[k];
    var j := Find(SwatchKey, channel.swatches, swatchKey);
    if j == |channel.swatches| then Err(NoSwatch)
    else if e.DeleteSwatch? then
      if |channel.swatches| <= 1 then Err(LastSwatch) else Ok(ApplyDeleteSwatch(d, k, swatchKey))
    else
      var r := EditedSwatch(channel.swatches[j], e);
      if r.Err? then Err(r.error)
      else Ok(d.(colors := d.colors[k := channel.(swatches := channel.swatches[j := r.value])]))
  }

  function ApplyChannel(d: Document, k: nat, e: ChannelEdit): Result<Document, Failure>
    requires k < |d.colors| && Closed(d)
  {
    var channel := d.colors[k];
    match e
    case DeleteChannel => Ok(ApplyDeleteChannel(d, k))
    case ChannelName(value) =>
      var text := Label(value);
      if text.None? then Err(BadLabel) else Ok(d.(colors := d.colors[k := channel.(text := text.value)]))
    case AddSwatch(value) =>
      var text := NameOr(value, |channel.swatches| + 1);
      if text.None? then Err(BadLabel)
      else
        var swatch := NewSwatch(UniqueKey(SwatchKey, channel.swatches, |channel.swatches| + 1), text.value);
        Ok(d.(colors := d.colors[k := channel.(swatches := channel.swatches + [swatch])]))
    case ChannelDefault(value) =>
      if !value.Text? || !HasSwatch(channel, value.text) then Err(NoSwatch)
      else Ok(d.(colors := d.colors[k := channel.(defaultSwatchKey := value.text)],
                 recipe := SetRecipeColor(d.recipe, channel.key, value.text)))
    case EditSwatch(swatchKey, edit) => ApplySwatch(d, k, swatchKey, edit)
  }

  function Apply(d: Document, a: Action): Result<Edit, Failure>
    requires Closed(d)
  {
    match a
    case AddChannel(value) => ApplyAddChannel(d, value)
    case AssignStyle(_, _, _, _) => ApplyAssign(d, a)
    case EditChannel(key, e) =>
      var k := Find(ChannelKey, d.colors, key);
      if k == |d.colors| then Err(NoChannel)
      else
        var r := ApplyChannel(d, k, e);
        if r.Err? then Err(r.error)
        else Ok(Edit(r.value, ChannelLocked(d.parts, key),
                     Selected(if e.DeleteChannel? then NextSelection(r.value.colors, k) else Some(key))))
  }

  /** prepareCreatorColorChange */
  ghost function Prepare(budget: Document -> bool, d: Document, a: Action): Result<Outcome, Failure> {
    if !Valid(budget, d) then Err(InvalidDocument)
    else
      var edit := Apply(d, a);
      if edit.Err? then Err(edit.error)
      else if !Valid(budget, edit.value.document) then Err(InvalidDocument)
      else
        var changed := edit.value.document != d;
        if changed && edit.value.locked then Err(Locked)
        else Ok(Outcome(if changed then edit.value.document else d, changed, edit.value.selection))
  }
}
