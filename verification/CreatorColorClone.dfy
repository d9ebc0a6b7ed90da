/** The body of prepareCreatorColorChange on the cloned document, in place, proved to write what Apply says. */
module CreatorColorClone {
  import opened Results
  import opened ColorText
  import opened Sequences
  import opened Keyed
  import opened CreatorColors
  import opened CreatorColorRules

  class Clone {
    var parts: seq<Part>
    var colors: seq<Channel>
    var recipe: seq<Choice>
    const otherUnits: nat

    constructor (d: Document)
      ensures State() == d
    {
      parts, colors, recipe, otherUnits := d.parts, d.colors, d.recipe, d.otherUnits;
    }

    function State(): Document
      reads this
    { Document(parts, colors, recipe, otherUnits) }

    /** setRecipeColor */
    method ChooseColor(channel: string, swatch: string)
      modifies this`recipe
      ensures recipe == SetRecipeColor(old(recipe), channel, swatch)
    {
      var k := 0;
      while k < |recipe| && recipe[k].channelKey != channel
        invariant 0 <= k <= |recipe| && recipe == old(recipe)
        invariant forall j :: 0 <= j < k ==> ChoiceKey(recipe[j]) != channel
      {
        k := k + 1;
      }
      if k < |recipe| { assert ChoiceKey(recipe[k]) == channel; }
      if k < |recipe| {
        recipe := recipe[k := recipe[k].(swatchKey := swatch)];
      } else {
        recipe := recipe + [Choice(channel, swatch)];
      }
    }

    /** The loop over the styles, part by part. */
    method EachStyle(f: Style -> Style)
      modifies this`parts
      ensures parts == MapStyles(f, old(parts))
    {
      ghost var was := parts;
      ghost var all := MapStyles(f, was);
      for p := 0 to |parts|
        invariant |parts| == |was| && was == old(parts)
        invariant forall j :: 0 <= j < p ==> parts[j] == all[j]
        invariant forall j :: p <= j < |parts| ==> parts[j] == was[j]
      {
        parts := parts[p := MapPart(f, parts[p])];
      }
    }

    method DeleteChannel(k: nat)
      requires k < |colors|
      modifies this
      ensures State() == ApplyDeleteChannel(old(State()), k)
    {
      var key := colors[k].key;
      colors := colors[..k] + colors[k + 1..];
      EachStyle((s: Style) => Unlink(key, s));
      recipe := Keep((c: Choice) => c.channelKey != key, recipe);
    }

    /** The loop over the recipe's colors after a swatch is deleted. */
    method RepairRecipe(key: string, swatch: string, fallback: string)
      modifies this`recipe
      ensures recipe == Map((c: Choice) => Rechoose(key, swatch, fallback, c), old(recipe))
    {
      ghost var was := recipe;
      ghost var all := Map((c: Choice) => Rechoose(key, swatch, fallback, c), was);
      for k := 0 to |recipe|
        invariant |recipe| == |was| && was == old(recipe)
        invariant forall j :: 0 <= j < k ==> recipe[j] == all[j]
        invariant forall j :: k <= j < |recipe| ==> recipe[j] == was[j]
      {
        if recipe[k].channelKey == key && recipe[k].swatchKey == swatch {
          recipe := recipe[k := recipe[k].(swatchKey := fallback)];
        }
      }
    }

    method DeleteSwatch(k: nat, swatch: string)
      requires k < |colors|
      modifies this
      ensures State() == ApplyDeleteSwatch(old(State()), k, swatch)
    {
      var kept := Keep((s: Swatch) => s.key != swatch, colors[k].swatches);
      var fallback := if colors[k].defaultSwatchKey == swatch && kept != [] then kept[0].key else colors[k].defaultSwatchKey;
      var key := colors[k].key;
      colors := colors[k := colors[k].(swatches := kept, defaultSwatchKey := fallback)];
      EachStyle((s: Style) => Relink(key, swatch, fallback, s));
      RepairRecipe(key, swatch, fallback);
    }

    /** A new row, and the recipe's choice of its default. */
    method AppendChannel(channel: Channel)
      modifies this
      ensures State() == old(State()).(colors := old(colors) + [channel],
                                       recipe := SetRecipeColor(old(recipe), channel.key, channel.defaultSwatchKey))
    {
      colors := colors + [channel];
      ChooseColor(channel.key, channel.defaultSwatchKey);
    }

    method WriteNewChannel(value: Value) returns (r: Result<string, Failure>)
      modifies this
      ensures r.Err? ==> ApplyAddChannel(old(State()), value) == Err(r.error)
      ensures r.Ok? ==> ApplyAddChannel(old(State()), value) == Ok(Edit(State(), false, Selected(Some(r.value))))
    {
      var key := FindUniqueKey(ChannelKey, colors, |colors| + 1);
      var text := NameOr(value, |colors| + 1);
      if text.None? { return Err(BadLabel); }
      AppendChannel(NewChannel(key, text.value));
      return Ok(key);
    }

    method SetChannel(k: nat, channel: Channel)
      requires k < |colors|
      modifies this`colors
      ensures State() == old(State()).(colors := old(colors)[k := channel])
    {
      colors := colors[k := channel];
    }

    method WriteNewSwatch(k: nat, value: Value) returns (failure: Option<Failure>)
      requires k < |colors| && Closed(State())
      modifies this
      ensures ApplyChannel(old(State()), k, AddSwatch(value)) == if failure.Some? then Err(failure.value) else Ok(State())
    {
      var channel := colors[k];
      var key := FindUniqueKey(SwatchKey, channel.swatches, |channel.swatches| + 1);
      var text := NameOr(value, |channel.swatches| + 1);
      if text.None? { return Some(BadLabel); }
      SetChannel(k, channel.(swatches := channel.swatches + [NewSwatch(key, text.value)]));
      return None;
    }

    method WriteDefault(k: nat, value: Value) returns (failure: Option<Failure>)
      requires k < |colors| && Closed(State())
      modifies this
      ensures ApplyChannel(old(State()), k, ChannelDefault(value)) == if failure.Some? then Err(failure.value) else Ok(State())
    {
      var channel := colors[k];
      if !value.Text? || !HasSwatch(channel, value.text) { return Some(NoSwatch); }
      SetChannel(k, channel.(defaultSwatchKey := value.text));
      ChooseColor(channel.key, value.text);
      return None;
    }

    method WriteSwatch(k: nat, swatchKey: string, edit: SwatchEdit) returns (failure: Option<Failure>)
      requires k < |colors| && Closed(State())
      modifies this
      ensures ApplySwatch(old(State()), k, swatchKey, edit) == if failure.Some? then Err(failure.value) else Ok(State())
    {
      var channel := colors[k];
      var j := Find(SwatchKey, channel.swatches, swatchKey);
      if j == |channel.swatches| { return Some(NoSwatch); }
      if edit.DeleteSwatch? {
        if |channel.swatches| <= 1 { return Some(LastSwatch); }
        DeleteSwatch(k, swatchKey);
        return None;
      }
      var r := EditedSwatch(channel.swatches[j], edit);
      if r.Err? { return Some(r.error); }
      SetChannel(k, channel.(swatches := channel.swatches[j := r.value]));
      return None;
    }

    method WriteChannel(k: nat, e: ChannelEdit) returns (failure: Option<Failure>)
      requires k < |colors| && Closed(State())
      modifies this
      ensures ApplyChannel(old(State()), k, e) == if failure.Some? then Err(failure.value) else Ok(State())
    {
      match e
      case DeleteChannel => DeleteChannel(k); failure := None;
      case ChannelName(value) =>
        var text := Label(value);
        if text.None? { return Some(BadLabel); }
        SetChannel(k, colors[k].(text := text.value));
        failure := None;
      case AddSwatch(value) => failure := WriteNewSwatch(k, value);
      case ChannelDefault(value) => failure := WriteDefault(k, value);
      case EditSwatch(swatchKey, edit) => failure := WriteSwatch(k, swatchKey, edit);
    }

    /** The style branch; the result says whether the style is locked as a whole. */
    method LinkStyle(a: Action) returns (r: Result<bool, Failure>)
      requires a.AssignStyle?
      modifies this`parts
      ensures r.Err? ==> ApplyAssign(old(State()), a) == Err(r.error)
      ensures r.Ok? ==> a.value.Text?
      ensures r.Ok? ==> ApplyAssign(old(State()), a) == Ok(Edit(State(), r.value, if a.value.text == "" then Unselected else Selected(Some(a.value.text))))
    {
      if !StyleExists(parts, a.partKey, a.itemKey, a.styleKey) { return Err(NoStyle); }
      if !a.value.Text? || (a.value.text != "" && !HasChannel(colors, a.value.text)) { return Err(NoChannel); }
      var p := Find(PartKey, parts, a.partKey);
      var i := Find(ItemKey, parts[p].items, a.itemKey);
      var s := Find(StyleKey, parts[p].items[i].styles, a.styleKey);
      var style := parts[p].items[i].styles[s];
      r := Ok(style.locked);
      var channel := if a.value.text == "" then None else Some(a.value.text);
      if style.colorChannelKey != channel {
        var k := Find(ChannelKey, colors, a.value.text);
        style := style.(colorChannelKey := channel,
                        defaultSwatchKey := if k < |colors| then Some(colors[k].defaultSwatchKey) else None);
      }
      parts := SetStyle(parts, p, i, s, style);
    }

    /** One action on the clone: whether a lock protects what it changed, and the selection it leaves. */
    method Write(a: Action) returns (r: Result<(bool, Selection), Failure>)
      requires Closed(State())
      modifies this
      ensures r.Err? ==> Apply(old(State()), a) == Err(r.error)
      ensures r.Ok? ==> Apply(old(State()), a) == Ok(Edit(State(), r.value.0, r.value.1))
    {
      match a
      case AddChannel(value) =>
        var key := WriteNewChannel(value);
        return if key.Err? then Err(key.error) else Ok((false, Selected(Some(key.value))));
      case AssignStyle(_, _, _, _) =>
        var locked := LinkStyle(a);
        return if locked.Err? then Err(locked.error)
               else Ok((locked.value, if a.value.text == "" then Unselected else Selected(Some(a.value.text))));
      case EditChannel(key, e) =>
        var k := Find(ChannelKey, colors, key);
        if k == |colors| { return Err(NoChannel); }
        var locked := ChannelLocked(parts, key);
        var failure := WriteChannel(k, e);
        if failure.Some? { return Err(failure.value); }
        return Ok((locked, Selected(if e.DeleteChannel? then NextSelection(colors, k) else Some(key))));
    }
  }

  /** What document validation asks of colors, style by style. */
  method Validate(budget: Document -> bool, d: Document) returns (ok: bool)
    ensures ok <==> Valid(budget, d)
  {
    ok := ColorsOk(d.colors) && RecipeOk(d.colors, d.recipe) && WithinLimits(budget, d)
      && forall p | 0 <= p < |d.parts| :: forall i | 0 <= i < |d.parts[p].items| ::
           forall s | 0 <= s < |d.parts[p].items[i].styles| :: StyleOk(d.colors, d.parts[p].items[i].styles[s]);
    assert ok ==> StylesOk(d.colors, d.parts);
    if StylesOk(d.colors, d.parts) {
      forall p, i, s | 0 <= p < |d.parts| && 0 <= i < |d.parts[p].items| && 0 <= s < |d.parts[p].items[i].styles|
        ensures StyleOk(d.colors, d.parts[p].items[i].styles[s])
      { assert AtStyle(d.parts, p, i, s); }
    }
  }

  /** prepareCreatorColorChange: validate, clone, write, validate again, and compare. */
  method PrepareChange(budget: Document -> bool, d: Document, a: Action) returns (r: Result<Outcome, Failure>)
    ensures r == Prepare(budget, d, a)
  {
    var before := Validate(budget, d);
    if !before { return Err(InvalidDocument); }
    var next := new Clone(d);
    var written := next.Write(a);
    if written.Err? { return Err(written.error); }
    var (locked, selection) := written.value;
    var after := Validate(budget, next.State());
    if !after { return Err(InvalidDocument); }
    var changed := next.State() != d;
    if changed && locked { return Err(Locked); }
    return Ok(Outcome(if changed then next.State() else d, changed, selection));
  }
}
