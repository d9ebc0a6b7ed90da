/** What every Smart Color edit keeps, before the final validation looks at it. */
module CreatorColorRules {
  import opened Results
  import opened ColorText
  import opened Sequences
  import opened Keyed
  import opened CreatorColors
  import FreshKeys
  import SafeText

  // ---- references carried from one set of channels to another -----------------------------------------

  lemma MapStylesAt(f: Style -> Style, parts: seq<Part>, p: int, i: int, s: int)
    ensures AtStyle(MapStyles(f, parts), p, i, s) == AtStyle(parts, p, i, s)
    ensures AtStyle(parts, p, i, s) ==> StyleAt(MapStyles(f, parts), p, i, s) == f(StyleAt(parts, p, i, s))
  {}

  lemma StylesCarry(colors: seq<Channel>, parts: seq<Part>, colors': seq<Channel>, f: Style -> Style)
    requires StylesOk(colors, parts) && forall s :: StyleOk(colors, s) ==> StyleOk(colors', f(s))
    ensures StylesOk(colors', MapStyles(f, parts))
  {
    forall p, i, s | AtStyle(MapStyles(f, parts), p, i, s) ensures StyleOk(colors', StyleAt(MapStyles(f, parts), p, i, s)) {
      MapStylesAt(f, parts, p, i, s);
      assert StyleOk(colors, StyleAt(parts, p, i, s));
    }
  }

  /** Whatever resolved still resolves. */
  ghost predicate Extends(colors: seq<Channel>, colors': seq<Channel>) {
    forall c, s :: Resolves(colors, c, s) ==> Resolves(colors', c, s)
  }

  lemma ExtendsKeeps(colors: seq<Channel>, parts: seq<Part>, recipe: seq<Choice>, colors': seq<Channel>)
    requires StylesOk(colors, parts) && RecipeOk(colors, recipe) && Extends(colors, colors')
    ensures StylesOk(colors', parts) && RecipeOk(colors', recipe)
  {
    forall p, i, s | AtStyle(parts, p, i, s) ensures StyleOk(colors', StyleAt(parts, p, i, s)) {
      assert StyleOk(colors, StyleAt(parts, p, i, s));
    }
    forall k | 0 <= k < |recipe| ensures ChoiceOk(colors', recipe[k]) {
      assert ChoiceOk(colors, recipe[k]);
    }
  }

  /** c offers every swatch that d does. */
  ghost predicate Offers(c: Channel, d: Channel) { forall s :: HasSwatch(d, s) ==> HasSwatch(c, s) }

  lemma UpdateExtends(colors: seq<Channel>, i: nat, c: Channel)
    requires ColorsOk(colors) && i < |colors| && c.key == colors[i].key && ChannelOk(c) && Offers(c, colors[i])
    ensures ColorsOk(colors[i := c]) && Extends(colors, colors[i := c])
  {
    DistinctUpdate(ChannelKey, colors, i, c);
    FindOnly(ChannelKey, colors, i);
    forall ck, sk | Resolves(colors, ck, sk) ensures Resolves(colors[i := c], ck, sk) {
      LookupUpdate(ChannelKey, colors, i, c, ck);
    }
  }

  lemma AppendExtends(colors: seq<Channel>, c: Channel)
    requires ColorsOk(colors) && !HasChannel(colors, c.key) && ChannelOk(c)
    ensures ColorsOk(colors + [c]) && Extends(colors, colors + [c]) && Resolves(colors + [c], c.key, c.defaultSwatchKey)
  {
    DistinctAppend(ChannelKey, colors, c);
    forall ck, sk | Resolves(colors, ck, sk) ensures Resolves(colors + [c], ck, sk) {
      LookupAppend(ChannelKey, colors, c, ck);
    }
    LookupAppend(ChannelKey, colors, c, c.key);
  }

  /** Setting a recipe color that resolves keeps the recipe resolved and one choice to a channel. */
  lemma SetRecipeKeeps(colors: seq<Channel>, recipe: seq<Choice>, channel: string, swatch: string)
    requires RecipeOk(colors, recipe) && Resolves(colors, channel, swatch)
    ensures RecipeOk(colors, SetRecipeColor(recipe, channel, swatch))
    ensures RecipeColor(SetRecipeColor(recipe, channel, swatch), channel) == Some(swatch)
    ensures forall other :: other != channel ==> RecipeColor(SetRecipeColor(recipe, channel, swatch), other) == RecipeColor(recipe, other)
  {
    var k := Find(ChoiceKey, recipe, channel);
    var next := SetRecipeColor(recipe, channel, swatch);
    if k < |recipe| {
      DistinctUpdate(ChoiceKey, recipe, k, recipe[k].(swatchKey := swatch));
    } else {
      DistinctAppend(ChoiceKey, recipe, Choice(channel, swatch));
    }
    SetRecipeOthers(recipe, channel, swatch);
  }

  /** The recipe's color for a channel. */
  function RecipeColor(recipe: seq<Choice>, channel: string): Option<string> {
    var k := Find(ChoiceKey, recipe, channel);
    if k < |recipe| then Some(recipe[k].swatchKey) else None
  }

  lemma SetRecipeOthers(recipe: seq<Choice>, channel: string, swatch: string)
    ensures RecipeColor(SetRecipeColor(recipe, channel, swatch), channel) == Some(swatch)
    ensures forall other :: other != channel ==> RecipeColor(SetRecipeColor(recipe, channel, swatch), other) == RecipeColor(recipe, other)
  {
    var next := SetRecipeColor(recipe, channel, swatch);
    var k := Find(ChoiceKey, recipe, channel);
    assert |recipe| <= |next| && next[k] == Choice(channel, swatch);
    assert forall j :: 0 <= j < |recipe| && j != k ==> next[j] == recipe[j];
    forall other | other != channel ensures RecipeColor(next, other) == RecipeColor(recipe, other) {
      var i, j := Find(ChoiceKey, recipe, other), Find(ChoiceKey, next, other);
      assert i < |recipe| ==> next[i] == recipe[i];
    }
  }

  // ---- fresh keys -------------------------------------------------------------------------------------

  lemma ColorNamesDiffer()
    ensures FreshKeys.Distinct(ColorName)
  {
    forall i: nat, j: nat | i != j ensures ColorName(i) != ColorName(j) {
      if ColorName(i) == ColorName(j) { FreshKeys.NumberedInjective("color", "color", i, j); }
    }
  }

  /** uniqueKey gives a key no row has, and a safe one in any list within the publication limits. */
  lemma UniqueKeyIsFresh<T>(key: T -> string, rows: seq<T>, initial: nat)
    ensures Find(key, rows, UniqueKey(key, rows, initial)) == |rows|
    ensures |rows| <= 5000 && initial <= 5001 ==> SafeText.IsSafeKey(UniqueKey(key, rows, initial), 128)
  {
    var used := FreshKeys.Members(Keys(key, rows));
    ColorNamesDiffer();
    FreshKeys.FirstFreeIsFree(ColorName, used, initial);
    forall j | 0 <= j < |rows| ensures key(rows[j]) in used {
      assert Keys(key, rows)[j] == key(rows[j]);
    }
    if |rows| <= 5000 && initial <= 5001 {
      MembersBound(Keys(key, rows));
      ColorNameSafe(FreshKeys.FirstFree(ColorName, used, initial, |used|));
    }
  }

  lemma {:induction false} MembersBound(keys: seq<string>)
    ensures |FreshKeys.Members(keys)| <= |keys|
  {
    if keys == [] {
      assert FreshKeys.Members(keys) == {};
    } else {
      MembersBound(keys[1..]);
      assert keys == [keys[0]] + keys[1..];
      assert FreshKeys.Members(keys) == {keys[0]} + FreshKeys.Members(keys[1..]);
    }
  }

  lemma ColorNameSafe(n: nat)
    requires n < 100000
    ensures SafeText.IsSafeKey(ColorName(n), 128)
  {
    FreshKeys.DecimalShort(n, 100000, 5);
  }

  /** uniqueKey ends: its loop counts to a key no row has. */
  method FindUniqueKey<T>(key: T -> string, rows: seq<T>, initial: nat) returns (r: string)
    ensures r == UniqueKey(key, rows, initial)
    ensures Find(key, rows, r) == |rows|
  {
    ColorNamesDiffer();
    var suffix := FreshKeys.SearchFree(ColorName, Keys(key, rows), initial);
    UniqueKeyIsFresh(key, rows, initial);
    return ColorName(suffix);
  }
}
