/** What a Smart Color edit makes of text, colors and one swatch, said of the result and not of how it is computed. */
module SwatchEffects {
  import opened Results
  import opened SafeText
  import opened ColorText
  import opened CreatorColors
  import FreshKeys

  // ---- names ------------------------------------------------------------------------------------------

  predicate Blank(s: string, first: nat, end: nat)
    requires end <= |s|
  { forall k :: first <= k < end ==> IsSpace(s[k]) }

  /** text is full without the space around it. */
  predicate CutFrom(text: string, full: string, left: nat) {
    && text != "" && !IsSpace(text[0]) && !IsSpace(text[|text| - 1])
    && left + |text| <= |full| && (forall k :: 0 <= k < |text| ==> full[left + k] == text[k])
    && Blank(full, 0, left) && Blank(full, left + |text|, |full|)
  }

  /** The name a value gives: its trimmed text, of 1 to 256 UTF-8 bytes. */
  ghost predicate Named(value: Value, text: string) {
    value.Text? && Utf8Length(text) <= 256 && exists left :: CutFrom(text, value.text, left)
  }

  /** The name given, or Color n when none is. */
  ghost predicate NamedOr(value: Value, n: nat, text: string) {
    if value.Missing? then text == "Color " + FreshKeys.Decimal(n) else Named(value, text)
  }

  lemma {:induction false} StartCut(s: string) returns (left: nat)
    ensures left <= |s| && TrimStart(s) == s[left..] && Blank(s, 0, left)
  {
    left := 0;
    if s != "" && IsSpace(s[0]) {
      var rest := StartCut(s[1..]);
      left := rest + 1;
      forall k | 0 <= k < left ensures IsSpace(s[k]) { if k > 0 { assert s[1..][k - 1] == s[k]; } }
    }
  }

  lemma {:induction false} EndCut(s: string)
    ensures |TrimEnd(s)| <= |s| && Blank(s, |TrimEnd(s)|, |s|)
  {
    if s != "" && IsSpace(s[|s| - 1]) {
      EndCut(s[..|s| - 1]);
      forall k | |TrimEnd(s)| <= k < |s| ensures IsSpace(s[k]) {
        if k < |s| - 1 { assert s[..|s| - 1][k] == s[k]; }
      }
    }
  }

  lemma TrimCut(s: string) returns (left: nat)
    ensures left + |Trim(s)| <= |s| && (forall k :: 0 <= k < |Trim(s)| ==> s[left + k] == Trim(s)[k])
    ensures Blank(s, 0, left) && Blank(s, left + |Trim(s)|, |s|)
  {
    left := StartCut(s);
    var rest := s[left..];
    EndCut(rest);
    forall k | left + |Trim(s)| <= k < |s| ensures IsSpace(s[k]) { assert rest[k - left] == s[k]; }
    forall k | 0 <= k < |Trim(s)| ensures s[left + k] == Trim(s)[k] { assert rest[k] == s[left + k]; }
  }

  lemma CutNotBefore(a: string, b: string, s: string, left: nat, left': nat)
    requires CutFrom(a, s, left) && CutFrom(b, s, left')
    ensures left >= left' && left + |a| <= left' + |b|
  {
    assert s[left + 0] == a[0] && s[left + (|a| - 1)] == a[|a| - 1];
  }

  /** One text is cut from another in one way. */
  lemma CutUnique(a: string, b: string, s: string, left: nat, left': nat)
    requires CutFrom(a, s, left) && CutFrom(b, s, left')
    ensures a == b
  {
    CutNotBefore(a, b, s, left, left');
    CutNotBefore(b, a, s, left', left);
  }

  lemma NoCut(text: string, full: string, left: nat)
    requires Blank(full, 0, |full|)
    ensures !CutFrom(text, full, left)
  {
    assert text != "" && left + |text| <= |full| ==> (full[left + 0] == text[0] ==> IsSpace(text[0]));
  }

  /** A name is accepted exactly when the value has one, and then it is that one. */
  lemma LabelNames(value: Value)
    ensures Label(value).Some? ==> Named(value, Label(value).value)
    ensures forall text :: Named(value, text) ==> Label(value) == Some(text)
  {
    if value.Text? {
      var left := TrimCut(value.text);
      if Trim(value.text) != "" {
        assert CutFrom(Trim(value.text), value.text, left);
        forall text | Named(value, text) ensures text == Trim(value.text) {
          var l :| CutFrom(text, value.text, l);
          CutUnique(text, Trim(value.text), value.text, l, left);
        }
      } else {
        forall text, left ensures !CutFrom(text, value.text, left) { NoCut(text, value.text, left); }
      }
    }
  }

  lemma NameOrNames(value: Value, n: nat)
    ensures NameOr(value, n).Some? ==> NamedOr(value, n, NameOr(value, n).value)
  {
    LabelNames(value);
    TrimDone("Color " + FreshKeys.Decimal(n));
  }

  // ---- colors -----------------------------------------------------------------------------------------

  /** l is c in lower case. */
  predicate IsLower(l: char, c: char) { if 'A' <= c <= 'Z' then l as int == c as int + 32 else l == c }

  /** The color entered: the digits given, in lower case, and the old alpha when only six were given. */
  predicate Entered(value: Value, previous: string, color: string) {
    && value.Text? && IsColorInput(value.text) && |color| == 9 == |previous|
    && (forall k :: 0 <= k < |value.text| ==> IsLower(color[k], value.text[k]))
    && (forall k :: |value.text| <= k < 9 ==> IsLower(color[k], previous[k]))
  }

  lemma RgbaEntered(value: Value, previous: string)
    requires IsRgba(previous)
    ensures Rgba(value, previous).Some? <==> value.Text? && IsColorInput(value.text)
    ensures Rgba(value, previous).Some? ==> Entered(value, previous, Rgba(value, previous).value)
  {
  }

  /** The stop's red, green or blue is the whole number nearest to 18 hundredths of the color's. */
  predicate DarkOf(b: nat, n: nat) { 100 * b <= 18 * n + 50 < 100 * b + 100 }

  /** The whole number nearest to the color's moved 78 hundredths of its way to white. */
  predicate LightOf(b: nat, n: nat) { 100 * b <= 100 * n + 78 * (255 - n) + 50 < 100 * b + 100 }

  /** The three stops derived from a color: dark at 0, the color at a half, light at 1, all with its alpha. */
  ghost predicate GradientOf(stops: seq<Stop>, color: string) {
    && IsRgba(color) && |stops| == 3 && (forall k :: 0 <= k < 3 ==> IsRgba(stops[k].rgba))
    && stops[0].offset == 0.0 && stops[1].offset == 0.5 && stops[2].offset == 1.0
    && (forall k :: 0 <= k < 9 ==> IsLower(stops[1].rgba[k], color[k]))
    && (forall k: nat :: k < 3 ==> DarkOf(Byte(stops[0].rgba, k), Byte(color, k)) && LightOf(Byte(stops[2].rgba, k), Byte(color, k)))
    && stops[0].rgba[7..] == stops[1].rgba[7..] == stops[2].rgba[7..]
  }

  lemma HexPair(n: nat)
    requires n < 256
    ensures HexValue(Hex2(n)[0]) * 16 + HexValue(Hex2(n)[1]) == n
  {
  }

  lemma ColorBytes(r: nat, g: nat, b: nat, alpha: string)
    requires r < 256 && g < 256 && b < 256 && |alpha| == 2 && IsHex(alpha[0]) && IsHex(alpha[1])
    ensures var c := ColorOf(r, g, b, alpha);
      Byte(c, 0) == r && Byte(c, 1) == g && Byte(c, 2) == b && c[7..] == alpha
  {
    var c := ColorOf(r, g, b, alpha);
    assert c[1] == Hex2(r)[0] && c[2] == Hex2(r)[1] && c[3] == Hex2(g)[0] && c[4] == Hex2(g)[1];
    assert c[5] == Hex2(b)[0] && c[6] == Hex2(b)[1];
    HexPair(r);
    HexPair(g);
    HexPair(b);
  }

  lemma LowerBytes(color: string, k: nat)
    requires IsRgba(color) && k < 3
    ensures IsRgba(Lower(color)) && Byte(Lower(color), k) == Byte(color, k)
  {
  }

  lemma DarkDerived(color: string)
    requires IsRgba(color)
    ensures forall k: nat :: k < 3 ==> DarkOf(Byte(DarkStop(color).rgba, k), Byte(color, k))
    ensures DarkStop(color).rgba[7..] == color[7..]
  {
    ColorBytes(Dark(Byte(color, 0)), Dark(Byte(color, 1)), Dark(Byte(color, 2)), Alpha(color));
    assert color[7..] == Alpha(color);
    forall k: nat | k < 3 ensures DarkOf(Byte(DarkStop(color).rgba, k), Byte(color, k)) {
      assert k == 0 || k == 1 || k == 2;
    }
  }

  lemma LightDerived(color: string)
    requires IsRgba(color)
    ensures forall k: nat :: k < 3 ==> LightOf(Byte(LightStop(color).rgba, k), Byte(color, k))
    ensures LightStop(color).rgba[7..] == color[7..]
  {
    ColorBytes(Light(Byte(color, 0)), Light(Byte(color, 1)), Light(Byte(color, 2)), Alpha(color));
    assert color[7..] == Alpha(color);
    forall k: nat | k < 3 ensures LightOf(Byte(LightStop(color).rgba, k), Byte(color, k)) {
      assert k == 0 || k == 1 || k == 2;
    }
  }

  lemma GradientDerived(color: string)
    requires IsRgba(color)
    ensures GradientOf(Gradient(color), color)
  {
    var l := Lower(color);
    LowerIsRgba(color);
    DarkDerived(l);
    LightDerived(l);
    forall k: nat | k < 3 ensures Byte(l, k) == Byte(color, k) { LowerBytes(color, k); }
  }

  // ---- one swatch -------------------------------------------------------------------------------------

  /** The stops an edit starts from: the stored ones, or the derived gradient when fewer than two are stored. */
  ghost predicate Shown(s: Swatch, stops: seq<Stop>) {
    if |s.stops| >= 2 then stops == s.stops else GradientOf(stops, s.rgba)
  }

  /** The middle stop, the lower one of two. */
  ghost predicate IsMiddle(m: nat, n: nat) { n == 2 * m + 1 || n == 2 * m + 2 }

  /** A hint sets the swatch's color and the gradient derived from it. */
  ghost predicate HintEffect(s: Swatch, value: Value, after: Swatch) {
    after == s.(rgba := after.rgba, stops := after.stops) && Entered(value, s.rgba, after.rgba) && GradientOf(after.stops, after.rgba)
  }

  /** A middle color sets the swatch's color and the middle stop, between the two when there are two. */
  ghost predicate MidEffect(s: Swatch, value: Value, after: Swatch, stops: seq<Stop>, m: nat) {
    && after == s.(rgba := after.rgba, stops := after.stops) && Shown(s, stops)
    && IsMiddle(m, |stops|) && m < |stops|
    && Entered(value, if |s.stops| >= 3 then s.stops[m].rgba else s.rgba, after.rgba)
    && if |stops| == 2 then after.stops == [stops[0], Stop(0.5, after.rgba), stops[1]]
       else |after.stops| == |stops| && after.stops[m] == Stop(stops[m].offset, after.rgba)
            && forall k :: 0 <= k < |stops| && k != m ==> after.stops[k] == stops[k]
  }

  /** A stop color sets that stop and nothing else. */
  ghost predicate StopEffect(s: Swatch, index: Option<int>, value: Value, after: Swatch, stops: seq<Stop>) {
    && after == s.(stops := after.stops) && Shown(s, stops) && |after.stops| == |stops|
    && index.Some? && 0 <= index.value < |stops|
    && Entered(value, stops[index.value].rgba, after.stops[index.value].rgba)
    && after.stops[index.value].offset == stops[index.value].offset
    && forall k :: 0 <= k < |stops| && k != index.value ==> after.stops[k] == stops[k]
  }

  ghost predicate SwatchEffect(s: Swatch, e: SwatchEdit, after: Swatch) {
    match e
    case DeleteSwatch => false
    case SwatchName(value) => after == s.(text := after.text) && Named(value, after.text)
    case SwatchHint(value) => HintEffect(s, value, after)
    case SwatchMid(value) => exists stops, m :: MidEffect(s, value, after, stops, m)
    case SwatchStop(index, value) => exists stops :: StopEffect(s, index, value, after, stops)
    case Unknown => false
  }

  lemma FullShown(s: Swatch)
    requires SwatchOk(s)
    ensures Shown(s, FullStops(s))
  {
    GradientDerived(s.rgba);
  }

  lemma HintDone(s: Swatch, value: Value)
    requires SwatchOk(s) && EditedSwatch(s, SwatchHint(value)).Ok?
    ensures HintEffect(s, value, EditedSwatch(s, SwatchHint(value)).value)
  {
    RgbaEntered(value, s.rgba);
    GradientDerived(Rgba(value, s.rgba).value);
  }

  lemma MidIs(s: Swatch, value: Value)
    requires SwatchOk(s) && EditedSwatch(s, SwatchMid(value)).Ok?
    ensures var previous := if |s.stops| >= 3 then s.stops[Middle(|s.stops|)].rgba else s.rgba;
      && IsRgba(previous) && Rgba(value, previous).Some?
      && EditedSwatch(s, SwatchMid(value)).value == EditMiddle(s, Rgba(value, previous).value)
  {
  }

  lemma MiddleSet(s: Swatch, color: string)
    requires SwatchOk(s)
    ensures var stops, after := FullStops(s), EditMiddle(s, color);
      var m := Middle(|stops|);
      && IsMiddle(m, |stops|) && m < |stops| && after == s.(rgba := color, stops := after.stops)
      && if |stops| == 2 then after.stops == [stops[0], Stop(0.5, color), stops[1]]
         else |after.stops| == |stops| && after.stops[m] == Stop(stops[m].offset, color)
              && forall k :: 0 <= k < |stops| && k != m ==> after.stops[k] == stops[k]
  {
  }

  lemma MidDone(s: Swatch, value: Value)
    requires SwatchOk(s) && EditedSwatch(s, SwatchMid(value)).Ok?
    ensures SwatchEffect(s, SwatchMid(value), EditedSwatch(s, SwatchMid(value)).value)
  {
    MidIs(s, value);
    var previous := if |s.stops| >= 3 then s.stops[Middle(|s.stops|)].rgba else s.rgba;
    RgbaEntered(value, previous);
    FullShown(s);
    MiddleSet(s, Rgba(value, previous).value);
    assert MidEffect(s, value, EditedSwatch(s, SwatchMid(value)).value, FullStops(s), Middle(|FullStops(s)|));
  }

  lemma StopIs(s: Swatch, index: Option<int>, value: Value)
    requires SwatchOk(s) && EditedSwatch(s, SwatchStop(index, value)).Ok?
    ensures var stops := FullStops(s);
      && index.Some? && 0 <= index.value < |stops| && IsRgba(stops[index.value].rgba) && Rgba(value, stops[index.value].rgba).Some?
      && EditedSwatch(s, SwatchStop(index, value)).value
         == s.(stops := stops[index.value := stops[index.value].(rgba := Rgba(value, stops[index.value].rgba).value)])
  {
  }

  lemma StopDone(s: Swatch, index: Option<int>, value: Value)
    requires SwatchOk(s) && EditedSwatch(s, SwatchStop(index, value)).Ok?
    ensures SwatchEffect(s, SwatchStop(index, value), EditedSwatch(s, SwatchStop(index, value)).value)
  {
    StopIs(s, index, value);
    FullShown(s);
    RgbaEntered(value, FullStops(s)[index.value].rgba);
    assert StopEffect(s, index, value, EditedSwatch(s, SwatchStop(index, value)).value, FullStops(s));
  }

  /** Every accepted edit of a swatch has its effect on that swatch and leaves the rest of it alone. */
  lemma SwatchDone(s: Swatch, e: SwatchEdit)
    requires SwatchOk(s) && !e.DeleteSwatch? && EditedSwatch(s, e).Ok?
    ensures SwatchEffect(s, e, EditedSwatch(s, e).value)
  {
    match e
    case SwatchName(value) => LabelNames(value);
    case SwatchHint(value) => HintDone(s, value);
    case SwatchMid(value) => MidDone(s, value);
    case SwatchStop(index, value) => StopDone(s, index, value);
  }
}
