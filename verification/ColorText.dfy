/** Labels and color text of maker-v8-creator-colors.js: trimming, UTF-8 length, #RRGGBBAA and the derived gradient. */
module ColorText {
  import opened Results
  import opened SafeText

  /** An edit's value argument: absent, a string, or something else. */
  datatype Value = Missing | Text(text: string) | Other

  function TrimStart(s: string): (r: string)
    ensures |r| <= |s| && (r == "" || !IsSpace(r[0]))
  {
    if s != "" && IsSpace(s[0]) then TrimStart(s[1..]) else s
  }

  function TrimEnd(s: string): (r: string)
    ensures r <= s && (r == "" || !IsSpace(r[|r| - 1]))
  {
    if s != "" && IsSpace(s[|s| - 1]) then TrimEnd(s[..|s| - 1]) else s
  }

  function Trim(s: string): (r: string)
    ensures r == "" || (!IsSpace(r[0]) && !IsSpace(r[|r| - 1]))
  {
    TrimEnd(TrimStart(s))
  }

  lemma TrimDone(s: string)
    requires s == "" || (!IsSpace(s[0]) && !IsSpace(s[|s| - 1]))
    ensures Trim(s) == s
  {}

  /** label(): the trimmed text; None is a thrown error. */
  function Label(v: Value): (r: Option<string>)
    ensures r.Some? ==> Utf8Length(r.value) <= 256 && r.value != "" && Trim(r.value) == r.value
  {
    if v.Text? && Trim(v.text) != "" && Utf8Length(Trim(v.text)) <= 256 then
      TrimDone(Trim(v.text));
      Some(Trim(v.text))
    else None
  }

  predicate IsRgba(s: string) { |s| == 9 && s[0] == '#' && forall k :: 1 <= k < 9 ==> IsHex(s[k]) }

  predicate IsColorInput(s: string) {
    (|s| == 7 || |s| == 9) && s[0] == '#' && forall k :: 1 <= k < |s| ==> IsHex(s[k])
  }

  function LowerHex(c: char): (r: char)
    ensures IsHex(c) ==> IsLowerHex(r)
    ensures c == '#' ==> r == c
  {
    if 'A' <= c <= 'Z' then (c as int + 32) as char else c
  }

  function Lower(s: string): (r: string)
    ensures |r| == |s| && forall k :: 0 <= k < |s| ==> r[k] == LowerHex(s[k])
  { seq(|s|, k requires 0 <= k < |s| => LowerHex(s[k])) }

  /** rgba(): six digits keep the alpha of the color they replace. */
  function Rgba(v: Value, previous: string): (r: Option<string>)
    requires IsRgba(previous)
    ensures r.Some? ==> IsRgba(r.value)
  {
    if v.Text? && IsColorInput(v.text) then Some(Lower(if |v.text| == 7 then v.text + previous[7..] else v.text)) else None
  }

  function HexValue(c: char): (n: nat)
    requires IsHex(c)
    ensures n < 16
  {
    if IsDigit(c) then c as int - 48 else if 'a' <= c <= 'f' then c as int - 87 else c as int - 55
  }

  function HexChar(n: nat): (c: char)
    requires n < 16
    ensures IsLowerHex(c) && HexValue(c) == n
  { if n < 10 then (n + 48) as char else (n + 87) as char }

  function Hex2(n: nat): (s: string)
    requires n < 256
    ensures |s| == 2 && IsLowerHex(s[0]) && IsLowerHex(s[1])
  { [HexChar(n / 16), HexChar(n % 16)] }

  function ByteAt(s: string, at: nat): (n: nat)
    requires at + 1 < |s| && IsHex(s[at]) && IsHex(s[at + 1])
    ensures n < 256
  { HexValue(s[at]) * 16 + HexValue(s[at + 1]) }

  datatype Stop = Stop(offset: real, rgba: string)

  /** Rounded 18% of a channel, and the channel moved 78% of its way to white. */
  function Dark(n: nat): nat { (18 * n + 50) / 100 }
  function Light(n: nat): nat
    requires n < 256
  { (100 * n + 78 * (255 - n) + 50) / 100 }

  predicate StopOk(s: Stop) { 0.0 <= s.offset <= 1.0 && IsRgba(s.rgba) }

  function ColorOf(r: nat, g: nat, b: nat, alpha: string): (s: string)
    requires r < 256 && g < 256 && b < 256 && |alpha| == 2 && IsHex(alpha[0]) && IsHex(alpha[1])
    ensures IsRgba(s)
  { "#" + Hex2(r) + Hex2(g) + Hex2(b) + alpha }

  function Alpha(color: string): (a: string)
    requires IsRgba(color)
    ensures |a| == 2 && IsHex(a[0]) && IsHex(a[1])
  { [color[7], color[8]] }

  /** Red, green and blue. */
  function Byte(color: string, k: nat): (n: nat)
    requires IsRgba(color) && k < 3
    ensures n < 256
  { ByteAt(color, 2 * k + 1) }

  lemma LowerIsRgba(s: string)
    requires IsRgba(s)
    ensures IsRgba(Lower(s))
  {}

  function DarkStop(color: string): (s: Stop)
    requires IsRgba(color)
    ensures StopOk(s)
  { Stop(0.0, ColorOf(Dark(Byte(color, 0)), Dark(Byte(color, 1)), Dark(Byte(color, 2)), Alpha(color))) }

  function LightStop(color: string): (s: Stop)
    requires IsRgba(color)
    ensures StopOk(s)
  { Stop(1.0, ColorOf(Light(Byte(color, 0)), Light(Byte(color, 1)), Light(Byte(color, 2)), Alpha(color))) }

  /** gradient() of a valid color. */
  function Gradient(rgba: string): (s: seq<Stop>)
    requires IsRgba(rgba)
    ensures |s| == 3 && forall k :: 0 <= k < 3 ==> StopOk(s[k])
  {
    LowerIsRgba(rgba);
    [DarkStop(Lower(rgba)), Stop(0.5, Lower(rgba)), LightStop(Lower(rgba))]
  }
}
