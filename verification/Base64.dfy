/**
 * Base64 text of bytes, standard and URL-safe (sections 4 and 5 of RFC 4648), with the lax decoding of atob that
 * maker-v8-asset-quilt.js makes strict by encoding again.
 */
module Base64 {
  import opened Results

  type Bytes = seq<int>

  predicate IsBytes(b: Bytes) { forall k :: 0 <= k < |b| ==> 0 <= b[k] < 256 }

  predicate IsSextets(s: seq<int>) { forall k :: 0 <= k < |s| ==> 0 <= s[k] < 64 }

  function Group(x: int, y: int, z: int): (s: seq<int>)
    ensures |s| == 4
    ensures 0 <= x < 256 && 0 <= y < 256 && 0 <= z < 256 ==> IsSextets(s)
  { [x / 4, x % 4 * 16 + y / 16, y % 16 * 4 + z / 64, z % 64] }

  function Ungroup(p: int, q: int, r: int, s: int): (b: Bytes)
    ensures |b| == 3
    ensures 0 <= p < 64 && 0 <= q < 64 && 0 <= r < 64 && 0 <= s < 64 ==> IsBytes(b)
  { [p * 4 + q / 16, q % 16 * 16 + r / 4, r % 4 * 64 + s] }

  /** Three bytes make four 6-bit groups; one or two bytes at the end leave zero bits. */
  function Sextets(b: Bytes): (s: seq<int>)
    ensures |s| == (4 * |b| + 2) / 3
    ensures IsBytes(b) ==> IsSextets(s)
  {
    if |b| == 0 then []
    else if |b| == 1 then [b[0] / 4, b[0] % 4 * 16]
    else if |b| == 2 then [b[0] / 4, b[0] % 4 * 16 + b[1] / 16, b[1] % 16 * 4]
    else Group(b[0], b[1], b[2]) + Sextets(b[3..])
  }

  /** Bits left over at the end are dropped unread; one group alone is not a byte. */
  function Unpack(s: seq<int>): (b: Option<Bytes>)
    ensures b.Some? && IsSextets(s) ==> IsBytes(b.value)
  {
    if |s| == 0 then Some([])
    else if |s| == 1 then None
    else if |s| == 2 then Some([s[0] * 4 + s[1] / 16])
    else if |s| == 3 then Some([s[0] * 4 + s[1] / 16, s[1] % 16 * 16 + s[2] / 4])
    else
      var rest := Unpack(s[4..]);
      if rest.None? then None
      else Some(Ungroup(s[0], s[1], s[2], s[3]) + rest.value)
  }

  lemma Split16(a: int, b: int)
    requires 0 <= b < 16
    ensures (a * 16 + b) / 16 == a && (a * 16 + b) % 16 == b
  {}

  lemma Split4(a: int, b: int)
    requires 0 <= b < 4
    ensures (a * 4 + b) / 4 == a && (a * 4 + b) % 4 == b
  {}

  lemma Bits(x: int, y: int, z: int)
    requires 0 <= x < 256 && 0 <= y < 256 && 0 <= z < 256
    ensures var s := Group(x, y, z); Ungroup(s[0], s[1], s[2], s[3]) == [x, y, z]
  {
    Split16(x % 4, y / 16);
    Split4(y % 16, z / 64);
  }

  lemma {:induction false} UnpackSextets(b: Bytes)
    requires IsBytes(b)
    ensures Unpack(Sextets(b)) == Some(b)
  {
    if |b| == 0 {
    } else if |b| == 1 {
      assert b == [b[0]];
    } else if |b| == 2 {
      assert b == [b[0], b[1]];
    } else {
      UnpackSextets(b[3..]);
      UnpackTriple(b);
    }
  }

  lemma UnpackCons(g: seq<int>, rest: seq<int>, t: Bytes)
    requires |g| == 4 && Unpack(rest) == Some(t)
    ensures Unpack(g + rest) == Some(Ungroup(g[0], g[1], g[2], g[3]) + t)
  {
    assert (g + rest)[4..] == rest;
  }

  lemma FirstThree(b: Bytes)
    requires |b| >= 3
    ensures b == [b[0], b[1], b[2]] + b[3..]
  {}

  lemma UnpackTriple(b: Bytes)
    requires IsBytes(b) && |b| >= 3 && Unpack(Sextets(b[3..])) == Some(b[3..])
    ensures Unpack(Sextets(b)) == Some(b)
  {
    var g := Group(b[0], b[1], b[2]);
    UnpackCons(g, Sextets(b[3..]), b[3..]);
    Bits(b[0], b[1], b[2]);
    FirstThree(b);
  }

  function UrlChar(k: int): (c: char)
    requires 0 <= k < 64
  {
    if k < 26 then (k + 65) as char
    else if k < 52 then (k + 71) as char
    else if k < 62 then (k - 4) as char
    else if k == 62 then '-' else '_'
  }

  predicate IsUrlChar(c: char) { 'A' <= c <= 'Z' || 'a' <= c <= 'z' || '0' <= c <= '9' || c == '-' || c == '_' }

  function UrlValue(c: char): (k: int)
    requires IsUrlChar(c)
    ensures 0 <= k < 64 && UrlChar(k) == c
  {
    if 'A' <= c <= 'Z' then c as int - 65
    else if 'a' <= c <= 'z' then c as int - 71
    else if '0' <= c <= '9' then c as int + 4
    else if c == '-' then 62 else 63
  }

  function StandardChar(k: int): (c: char)
    requires 0 <= k < 64
  { if k == 62 then '+' else if k == 63 then '/' else UrlChar(k) }

  function UrlText(s: seq<int>): (t: string)
    requires IsSextets(s)
    ensures |t| == |s| && forall k :: 0 <= k < |s| ==> t[k] == UrlChar(s[k])
  { seq(|s|, k requires 0 <= k < |s| => UrlChar(s[k])) }

  predicate IsUrlText(t: string) { forall k :: 0 <= k < |t| ==> IsUrlChar(t[k]) }

  function UrlValues(t: string): (s: seq<int>)
    requires IsUrlText(t)
    ensures |s| == |t| && IsSextets(s) && forall k :: 0 <= k < |t| ==> s[k] == UrlValue(t[k])
  { seq(|t|, k requires 0 <= k < |t| => UrlValue(t[k])) }

  function Core(s: seq<int>): (t: string)
    requires IsSextets(s)
    ensures |t| == |s| && forall k :: 0 <= k < |s| ==> t[k] == StandardChar(s[k]) && t[k] != '='
  { seq(|s|, k requires 0 <= k < |s| => StandardChar(s[k])) }

  function Padding(n: nat): string { if n % 3 == 1 then "==" else if n % 3 == 2 then "=" else "" }

  function ReplacedText(t: string): (r: string)
    ensures |r| == |t| && forall k :: 0 <= k < |t| ==> r[k] == Replaced(t[k])
  { seq(|t|, k requires 0 <= k < |t| => Replaced(t[k])) }

  /** toBase64 */
  function ToBase64(b: Bytes): (t: string)
    requires IsBytes(b)
  {
    Core(Sextets(b)) + Padding(|b|)
  }

  /** Replace + and /, then strip the padding. */
  function Url64(b: Bytes): (t: string)
    requires IsBytes(b)
    ensures |t| == (4 * |b| + 2) / 3 && IsUrlText(t)
  { UrlText(Sextets(b)) }

  function Replaced(c: char): char { if c == '+' then '-' else if c == '/' then '_' else c }

  /** Url64 is what the two replacements and the stripping make of toBase64. */
  lemma Url64Replaces(b: Bytes)
    requires IsBytes(b)
    ensures var t := ToBase64(b); var n := |Url64(b)|;
      && n <= |t| <= n + 2 && (forall k :: 0 <= k < n ==> Url64(b)[k] == Replaced(t[k]) && t[k] != '=')
      && (forall k :: n <= k < |t| ==> t[k] == '=')
  {}

  lemma ValuesOfText(s: seq<int>)
    requires IsSextets(s)
    ensures UrlValues(UrlText(s)) == s
  {
    assert forall k :: 0 <= k < |s| ==> IsUrlChar(UrlText(s)[k]) && UrlValue(UrlText(s)[k]) == s[k];
  }

  /** idBytes: the text of exactly size bytes, in canonical form. */
  function IdBytes(value: string, size: nat): (r: Option<Bytes>)
    ensures r.Some? ==> IsBytes(r.value) && |r.value| == size && Url64(r.value) == value
  {
    if value == "" || !IsUrlText(value) then None
    else
      var bytes := Unpack(UrlValues(value));
      if bytes.Some? && |bytes.value| == size && Url64(bytes.value) == value then bytes else None
  }

  /** Canonical text, and nothing else, is accepted, and read back as the bytes it was made from. */
  lemma IdBytesExact(value: string, size: nat, b: Bytes)
    requires size > 0
    ensures IdBytes(value, size) == Some(b) <==> IsBytes(b) && |b| == size && value == Url64(b)
  {
    if IsBytes(b) && |b| == size && value == Url64(b) {
      ValuesOfText(Sextets(b));
      UnpackSextets(b);
    }
  }

  function Unpadded(t: string): (r: string) {
    if |t| > 0 && t[|t| - 1] == '=' then Unpadded(t[..|t| - 1]) else t
  }

  /** fromBase64 followed by the comparison with toBase64: the bytes of canonical standard text. */
  function FromBase64(t: string): (r: Option<Bytes>)
    ensures r.Some? ==> IsBytes(r.value) && ToBase64(r.value) == t
  {
    var text := ReplacedText(Unpadded(t));
    if !IsUrlText(text) then None
    else
      var bytes := Unpack(UrlValues(text));
      if bytes.Some? && ToBase64(bytes.value) == t then bytes else None
  }

  lemma UnpaddedStep(t: string)
    ensures Unpadded(t + "=") == Unpadded(t)
  {
    assert (t + "=")[..|t|] == t;
  }

  lemma UnpaddedText(core: string, pad: string)
    requires pad == "" || pad == "=" || pad == "=="
    requires core == "" || core[|core| - 1] != '='
    ensures Unpadded(core + pad) == core
  {
    UnpaddedStep(core);
    UnpaddedStep(core + "=");
    assert core + "" == core && core + "=" + "=" == core + "==";
  }

  /** Text made from bytes is read back. */
  lemma FromToBase64(b: Bytes)
    requires IsBytes(b)
    ensures FromBase64(ToBase64(b)) == Some(b)
  {
    var core := Core(Sextets(b));
    UnpaddedText(core, Padding(|b|));
    CoreReplaced(Sextets(b));
    ValuesOfText(Sextets(b));
    UnpackSextets(b);
  }

  lemma CoreReplaced(s: seq<int>)
    requires IsSextets(s)
    ensures ReplacedText(Core(s)) == UrlText(s)
  {}

  // ---- against the RFC --------------------------------------------------------------------------------

  /** The characters c counts from, over a run of consecutive values. */
  predicate Run(from: int, to: int, c: char) {
    forall k :: 0 <= from <= k <= to < 62 ==> UrlChar(k) as int == c as int + k - from && StandardChar(k) == UrlChar(k)
  }

  /** Tables 1 and 2 of RFC 4648: capitals, small letters, digits, and two characters in which the two alphabets differ. */
  lemma Alphabet()
    ensures Run(0, 25, 'A') && Run(26, 51, 'a') && Run(52, 61, '0')
    ensures [StandardChar(62), StandardChar(63)] == "+/" && [UrlChar(62), UrlChar(63)] == "-_"
  {
  }

  /** From i on, b has three bytes, or two, or one at its end; the groups from j on hold the same bits, most significant
      first, and zeros after the last. */
  predicate SameBits(b: Bytes, i: nat, s: seq<int>, j: nat)
    requires i < |b|
  {
    if i + 2 < |b| then
      j + 3 < |s| && s[j] * 0x4_0000 + s[j + 1] * 0x1000 + s[j + 2] * 0x40 + s[j + 3] == b[i] * 0x1_0000 + b[i + 1] * 0x100 + b[i + 2]
    else if i + 1 < |b| then j + 3 == |s| && s[j] * 0x1000 + s[j + 1] * 0x40 + s[j + 2] == (b[i] * 0x100 + b[i + 1]) * 4
    else j + 2 == |s| && s[j] * 0x40 + s[j + 1] == b[i] * 16
  }

  lemma GroupHolds(x: int, y: int, z: int)
    ensures var s := Group(x, y, z); s[0] * 0x4_0000 + s[1] * 0x1000 + s[2] * 0x40 + s[3] == x * 0x1_0000 + y * 0x100 + z
  {}

  lemma FirstBits(b: Bytes)
    requires b != []
    ensures SameBits(b, 0, Sextets(b), 0)
  {
    if |b| >= 3 { GroupHolds(b[0], b[1], b[2]); }
  }

  lemma LaterBits(b: Bytes, i: nat, s: seq<int>, j: nat, c: Bytes, g: seq<int>)
    requires i < |b| && SameBits(b, i, s, j)
    ensures SameBits(c + b, i + |c|, g + s, j + |g|)
  {
  }

  /** The 24 bits of each three bytes are four groups of six. */
  lemma {:induction false} SextetsHold(b: Bytes, k: nat)
    requires 3 * k < |b|
    ensures SameBits(b, 3 * k, Sextets(b), 4 * k)
  {
    if k == 0 {
      FirstBits(b);
    } else {
      SextetsHold(b[3..], k - 1);
      LaterBits(b[3..], 3 * k - 3, Sextets(b[3..]), 4 * k - 4, b[..3], Group(b[0], b[1], b[2]));
      assert b[..3] + b[3..] == b;
    }
  }

  lemma PaddedLength(n: nat)
    ensures (4 * n + 2) / 3 + |Padding(n)| == (n + 2) / 3 * 4
  {
    var q, r := n / 3, n % 3;
    assert n == 3 * q + r;
  }

  /** The text has a character for each group and is padded with "=" to a multiple of four, fewer than three of them. */
  lemma PaddedText(b: Bytes)
    requires IsBytes(b)
    ensures exists p :: p in {"", "=", "=="} && ToBase64(b) == Core(Sextets(b)) + p
    ensures |ToBase64(b)| == (|b| + 2) / 3 * 4
  {
    PaddedLength(|b|);
    var p := Padding(|b|);
    assert p in {"", "=", "=="} && ToBase64(b) == Core(Sextets(b)) + p;
  }
}
