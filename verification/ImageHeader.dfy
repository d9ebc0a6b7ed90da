/**
 * The PNG and JPEG header readers of maker-v8-creator-cover.js and maker-v8-creator-image.js.  The JPEG loop is
 * proved equal to a recursive reader, and that reader to a printed grammar (sections B.1.1.2 and B.2.2 of ITU-T T.81).
 */
module ImageHeader {
  import opened Results

  type Bytes = seq<int>

  const MAX_COVER_BYTES: nat := 5 * 1024 * 1024
  const MAX_PNG_BYTES: nat := 12 * 1024 * 1024
  const MAX_SIDE: nat := 8192
  const MAX_AREA: nat := 32 * 1024 * 1024

  predicate IsBytes(b: Bytes) { forall k :: 0 <= k < |b| ==> 0 <= b[k] < 256 }

  datatype Media = Png | Jpeg

  datatype Outcome = Found(width: int, height: int, media: Media) | Invalid | TooLarge | DimensionsInvalid

  predicate DimensionsOk(width: int, height: int) {
    1 <= width <= MAX_SIDE && 1 <= height <= MAX_SIDE && width * height <= MAX_AREA
  }

  function Dimensions(width: int, height: int, media: Media): Outcome {
    if DimensionsOk(width, height) then Found(width, height, media) else DimensionsInvalid
  }

  function U16(b: Bytes, at: nat): int
    requires at + 2 <= |b|
  { b[at] * 256 + b[at + 1] }

  function U32(b: Bytes, at: nat): int
    requires at + 4 <= |b|
  { U16(b, at) * 65536 + U16(b, at + 2) }

  const PNG_SIGNATURE: Bytes := [137, 80, 78, 71, 13, 10, 26, 10]

  predicate IsPng(b: Bytes) { |b| >= 33 && b[..8] == PNG_SIGNATURE }

  /** A 13-byte IHDR chunk comes first. */
  predicate HasHeaderChunk(b: Bytes)
    requires |b| >= 33
  { U32(b, 8) == 13 && U32(b, 12) == 0x49484452 }

  /** pngDimensions of the style and artwork readers: None is a thrown error. */
  function PngDimensions(b: Bytes): Option<(int, int)> {
    if !IsPng(b) || |b| > MAX_PNG_BYTES || !HasHeaderChunk(b) || !DimensionsOk(U32(b, 16), U32(b, 20)) then None
    else Some((U32(b, 16), U32(b, 20)))
  }

  // ---- JPEG -------------------------------------------------------------------------------------------

  predicate IsFrame(marker: int) {
    0xc0 <= marker <= 0xcf && marker != 0xc4 && marker != 0xc8 && marker != 0xcc
  }

  /** Stuffed zero, restart markers, SOI, EOI and SOS cannot come before the frame header. */
  predicate Forbidden(marker: int) { marker == 0 || 0xd0 <= marker <= 0xda }

  function SkipFill(b: Bytes, at: nat): (r: nat)
    requires at <= |b|
    ensures at <= r <= |b|
    ensures forall k :: at <= k < r ==> b[k] == 0xff
    ensures r < |b| ==> b[r] != 0xff
    decreases |b| - at
  {
    if at < |b| && b[at] == 0xff then SkipFill(b, at + 1) else at
  }

  /** The frame header at p, length bytes long. */
  function ReadFrame(b: Bytes, p: nat, length: int): Outcome
    requires 2 <= length && p + length <= |b|
  {
    if length < 11 || b[p + 7] < 1 || length != 8 + 3 * b[p + 7] then Invalid
    else Dimensions(U16(b, p + 5), U16(b, p + 3), Jpeg)
  }

  function Scan(b: Bytes, offset: nat): Outcome
    requires offset <= |b|
    decreases |b| - offset
  {
    if offset >= |b| || b[offset] != 0xff then Invalid
    else
      var m := SkipFill(b, offset + 1);
      if m >= |b| || Forbidden(b[m]) then Invalid
      else if b[m] == 1 then Scan(b, m + 1)
      else if m + 3 > |b| || U16(b, m + 1) < 2 || m + 1 + U16(b, m + 1) > |b| then Invalid
      else if IsFrame(b[m]) then ReadFrame(b, m + 1, U16(b, m + 1))
      else Scan(b, m + 1 + U16(b, m + 1))
  }

  function Inspect(b: Bytes): Outcome {
    if |b| > MAX_COVER_BYTES then TooLarge
    else if IsPng(b) then
      if HasHeaderChunk(b) then Dimensions(U32(b, 16), U32(b, 20), Png) else Invalid
    else if |b| < 4 || b[0] != 0xff || b[1] != 0xd8 || b[2] != 0xff then Invalid
    else Scan(b, 2)
  }

  /** The marker loop.  Reading past the end yields no value, so every read below is guarded or in bounds. */
  method InspectJpeg(b: Bytes) returns (r: Outcome)
    requires |b| >= 4
    ensures r == Scan(b, 2)
  {
    var offset := 2;
    while offset < |b|
      invariant 2 <= offset <= |b|
      invariant Scan(b, 2) == Scan(b, offset)
      decreases |b| - offset
    {
      ghost var start := offset;
      if b[offset] != 0xff { return Invalid; }
      offset := offset + 1;
      while offset < |b| && b[offset] == 0xff
        invariant start < offset <= |b|
        invariant SkipFill(b, start + 1) == SkipFill(b, offset)
      {
        offset := offset + 1;
      }
      if offset >= |b| || Forbidden(b[offset]) { return Invalid; }
      var marker := b[offset];
      offset := offset + 1;
      if marker != 0x01 {
        if offset + 2 > |b| { return Invalid; }
        var length := U16(b, offset);
        if length < 2 || offset + length > |b| { return Invalid; }
        if IsFrame(marker) {
          if length < 11 || b[offset + 7] < 1 || length != 8 + 3 * b[offset + 7] { return Invalid; }
          return Dimensions(U16(b, offset + 5), U16(b, offset + 3), Jpeg);
        }
        offset := offset + length;
      }
    }
    return Invalid;
  }

  method InspectImage(b: Bytes) returns (r: Outcome)
    ensures r == Inspect(b)
  {
    if |b| > MAX_COVER_BYTES { return TooLarge; }
    if |b| >= 33 && b[..8] == PNG_SIGNATURE {
      if U32(b, 8) != 13 || U32(b, 12) != 0x49484452 { return Invalid; }
      return Dimensions(U32(b, 16), U32(b, 20), Png);
    }
    if |b| < 4 || b[0] != 0xff || b[1] != 0xd8 || b[2] != 0xff { return Invalid; }
    r := InspectJpeg(b);
  }

  // ---- the grammar ------------------------------------------------------------------------------------

  /** What may precede the frame header: TEM, or a marker segment that is no frame, after optional fill bytes. */
  datatype Item = Tem(fill: nat) | Segment(fill: nat, marker: int, payload: Bytes)

  datatype Frame = Frame(fill: nat, marker: int, precision: int, height: int, width: int, components: Bytes)

  predicate ItemOk(i: Item) {
    match i
    case Tem(_) => true
    case Segment(_, marker, payload) =>
      && 0 < marker < 0xff && marker != 1 && !Forbidden(marker) && !IsFrame(marker)
      && |payload| <= 65533 && IsBytes(payload)
  }

  /** One to 255 components of three bytes each; sizes are two bytes. */
  predicate FrameOk(f: Frame) {
    && IsFrame(f.marker) && 0 <= f.precision < 256 && 0 <= f.height < 65536 && 0 <= f.width < 65536
    && |f.components| % 3 == 0 && 1 <= |f.components| / 3 <= 255 && IsBytes(f.components)
  }

  function Fill(n: nat): (r: Bytes)
    ensures |r| == n && forall k :: 0 <= k < n ==> r[k] == 0xff
  { seq(n, k => 0xff) }

  function Print16(n: int): Bytes { [n / 256, n % 256] }

  function PrintMarker(fill: nat, marker: int): Bytes { [0xff] + Fill(fill) + [marker] }

  function PrintSegment(fill: nat, marker: int, payload: Bytes): Bytes {
    PrintMarker(fill, marker) + Print16(2 + |payload|) + payload
  }

  function PrintItem(i: Item): Bytes {
    match i
    case Tem(fill) => PrintMarker(fill, 1)
    case Segment(fill, marker, payload) => PrintSegment(fill, marker, payload)
  }

  function PrintAll<T>(write: T -> Bytes, s: seq<T>): Bytes {
    if s == [] then [] else write(s[0]) + PrintAll(write, s[1..])
  }

  function PrintItems(items: seq<Item>): Bytes { PrintAll(PrintItem, items) }

  function FrameBody(f: Frame): Bytes {
    [f.precision, f.height / 256, f.height % 256, f.width / 256, f.width % 256, |f.components| / 3] + f.components
  }

  function PrintFrame(f: Frame): Bytes { PrintSegment(f.fill, f.marker, FrameBody(f)) }

  ghost predicate ItemsOk(items: seq<Item>) { forall k :: 0 <= k < |items| ==> ItemOk(items[k]) }

  function PrintImage(items: seq<Item>, f: Frame, suffix: Bytes): Bytes {
    [0xff, 0xd8] + (PrintItems(items) + (PrintFrame(f) + suffix))
  }

  ghost predicate Starts(b: Bytes, at: nat, p: Bytes) { at + |p| <= |b| && b[at..at + |p|] == p }

  lemma Assoc(p: Bytes, q: Bytes, r: Bytes)
    ensures p + q + r == p + (q + r) && [] + q == q && [] + (q + r) == q + r
  {}

  lemma Split(b: Bytes, at: nat, next: nat)
    requires at <= next <= |b|
    ensures b[at..] == b[at..next] + b[next..]
  {}

  lemma {:induction false} SkipFillOver(b: Bytes, at: nat, n: nat)
    requires at + n < |b| && b[at + n] != 0xff && forall k :: at <= k < at + n ==> b[k] == 0xff
    ensures SkipFill(b, at) == at + n
    decreases n
  {
    if n > 0 { SkipFillOver(b, at + 1, n - 1); }
  }

  lemma StartsAt(b: Bytes, at: nat, p: Bytes, k: nat)
    requires Starts(b, at, p) && k < |p|
    ensures b[at + k] == p[k]
  {
    assert b[at..at + |p|][k] == b[at + k];
  }

  lemma StartsParts(b: Bytes, at: nat, p: Bytes, q: Bytes)
    requires Starts(b, at, p + q)
    ensures Starts(b, at, p) && Starts(b, at + |p|, q)
  {
    assert b[at..at + |p + q|][..|p|] == b[at..at + |p|] && (p + q)[..|p|] == p;
    assert b[at..at + |p + q|][|p|..] == b[at + |p|..at + |p| + |q|] && (p + q)[|p|..] == q;
  }

  lemma MarkerRead(b: Bytes, at: nat, fill: nat, marker: int)
    requires Starts(b, at, PrintMarker(fill, marker)) && marker != 0xff
    ensures b[at] == 0xff && SkipFill(b, at + 1) == at + 1 + fill && b[at + 1 + fill] == marker
  {
    var p := PrintMarker(fill, marker);
    assert p[1 + fill] == marker;
    StartsAt(b, at, p, 0);
    StartsAt(b, at, p, 1 + fill);
    forall k | at <= k < at + 1 + fill ensures b[k] == 0xff {
      assert p[k - at] == 0xff;
      StartsAt(b, at, p, k - at);
    }
    SkipFillOver(b, at + 1, fill);
  }

  lemma SegmentRead(b: Bytes, at: nat, fill: nat, marker: int, payload: Bytes)
    requires Starts(b, at, PrintSegment(fill, marker, payload)) && marker != 0xff
    ensures var m := at + 1 + fill;
      && b[at] == 0xff && SkipFill(b, at + 1) == m && b[m] == marker && m + 3 + |payload| <= |b|
      && U16(b, m + 1) == 2 + |payload| && Starts(b, m + 3, payload)
      && at + |PrintSegment(fill, marker, payload)| == m + 3 + |payload|
  {
    var head, size := PrintMarker(fill, marker), Print16(2 + |payload|);
    StartsParts(b, at, head + size, payload);
    StartsParts(b, at, head, size);
    MarkerRead(b, at, fill, marker);
    StartsAt(b, at + |head|, size, 0);
    StartsAt(b, at + |head|, size, 1);
  }

  /** The reader consumes one printed item. */
  lemma ScanItem(b: Bytes, at: nat, i: Item)
    requires ItemOk(i) && Starts(b, at, PrintItem(i))
    ensures Scan(b, at) == Scan(b, at + |PrintItem(i)|)
  {
    match i
    case Tem(fill) => MarkerRead(b, at, fill, 1);
    case Segment(fill, marker, payload) => SegmentRead(b, at, fill, marker, payload);
  }

  /** The reader reads one printed frame header. */
  lemma ScanFrame(b: Bytes, at: nat, f: Frame)
    requires FrameOk(f) && Starts(b, at, PrintFrame(f))
    ensures Scan(b, at) == Dimensions(f.width, f.height, Jpeg)
  {
    SegmentRead(b, at, f.fill, f.marker, FrameBody(f));
    FrameRead(b, at + 1 + f.fill, f);
  }

  lemma FrameRead(b: Bytes, m: nat, f: Frame)
    requires FrameOk(f) && Starts(b, m + 3, FrameBody(f))
    ensures ReadFrame(b, m + 1, 2 + |FrameBody(f)|) == Dimensions(f.width, f.height, Jpeg)
  {
    var body := FrameBody(f);
    StartsAt(b, m + 3, body, 1);
    StartsAt(b, m + 3, body, 2);
    StartsAt(b, m + 3, body, 3);
    StartsAt(b, m + 3, body, 4);
    StartsAt(b, m + 3, body, 5);
  }

  lemma StartsFirst<T>(b: Bytes, at: nat, write: T -> Bytes, s: seq<T>, rest: Bytes) returns (next: nat)
    requires s != [] && Starts(b, at, PrintAll(write, s) + rest)
    ensures Starts(b, at, write(s[0])) && next == at + |write(s[0])| <= |b| && Starts(b, next, PrintAll(write, s[1..]) + rest)
  {
    next := at + |write(s[0])|;
    var first, tail := write(s[0]), PrintAll(write, s[1..]);
    StartsThree(b, at, first, tail, rest);
  }

  lemma StartsThree(b: Bytes, at: nat, p: Bytes, q: Bytes, r: Bytes)
    requires Starts(b, at, p + q + r)
    ensures Starts(b, at, p) && Starts(b, at + |p|, q + r)
  {
    Assoc(p, q, r);
    StartsParts(b, at, p, q + r);
  }

  lemma ScanFirst(b: Bytes, at: nat, items: seq<Item>, rest: Bytes) returns (next: nat)
    requires items != [] && ItemOk(items[0]) && Starts(b, at, PrintItems(items) + rest)
    ensures at <= next <= |b| && Scan(b, at) == Scan(b, next) && Starts(b, next, PrintItems(items[1..]) + rest)
  {
    next := StartsFirst(b, at, PrintItem, items, rest);
    assert next == at + |PrintItem(items[0])|;
    ScanItem(b, at, items[0]);
  }

  lemma ScanLast(b: Bytes, at: nat, f: Frame)
    requires FrameOk(f) && Starts(b, at, PrintItems([]) + PrintFrame(f))
    ensures Scan(b, at) == Dimensions(f.width, f.height, Jpeg)
  {
    Assoc([], PrintFrame(f), []);
    ScanFrame(b, at, f);
  }

  lemma {:induction false} ScanPrinted(b: Bytes, at: nat, items: seq<Item>, f: Frame)
    requires ItemsOk(items) && FrameOk(f) && Starts(b, at, PrintItems(items) + PrintFrame(f))
    ensures Scan(b, at) == Dimensions(f.width, f.height, Jpeg)
    decreases |items|
  {
    if items == [] {
      ScanLast(b, at, f);
    } else {
      var next := ScanFirst(b, at, items, PrintFrame(f));
      ScanPrinted(b, next, items[1..], f);
    }
  }

  lemma FirstByte(items: seq<Item>, f: Frame, suffix: Bytes)
    ensures var tail := PrintItems(items) + (PrintFrame(f) + suffix); |tail| >= 2 && tail[0] == 0xff
  {
    assert PrintFrame(f)[0] == 0xff;
    if items != [] { assert PrintItem(items[0])[0] == 0xff; }
  }

  /** Every printed header is read back: the first frame's size, or the size error when it is out of limits. */
  lemma PrintedIsRead(items: seq<Item>, f: Frame, suffix: Bytes)
    requires ItemsOk(items) && FrameOk(f) && |PrintImage(items, f, suffix)| <= MAX_COVER_BYTES
    ensures Inspect(PrintImage(items, f, suffix)) == Dimensions(f.width, f.height, Jpeg)
  {
    var b, head := PrintImage(items, f, suffix), PrintItems(items) + PrintFrame(f);
    FirstByte(items, f, suffix);
    assert b == [0xff, 0xd8] + head + suffix;
    assert b[2..2 + |head|] == head;
    ScanPrinted(b, 2, items, f);
    assert |b| >= 8 ==> b[..8][0] == 0xff && PNG_SIGNATURE[0] == 137;
  }

  lemma MarkerWritten(b: Bytes, at: nat, m: nat)
    requires at < m < |b| && forall k :: at <= k < m ==> b[k] == 0xff
    ensures b[at..m + 1] == PrintMarker(m - at - 1, b[m])
  {}

  lemma SegmentWritten(b: Bytes, at: nat, m: nat)
    requires IsBytes(b) && at < m && m + 3 <= |b| && forall k :: at <= k < m ==> b[k] == 0xff
    requires 2 <= U16(b, m + 1) && m + 1 + U16(b, m + 1) <= |b|
    ensures var end := m + 1 + U16(b, m + 1); b[at..end] == PrintSegment(m - at - 1, b[m], b[m + 3..end])
  {
    var end := m + 1 + U16(b, m + 1);
    MarkerWritten(b, at, m);
    assert b[m + 1..m + 3] == Print16(U16(b, m + 1));
    assert b[at..m + 3] == b[at..m + 1] + b[m + 1..m + 3];
    assert b[at..end] == b[at..m + 3] + b[m + 3..end];
  }

  /** The reader is at an item: a marker it can skip. */
  ghost predicate AtItem(b: Bytes, at: nat)
    requires at <= |b|
  {
    Scan(b, at) != Invalid && !IsFrame(b[SkipFill(b, at + 1)])
  }

  lemma TemWritten(b: Bytes, at: nat) returns (i: Item, next: nat)
    requires IsBytes(b) && at <= |b| && AtItem(b, at) && b[SkipFill(b, at + 1)] == 1
    ensures ItemOk(i) && at < next <= |b| && b[at..next] == PrintItem(i) && Scan(b, at) == Scan(b, next)
  {
    var m := SkipFill(b, at + 1);
    MarkerWritten(b, at, m);
    i, next := Tem(m - at - 1), m + 1;
  }

  lemma SegmentItemWritten(b: Bytes, at: nat) returns (i: Item, next: nat)
    requires IsBytes(b) && at <= |b| && AtItem(b, at) && b[SkipFill(b, at + 1)] != 1
    ensures ItemOk(i) && at < next <= |b| && b[at..next] == PrintItem(i) && Scan(b, at) == Scan(b, next)
  {
    var m := SkipFill(b, at + 1);
    SegmentWritten(b, at, m);
    next := m + 1 + U16(b, m + 1);
    i := Segment(m - at - 1, b[m], b[m + 3..next]);
  }

  lemma BodyWritten(b: Bytes, p: nat, next: nat, f: Frame)
    requires IsBytes(b) && p + 6 <= next <= |b| && next == p + 6 + 3 * b[p + 5]
    requires f.precision == b[p] && f.height == U16(b, p + 1) && f.width == U16(b, p + 3) && f.components == b[p + 6..next]
    ensures b[p..next] == FrameBody(f)
  {
    assert b[p..p + 6] == FrameBody(f)[..6];
    assert b[p..next] == b[p..p + 6] + f.components;
  }

  lemma FrameWritten(b: Bytes, at: nat) returns (f: Frame, next: nat)
    requires IsBytes(b) && at <= |b| && Scan(b, at) != Invalid && !AtItem(b, at)
    ensures FrameOk(f) && at < next <= |b| && b[at..next] == PrintFrame(f) && Scan(b, at) == Dimensions(f.width, f.height, Jpeg)
  {
    var m := SkipFill(b, at + 1);
    next := m + 1 + U16(b, m + 1);
    f := FrameFields(b, at, m, next);
    BodyWritten(b, m + 3, next, f);
    SegmentWritten(b, at, m);
  }

  lemma FrameFields(b: Bytes, at: nat, m: nat, next: nat) returns (f: Frame)
    requires IsBytes(b) && at < m && m + 9 <= next <= |b| && IsFrame(b[m]) && next == m + 9 + 3 * b[m + 8] && b[m + 8] >= 1
    ensures f == Frame(m - at - 1, b[m], b[m + 3], U16(b, m + 4), U16(b, m + 6), b[m + 9..next]) && FrameOk(f)
  {
    f := Frame(m - at - 1, b[m], b[m + 3], U16(b, m + 4), U16(b, m + 6), b[m + 9..next]);
    assert |f.components| == 3 * b[m + 8];
  }

  /** Conversely, whatever the reader takes a size from is a printed header: its items, its frame and the rest. */
  lemma {:induction false} ReadIsPrinted(b: Bytes, at: nat) returns (items: seq<Item>, f: Frame, suffix: Bytes)
    requires IsBytes(b) && at <= |b| && Scan(b, at) != Invalid
    ensures ItemsOk(items) && FrameOk(f)
    ensures b[at..] == PrintItems(items) + (PrintFrame(f) + suffix)
    ensures Scan(b, at) == Dimensions(f.width, f.height, Jpeg)
    decreases |b| - at
  {
    if AtItem(b, at) {
      var i, next;
      if b[SkipFill(b, at + 1)] == 1 { i, next := TemWritten(b, at); } else { i, next := SegmentItemWritten(b, at); }
      items, f, suffix := ReadIsPrinted(b, next);
      items := PrependItem(b, at, next, i, items, f, suffix);
    } else {
      var next;
      f, next := FrameWritten(b, at);
      items, suffix := [], b[next..];
      Split(b, at, next);
      Assoc([], PrintFrame(f), suffix);
    }
  }

  lemma PrependItem(b: Bytes, at: nat, next: nat, i: Item, items: seq<Item>, f: Frame, suffix: Bytes) returns (all: seq<Item>)
    requires at <= next <= |b| && ItemOk(i) && ItemsOk(items)
    requires b[at..next] == PrintItem(i) && b[next..] == PrintItems(items) + (PrintFrame(f) + suffix)
    ensures all == [i] + items && ItemsOk(all)
    ensures b[at..] == PrintItems(all) + (PrintFrame(f) + suffix)
  {
    all := [i] + items;
    assert all[0] == i && all[1..] == items;
    Split(b, at, next);
    Assoc(PrintItem(i), PrintItems(items), PrintFrame(f) + suffix);
  }

  /** A JPEG is accepted, or refused only for its size, exactly when it is a printed header with any suffix. */
  lemma JpegGrammar(b: Bytes)
    requires IsBytes(b) && |b| <= MAX_COVER_BYTES && !IsPng(b)
    ensures Inspect(b) != Invalid <==>
            exists items, f, suffix :: ItemsOk(items) && FrameOk(f) && b == PrintImage(items, f, suffix)
  {
    if Inspect(b) != Invalid {
      var items, f, suffix := ReadIsPrinted(b, 2);
      assert b == b[..2] + b[2..] && b[..2] == [0xff, 0xd8];
      assert b == PrintImage(items, f, suffix);
    }
    forall items, f, suffix | ItemsOk(items) && FrameOk(f) && b == PrintImage(items, f, suffix)
      ensures Inspect(b) != Invalid
    { PrintedIsRead(items, f, suffix); }
  }

  /** The markers of the thirteen frame headers of table B.1 of ITU-T T.81: 0xc4, 0xc8 and 0xcc are tables and a reserved code. */
  lemma FrameMarkers(marker: int)
    ensures IsFrame(marker) <==>
              marker in {0xc0, 0xc1, 0xc2, 0xc3, 0xc5, 0xc6, 0xc7, 0xc9, 0xca, 0xcb, 0xcd, 0xce, 0xcf}
    ensures Forbidden(marker) <==> marker in {0, 0xd0, 0xd1, 0xd2, 0xd3, 0xd4, 0xd5, 0xd6, 0xd7, 0xd8, 0xd9, 0xda}
  {}
}
