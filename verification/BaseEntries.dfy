/** Compiled rows as commitment entries: the row compiler's output is what the commitments accept. */
module BaseEntries {
  import opened Results
  import opened Bcs
  import opened BaseCommitments
  import R = BaseRows

  /** The rows of one category, numbered from zero and encoded canonically. */
  ghost predicate Category(list: seq<RawEntry>, tag: nat, wire: Wire) {
    forall i :: 0 <= i < |list| ==>
      RowOk(list[i], wire) && Tag(list[i].kind.value) == tag && list[i].sequence.value == i
  }

  ghost predicate Below(raw: seq<RawEntry>, tag: nat) {
    forall i :: 0 <= i < |raw| && raw[i].kind.Some? ==> Tag(raw[i].kind.value) <= tag
  }

  lemma SnocAccepted(raw: seq<RawEntry>, e: RawEntry, wire: Wire)
    requires Accepted(raw, wire) && RowOk(e, wire) && Below(raw, Tag(e.kind.value))
    requires e.sequence.value == CountsRaw(raw)[Tag(e.kind.value)]
    ensures Accepted(raw + [e], wire)
    ensures CountsRaw(raw + [e]) == Bump(CountsRaw(raw), Tag(e.kind.value))
    ensures Below(raw + [e], Tag(e.kind.value))
  {
    var all := raw + [e];
    assert all[..|raw|] == raw;
    forall k | 0 <= k < |raw| ensures PlacedOk(all, k) {
      assert PlacedOk(raw, k);
      assert all[..k] == raw[..k];
    }
  }

  /** Appending one whole category. */
  lemma {:induction false} AppendCategory(raw: seq<RawEntry>, list: seq<RawEntry>, tag: nat, wire: Wire)
    requires tag < 7 && Accepted(raw, wire) && Category(list, tag, wire) && Below(raw, tag) && CountsRaw(raw)[tag] == 0
    ensures Accepted(raw + list, wire) && Below(raw + list, tag)
    ensures CountsRaw(raw + list) == CountsRaw(raw)[tag := |list|]
  {
    if list == [] {
      assert raw + list == raw;
      assert CountsRaw(raw)[tag := 0] == CountsRaw(raw);
    } else {
      var init, e := list[..|list| - 1], list[|list| - 1];
      AppendCategory(raw, init, tag, wire);
      SnocAccepted(raw + init, e, wire);
      assert (raw + init) + [e] == raw + list;
    }
  }

  function Concat(lists: seq<seq<RawEntry>>): seq<RawEntry> {
    if lists == [] then [] else Concat(lists[..|lists| - 1]) + lists[|lists| - 1]
  }

  /** Categories concatenated in tag order are accepted. */
  lemma {:induction false} ConcatAccepted(lists: seq<seq<RawEntry>>, wire: Wire)
    requires |lists| <= 7 && forall c: nat :: c < |lists| ==> Category(lists[c], c, wire)
    ensures Accepted(Concat(lists), wire)
    ensures |lists| > 0 ==> Below(Concat(lists), |lists| - 1)
    ensures |lists| == 0 ==> Concat(lists) == []
    ensures forall t :: |lists| <= t < 7 ==> CountsRaw(Concat(lists))[t] == 0
  {
    if lists != [] {
      var n := |lists| - 1;
      ConcatAccepted(lists[..n], wire);
      assert Category(lists[n], n, wire);
      AppendCategory(Concat(lists[..n]), lists[n], n, wire);
    }
  }

  /** The row schemas' fields after the sequence every row starts with. */
  datatype Encoder = Encoder(track: R.TrackRow -> Bytes, color: R.ColorRow -> Bytes, part: R.PartRow -> Bytes,
                             item: R.ItemRow -> Bytes, style: R.StyleRow -> Bytes, asset: R.AssetRow -> Bytes)

  function EntryOf(kind: Kind, sequence: nat, tail: Bytes): RawEntry {
    RawEntry(Some(kind), Some(sequence), Some(U64(sequence) + tail), None)
  }

  /** The entries of one category's rows. */
  function Entries<T>(kind: Kind, rows: seq<T>, sequence: T -> nat, tail: T -> Bytes): (r: seq<RawEntry>)
    ensures |r| == |rows|
    ensures forall i :: 0 <= i < |rows| ==> r[i] == EntryOf(kind, sequence(rows[i]), tail(rows[i]))
  {
    if rows == [] then []
    else
      var n := |rows| - 1;
      Entries(kind, rows[..n], sequence, tail) + [EntryOf(kind, sequence(rows[n]), tail(rows[n]))]
  }

  /** Rows numbered from zero whose encodings the category's schema round-trips. */
  ghost predicate Encodable<T>(kind: Kind, rows: seq<T>, sequence: T -> nat, tail: T -> Bytes, wire: Wire) {
    && |rows| < TWO_TO_64
    && forall i: nat :: i < |rows| ==>
         && sequence(rows[i]) == i
         && IsBytes(tail(rows[i])) && wire.canonical(kind, U64(sequence(rows[i])) + tail(rows[i]))
  }

  lemma {:induction false} LittleEndianBytes(n: nat, k: nat)
    ensures IsBytes(LittleEndian(n, k))
    decreases k
  {
    if k > 0 { LittleEndianBytes(n / 256, k - 1); }
  }

  lemma EntryOk(kind: Kind, n: nat, tail: Bytes, wire: Wire)
    requires n < TWO_TO_64 && IsBytes(tail) && wire.canonical(kind, U64(n) + tail)
    ensures RowOk(EntryOf(kind, n, tail), wire)
  {
    LittleEndianBytes(n, 8);
    U64Reads(n);
    assert (U64(n) + tail)[..8] == U64(n);
  }

  lemma EntriesAreCategory<T>(kind: Kind, rows: seq<T>, sequence: T -> nat, tail: T -> Bytes, wire: Wire)
    requires Encodable(kind, rows, sequence, tail, wire)
    ensures Category(Entries(kind, rows, sequence, tail), Tag(kind), wire)
  {
    var list := Entries(kind, rows, sequence, tail);
    forall i: nat | i < |list|
      ensures RowOk(list[i], wire) && Tag(list[i].kind.value) == Tag(kind) && list[i].sequence.value == i
    { EntryOk(kind, i, tail(rows[i]), wire); }
  }

  function TrackSequence(r: R.TrackRow): nat { r.sequence }
  function ColorSequence(r: R.ColorRow): nat { r.sequence }
  function PartSequence(r: R.PartRow): nat { r.sequence }
  function ItemSequence(r: R.ItemRow): nat { r.sequence }
  function StyleSequence(r: R.StyleRow): nat { r.sequence }
  function AssetSequence(r: R.AssetRow): nat { r.sequence }

  function ListAt(rows: R.Rows, rules: seq<RawEntry>, enc: Encoder, c: nat): seq<RawEntry> {
    match c
    case 0 => Entries(Track, rows.track, TrackSequence, enc.track)
    case 1 => Entries(Color, rows.color, ColorSequence, enc.color)
    case 2 => Entries(Part, rows.part, PartSequence, enc.part)
    case 3 => Entries(Item, rows.item, ItemSequence, enc.item)
    case 4 => Entries(Style, rows.style, StyleSequence, enc.style)
    case 5 => rules
    case _ => Entries(Asset, rows.asset, AssetSequence, enc.asset)
  }

  /** The compiled rows with the separately compiled rules in their place, in tag order. */
  function Lists(rows: R.Rows, rules: seq<RawEntry>, enc: Encoder): (r: seq<seq<RawEntry>>)
    ensures |r| == 7 && forall c: nat :: c < 7 ==> r[c] == ListAt(rows, rules, enc, c)
  {
    seq(7, c requires 0 <= c < 7 => ListAt(rows, rules, enc, c))
  }

  /** Each row schema round-trips the encoding of a row of its category. */
  ghost predicate EncoderOk(rows: R.Rows, enc: Encoder, wire: Wire) {
    && Schema(Track, rows.track, TrackSequence, enc.track, wire) && Schema(Color, rows.color, ColorSequence, enc.color, wire)
    && Schema(Part, rows.part, PartSequence, enc.part, wire) && Schema(Item, rows.item, ItemSequence, enc.item, wire)
    && Schema(Style, rows.style, StyleSequence, enc.style, wire) && Schema(Asset, rows.asset, AssetSequence, enc.asset, wire)
  }

  ghost predicate Schema<T>(kind: Kind, rows: seq<T>, sequence: T -> nat, tail: T -> Bytes, wire: Wire) {
    && |rows| < TWO_TO_64
    && forall row :: row in rows ==> IsBytes(tail(row)) && wire.canonical(kind, U64(sequence(row)) + tail(row))
  }

  lemma NumberedIsEncodable<T>(kind: Kind, rows: seq<T>, sequence: T -> nat, tail: T -> Bytes, wire: Wire)
    requires Schema(kind, rows, sequence, tail, wire) && Numbered(rows, sequence)
    ensures Category(Entries(kind, rows, sequence, tail), Tag(kind), wire)
  {
    assert forall i: nat :: i < |rows| ==> rows[i] in rows;
    EntriesAreCategory(kind, rows, sequence, tail, wire);
  }

  ghost predicate Numbered<T>(rows: seq<T>, sequence: T -> nat) { forall i: nat :: i < |rows| ==> sequence(rows[i]) == i }

  ghost predicate AllNumbered(rows: R.Rows) {
    && Numbered(rows.track, TrackSequence) && Numbered(rows.color, ColorSequence) && Numbered(rows.part, PartSequence)
    && Numbered(rows.item, ItemSequence) && Numbered(rows.style, StyleSequence) && Numbered(rows.asset, AssetSequence)
  }

  lemma FirstAreCategories(rows: R.Rows, rules: seq<RawEntry>, enc: Encoder, wire: Wire, c: nat)
    requires AllNumbered(rows) && EncoderOk(rows, enc, wire) && c < 3
    ensures Category(ListAt(rows, rules, enc, c), c, wire)
  {
    match c
    case 0 => NumberedIsEncodable(Track, rows.track, TrackSequence, enc.track, wire);
    case 1 => NumberedIsEncodable(Color, rows.color, ColorSequence, enc.color, wire);
    case _ => NumberedIsEncodable(Part, rows.part, PartSequence, enc.part, wire);
  }

  lemma LastAreCategories(rows: R.Rows, rules: seq<RawEntry>, enc: Encoder, wire: Wire, c: nat)
    requires AllNumbered(rows) && EncoderOk(rows, enc, wire) && 3 <= c < 7 && c != 5
    ensures Category(ListAt(rows, rules, enc, c), c, wire)
  {
    match c
    case 3 => NumberedIsEncodable(Item, rows.item, ItemSequence, enc.item, wire);
    case 4 => NumberedIsEncodable(Style, rows.style, StyleSequence, enc.style, wire);
    case _ => NumberedIsEncodable(Asset, rows.asset, AssetSequence, enc.asset, wire);
  }

  lemma ListIsCategory(rows: R.Rows, rules: seq<RawEntry>, enc: Encoder, wire: Wire, c: nat)
    requires AllNumbered(rows) && EncoderOk(rows, enc, wire) && Category(rules, Tag(Rule), wire) && c < 7
    ensures Category(ListAt(rows, rules, enc, c), c, wire)
  {
    if c < 3 {
      FirstAreCategories(rows, rules, enc, wire, c);
    } else if c != 5 {
      LastAreCategories(rows, rules, enc, wire, c);
    }
  }

  lemma ListsAccepted(rows: R.Rows, rules: seq<RawEntry>, enc: Encoder, wire: Wire)
    requires AllNumbered(rows) && EncoderOk(rows, enc, wire) && Category(rules, Tag(Rule), wire)
    ensures Accepted(Concat(Lists(rows, rules, enc)), wire)
  {
    var lists := Lists(rows, rules, enc);
    forall c: nat | c < |lists| ensures Category(lists[c], c, wire) { ListIsCategory(rows, rules, enc, wire, c); }
    ConcatAccepted(lists, wire);
  }

  lemma CompiledAreNumbered(d: R.Document, certified: R.Certified, rows: R.Rows)
    requires R.RowsOf(rows, d, certified)
    ensures AllNumbered(rows)
  {
    R.RowsNumbered(rows, d, certified);
  }

  /** What compilation hands on is what checkedEntries accepts: the rows it numbers, encoded and concatenated in
      tag order. */
  lemma CompiledRowsAccepted(d: R.Document, certified: R.Certified, rows: R.Rows, rules: seq<RawEntry>, enc: Encoder, wire: Wire)
    requires R.RowsOf(rows, d, certified) && EncoderOk(rows, enc, wire) && Category(rules, Tag(Rule), wire)
    ensures Accepted(Concat(Lists(rows, rules, enc)), wire)
  {
    CompiledAreNumbered(d, certified, rows);
    ListsAccepted(rows, rules, enc, wire);
  }
}
