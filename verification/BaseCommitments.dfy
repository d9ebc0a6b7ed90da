/**
 * Author and storage commitments of maker-v8-base-commitments.js.  The hash is any function on bytes; what the
 * source promises of it is stated as "equal, or else these two inputs collide".
 */
module BaseCommitments {
  import opened Results
  import opened Bcs
  import opened RuleRows

  datatype Kind = Track | Color | Part | Item | Style | Rule | Asset

  function Tag(k: Kind): (t: nat)
    ensures t < 7
  {
    match k
    case Track => 0
    case Color => 1
    case Part => 2
    case Item => 3
    case Style => 4
    case Rule => 5
    case Asset => 6
  }

  const MAX_ARRAY: nat := 0xFFFF_FFFF

  /** An entry as received: no kind when unknown, no sequence when not an exact u64, no bytes when not an array. */
  datatype RawEntry = RawEntry(kind: Option<Kind>, sequence: Option<nat>, bytes: Option<Bytes>, commitment: Option<Bytes>)

  datatype Entry = Entry(kind: Kind, bytes: Bytes, commitment: Option<Bytes>, isProtected: bool, sequence: nat)

  /** The row schemas. */
  datatype Wire = Wire(canonical: (Kind, Bytes) -> bool, isProtected: Bytes -> bool, parseRule: Bytes -> Option<RuleRow>)

  // ---- checkedEntries ---------------------------------------------------------------------------------

  const ZERO_COUNTS: seq<nat> := [0, 0, 0, 0, 0, 0, 0]

  function Bump(counts: seq<nat>, tag: nat): seq<nat>
    requires |counts| == 7 && tag < 7
  {
    counts[tag := counts[tag] + 1]
  }

  /** How many entries each category has. */
  function CountsRaw(raw: seq<RawEntry>): (c: seq<nat>)
    ensures |c| == 7
  {
    if raw == [] then ZERO_COUNTS
    else
      var c, last := CountsRaw(raw[..|raw| - 1]), raw[|raw| - 1];
      if last.kind.Some? then Bump(c, Tag(last.kind.value)) else c
  }

  predicate RowOk(e: RawEntry, wire: Wire) {
    && e.kind.Some? && e.sequence.Some? && e.sequence.value < TWO_TO_64
    && e.bytes.Some? && IsBytes(e.bytes.value) && |e.bytes.value| >= 8
    && FromLittleEndian(e.bytes.value[..8]) == e.sequence.value
    && wire.canonical(e.kind.value, e.bytes.value)
  }

  predicate PlacedOk(raw: seq<RawEntry>, k: nat)
    requires k < |raw| && raw[k].kind.Some? && raw[k].sequence.Some?
  {
    && (k > 0 && raw[k - 1].kind.Some? ==> Tag(raw[k - 1].kind.value) <= Tag(raw[k].kind.value))
    && raw[k].sequence.value == CountsRaw(raw[..k])[Tag(raw[k].kind.value)]
  }

  /** Every row well formed, categories in order, and each sequence the number of earlier rows of its kind. */
  ghost predicate Accepted(raw: seq<RawEntry>, wire: Wire) {
    AcceptedTo(raw, wire, |raw|)
  }

  function Checked(e: RawEntry, wire: Wire): Entry
    requires RowOk(e, wire)
  {
    Entry(e.kind.value, e.bytes.value, e.commitment, e.kind.value == Style && wire.isProtected(e.bytes.value),
          e.sequence.value)
  }

  /** The checks on one entry against the running category and counts. */
  method CheckEntry(e: RawEntry, wire: Wire, previous: int, counts: seq<nat>) returns (r: Option<Entry>)
    requires |counts| == 7
    ensures r.Some? <==> RowOk(e, wire) && previous <= Tag(e.kind.value)
                         && e.sequence.value == counts[Tag(e.kind.value)]
    ensures r.Some? ==> r.value == Checked(e, wire)
  {
    if e.kind.None? || e.sequence.None? || e.sequence.value >= TWO_TO_64 { return None; }
    var kind, sequence := e.kind.value, e.sequence.value;
    if Tag(kind) < previous || sequence != counts[Tag(kind)] { return None; }
    if e.bytes.None? || !IsBytes(e.bytes.value) || |e.bytes.value| < 8 { return None; }
    if FromLittleEndian(e.bytes.value[..8]) != sequence { return None; }
    if !wire.canonical(kind, e.bytes.value) { return None; }
    return Some(Entry(kind, e.bytes.value, e.commitment, kind == Style && wire.isProtected(e.bytes.value), sequence));
  }

  lemma CountsRawSnoc(raw: seq<RawEntry>, n: nat)
    requires n < |raw| && raw[n].kind.Some?
    ensures CountsRaw(raw[..n + 1]) == Bump(CountsRaw(raw[..n]), Tag(raw[n].kind.value))
  {
    assert raw[..n + 1][..n] == raw[..n];
  }

  ghost predicate AcceptedTo(raw: seq<RawEntry>, wire: Wire, n: nat)
    requires n <= |raw|
  {
    && (forall k :: 0 <= k < n ==> RowOk(raw[k], wire))
    && (forall k {:trigger PlacedOk(raw, k)} :: 0 <= k < n ==> PlacedOk(raw, k))
  }

  ghost predicate CheckedTo(raw: seq<RawEntry>, wire: Wire, entries: seq<Entry>) {
    && |entries| <= |raw|
    && forall k :: 0 <= k < |entries| ==> RowOk(raw[k], wire) && entries[k] == Checked(raw[k], wire)
  }

  lemma CheckedSnoc(raw: seq<RawEntry>, wire: Wire, entries: seq<Entry>, n: nat)
    requires n < |raw| && |entries| == n && AcceptedTo(raw, wire, n) && CheckedTo(raw, wire, entries)
    requires RowOk(raw[n], wire) && PlacedOk(raw, n)
    ensures AcceptedTo(raw, wire, n + 1) && CheckedTo(raw, wire, entries + [Checked(raw[n], wire)])
  {
  }

  lemma EntryRefused(raw: seq<RawEntry>, wire: Wire, n: nat)
    requires n < |raw| && !(RowOk(raw[n], wire) && PlacedOk(raw, n))
    ensures !Accepted(raw, wire)
  {
  }

  /** One pass over the entries with the running counts: accepts exactly the sound lists. */
  method CheckedEntries(raw: seq<RawEntry>, wire: Wire) returns (r: Option<seq<Entry>>)
    ensures r.Some? <==> Accepted(raw, wire)
    ensures r.Some? ==> AllChecked(raw, wire, r.value)
  {
    var counts := ZERO_COUNTS;
    var previous: int := -1;
    var entries: seq<Entry> := [];
    for n := 0 to |raw|
      invariant AcceptedTo(raw, wire, n)
      invariant counts == CountsRaw(raw[..n])
      invariant previous == if n == 0 then -1 else Tag(raw[n - 1].kind.value)
      invariant |entries| == n && CheckedTo(raw, wire, entries)
    {
      var checked := CheckEntry(raw[n], wire, previous, counts);
      if checked.None? {
        EntryRefused(raw, wire, n);
        return None;
      }
      CheckedSnoc(raw, wire, entries, n);
      CountsRawSnoc(raw, n);
      previous := Tag(checked.value.kind);
      counts := counts[previous := counts[previous] + 1];
      entries := entries + [checked.value];
    }
    assert raw[..|raw|] == raw;
    return Some(entries);
  }

  ghost predicate AllChecked(raw: seq<RawEntry>, wire: Wire, entries: seq<Entry>) {
    && |entries| == |raw|
    && forall k :: 0 <= k < |raw| ==> RowOk(raw[k], wire) && entries[k] == Checked(raw[k], wire)
  }

  // ---- checked lists ----------------------------------------------------------------------------------

  /** The entries of one category. */
  function Filter(entries: seq<Entry>, tag: nat): seq<Entry> {
    if entries == [] then []
    else
      var last := entries[|entries| - 1];
      Filter(entries[..|entries| - 1], tag) + if Tag(last.kind) == tag then [last] else []
  }

  ghost predicate OrderedAt(entries: seq<Entry>, k: nat)
    requires k < |entries|
  {
    && (k > 0 ==> Tag(entries[k - 1].kind) <= Tag(entries[k].kind))
    && entries[k].sequence == CountsOf(entries[..k])[Tag(entries[k].kind)]
  }

  /** What checkedEntries guarantees of its result. */
  ghost predicate Ordered(entries: seq<Entry>) {
    |entries| <= MAX_ARRAY && forall k :: 0 <= k < |entries| ==> OrderedAt(entries, k)
  }

  ghost predicate AllCanonical(wire: Wire, entries: seq<Entry>) {
    forall k :: 0 <= k < |entries| ==> wire.canonical(entries[k].kind, entries[k].bytes)
  }

  function CountsOf(entries: seq<Entry>): (c: seq<nat>)
    ensures |c| == 7
  {
    if entries == [] then ZERO_COUNTS
    else Bump(CountsOf(entries[..|entries| - 1]), Tag(entries[|entries| - 1].kind))
  }

  lemma {:induction false} CountsAgree(raw: seq<RawEntry>, wire: Wire, entries: seq<Entry>)
    requires AllChecked(raw, wire, entries)
    ensures CountsRaw(raw) == CountsOf(entries)
  {
    if raw != [] { CountsAgree(raw[..|raw| - 1], wire, entries[..|raw| - 1]); }
  }

  /** Each count is the number of entries of its category. */
  lemma {:induction false} CountIsFilter(entries: seq<Entry>, tag: nat)
    requires tag < 7
    ensures CountsOf(entries)[tag] == |Filter(entries, tag)| <= |entries|
  {
    if entries != [] { CountIsFilter(entries[..|entries| - 1], tag); }
  }

  /** After checkedEntries the order and sequences hold, so a second check of them cannot fail. */
  lemma CheckedIsOrdered(raw: seq<RawEntry>, wire: Wire, entries: seq<Entry>)
    requires Accepted(raw, wire) && |raw| <= MAX_ARRAY && AllChecked(raw, wire, entries)
    ensures Ordered(entries) && AllCanonical(wire, entries)
  {
    forall k | 0 <= k < |entries| ensures OrderedAt(entries, k) {
      assert PlacedOk(raw, k);
      CountsAgree(raw[..k], wire, entries[..k]);
    }
  }

  lemma OrderedPrefix(entries: seq<Entry>, n: nat)
    requires Ordered(entries) && n <= |entries|
    ensures Ordered(entries[..n])
  {
    forall k | 0 <= k < n ensures OrderedAt(entries[..n], k) {
      assert OrderedAt(entries, k);
      assert entries[..n][..k] == entries[..k];
    }
  }

  function Sum7(c: seq<nat>): nat
    requires |c| == 7
  { c[0] + c[1] + c[2] + c[3] + c[4] + c[5] + c[6] }

  /** The counts of the seven categories add up to the whole. */
  lemma {:induction false} CountsTotal(entries: seq<Entry>)
    ensures Sum7(CountsOf(entries)) == |entries|
  {
    if entries != [] { CountsTotal(entries[..|entries| - 1]); }
  }

  // ---- the author chain -------------------------------------------------------------------------------

  function AuthorAdvance(h: Hasher, tag: nat, sequence: nat, index: nat, prior: Bytes, row: Bytes): Bytes {
    h.domain(AdvanceInput) + ([tag] + (U64(sequence) + (U64(index) + (ByteVector(prior) + (ByteVector(row) + [])))))
  }

  function AuthorSealInput(h: Hasher, counts: seq<nat>, final: Bytes): Bytes {
    h.domain(SealInput) + (Uleb(|counts|) + (U64s(counts) + (ByteVector(final) + [])))
  }

  function AuthorRolling(h: Hasher, entries: seq<Entry>): Bytes {
    if entries == [] then h.hash(h.domain(EmptyInput))
    else
      var n := |entries| - 1;
      h.hash(AuthorAdvance(h, Tag(entries[n].kind), entries[n].sequence, n, AuthorRolling(h, entries[..n]), entries[n].bytes))
  }

  function AuthorCommitment(h: Hasher, entries: seq<Entry>): Bytes {
    h.hash(AuthorSealInput(h, CountsOf(entries), AuthorRolling(h, entries)))
  }

  datatype AuthorResult = AuthorResult(initial: Bytes, rolling: Bytes, commitment: Bytes, checkpoints: seq<Bytes>,
                                       counts: seq<nat>, total: nat)

  lemma AuthorSnoc(h: Hasher, entries: seq<Entry>, n: nat)
    requires n < |entries|
    ensures var e := entries[n];
      && AuthorRolling(h, entries[..n + 1])
         == h.hash(AuthorAdvance(h, Tag(e.kind), e.sequence, n, AuthorRolling(h, entries[..n]), e.bytes))
      && CountsOf(entries[..n + 1]) == Bump(CountsOf(entries[..n]), Tag(e.kind))
  {
    assert entries[..n + 1][..n] == entries[..n];
  }

  /** The rolling author commitment; checkpoint k is the value a fresh derivation of the first k rows has. */
  method DeriveAuthor(h: Hasher, entries: seq<Entry>) returns (r: AuthorResult)
    requires Ordered(entries)
    ensures r.initial == AuthorRolling(h, []) && r.rolling == AuthorRolling(h, entries)
    ensures r.commitment == AuthorCommitment(h, entries)
    ensures r.counts == CountsOf(entries) && r.total == |entries| == Sum7(r.counts)
    ensures |r.checkpoints| == |entries| + 1
    ensures forall k :: 0 <= k <= |entries| ==> r.checkpoints[k] == AuthorRolling(h, entries[..k])
  {
    var counts := ZERO_COUNTS;
    var initial := h.hash(h.domain(EmptyInput));
    var rolling := initial;
    var checkpoints := [rolling];
    for n := 0 to |entries|
      invariant rolling == AuthorRolling(h, entries[..n])
      invariant counts == CountsOf(entries[..n])
      invariant |checkpoints| == n + 1
      invariant forall k :: 0 <= k <= n ==> checkpoints[k] == AuthorRolling(h, entries[..k])
    {
      var e := entries[n];
      AuthorSnoc(h, entries, n);
      rolling := h.hash(AuthorAdvance(h, Tag(e.kind), e.sequence, n, rolling, e.bytes));
      counts := counts[Tag(e.kind) := counts[Tag(e.kind)] + 1];
      checkpoints := checkpoints + [rolling];
    }
    assert entries[..|entries|] == entries;
    CountsTotal(entries);
    return AuthorResult(initial, rolling, h.hash(AuthorSealInput(h, counts, rolling)), checkpoints, counts, |entries|);
  }

  lemma AdvanceUnique(h: Hasher, t: nat, s: nat, i: nat, p: Bytes, r: Bytes, t': nat, s': nat, i': nat, p': Bytes, r': Bytes)
    requires s < TWO_TO_64 && i < TWO_TO_64 && s' < TWO_TO_64 && i' < TWO_TO_64
    requires AuthorAdvance(h, t, s, i, p, r) == AuthorAdvance(h, t', s', i', p', r')
    ensures t == t' && s == s' && i == i' && p == p' && r == r'
  {
    var d := h.domain(AdvanceInput);
    var a5, b5 := ByteVector(r) + [], ByteVector(r') + [];
    var a4, b4 := ByteVector(p) + a5, ByteVector(p') + b5;
    var a3, b3 := U64(i) + a4, U64(i') + b4;
    var a2, b2 := U64(s) + a3, U64(s') + b3;
    var a1, b1 := [t] + a2, [t'] + b2;
    assert a1 == (d + a1)[|d|..] && b1 == (d + b1)[|d|..];
    assert a1[0] == t && b1[0] == t' && a2 == a1[1..] && b2 == b1[1..];
    U64Unique(s, a3, s', b3);
    U64Unique(i, a4, i', b4);
    ByteVectorUnique(p, a5, p', b5);
    ByteVectorUnique(r, [], r', []);
  }

  lemma SealUnique(h: Hasher, c: seq<nat>, f: Bytes, c': seq<nat>, f': Bytes)
    requires |c| == |c'| == 7
    requires forall k :: 0 <= k < 7 ==> c[k] < TWO_TO_64 && c'[k] < TWO_TO_64
    requires AuthorSealInput(h, c, f) == AuthorSealInput(h, c', f')
    ensures c == c' && f == f'
  {
    var d := h.domain(SealInput);
    var a2, b2 := U64s(c) + (ByteVector(f) + []), U64s(c') + (ByteVector(f') + []);
    var a1, b1 := Uleb(7) + a2, Uleb(7) + b2;
    assert a1 == (d + a1)[|d|..] && b1 == (d + b1)[|d|..];
    UlebPrefixFree(7, a2, 7, b2);
    U64sUnique(c, ByteVector(f) + [], c', ByteVector(f') + []);
    ByteVectorUnique(f, [], f', []);
  }

  /** The same kinds and row bytes, in the same order. */
  ghost predicate SameRows(a: seq<Entry>, b: seq<Entry>) {
    |a| == |b| && forall k :: 0 <= k < |a| ==> a[k].kind == b[k].kind && a[k].bytes == b[k].bytes
  }

  lemma TagDecides(k: Kind, j: Kind)
    requires Tag(k) == Tag(j)
    ensures k == j
  {
  }

  /** The input of the last advance of a non-empty list. */
  function LastAdvance(h: Hasher, entries: seq<Entry>): Bytes
    requires entries != []
  {
    var n := |entries| - 1;
    AuthorAdvance(h, Tag(entries[n].kind), entries[n].sequence, n, AuthorRolling(h, entries[..n]), entries[n].bytes)
  }

  lemma LastAdvanceUnique(h: Hasher, a: seq<Entry>, b: seq<Entry>)
    requires Ordered(a) && Ordered(b) && |a| == |b| > 0 && LastAdvance(h, a) == LastAdvance(h, b)
    ensures a[|a| - 1].kind == b[|b| - 1].kind && a[|a| - 1].bytes == b[|b| - 1].bytes
    ensures AuthorRolling(h, a[..|a| - 1]) == AuthorRolling(h, b[..|b| - 1])
  {
    var n := |a| - 1;
    var e, f := a[n], b[n];
    assert OrderedAt(a, n) && OrderedAt(b, n);
    CountIsFilter(a[..n], Tag(e.kind));
    CountIsFilter(b[..n], Tag(f.kind));
    AdvanceUnique(h, Tag(e.kind), e.sequence, n, AuthorRolling(h, a[..n]), e.bytes,
                  Tag(f.kind), f.sequence, n, AuthorRolling(h, b[..n]), f.bytes);
    TagDecides(e.kind, f.kind);
  }

  /** Backward over the chain: equal rolling values of equally long lists, or a collision. */
  lemma {:induction false} RollingBinds(h: Hasher, a: seq<Entry>, b: seq<Entry>) returns (x: Bytes, y: Bytes)
    requires Ordered(a) && Ordered(b) && |a| == |b| && AuthorRolling(h, a) == AuthorRolling(h, b)
    ensures SameRows(a, b) || Collide(h, x, y)
    decreases |a|
  {
    x, y := [], [];
    if a != [] {
      var n := |a| - 1;
      x, y := LastAdvance(h, a), LastAdvance(h, b);
      if x == y {
        LastAdvanceUnique(h, a, b);
        OrderedPrefix(a, n);
        OrderedPrefix(b, n);
        x, y := RollingBinds(h, a[..n], b[..n]);
        if SameRows(a[..n], b[..n]) {
          forall k | 0 <= k < |a| ensures a[k].kind == b[k].kind && a[k].bytes == b[k].bytes {
            if k < n { assert a[..n][k] == a[k] && b[..n][k] == b[k]; }
          }
        }
      }
    }
  }

  /** The author commitment is binding: two checked lists with the same commitment are the same kinds and row
      bytes, or the lemma exhibits two inputs on which the hash collides. */
  lemma AuthorBinds(h: Hasher, a: seq<Entry>, b: seq<Entry>) returns (x: Bytes, y: Bytes)
    requires Ordered(a) && Ordered(b) && AuthorCommitment(h, a) == AuthorCommitment(h, b)
    ensures SameRows(a, b) || Collide(h, x, y)
  {
    x := AuthorSealInput(h, CountsOf(a), AuthorRolling(h, a));
    y := AuthorSealInput(h, CountsOf(b), AuthorRolling(h, b));
    if x == y {
      forall k | 0 <= k < 7 ensures CountsOf(a)[k] < TWO_TO_64 && CountsOf(b)[k] < TWO_TO_64 {
        CountIsFilter(a, k);
        CountIsFilter(b, k);
      }
      SealUnique(h, CountsOf(a), AuthorRolling(h, a), CountsOf(b), AuthorRolling(h, b));
      CountsTotal(a);
      CountsTotal(b);
      x, y := RollingBinds(h, a, b);
    }
  }

  // ---- the eight storage chains -----------------------------------------------------------------------

  /** Chains 0 to 6 are the categories; chain 7 is the aggregate. */
  const AGGREGATE: nat := 7

  function ChainTag(c: nat): nat
    requires c <= AGGREGATE
  {
    if c == AGGREGATE then 255 else c
  }

  /** The tags of the eight chains, as the seal of all lists them. */
  const CHAIN_TAGS: Bytes := [0, 1, 2, 3, 4, 5, 6, 255]

  datatype Identity = Identity(registry: Bytes, root: Bytes, version: nat)

  /** The storage derivation's fixed inputs; the pass takes the commitment of a row as it comes. */
  datatype Setting = Setting(hasher: Hasher, wire: Wire, id: Identity, row: Entry -> Bytes)

  function IdentityBytes(id: Identity, rest: Bytes): Bytes { id.registry + (id.root + (U64(id.version) + rest)) }

  function InitialText(s: Setting, c: nat): Bytes
    requires c <= AGGREGATE
  {
    s.hasher.domain(EmptyInput) + IdentityBytes(s.id, [ChainTag(c)])
  }

  function Initial(s: Setting, c: nat): Bytes
    requires c <= AGGREGATE
  {
    s.hasher.hash(InitialText(s, c))
  }

  function AdvanceText(s: Setting, c: nat, index: nat, prior: Bytes, row: Bytes): Bytes
    requires c <= AGGREGATE
  {
    s.hasher.domain(AdvanceInput) + (s.id.registry + ([ChainTag(c)] + (U64(index) + (ByteVector(prior) + ByteVector(row)))))
  }

  function Advance(s: Setting, c: nat, index: nat, prior: Bytes, row: Bytes): Bytes
    requires c <= AGGREGATE
  {
    s.hasher.hash(AdvanceText(s, c, index, prior, row))
  }

  /** One chain on its own: a fold over its entries, numbered from zero. */
  function Chain(s: Setting, c: nat, entries: seq<Entry>): Bytes
    requires c <= AGGREGATE
  {
    if entries == [] then Initial(s, c)
    else
      var n := |entries| - 1;
      Advance(s, c, n, Chain(s, c, entries[..n]), s.row(entries[n]))
  }

  function Members(entries: seq<Entry>, c: nat): seq<Entry> {
    if c == AGGREGATE then entries else Filter(entries, c)
  }

  function ProtectedStyles(entries: seq<Entry>): nat {
    if entries == [] then 0
    else ProtectedStyles(entries[..|entries| - 1]) + if entries[|entries| - 1].isProtected then 1 else 0
  }

  datatype Checkpoint = Checkpoint(next: nat, counts: seq<nat>, rolling: seq<Bytes>, protectedStyles: nat)

  /** What eight independent folds of these entries give. */
  ghost predicate Derives(s: Setting, p: Checkpoint, entries: seq<Entry>) {
    && p.next == |entries| && p.protectedStyles == ProtectedStyles(entries)
    && p.counts == CountsOf(entries)
    && RollingDerives(s, p.rolling, entries)
  }

  ghost predicate RollingDerives(s: Setting, rolling: seq<Bytes>, entries: seq<Entry>) {
    |rolling| == 8 && forall c :: 0 <= c < 8 ==> rolling[c] == Chain(s, c, Members(entries, c))
  }

  /** They give one value. */
  lemma DerivesOnce(s: Setting, p: Checkpoint, q: Checkpoint, entries: seq<Entry>)
    requires Derives(s, p, entries) && Derives(s, q, entries)
    ensures p == q
  {
    assert p.rolling == q.rolling;
  }

  /** The loop body: one row advances its category's chain and the aggregate. */
  function Append(s: Setting, p: Checkpoint, e: Entry): Checkpoint
    requires |p.counts| == 7 && |p.rolling| == 8
  {
    var t, row := Tag(e.kind), s.row(e);
    Checkpoint(p.next + 1, p.counts[t := p.counts[t] + 1],
               p.rolling[t := Advance(s, t, e.sequence, p.rolling[t], row)]
                        [AGGREGATE := Advance(s, AGGREGATE, p.next, p.rolling[AGGREGATE], row)],
               p.protectedStyles + if e.isProtected then 1 else 0)
  }

  lemma ChainSnoc(s: Setting, c: nat, entries: seq<Entry>, e: Entry)
    requires c <= AGGREGATE
    ensures Chain(s, c, entries + [e]) == Advance(s, c, |entries|, Chain(s, c, entries), s.row(e))
  {
    assert (entries + [e])[..|entries|] == entries;
  }

  lemma FilterSnoc(entries: seq<Entry>, e: Entry, tag: nat)
    ensures Filter(entries + [e], tag) == Filter(entries, tag) + if Tag(e.kind) == tag then [e] else []
  {
    assert (entries + [e])[..|entries|] == entries;
  }

  lemma MembersSnoc(entries: seq<Entry>, e: Entry, c: nat)
    ensures Members(entries + [e], c) == Members(entries, c) + if c == AGGREGATE || c == Tag(e.kind) then [e] else []
  {
    if c != AGGREGATE { FilterSnoc(entries, e, c); }
  }

  lemma AppendAt(s: Setting, p: Checkpoint, e: Entry, c: nat)
    requires c < 8 && |p.rolling| == 8 && |p.counts| == 7
    ensures Append(s, p, e).rolling[c] ==
            if c == AGGREGATE then Advance(s, c, p.next, p.rolling[c], s.row(e))
            else if c == Tag(e.kind) then Advance(s, c, e.sequence, p.rolling[c], s.row(e))
            else p.rolling[c]
  {
  }

  lemma ChainAppends(s: Setting, p: Checkpoint, entries: seq<Entry>, e: Entry, c: nat)
    requires c < 8 && RollingDerives(s, p.rolling, entries) && p.next == |entries| && |p.counts| == 7
    requires e.sequence == |Filter(entries, Tag(e.kind))|
    ensures Append(s, p, e).rolling[c] == Chain(s, c, Members(entries + [e], c))
  {
    AppendAt(s, p, e, c);
    MembersSnoc(entries, e, c);
    ChainSnoc(s, c, Members(entries, c), e);
    assert p.rolling[c] == Chain(s, c, Members(entries, c));
    if c != AGGREGATE && c != Tag(e.kind) {
      assert Members(entries + [e], c) == Members(entries, c);
    } else {
      assert |Members(entries, c)| == if c == AGGREGATE then p.next else e.sequence;
    }
  }

  /** One pass keeps eight folds: appending in place is folding once more. */
  lemma AppendDerives(s: Setting, p: Checkpoint, entries: seq<Entry>, e: Entry)
    requires Derives(s, p, entries) && e.sequence == p.counts[Tag(e.kind)]
    ensures Derives(s, Append(s, p, e), entries + [e])
  {
    var q, more := Append(s, p, e), entries + [e];
    assert more[..|more| - 1] == entries;
    CountIsFilter(entries, Tag(e.kind));
    assert RollingDerives(s, q.rolling, more) by {
      forall c | 0 <= c < 8 ensures q.rolling[c] == Chain(s, c, Members(more, c)) { ChainAppends(s, p, entries, e, c); }
    }
  }

  function Resume(s: Setting, p: Checkpoint, rest: seq<Entry>): Checkpoint
    requires |p.counts| == 7 && |p.rolling| == 8
    decreases |rest|
  {
    if rest == [] then p else Resume(s, Append(s, p, rest[0]), rest[1..])
  }

  /** A checkpoint is enough to continue: folding the remaining rows from it completes the derivation. */
  lemma {:induction false} ResumeCompletes(s: Setting, p: Checkpoint, done: seq<Entry>, rest: seq<Entry>)
    requires Ordered(done + rest) && Derives(s, p, done)
    ensures Derives(s, Resume(s, p, rest), done + rest)
    decreases |rest|
  {
    if rest == [] {
      assert done + rest == done;
    } else {
      NextOrdered(done, rest);
      AppendDerives(s, p, done, rest[0]);
      ResumeCompletes(s, Append(s, p, rest[0]), done + [rest[0]], rest[1..]);
    }
  }

  lemma NextOrdered(done: seq<Entry>, rest: seq<Entry>)
    requires Ordered(done + rest) && rest != []
    ensures rest[0].sequence == CountsOf(done)[Tag(rest[0].kind)]
    ensures (done + [rest[0]]) + rest[1..] == done + rest
  {
    assert OrderedAt(done + rest, |done|);
    assert (done + rest)[..|done|] == done;
  }

  function CategorySealText(s: Setting, c: nat, count: nat, final: Bytes): Bytes
    requires c <= AGGREGATE
  {
    s.hasher.domain(CategorySealInput)
    + IdentityBytes(s.id, [ChainTag(c)] + (U64(count) + (ByteVector(Initial(s, c)) + ByteVector(final))))
  }

  function CategorySeal(s: Setting, c: nat, count: nat, final: Bytes): Bytes
    requires c <= AGGREGATE
  {
    s.hasher.hash(CategorySealText(s, c, count, final))
  }

  function SealText(s: Setting, seals: seq<Bytes>, total: nat): Bytes {
    s.hasher.domain(SealInput)
    + IdentityBytes(s.id, ByteVector(CHAIN_TAGS) + (Uleb(|seals|) + Vectors(seals, U64(total))))
  }

  function SealAll(s: Setting, seals: seq<Bytes>, total: nat): Bytes { s.hasher.hash(SealText(s, seals, total)) }

  ghost predicate Seals(s: Setting, entries: seq<Entry>, seals: seq<Bytes>) {
    forall c :: 0 <= c < |seals| <= 8 ==>
      seals[c] == CategorySeal(s, c, |Members(entries, c)|, Chain(s, c, Members(entries, c)))
  }

  datatype StorageError = IdentityInvalid | OrderInvalid | RuleNotCanonical | RuleCommitmentDiffers

  datatype StorageResult = StorageResult(final: Checkpoint, seals: seq<Bytes>, aggregate: Bytes, checkpoints: seq<Checkpoint>)

  predicate IdentityOk(id: Identity) {
    && |id.registry| == 32 && |id.root| == 32 && id.registry != id.root
    && (exists k :: 0 <= k < 32 && id.registry[k] != 0) && (exists k :: 0 <= k < 32 && id.root[k] != 0)
    && 0 < id.version < TWO_TO_64
  }

  predicate RuleAgrees(s: Setting, e: Entry) {
    e.kind == Rule && e.commitment.Some? ==> e.commitment.value == s.row(e)
  }

  ghost predicate CheckpointsDerive(s: Setting, checkpoints: seq<Checkpoint>, entries: seq<Entry>, n: nat)
    requires n <= |entries|
  {
    |checkpoints| == n + 1 && forall k :: 0 <= k <= n ==> Derives(s, checkpoints[k], entries[..k])
  }

  lemma NextDerives(s: Setting, now: Checkpoint, checkpoints: seq<Checkpoint>, entries: seq<Entry>, n: nat)
    requires n < |entries| && Derives(s, now, entries[..n]) && CheckpointsDerive(s, checkpoints, entries, n)
    requires |now.counts| == 7 && |now.rolling| == 8 && OrderedAt(entries, n)
    ensures Derives(s, Append(s, now, entries[n]), entries[..n + 1])
    ensures CheckpointsDerive(s, checkpoints + [Append(s, now, entries[n])], entries, n + 1)
  {
    AppendDerives(s, now, entries[..n], entries[n]);
    assert entries[..n + 1] == entries[..n] + [entries[n]];
  }

  /** The checks the loop repeats on a checked entry: only the last can fail. */
  method CheckStored(s: Setting, e: Entry, previous: int, count: nat) returns (r: Option<StorageError>)
    requires previous <= Tag(e.kind) && e.sequence == count && s.wire.canonical(e.kind, e.bytes)
    ensures r == if RuleAgrees(s, e) then None else Some(RuleCommitmentDiffers)
  {
    if Tag(e.kind) < previous || e.sequence != count {
      assert false;
    }
    if e.kind == Rule && !s.wire.canonical(Rule, e.bytes) {
      assert false;
    }
    if !RuleAgrees(s, e) { return Some(RuleCommitmentDiffers); }
    return None;
  }

  /** One pass over checked entries.  Every checkpoint and the final values are the eight independent folds; the
      checks of order, sequence and canonical rule bytes repeated in the loop never fire; the only failures left
      are the identity and a rule commitment that differs from its bytes. */
  method DeriveStorage(s: Setting, entries: seq<Entry>) returns (r: Result<StorageResult, StorageError>)
    requires Ordered(entries) && AllCanonical(s.wire, entries)
    ensures r.Ok? <==> IdentityOk(s.id) && forall k :: 0 <= k < |entries| ==> RuleAgrees(s, entries[k])
    ensures r != Err(OrderInvalid) && r != Err(RuleNotCanonical)
    ensures r.Ok? ==> Derives(s, r.value.final, entries)
    ensures r.Ok? ==> CheckpointsDerive(s, r.value.checkpoints, entries, |entries|)
    ensures r.Ok? ==> |r.value.seals| == 8 && Seals(s, entries, r.value.seals)
    ensures r.Ok? ==> r.value.aggregate == SealAll(s, r.value.seals, |entries|)
  {
    if !IdentityOk(s.id) { return Err(IdentityInvalid); }
    var now := Start(s);
    var previous: int := -1;
    var checkpoints := [now];
    assert entries[..0] == [];
    for n := 0 to |entries|
      invariant Derives(s, now, entries[..n])
      invariant previous == if n == 0 then -1 else Tag(entries[n - 1].kind)
      invariant forall k :: 0 <= k < n ==> RuleAgrees(s, entries[k])
      invariant CheckpointsDerive(s, checkpoints, entries, n)
    {
      var e := entries[n];
      assert OrderedAt(entries, n);
      var error := CheckStored(s, e, previous, now.counts[Tag(e.kind)]);
      if error.Some? { return Err(error.value); }
      previous := Tag(e.kind);
      NextDerives(s, now, checkpoints, entries, n);
      now := AppendInPlace(s, now, e);
      checkpoints := checkpoints + [now];
    }
    assert entries[..|entries|] == entries;
    var seals := SealCategories(s, now, entries);
    return Ok(StorageResult(now, seals, SealAll(s, seals, now.next), checkpoints));
  }

  method Start(s: Setting) returns (p: Checkpoint)
    ensures Derives(s, p, [])
  {
    var rolling := [];
    for c := 0 to 8
      invariant |rolling| == c && forall k :: 0 <= k < c ==> rolling[k] == Initial(s, k)
    {
      rolling := rolling + [Initial(s, c)];
    }
    return Checkpoint(0, ZERO_COUNTS, rolling, 0);
  }

  lemma SealOf(s: Setting, now: Checkpoint, entries: seq<Entry>, c: nat)
    requires Derives(s, now, entries) && c < 8
    ensures (if c == AGGREGATE then now.next else now.counts[c]) == |Members(entries, c)|
    ensures now.rolling[c] == Chain(s, c, Members(entries, c))
  {
    if c < 7 { CountIsFilter(entries, c); }
  }

  lemma SealsSnoc(s: Setting, entries: seq<Entry>, seals: seq<Bytes>)
    requires Seals(s, entries, seals) && |seals| < 8
    ensures var c := |seals|; Seals(s, entries, seals + [CategorySeal(s, c, |Members(entries, c)|, Chain(s, c, Members(entries, c)))])
  {}

  method SealCategories(s: Setting, now: Checkpoint, ghost entries: seq<Entry>) returns (seals: seq<Bytes>)
    requires Derives(s, now, entries)
    ensures |seals| == 8 && Seals(s, entries, seals)
  {
    seals := [];
    for c := 0 to 8
      invariant |seals| == c && Seals(s, entries, seals)
    {
      SealOf(s, now, entries, c);
      SealsSnoc(s, entries, seals);
      seals := seals + [CategorySeal(s, c, if c == AGGREGATE then now.next else now.counts[c], now.rolling[c])];
    }
  }

  /** The updates of one iteration, in the source's order. */
  method AppendInPlace(s: Setting, p: Checkpoint, e: Entry) returns (q: Checkpoint)
    requires |p.counts| == 7 && |p.rolling| == 8
    ensures q == Append(s, p, e)
  {
    var row := s.row(e);
    var rolling, tag := p.rolling, Tag(e.kind);
    rolling := rolling[tag := Advance(s, tag, e.sequence, rolling[tag], row)];
    rolling := rolling[AGGREGATE := Advance(s, AGGREGATE, p.next, rolling[AGGREGATE], row)];
    var counts := p.counts[tag := p.counts[tag] + 1];
    var protectedStyles := p.protectedStyles;
    if e.isProtected { protectedStyles := protectedStyles + 1; }
    return Checkpoint(p.next + 1, counts, rolling, protectedStyles);
  }
}
