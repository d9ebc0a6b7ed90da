/** What the sealed aggregate of maker-v8-base-commitments.js binds: the identity, and every row. */
module StorageBinding {
  import opened Results
  import opened Bcs
  import opened RuleRows
  import opened BaseCommitments

  /** A rule is canonical when it parses to a row that serializes to the same bytes. */
  ghost predicate RuleReads(wire: Wire, b: Bytes) {
    wire.parseRule(b).Some? && wire.parseRule(b).value.sequence < TWO_TO_64 && RuleBytes(wire.parseRule(b).value) == b
  }

  ghost predicate WireOk(wire: Wire) { forall b :: wire.canonical(Rule, b) ==> RuleReads(wire, b) }

  /** Bytes that are no rule have no commitment. */
  function RuleCommitment(h: Hasher, wire: Wire, bytes: Bytes): Bytes {
    match wire.parseRule(bytes)
    case None => []
    case Some(rule) => RuleHash(h, rule)
  }

  function RowText(h: Hasher, id: Identity, e: Entry): Bytes {
    h.domain(RowInput) + IdentityBytes(id, [Tag(e.kind)] + (U64(e.sequence) + ByteVector(e.bytes)))
  }

  /** A rule is committed through its selectors, every other row with the identity. */
  function RowCommitment(h: Hasher, wire: Wire, id: Identity, e: Entry): Bytes {
    if e.kind == Rule then RuleCommitment(h, wire, e.bytes) else h.hash(RowText(h, id, e))
  }

  /** The derivation of the program. */
  function SettingOf(h: Hasher, wire: Wire, id: Identity): Setting {
    Setting(h, wire, id, e => RowCommitment(h, wire, id, e))
  }

  // ---- every input reads back in one way --------------------------------------------------------------

  lemma IdentityUnique(i: Identity, x: Bytes, j: Identity, y: Bytes)
    requires IdentityOk(i) && IdentityOk(j) && IdentityBytes(i, x) == IdentityBytes(j, y)
    ensures i == j && x == y
  {
    PrefixUnique(i.registry, i.root + (U64(i.version) + x), j.registry, j.root + (U64(j.version) + y));
    PrefixUnique(i.root, U64(i.version) + x, j.root, U64(j.version) + y);
    U64Unique(i.version, x, j.version, y);
  }

  /** A row's input tells the identity, the kind, the sequence and the bytes. */
  lemma RowReads(h: Hasher, i: Identity, e: Entry, j: Identity, f: Entry)
    requires IdentityOk(i) && IdentityOk(j) && e.sequence < TWO_TO_64 && f.sequence < TWO_TO_64 && RowText(h, i, e) == RowText(h, j, f)
    ensures i == j && e.kind == f.kind && e.sequence == f.sequence && e.bytes == f.bytes
  {
    var a2, b2 := U64(e.sequence) + ByteVector(e.bytes), U64(f.sequence) + ByteVector(f.bytes);
    var a1, b1 := [Tag(e.kind)] + a2, [Tag(f.kind)] + b2;
    PrefixUnique(h.domain(RowInput), IdentityBytes(i, a1), h.domain(RowInput), IdentityBytes(j, b1));
    IdentityUnique(i, a1, j, b1);
    ByteUnique(Tag(e.kind), a2, Tag(f.kind), b2);
    TagDecides(e.kind, f.kind);
    U64Unique(e.sequence, ByteVector(e.bytes), f.sequence, ByteVector(f.bytes));
    ByteVectorEnds(e.bytes, f.bytes);
  }

  lemma ByteVectorEnds(a: Bytes, b: Bytes)
    requires ByteVector(a) == ByteVector(b)
    ensures a == b
  {
    assert ByteVector(a) + [] == ByteVector(a) && ByteVector(b) + [] == ByteVector(b);
    ByteVectorUnique(a, [], b, []);
  }

  lemma TagReads(c: nat, d: nat)
    requires c <= AGGREGATE && d <= AGGREGATE && ChainTag(c) == ChainTag(d)
    ensures c == d && CHAIN_TAGS[c] == ChainTag(c)
  {}

  /** The input of an empty chain tells the identity and the chain. */
  lemma InitialReads(s: Setting, c: nat, t: Setting, d: nat)
    requires c <= AGGREGATE && d <= AGGREGATE && s.hasher == t.hasher && IdentityOk(s.id) && IdentityOk(t.id)
    requires InitialText(s, c) == InitialText(t, d)
    ensures s.id == t.id && c == d
  {
    var w := s.hasher.domain(EmptyInput);
    PrefixUnique(w, IdentityBytes(s.id, [ChainTag(c)]), w, IdentityBytes(t.id, [ChainTag(d)]));
    IdentityUnique(s.id, [ChainTag(c)], t.id, [ChainTag(d)]);
    assert [ChainTag(c)][0] == [ChainTag(d)][0];
    TagReads(c, d);
  }

  /** One step of a chain tells the registry, the chain, the index, the value before and the row. */
  lemma AdvanceReads(s: Setting, c: nat, m: nat, p: Bytes, r: Bytes, t: Setting, d: nat, n: nat, q: Bytes, v: Bytes)
    requires c <= AGGREGATE && d <= AGGREGATE && s.hasher == t.hasher && |s.id.registry| == |t.id.registry|
    requires AdvanceText(s, c, m, p, r) == AdvanceText(t, d, n, q, v)
    ensures s.id.registry == t.id.registry && c == d && p == q && r == v
    ensures m < TWO_TO_64 && n < TWO_TO_64 ==> m == n
  {
    var w := s.hasher.domain(AdvanceInput);
    var a3, b3 := ByteVector(p) + ByteVector(r), ByteVector(q) + ByteVector(v);
    var a2, b2 := U64(m) + a3, U64(n) + b3;
    var a1, b1 := [ChainTag(c)] + a2, [ChainTag(d)] + b2;
    PrefixUnique(w, s.id.registry + a1, w, t.id.registry + b1);
    PrefixUnique(s.id.registry, a1, t.id.registry, b1);
    ByteUnique(ChainTag(c), a2, ChainTag(d), b2);
    TagReads(c, d);
    PrefixUnique(U64(m), a3, U64(n), b3);
    if m < TWO_TO_64 && n < TWO_TO_64 { U64Unique(m, a3, n, b3); }
    ByteVectorUnique(p, ByteVector(r), q, ByteVector(v));
    ByteVectorEnds(r, v);
  }

  /** A sealed chain tells the identity, the chain, its length, and the values it starts and ends with. */
  lemma CategorySealReads(s: Setting, c: nat, m: nat, f: Bytes, t: Setting, d: nat, n: nat, g: Bytes)
    requires c <= AGGREGATE && d <= AGGREGATE && s.hasher == t.hasher && IdentityOk(s.id) && IdentityOk(t.id)
    requires m < TWO_TO_64 && n < TWO_TO_64 && CategorySealText(s, c, m, f) == CategorySealText(t, d, n, g)
    ensures s.id == t.id && c == d && m == n && Initial(s, c) == Initial(t, d) && f == g
  {
    var w, i, j := s.hasher.domain(CategorySealInput), ByteVector(Initial(s, c)), ByteVector(Initial(t, d));
    var a2, b2 := U64(m) + (i + ByteVector(f)), U64(n) + (j + ByteVector(g));
    var a1, b1 := [ChainTag(c)] + a2, [ChainTag(d)] + b2;
    PrefixUnique(w, IdentityBytes(s.id, a1), w, IdentityBytes(t.id, b1));
    IdentityUnique(s.id, a1, t.id, b1);
    ByteUnique(ChainTag(c), a2, ChainTag(d), b2);
    TagReads(c, d);
    U64Unique(m, i + ByteVector(f), n, j + ByteVector(g));
    ByteVectorUnique(Initial(s, c), ByteVector(f), Initial(t, d), ByteVector(g));
    ByteVectorEnds(f, g);
  }

  lemma SealReads(s: Setting, a: seq<Bytes>, m: nat, t: Setting, b: seq<Bytes>, n: nat)
    requires s.hasher == t.hasher && IdentityOk(s.id) && IdentityOk(t.id) && |a| == |b| && m < TWO_TO_64 && n < TWO_TO_64
    requires SealText(s, a, m) == SealText(t, b, n)
    ensures s.id == t.id && a == b && m == n
  {
    var d, tags := s.hasher.domain(SealInput), ByteVector(CHAIN_TAGS);
    var a2, b2 := Vectors(a, U64(m)), Vectors(b, U64(n));
    var a1, b1 := tags + (Uleb(|a|) + a2), tags + (Uleb(|b|) + b2);
    PrefixUnique(d, IdentityBytes(s.id, a1), d, IdentityBytes(t.id, b1));
    IdentityUnique(s.id, a1, t.id, b1);
    PrefixUnique(tags, Uleb(|a|) + a2, tags, Uleb(|b|) + b2);
    UlebPrefixFree(|a|, a2, |b|, b2);
    VectorsUnique(a, U64(m), b, U64(n));
    U64Reads(m);
    U64Reads(n);
  }

  // ---- rows --------------------------------------------------------------------------------------------

  /** Rows of one kind with one commitment have the same bytes, or two inputs that collide are returned. */
  lemma RowBinds(h: Hasher, wire: Wire, id: Identity, e: Entry, f: Entry) returns (x: Bytes, y: Bytes)
    requires WireOk(wire) && IdentityOk(id) && e.kind == f.kind && e.sequence < TWO_TO_64 && f.sequence < TWO_TO_64
    requires wire.canonical(e.kind, e.bytes) && wire.canonical(f.kind, f.bytes)
    requires RowCommitment(h, wire, id, e) == RowCommitment(h, wire, id, f)
    ensures e.bytes == f.bytes || Collide(h, x, y)
  {
    if e.kind == Rule {
      assert RuleReads(wire, e.bytes) && RuleReads(wire, f.bytes);
      x, y := RuleBinds(h, wire.parseRule(e.bytes).value, wire.parseRule(f.bytes).value);
    } else {
      x, y := RowText(h, id, e), RowText(h, id, f);
      if x == y { RowReads(h, id, e, id, f); }
    }
  }

  /** The same kinds and sequences, position by position. */
  ghost predicate Alike(a: seq<Entry>, b: seq<Entry>) {
    |a| == |b| && forall k :: 0 <= k < |a| ==> a[k].kind == b[k].kind && a[k].sequence == b[k].sequence < TWO_TO_64
  }

  /** No entry lies beyond the last one's category. */
  lemma {:induction false} NoneBeyond(a: seq<Entry>, tag: nat)
    requires Ordered(a) && a != [] && Tag(a[|a| - 1].kind) < tag < 7
    ensures CountsOf(a)[tag] == 0
  {
    var n := |a| - 1;
    if n > 0 {
      assert OrderedAt(a, n);
      OrderedPrefix(a, n);
      NoneBeyond(a[..n], tag);
    }
  }

  lemma LastAlike(a: seq<Entry>, b: seq<Entry>)
    requires Ordered(a) && Ordered(b) && a != [] && b != [] && CountsOf(a) == CountsOf(b)
    ensures a[|a| - 1].kind == b[|b| - 1].kind
    ensures CountsOf(a[..|a| - 1]) == CountsOf(b[..|b| - 1])
  {
    var t, u := Tag(a[|a| - 1].kind), Tag(b[|b| - 1].kind);
    var c, d := CountsOf(a[..|a| - 1]), CountsOf(b[..|b| - 1]);
    if t < u { NoneBeyond(a, u); }
    if u < t { NoneBeyond(b, t); }
    TagDecides(a[|a| - 1].kind, b[|b| - 1].kind);
    assert Bump(c, t) == Bump(d, t);
    forall k | 0 <= k < 7 ensures c[k] == d[k] { assert Bump(c, t)[k] == Bump(d, t)[k]; }
  }

  /** Ordered lists with equal counts are alike. */
  lemma {:induction false} CountsDecide(a: seq<Entry>, b: seq<Entry>)
    requires Ordered(a) && Ordered(b) && CountsOf(a) == CountsOf(b)
    ensures Alike(a, b)
    decreases |a|
  {
    CountsTotal(a);
    CountsTotal(b);
    if a != [] {
      var n := |a| - 1;
      LastAlike(a, b);
      OrderedPrefix(a, n);
      OrderedPrefix(b, n);
      CountsDecide(a[..n], b[..n]);
      assert OrderedAt(a, n) && OrderedAt(b, n);
      CountIsFilter(a[..n], Tag(a[n].kind));
      AlikeSnoc(a, b);
    }
  }

  lemma AlikeSnoc(a: seq<Entry>, b: seq<Entry>)
    requires |a| == |b| > 0 && Alike(a[..|a| - 1], b[..|a| - 1])
    requires var e, f := a[|a| - 1], b[|a| - 1]; e.kind == f.kind && e.sequence == f.sequence < TWO_TO_64
    ensures Alike(a, b)
  {
    forall k | 0 <= k < |a| ensures a[k].kind == b[k].kind && a[k].sequence == b[k].sequence < TWO_TO_64 {
      if k < |a| - 1 { assert a[..|a| - 1][k] == a[k] && b[..|a| - 1][k] == b[k]; }
    }
  }

  lemma SameSnoc(a: seq<Entry>, b: seq<Entry>)
    requires |a| == |b| > 0 && SameRows(a[..|a| - 1], b[..|a| - 1])
    requires a[|a| - 1].kind == b[|a| - 1].kind && a[|a| - 1].bytes == b[|a| - 1].bytes
    ensures SameRows(a, b)
  {
    forall k | 0 <= k < |a| ensures a[k].kind == b[k].kind && a[k].bytes == b[k].bytes {
      if k < |a| - 1 { assert a[..|a| - 1][k] == a[k] && b[..|a| - 1][k] == b[k]; }
    }
  }

  // ---- the chain and the seals -------------------------------------------------------------------------

  /** One link: the last rows agree and the chains before them do. */
  lemma LinkBinds(h: Hasher, wire: Wire, id: Identity, c: nat, n: nat, p: Bytes, e: Entry, q: Bytes, f: Entry)
    returns (x: Bytes, y: Bytes)
    requires WireOk(wire) && IdentityOk(id) && c <= AGGREGATE && e.kind == f.kind && e.sequence == f.sequence < TWO_TO_64
    requires wire.canonical(e.kind, e.bytes) && wire.canonical(f.kind, f.bytes)
    requires var s := SettingOf(h, wire, id); Advance(s, c, n, p, s.row(e)) == Advance(s, c, n, q, s.row(f))
    ensures (p == q && e.bytes == f.bytes) || Collide(h, x, y)
  {
    var s := SettingOf(h, wire, id);
    x, y := AdvanceText(s, c, n, p, s.row(e)), AdvanceText(s, c, n, q, s.row(f));
    if x == y {
      AdvanceReads(s, c, n, p, s.row(e), s, c, n, q, s.row(f));
      x, y := RowBinds(h, wire, id, e, f);
    }
  }

  /** The last link of two chains with one value. */
  lemma LastBinds(h: Hasher, wire: Wire, id: Identity, c: nat, a: seq<Entry>, b: seq<Entry>) returns (x: Bytes, y: Bytes)
    requires WireOk(wire) && IdentityOk(id) && c <= AGGREGATE && Alike(a, b) && a != []
    requires AllCanonical(wire, a) && AllCanonical(wire, b)
    requires Chain(SettingOf(h, wire, id), c, a) == Chain(SettingOf(h, wire, id), c, b)
    ensures var n, s := |a| - 1, SettingOf(h, wire, id);
      (Chain(s, c, a[..n]) == Chain(s, c, b[..n]) && a[n].bytes == b[n].bytes) || Collide(h, x, y)
  {
    var n, s := |a| - 1, SettingOf(h, wire, id);
    x, y := LinkBinds(h, wire, id, c, n, Chain(s, c, a[..n]), a[n], Chain(s, c, b[..n]), b[n]);
  }

  lemma {:induction false} ChainBinds(h: Hasher, wire: Wire, id: Identity, c: nat, a: seq<Entry>, b: seq<Entry>)
    returns (x: Bytes, y: Bytes)
    requires WireOk(wire) && IdentityOk(id) && c <= AGGREGATE && Alike(a, b)
    requires AllCanonical(wire, a) && AllCanonical(wire, b)
    requires Chain(SettingOf(h, wire, id), c, a) == Chain(SettingOf(h, wire, id), c, b)
    ensures SameRows(a, b) || Collide(h, x, y)
    decreases |a|
  {
    x, y := [], [];
    if a != [] {
      var n := |a| - 1;
      x, y := LastBinds(h, wire, id, c, a, b);
      if !Collide(h, x, y) {
        x, y := ChainBinds(h, wire, id, c, a[..n], b[..n]);
        if SameRows(a[..n], b[..n]) { SameSnoc(a, b); }
      }
    }
  }

  /** One category's seal tells its count and its chain's value. */
  lemma SealBinds(s: Setting, c: nat, a: seq<Entry>, b: seq<Entry>) returns (x: Bytes, y: Bytes)
    requires c <= AGGREGATE && IdentityOk(s.id) && |Members(a, c)| < TWO_TO_64 && |Members(b, c)| < TWO_TO_64
    requires CategorySeal(s, c, |Members(a, c)|, Chain(s, c, Members(a, c)))
             == CategorySeal(s, c, |Members(b, c)|, Chain(s, c, Members(b, c)))
    ensures (|Members(a, c)| == |Members(b, c)| && Chain(s, c, Members(a, c)) == Chain(s, c, Members(b, c)))
            || Collide(s.hasher, x, y)
  {
    x := CategorySealText(s, c, |Members(a, c)|, Chain(s, c, Members(a, c)));
    y := CategorySealText(s, c, |Members(b, c)|, Chain(s, c, Members(b, c)));
    if x == y {
      CategorySealReads(s, c, |Members(a, c)|, Chain(s, c, Members(a, c)), s, c, |Members(b, c)|, Chain(s, c, Members(b, c)));
    }
  }

  /** The first n categories have equally many entries. */
  ghost predicate CountsTo(a: seq<Entry>, b: seq<Entry>, n: nat)
    requires n <= 7
  {
    forall c :: 0 <= c < n ==> CountsOf(a)[c] == CountsOf(b)[c]
  }

  lemma CountBinds(s: Setting, a: seq<Entry>, b: seq<Entry>, seals: seq<Bytes>, c: nat) returns (x: Bytes, y: Bytes)
    requires IdentityOk(s.id) && Ordered(a) && Ordered(b) && c < 7
    requires |seals| == 8 && Seals(s, a, seals) && Seals(s, b, seals)
    ensures CountsOf(a)[c] == CountsOf(b)[c] || Collide(s.hasher, x, y)
  {
    CountIsFilter(a, c);
    CountIsFilter(b, c);
    assert seals[c] == CategorySeal(s, c, |Members(a, c)|, Chain(s, c, Members(a, c)));
    x, y := SealBinds(s, c, a, b);
  }

  lemma {:induction false} CountsBind(s: Setting, a: seq<Entry>, b: seq<Entry>, seals: seq<Bytes>, n: nat)
    returns (x: Bytes, y: Bytes)
    requires IdentityOk(s.id) && Ordered(a) && Ordered(b) && n <= 7
    requires |seals| == 8 && Seals(s, a, seals) && Seals(s, b, seals)
    ensures CountsTo(a, b, n) || Collide(s.hasher, x, y)
    decreases n
  {
    x, y := [], [];
    if n > 0 {
      var c := n - 1;
      x, y := CountBinds(s, a, b, seals, c);
      if CountsOf(a)[c] == CountsOf(b)[c] { x, y := CountsBind(s, a, b, seals, c); }
    }
  }

  /** Seals of one identity bind the rows. */
  lemma SealsBind(h: Hasher, wire: Wire, id: Identity, a: seq<Entry>, b: seq<Entry>, seals: seq<Bytes>)
    returns (x: Bytes, y: Bytes)
    requires WireOk(wire) && IdentityOk(id)
    requires Ordered(a) && Ordered(b) && AllCanonical(wire, a) && AllCanonical(wire, b)
    requires |seals| == 8 && Seals(SettingOf(h, wire, id), a, seals) && Seals(SettingOf(h, wire, id), b, seals)
    ensures SameRows(a, b) || Collide(h, x, y)
  {
    var s := SettingOf(h, wire, id);
    x, y := CountsBind(s, a, b, seals, 7);
    if CountsTo(a, b, 7) {
      CountsDecide(a, b);
      assert seals[AGGREGATE] == CategorySeal(s, AGGREGATE, |a|, Chain(s, AGGREGATE, a));
      x, y := SealBinds(s, AGGREGATE, a, b);
      if Chain(s, AGGREGATE, a) == Chain(s, AGGREGATE, b) { x, y := ChainBinds(h, wire, id, AGGREGATE, a, b); }
    }
  }

  /** The sealed aggregate is binding: two checked lists with one sealed aggregate were sealed under one identity
      and have the same kinds and row bytes in the same order, or two inputs that collide are returned. */
  lemma StorageBinds(h: Hasher, wire: Wire, i: Identity, a: seq<Entry>, f: seq<Bytes>, j: Identity, b: seq<Entry>, g: seq<Bytes>)
    returns (x: Bytes, y: Bytes)
    requires WireOk(wire) && IdentityOk(i) && IdentityOk(j)
    requires Ordered(a) && Ordered(b) && AllCanonical(wire, a) && AllCanonical(wire, b)
    requires |f| == 8 && Seals(SettingOf(h, wire, i), a, f)
    requires |g| == 8 && Seals(SettingOf(h, wire, j), b, g)
    requires SealAll(SettingOf(h, wire, i), f, |a|) == SealAll(SettingOf(h, wire, j), g, |b|)
    ensures (i == j && SameRows(a, b)) || Collide(h, x, y)
  {
    var s, t := SettingOf(h, wire, i), SettingOf(h, wire, j);
    x, y := SealText(s, f, |a|), SealText(t, g, |b|);
    if x == y {
      SealReads(s, f, |a|, t, g, |b|);
      x, y := SealsBind(h, wire, i, a, b, f);
    }
  }

  /** An author commitment is never a sealed aggregate, whatever the rows, unless the two inputs collide. */
  lemma AuthorIsNoAggregate(hash: Bytes -> Bytes, a: seq<Entry>, s: Setting, seals: seq<Bytes>, n: nat)
    requires s.hasher == Hasher(hash, RegistryDomain)
    requires AuthorCommitment(Hasher(hash, AuthorDomain), a) == SealAll(s, seals, n)
    ensures var h := Hasher(hash, AuthorDomain);
      Collide(h, AuthorSealInput(h, CountsOf(a), AuthorRolling(h, a)), SealText(s, seals, n))
  {
    var h := Hasher(hash, AuthorDomain);
    var x, y := AuthorSealInput(h, CountsOf(a), AuthorRolling(h, a)), SealText(s, seals, n);
    if x == y {
      FamilyApart(x[|AuthorDomain(SealInput)|..], y[|RegistryDomain(SealInput)|..]);
      assert false;
    }
  }

  lemma FamilyApart(x: Bytes, y: Bytes)
    ensures AuthorDomain(SealInput) + x != RegistryDomain(SealInput) + y
  {
    assert AUTHOR[29] != REGISTRY[29];
    if AuthorDomain(SealInput) + x == RegistryDomain(SealInput) + y {
      DomainsApart(AUTHOR, SealInput, x, REGISTRY, SealInput, y);
      assert false;
    }
  }

  // ---- what a checked list and its stated commitments mean ---------------------------------------------

  /** Rules accepted with one stated commitment are one rule, under whatever identities, or two inputs that collide
      are returned. */
  lemma StatedRuleBinds(h: Hasher, wire: Wire, i: Identity, e: Entry, j: Identity, f: Entry) returns (x: Bytes, y: Bytes)
    requires WireOk(wire) && e.kind == f.kind == Rule && wire.canonical(Rule, e.bytes) && wire.canonical(Rule, f.bytes)
    requires RuleAgrees(SettingOf(h, wire, i), e) && RuleAgrees(SettingOf(h, wire, j), f)
    requires e.commitment.Some? && e.commitment == f.commitment
    ensures e.bytes == f.bytes || Collide(h, x, y)
  {
    assert RuleReads(wire, e.bytes) && RuleReads(wire, f.bytes);
    x, y := RuleBinds(h, wire.parseRule(e.bytes).value, wire.parseRule(f.bytes).value);
  }

  /** The rows of Styles whose bytes are protected. */
  ghost function Protected(raw: seq<RawEntry>, wire: Wire, n: nat): set<nat>
    requires n <= |raw|
  { set k: nat | k < n && raw[k].kind == Some(Style) && raw[k].bytes.Some? && wire.isProtected(raw[k].bytes.value) }

  lemma ProtectedNext(raw: seq<RawEntry>, wire: Wire, e: Entry, n: nat)
    requires n < |raw| && RowOk(raw[n], wire) && e == Checked(raw[n], wire)
    ensures |Protected(raw, wire, n + 1)| == |Protected(raw, wire, n)| + if e.isProtected then 1 else 0
  {
    assert Protected(raw, wire, n + 1) == Protected(raw, wire, n) + if e.isProtected then {n} else {};
  }

  lemma ProtectedStep(entries: seq<Entry>, n: nat)
    requires n < |entries|
    ensures ProtectedStyles(entries[..n + 1]) == ProtectedStyles(entries[..n]) + if entries[n].isProtected then 1 else 0
  {
    assert entries[..n + 1][..n] == entries[..n];
  }

  /** After n checked entries as many Styles are counted protected as were received. */
  lemma {:induction false} ProtectedCounted(raw: seq<RawEntry>, wire: Wire, entries: seq<Entry>, n: nat)
    requires CheckedTo(raw, wire, entries) && n <= |entries|
    ensures ProtectedStyles(entries[..n]) == |Protected(raw, wire, n)|
  {
    if n > 0 {
      ProtectedCounted(raw, wire, entries, n - 1);
      ProtectedStep(entries, n - 1);
      ProtectedNext(raw, wire, entries[n - 1], n - 1);
    }
  }

  /** A checked list repeats what was received; each row is canonical and starts with its sequence. */
  lemma CheckedRepeats(raw: seq<RawEntry>, wire: Wire, entries: seq<Entry>, k: nat)
    requires CheckedTo(raw, wire, entries) && k < |entries|
    ensures raw[k].kind == Some(entries[k].kind) && raw[k].sequence == Some(entries[k].sequence)
    ensures raw[k].bytes == Some(entries[k].bytes) && raw[k].commitment == entries[k].commitment
    ensures wire.canonical(entries[k].kind, entries[k].bytes) && entries[k].sequence < TWO_TO_64
    ensures |entries[k].bytes| >= 8 && FromLittleEndian(entries[k].bytes[..8]) == entries[k].sequence
  {}
}
