/**
 * The hash inputs of maker-v8-base-commitments.js: the domain each one starts with, the wire form of a rule row,
 * and the commitment of a rule, which hashes its selectors first.
 */
module RuleRows {
  import opened Results
  import opened Bcs

  datatype Purpose = EmptyInput | RowInput | AdvanceInput | CategorySealInput | SealInput | SelectorInput | RuleInput

  /** A hash, and the serialized domain and schema revision each input starts with.  The binding theorems hold for
      any domain table; the program's two are AuthorDomain and RegistryDomain. */
  datatype Hasher = Hasher(hash: Bytes -> Bytes, domain: Purpose -> Bytes)

  ghost predicate Collide(h: Hasher, x: Bytes, y: Bytes) { x != y && h.hash(x) == h.hash(y) }

  // ---- domains ----------------------------------------------------------------------------------------

  const AUTHOR := "animacraft-fresh-v8/compiler/author-rows-"

  const REGISTRY := "animacraft-fresh-v8/compiler/registry-"

  const SELECTOR := "animacraft-fresh-v8/core/semantic-selector/v2"

  const RULE := "animacraft-fresh-v8/core/rule-row/v2"

  function PurposeName(p: Purpose): string {
    match p
    case EmptyInput => "empty"
    case RowInput => "row"
    case AdvanceInput => "advance"
    case CategorySealInput => "category-seal"
    case SealInput => "seal"
    case SelectorInput => SELECTOR
    case RuleInput => RULE
  }

  /** The rules of both commitments are hashed in the core's domains. */
  predicate InCore(p: Purpose) { p.SelectorInput? || p.RuleInput? }

  function DomainText(family: string, p: Purpose): string {
    if InCore(p) then PurposeName(p) else family + PurposeName(p) + "/v2"
  }

  /** The schema revision. */
  function Revision(p: Purpose): nat { if InCore(p) then 8 else 2 }

  function Domain(family: string, p: Purpose): Bytes { Text(DomainText(family, p)) + U64(Revision(p)) }

  function AuthorDomain(p: Purpose): Bytes { Domain(AUTHOR, p) }

  function RegistryDomain(p: Purpose): Bytes { Domain(REGISTRY, p) }

  lemma TextUnique(a: string, x: Bytes, b: string, y: Bytes)
    requires Text(a) + x == Text(b) + y
    ensures |a| == |b| && forall k :: 0 <= k < |a| ==> a[k] as int % 256 == b[k] as int % 256
  {
    var s := seq(|a|, k requires 0 <= k < |a| => a[k] as int % 256);
    var t := seq(|b|, k requires 0 <= k < |b| => b[k] as int % 256);
    ByteVectorUnique(s, x, t, y);
    forall k | 0 <= k < |a| ensures a[k] as int % 256 == b[k] as int % 256 { assert s[k] == t[k]; }
  }

  ghost predicate DifferAt(a: string, b: string, k: nat) {
    k < |a| && k < |b| && a[k] as int % 256 != b[k] as int % 256
  }

  /** The first character after a family's prefix tells the purpose. */
  lemma NamesDiffer(family: string, p: Purpose, q: Purpose)
    requires p != q && !InCore(p) && !InCore(q)
    ensures DifferAt(DomainText(family, p), DomainText(family, q), |family|)
  {
    assert PurposeName(p)[0] as int % 256 != PurposeName(q)[0] as int % 256;
    assert DomainText(family, p)[|family|] == PurposeName(p)[0] && DomainText(family, q)[|family|] == PurposeName(q)[0];
  }

  lemma FamiliesDiffer(p: Purpose, q: Purpose)
    requires !InCore(p) && !InCore(q)
    ensures DifferAt(DomainText(AUTHOR, p), DomainText(REGISTRY, q), 29)
  {
    assert AUTHOR[29] == 'a' && REGISTRY[29] == 'r';
    assert DomainText(AUTHOR, p)[29] == AUTHOR[29] && DomainText(REGISTRY, q)[29] == REGISTRY[29];
  }

  lemma CoreDiffers(f: string, p: Purpose, q: Purpose)
    requires (f == AUTHOR || f == REGISTRY) && !InCore(p) && InCore(q)
    ensures DifferAt(DomainText(f, p), PurposeName(q), 22)
  {
    assert AUTHOR[22] == REGISTRY[22] == 'm' && SELECTOR[22] == RULE[22] == 'r';
    assert DomainText(f, p)[22] == f[22];
  }

  lemma RulesDiffer()
    ensures DifferAt(SELECTOR, RULE, 25)
  {
    assert SELECTOR[25] == 's' && RULE[25] == 'r';
  }

  lemma PrefixRead(a: string, m: nat, x: Bytes, b: string, n: nat, y: Bytes)
    requires Text(a) + U64(m) + x == Text(b) + U64(n) + y
    ensures forall k :: !DifferAt(a, b, k)
  {
    assert Text(a) + (U64(m) + x) == Text(a) + U64(m) + x && Text(b) + (U64(n) + y) == Text(b) + U64(n) + y;
    TextUnique(a, U64(m) + x, b, U64(n) + y);
  }

  /** No input of one purpose is an input of another, within a commitment or across the two. */
  lemma DomainsApart(f: string, p: Purpose, x: Bytes, g: string, q: Purpose, y: Bytes)
    requires (f == AUTHOR || f == REGISTRY) && (g == AUTHOR || g == REGISTRY)
    requires Domain(f, p) + x == Domain(g, q) + y
    ensures p == q && (f == g || InCore(p))
  {
    PrefixRead(DomainText(f, p), Revision(p), x, DomainText(g, q), Revision(q), y);
    if p != q || (f != g && !InCore(p)) {
      TextsDiffer(f, p, g, q);
      assert false;
    }
  }

  lemma TextsDiffer(f: string, p: Purpose, g: string, q: Purpose)
    requires (f == AUTHOR || f == REGISTRY) && (g == AUTHOR || g == REGISTRY)
    requires p != q || (f != g && !InCore(p))
    ensures exists k :: DifferAt(DomainText(f, p), DomainText(g, q), k)
  {
    if InCore(p) && InCore(q) {
      RulesDiffer();
      assert DifferAt(DomainText(f, p), DomainText(g, q), 25);
    } else if InCore(p) {
      CoreDiffers(g, q, p);
      assert DifferAt(DomainText(f, p), DomainText(g, q), 22);
    } else if InCore(q) {
      CoreDiffers(f, p, q);
      assert DifferAt(DomainText(f, p), DomainText(g, q), 22);
    } else if f == g {
      NamesDiffer(f, p, q);
    } else if f == AUTHOR {
      FamiliesDiffer(p, q);
    } else {
      FamiliesDiffer(q, p);
      assert DifferAt(DomainText(f, p), DomainText(g, q), 29);
    }
  }

  // ---- rule rows --------------------------------------------------------------------------------------

  /** Keys are the bytes of their text. */
  datatype Selector = Selector(source: nat, sourceKey: Option<Bytes>, partKey: Bytes, itemKey: Option<Bytes>,
                               styleKey: Option<Bytes>)

  datatype RuleRow = RuleRow(sequence: nat, key: Bytes, kind: nat, trigger: Selector, targetMode: nat,
                             targets: seq<Selector>, payload: Bytes)

  function OptionBytes(o: Option<Bytes>, rest: Bytes): Bytes {
    match o
    case None => [0] + rest
    case Some(b) => [1] + (ByteVector(b) + rest)
  }

  function SelectorBytes(s: Selector, rest: Bytes): Bytes {
    [s.source] + OptionBytes(s.sourceKey, ByteVector(s.partKey) + OptionBytes(s.itemKey, OptionBytes(s.styleKey, rest)))
  }

  function SelectorsBytes(ss: seq<Selector>, rest: Bytes): Bytes {
    if ss == [] then rest else SelectorBytes(ss[0], SelectorsBytes(ss[1..], rest))
  }

  /** The row's canonical bytes. */
  function RuleBytes(r: RuleRow): Bytes {
    U64(r.sequence) + (ByteVector(r.key) + ([r.kind] + SelectorBytes(r.trigger, [r.targetMode]
    + (Uleb(|r.targets|) + SelectorsBytes(r.targets, ByteVector(r.payload))))))
  }

  function SelectorText(h: Hasher, s: Selector): Bytes { h.domain(SelectorInput) + SelectorBytes(s, []) }

  function SelectorHash(h: Hasher, s: Selector): Bytes { h.hash(SelectorText(h, s)) }

  function TargetHashes(h: Hasher, ss: seq<Selector>): (r: seq<Bytes>)
    ensures |r| == |ss|
  {
    seq(|ss|, k requires 0 <= k < |ss| => SelectorHash(h, ss[k]))
  }

  /** A rule of the base: definition source 1 without a source key. */
  function RuleText(h: Hasher, r: RuleRow): Bytes {
    h.domain(RuleInput) + ([1, 0] + (U64(r.sequence) + (ByteVector(r.key) + ([r.kind]
    + (ByteVector(SelectorHash(h, r.trigger)) + ([r.targetMode] + (Uleb(|r.targets|)
    + Vectors(TargetHashes(h, r.targets), ByteVector(r.payload)))))))))
  }

  function RuleHash(h: Hasher, r: RuleRow): Bytes { h.hash(RuleText(h, r)) }

  lemma OptionUnique(o: Option<Bytes>, x: Bytes, p: Option<Bytes>, y: Bytes)
    requires OptionBytes(o, x) == OptionBytes(p, y)
    ensures o == p && x == y
  {
    assert OptionBytes(o, x)[0] == OptionBytes(p, y)[0];
    if o.Some? {
      assert OptionBytes(o, x)[1..] == ByteVector(o.value) + x && OptionBytes(p, y)[1..] == ByteVector(p.value) + y;
      ByteVectorUnique(o.value, x, p.value, y);
    } else {
      assert OptionBytes(o, x)[1..] == x && OptionBytes(p, y)[1..] == y;
    }
  }

  lemma SelectorUnique(s: Selector, x: Bytes, t: Selector, y: Bytes)
    requires SelectorBytes(s, x) == SelectorBytes(t, y)
    ensures s == t && x == y
  {
    var a3, b3 := OptionBytes(s.styleKey, x), OptionBytes(t.styleKey, y);
    var a2, b2 := OptionBytes(s.itemKey, a3), OptionBytes(t.itemKey, b3);
    var a1, b1 := ByteVector(s.partKey) + a2, ByteVector(t.partKey) + b2;
    ByteUnique(s.source, OptionBytes(s.sourceKey, a1), t.source, OptionBytes(t.sourceKey, b1));
    OptionUnique(s.sourceKey, a1, t.sourceKey, b1);
    ByteVectorUnique(s.partKey, a2, t.partKey, b2);
    OptionUnique(s.itemKey, a3, t.itemKey, b3);
    OptionUnique(s.styleKey, x, t.styleKey, y);
  }

  /** All of a rule but its selectors, of which it keeps the hashes. */
  lemma RuleTextUnique(h: Hasher, q: RuleRow, r: RuleRow)
    requires q.sequence < TWO_TO_64 && r.sequence < TWO_TO_64 && RuleText(h, q) == RuleText(h, r)
    ensures q == r.(trigger := q.trigger, targets := q.targets)
    ensures SelectorHash(h, q.trigger) == SelectorHash(h, r.trigger)
    ensures TargetHashes(h, q.targets) == TargetHashes(h, r.targets)
  {
    var a7, b7 := Vectors(TargetHashes(h, q.targets), ByteVector(q.payload)), Vectors(TargetHashes(h, r.targets), ByteVector(r.payload));
    var a6, b6 := Uleb(|q.targets|) + a7, Uleb(|r.targets|) + b7;
    var a5, b5 := [q.targetMode] + a6, [r.targetMode] + b6;
    var a4, b4 := ByteVector(SelectorHash(h, q.trigger)) + a5, ByteVector(SelectorHash(h, r.trigger)) + b5;
    var a3, b3 := [q.kind] + a4, [r.kind] + b4;
    var a2, b2 := ByteVector(q.key) + a3, ByteVector(r.key) + b3;
    var a1, b1 := U64(q.sequence) + a2, U64(r.sequence) + b2;
    PrefixUnique(h.domain(RuleInput), [1, 0] + a1, h.domain(RuleInput), [1, 0] + b1);
    PrefixUnique([1, 0], a1, [1, 0], b1);
    U64Unique(q.sequence, a2, r.sequence, b2);
    ByteVectorUnique(q.key, a3, r.key, b3);
    ByteUnique(q.kind, a4, r.kind, b4);
    ByteVectorUnique(SelectorHash(h, q.trigger), a5, SelectorHash(h, r.trigger), b5);
    ByteUnique(q.targetMode, a6, r.targetMode, b6);
    UlebPrefixFree(|q.targets|, a7, |r.targets|, b7);
    VectorsUnique(TargetHashes(h, q.targets), ByteVector(q.payload), TargetHashes(h, r.targets), ByteVector(r.payload));
    ByteVectorUnique(q.payload, [], r.payload, []);
  }

  lemma SelectorBinds(h: Hasher, s: Selector, t: Selector)
    requires SelectorHash(h, s) == SelectorHash(h, t)
    ensures s == t || Collide(h, SelectorText(h, s), SelectorText(h, t))
  {
    var d := h.domain(SelectorInput);
    if SelectorText(h, s) == SelectorText(h, t) {
      PrefixUnique(d, SelectorBytes(s, []), d, SelectorBytes(t, []));
      SelectorUnique(s, [], t, []);
    }
  }

  /** Two rules with one commitment are the same rule, or two inputs that collide are returned. */
  lemma RuleBinds(h: Hasher, q: RuleRow, r: RuleRow) returns (x: Bytes, y: Bytes)
    requires q.sequence < TWO_TO_64 && r.sequence < TWO_TO_64 && RuleHash(h, q) == RuleHash(h, r)
    ensures q == r || Collide(h, x, y)
  {
    x, y := RuleText(h, q), RuleText(h, r);
    if x == y {
      RuleTextUnique(h, q, r);
      SelectorBinds(h, q.trigger, r.trigger);
      x, y := SelectorText(h, q.trigger), SelectorText(h, r.trigger);
      if q.trigger == r.trigger && q.targets != r.targets {
        assert |TargetHashes(h, q.targets)| == |TargetHashes(h, r.targets)|;
        var k :| 0 <= k < |q.targets| && q.targets[k] != r.targets[k];
        assert TargetHashes(h, q.targets)[k] == TargetHashes(h, r.targets)[k];
        SelectorBinds(h, q.targets[k], r.targets[k]);
        x, y := SelectorText(h, q.targets[k]), SelectorText(h, r.targets[k]);
      }
    }
  }
}
