/** What compiled rows say of their document: every field reads back, and the rows stand in the author's order. */
module RowMeaning {
  import opened Results
  import opened SafeText
  import opened Ordering
  import opened Sequences
  import opened BaseRows

  // ---- fixed-point fields -----------------------------------------------------------------------------

  function Milli(v: (bool, int)): real { (if v.0 then -(v.1 as real) else v.1 as real) / 1000.0 }

  function Ppm(n: int): real { n as real / 1_000_000.0 }

  predicate Equals(n: int, value: real) { n as real == value }

  ghost predicate WholeNumber(value: real) { exists n: int :: Equals(n, value) }

  /** A whole number of these parts of one. */
  ghost predicate Whole(value: real, multiplier: int) { WholeNumber(value * multiplier as real) }

  lemma FloorWhole(value: real)
    ensures WholeNumber(value) <==> Equals(value.Floor, value)
  {
    if n: int :| Equals(n, value) { assert value.Floor == n; }
  }

  lemma NegatedWhole(value: real)
    ensures WholeNumber(value) <==> WholeNumber(-value)
  {
    var negated := -value;
    if n: int :| Equals(n, value) { assert Equals(-n, negated); }
    if n: int :| Equals(n, negated) { assert Equals(-n, value); }
  }

  lemma FixedExact(value: real, multiplier: int, maximum: real)
    ensures Fixed(value, multiplier, maximum).Some? <==> 0.0 <= value <= maximum && Whole(value, multiplier)
    ensures Fixed(value, multiplier, maximum).Some? ==> Equals(Fixed(value, multiplier, maximum).value, value * multiplier as real)
  {
    FloorWhole(value * multiplier as real);
  }

  /** An unsigned field is present exactly when the value is in range and a whole number of millionths. */
  lemma PpmReads(value: real, maximum: real)
    ensures Fixed(value, 1_000_000, maximum).Some? <==> 0.0 <= value <= maximum && Whole(value, 1_000_000)
    ensures Fixed(value, 1_000_000, maximum).Some? ==> Ppm(Fixed(value, 1_000_000, maximum).value) == value
  {
    FixedExact(value, 1_000_000, maximum);
  }

  /** A signed field is present exactly when the value is in range and a whole number of thousandths, and then it reads
      back to the value, with no negative zero. */
  lemma SignedReads(value: real, maximum: real)
    ensures Signed(value, maximum).Some? <==> -maximum <= value <= maximum && Whole(value, 1000)
    ensures Signed(value, maximum).Some? ==>
              var v := Signed(value, maximum).value; Milli(v) == value && v.1 >= 0 && !(v.0 && v.1 == 0)
  {
    FixedExact(if value < 0.0 then -value else value, 1000, maximum);
    NegatedWhole(value * 1000 as real);
    assert (-value) * 1000 as real == -(value * 1000 as real);
  }

  // ---- the author's order -----------------------------------------------------------------------------

  /** Strictly before in an order field, then in the key. */
  predicate Before(rank: int, key: string, rank': int, key': string) { rank < rank' || (rank == rank' && TextLess(key, key')) }

  ghost predicate TracksInOrder(s: seq<Track>) {
    forall i, j :: 0 <= i < j < |s| ==> Before(s[i].renderOrder, s[i].key, s[j].renderOrder, s[j].key)
  }

  ghost predicate PartsInOrder(s: seq<Part>) {
    forall i, j :: 0 <= i < j < |s| ==> Before(s[i].menuOrder, s[i].key, s[j].menuOrder, s[j].key)
  }

  ghost predicate ItemsInOrder(s: seq<Item>) {
    forall i, j :: 0 <= i < j < |s| ==> Before(s[i].displayOrder, s[i].key, s[j].displayOrder, s[j].key)
  }

  ghost predicate StylesInOrder(s: seq<Style>) {
    forall i, j :: 0 <= i < j < |s| ==> Before(s[i].displayOrder, s[i].key, s[j].displayOrder, s[j].key)
  }

  ghost predicate ChannelsInOrder(s: seq<Channel>) { forall i, j :: 0 <= i < j < |s| ==> TextLess(s[i].key, s[j].key) }

  ghost predicate SwatchesInOrder(s: seq<Swatch>) { forall i, j :: 0 <= i < j < |s| ==> TextLess(s[i].key, s[j].key) }

  ghost predicate AssetsInOrder(s: seq<Asset>) { forall i, j :: 0 <= i < j < |s| ==> TextLess(s[i].id, s[j].id) }

  /** Sorting a list with distinct keys puts them strictly in order. */
  lemma SortedStrictly<T>(s: seq<T>, key: T -> SortKey)
    requires Distinct(s, key)
    ensures multiset(Sort(s, key)) == multiset(s)
    ensures forall i, j :: 0 <= i < j < |Sort(s, key)| ==>
              var a, b := key(Sort(s, key)[i]), key(Sort(s, key)[j]);
              a.rank < b.rank || (a.rank == b.rank && TextLess(a.text, b.text))
  {
    SortKeeps(s, key);
    SortDistinct(s, key);
    var t := Sort(s, key);
    forall i, j | 0 <= i < j < |t|
      ensures key(t[i]).rank < key(t[j]).rank || (key(t[i]).rank == key(t[j]).rank && TextLess(key(t[i]).text, key(t[j]).text))
    { TextTotal(key(t[i]).text, key(t[j]).text); }
  }

  /** The public parts of a document, arranged: its parts, the public items of each, the styles of each of those. */
  datatype Arrangement = Arrangement(parts: seq<Part>, items: seq<seq<Item>>, styles: seq<seq<seq<Style>>>)

  /** The public items among some items, each as often as it was there. */
  ghost predicate PublicOf(public: seq<Item>, items: seq<Item>) {
    forall x :: multiset(public)[x] == if x.isPublic then multiset(items)[x] else 0
  }

  ghost predicate Arranges(o: Arrangement, d: Document) {
    && multiset(o.parts) == multiset(d.parts) && PartsInOrder(o.parts) && |o.items| == |o.styles| == |o.parts|
    && (forall a :: 0 <= a < |o.parts| ==>
          PublicOf(o.items[a], o.parts[a].items) && ItemsInOrder(o.items[a]) && |o.styles[a]| == |o.items[a]|)
    && (forall a, b :: 0 <= a < |o.parts| && 0 <= b < |o.items[a]| ==>
          multiset(o.styles[a][b]) == multiset(o.items[a][b].styles) && StylesInOrder(o.styles[a][b]))
  }

  function SortedItems(p: Part): seq<Item> { Sort(Keep(IsPublic, p.items), ItemOrder) }

  function SortedStyles(i: Item): seq<Style> { Sort(i.styles, StyleOrder) }

  function ArrangementOf(d: Document): Arrangement {
    var parts := Sort(d.parts, PartOrder);
    Arrangement(parts, seq(|parts|, a requires 0 <= a < |parts| => SortedItems(parts[a])),
                seq(|parts|, a requires 0 <= a < |parts| => Map(SortedStyles, SortedItems(parts[a]))))
  }

  lemma {:induction false} KeepCounts(items: seq<Item>, x: Item)
    ensures multiset(Keep(IsPublic, items))[x] == if x.isPublic then multiset(items)[x] else 0
  {
    if items != [] {
      KeepCounts(items[1..], x);
      assert items == [items[0]] + items[1..];
    }
  }

  lemma ItemsArranged(p: Part)
    requires PartUnique(p)
    ensures PublicOf(SortedItems(p), p.items) && ItemsInOrder(SortedItems(p))
    ensures forall i :: i in SortedItems(p) ==> i in p.items
  {
    var public := Keep(IsPublic, p.items);
    KeepDistinctKeys(IsPublic, p.items, ItemOrder);
    SortedStrictly(public, ItemOrder);
    forall x: Item ensures multiset(public)[x] == if x.isPublic then multiset(p.items)[x] else 0 { KeepCounts(p.items, x); }
    forall i | i in SortedItems(p) ensures i in p.items { ItemListed(p, i); }
  }

  lemma ItemListed(p: Part, i: Item)
    ensures i in SortedItems(p) <==> i in p.items && i.isPublic
  {
    SameMembers(Keep(IsPublic, p.items), ItemOrder);
    KeepMember(IsPublic, p.items, i);
  }

  lemma StylesArranged(i: Item)
    requires Distinct(i.styles, StyleOrder)
    ensures multiset(SortedStyles(i)) == multiset(i.styles) && StylesInOrder(SortedStyles(i))
  {
    SortedStrictly(i.styles, StyleOrder);
  }

  lemma Arranged(d: Document)
    requires KeysUnique(d)
    ensures Arranges(ArrangementOf(d), d)
  {
    var o := ArrangementOf(d);
    SortedStrictly(d.parts, PartOrder);
    SameMembers(d.parts, PartOrder);
    forall a | 0 <= a < |o.parts| ensures PublicOf(o.items[a], o.parts[a].items) && ItemsInOrder(o.items[a]) {
      ItemsArranged(o.parts[a]);
    }
    forall a, b | 0 <= a < |o.parts| && 0 <= b < |o.items[a]|
      ensures multiset(o.styles[a][b]) == multiset(o.items[a][b].styles) && StylesInOrder(o.styles[a][b])
    {
      ItemsArranged(o.parts[a]);
      assert o.items[a][b] in o.parts[a].items;
      StylesArranged(o.items[a][b]);
    }
  }

  /** The canonical parts are the arranged ones: same fields, the arranged items and styles. */
  lemma CanonicalIs(d: Document)
    ensures var o, parts := ArrangementOf(d), PublicParts(d);
      && |parts| == |o.parts|
      && (forall a :: 0 <= a < |parts| ==> parts[a] == o.parts[a].(items := parts[a].items) && |parts[a].items| == |o.items[a]|)
      && (forall a, b :: 0 <= a < |parts| && 0 <= b < |o.items[a]| ==>
            parts[a].items[b] == o.items[a][b].(styles := o.styles[a][b]))
  {
  }

  // ---- rows by position -------------------------------------------------------------------------------

  /** Position k of the flat list of items is item b of part a; positions increase and miss nothing. */
  ghost predicate ItemsAt(parts: seq<Part>, at: seq<(nat, nat)>) {
    && |at| == |ItemsOf(parts)|
    && (forall k :: 0 <= k < |at| ==>
          && at[k].0 < |parts| && at[k].1 < |parts[at[k].0].items|
          && ItemsOf(parts)[k] == (parts[at[k].0], parts[at[k].0].items[at[k].1]))
    && (forall k, l :: 0 <= k < l < |at| ==> at[k].0 < at[l].0 || (at[k].0 == at[l].0 && at[k].1 < at[l].1))
    && (forall a: nat, b: nat :: a < |parts| && b < |parts[a].items| ==> (a, b) in at)
  }

  function PairsOf(a: nat, n: nat): seq<(nat, nat)> { seq(n, b requires 0 <= b < n => (a, b)) }

  lemma {:induction false} ItemPositions(parts: seq<Part>) returns (at: seq<(nat, nat)>)
    ensures ItemsAt(parts, at)
  {
    at := [];
    if parts != [] {
      var n := |parts| - 1;
      var before := ItemPositions(parts[..n]);
      at := before + PairsOf(n, |parts[n].items|);
      ItemsAtSnoc(parts, before);
    }
  }

  lemma ItemsAtSnoc(parts: seq<Part>, before: seq<(nat, nat)>)
    requires parts != [] && ItemsAt(parts[..|parts| - 1], before)
    ensures ItemsAt(parts, before + PairsOf(|parts| - 1, |parts[|parts| - 1].items|))
  {
    var n := |parts| - 1;
    var last := PairsOf(n, |parts[n].items|);
    var at := before + last;
    forall k | 0 <= k < |at|
      ensures at[k].0 < |parts| && at[k].1 < |parts[at[k].0].items|
      ensures ItemsOf(parts)[k] == (parts[at[k].0], parts[at[k].0].items[at[k].1])
    {
      if k < |before| { assert parts[..n][at[k].0] == parts[at[k].0]; }
    }
    forall a: nat, b: nat | a < |parts| && b < |parts[a].items| ensures (a, b) in at {
      if a < n {
        assert parts[..n][a] == parts[a];
        assert (a, b) in before;
      } else {
        assert last[b] == (a, b);
      }
    }
  }

  /** Position k of the flat list of styles is style s of item b of part a. */
  ghost predicate StylesAt(parts: seq<Part>, at: seq<(nat, nat, nat)>) {
    && |at| == |StylesOf(parts)|
    && (forall k :: 0 <= k < |at| ==> StyleIs(parts, at[k], StylesOf(parts)[k]))
    && Lexed(at)
    && (forall a: nat, b: nat, s: nat :: a < |parts| && b < |parts[a].items| && s < |parts[a].items[b].styles| ==> (a, b, s) in at)
  }

  predicate LexBefore(x: (nat, nat, nat), y: (nat, nat, nat)) {
    x.0 < y.0 || (x.0 == y.0 && (x.1 < y.1 || (x.1 == y.1 && x.2 < y.2)))
  }

  /** The same for the first items of part a. */
  ghost predicate StylesIn(p: Part, a: nat, items: seq<Item>, at: seq<(nat, nat, nat)>) {
    && |at| == |StylesOfItems(p, items)|
    && (forall k :: 0 <= k < |at| ==>
          && at[k].0 == a && at[k].1 < |items| && at[k].2 < |items[at[k].1].styles|
          && StylesOfItems(p, items)[k] == (p, items[at[k].1], items[at[k].1].styles[at[k].2]))
    && Lexed(at)
    && (forall b: nat, s: nat :: b < |items| && s < |items[b].styles| ==> (a, b, s) in at)
  }

  function TriplesOf(a: nat, b: nat, n: nat): seq<(nat, nat, nat)> { seq(n, s requires 0 <= s < n => (a, b, s)) }

  lemma {:induction false} StylePositionsIn(p: Part, a: nat, items: seq<Item>) returns (at: seq<(nat, nat, nat)>)
    ensures StylesIn(p, a, items, at)
  {
    at := [];
    if items != [] {
      var n := |items| - 1;
      var before := StylePositionsIn(p, a, items[..n]);
      at := before + TriplesOf(a, n, |items[n].styles|);
      StylesInSnoc(p, a, items, before);
    }
  }

  lemma StylesInSnoc(p: Part, a: nat, items: seq<Item>, before: seq<(nat, nat, nat)>)
    requires items != [] && StylesIn(p, a, items[..|items| - 1], before)
    ensures StylesIn(p, a, items, before + TriplesOf(a, |items| - 1, |items[|items| - 1].styles|))
  {
    var n := |items| - 1;
    var last := TriplesOf(a, n, |items[n].styles|);
    var at := before + last;
    forall k | 0 <= k < |at|
      ensures at[k].0 == a && at[k].1 < |items| && at[k].2 < |items[at[k].1].styles|
      ensures StylesOfItems(p, items)[k] == (p, items[at[k].1], items[at[k].1].styles[at[k].2])
    {
      if k < |before| { assert items[..n][at[k].1] == items[at[k].1]; }
    }
    forall b: nat, s: nat | b < |items| && s < |items[b].styles| ensures (a, b, s) in at {
      if b < n {
        assert items[..n][b] == items[b];
        assert (a, b, s) in before;
      } else {
        assert last[s] == (a, b, s);
      }
    }
  }

  lemma {:induction false} StylePositions(parts: seq<Part>) returns (at: seq<(nat, nat, nat)>)
    ensures StylesAt(parts, at)
  {
    at := [];
    if parts != [] {
      var n := |parts| - 1;
      var before := StylePositions(parts[..n]);
      var last := StylePositionsIn(parts[n], n, parts[n].items);
      at := before + last;
      StylesAtSnoc(parts, before, last);
    }
  }

  ghost predicate StyleIs(parts: seq<Part>, x: (nat, nat, nat), v: (Part, Item, Style)) {
    && x.0 < |parts| && x.1 < |parts[x.0].items| && x.2 < |parts[x.0].items[x.1].styles|
    && v == (parts[x.0], parts[x.0].items[x.1], parts[x.0].items[x.1].styles[x.2])
  }

  lemma StylesAtSnoc(parts: seq<Part>, before: seq<(nat, nat, nat)>, last: seq<(nat, nat, nat)>)
    requires parts != [] && StylesAt(parts[..|parts| - 1], before)
    requires StylesIn(parts[|parts| - 1], |parts| - 1, parts[|parts| - 1].items, last)
    ensures StylesAt(parts, before + last)
  {
    StyleValues(parts, before, last);
    LexConcat(before, last, |parts| - 1);
    forall a: nat, b: nat, s: nat | a < |parts| && b < |parts[a].items| && s < |parts[a].items[b].styles|
      ensures (a, b, s) in before + last
    { FoundStyle(parts, before, last, a, b, s); }
  }

  ghost predicate Lexed(at: seq<(nat, nat, nat)>) { forall k, l :: 0 <= k < l < |at| ==> LexBefore(at[k], at[l]) }

  lemma LexConcat(before: seq<(nat, nat, nat)>, last: seq<(nat, nat, nat)>, n: nat)
    requires Lexed(before) && Lexed(last)
    requires (forall k :: 0 <= k < |before| ==> before[k].0 < n) && (forall k :: 0 <= k < |last| ==> last[k].0 == n)
    ensures Lexed(before + last)
  {
  }

  lemma StyleValues(parts: seq<Part>, before: seq<(nat, nat, nat)>, last: seq<(nat, nat, nat)>)
    requires parts != [] && StylesAt(parts[..|parts| - 1], before)
    requires StylesIn(parts[|parts| - 1], |parts| - 1, parts[|parts| - 1].items, last)
    ensures |before + last| == |StylesOf(parts)|
    ensures forall k :: 0 <= k < |before + last| ==> StyleIs(parts, (before + last)[k], StylesOf(parts)[k])
  {
    forall k | 0 <= k < |before + last| ensures StyleIs(parts, (before + last)[k], StylesOf(parts)[k]) {
      if k < |before| { FirstStyles(parts, before, k); } else { LastStyles(parts, before, last, k); }
    }
  }

  lemma LastStyles(parts: seq<Part>, before: seq<(nat, nat, nat)>, last: seq<(nat, nat, nat)>, k: nat)
    requires parts != [] && |before| == |StylesOf(parts[..|parts| - 1])| && |before| <= k < |before| + |last|
    requires StylesIn(parts[|parts| - 1], |parts| - 1, parts[|parts| - 1].items, last)
    ensures k < |StylesOf(parts)| && StyleIs(parts, (before + last)[k], StylesOf(parts)[k])
  {
    var p := parts[|parts| - 1];
    assert (before + last)[k] == last[k - |before|];
    assert StylesOf(parts)[k] == StylesOfItems(p, p.items)[k - |before|];
  }

  lemma FirstStyles(parts: seq<Part>, before: seq<(nat, nat, nat)>, k: nat)
    requires parts != [] && StylesAt(parts[..|parts| - 1], before) && k < |before|
    ensures k < |StylesOf(parts)| && before[k].0 < |parts| - 1 && StyleIs(parts, before[k], StylesOf(parts)[k])
  {
    assert parts[..|parts| - 1][before[k].0] == parts[before[k].0];
    assert StylesOf(parts)[k] == StylesOf(parts[..|parts| - 1])[k];
  }

  lemma FoundStyle(parts: seq<Part>, before: seq<(nat, nat, nat)>, last: seq<(nat, nat, nat)>, a: nat, b: nat, s: nat)
    requires parts != [] && StylesAt(parts[..|parts| - 1], before)
    requires StylesIn(parts[|parts| - 1], |parts| - 1, parts[|parts| - 1].items, last)
    requires a < |parts| && b < |parts[a].items| && s < |parts[a].items[b].styles|
    ensures (a, b, s) in before + last
  {
    if a < |parts| - 1 { assert parts[..|parts| - 1][a] == parts[a]; }
  }
}
