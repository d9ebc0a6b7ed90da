/** Protocol text order and the stable sort the source applies to every canonical list. */
module Ordering {
  /** Code unit order. */
  predicate TextLess(a: string, b: string) {
    b != [] && (a == [] || a[0] < b[0] || (a[0] == b[0] && TextLess(a[1..], b[1..])))
  }

  lemma {:induction false} TextTotal(a: string, b: string)
    ensures a == b || TextLess(a, b) || TextLess(b, a)
  {
    if a != [] && b != [] && a[0] == b[0] {
      TextTotal(a[1..], b[1..]);
      assert a == [a[0]] + a[1..] && b == [b[0]] + b[1..];
    }
  }

  lemma {:induction false} TextAsymmetric(a: string, b: string)
    requires TextLess(a, b)
    ensures !TextLess(b, a)
  {
    if a != [] && a[0] == b[0] { TextAsymmetric(a[1..], b[1..]); }
  }

  lemma {:induction false} TextTransitive(a: string, b: string, c: string)
    requires TextLess(a, b) && TextLess(b, c)
    ensures TextLess(a, c)
  {
    if a != [] && a[0] == b[0] && b[0] == c[0] { TextTransitive(a[1..], b[1..], c[1..]); }
  }

  /** A numeric order field, then the text key. */
  datatype SortKey = SortKey(rank: real, text: string)

  predicate Le(a: SortKey, b: SortKey) {
    a.rank < b.rank || (a.rank == b.rank && !TextLess(b.text, a.text))
  }

  lemma LeTotal(a: SortKey, b: SortKey)
    ensures Le(a, b) || Le(b, a)
    ensures Le(a, b) && Le(b, a) ==> a == b
  {
    TextTotal(a.text, b.text);
    if TextLess(a.text, b.text) { TextAsymmetric(a.text, b.text); }
  }

  lemma LeTransitive(a: SortKey, b: SortKey, c: SortKey)
    requires Le(a, b) && Le(b, c)
    ensures Le(a, c)
  {
    if a.rank == c.rank && TextLess(c.text, a.text) {
      TextTotal(a.text, b.text);
      if a.text == b.text {
      } else {
        TextTransitive(c.text, a.text, b.text);
      }
    }
  }

  /** Insertion that keeps an earlier element before its equals. */
  function Insert<T>(x: T, s: seq<T>, key: T -> SortKey): seq<T> {
    if s == [] || Le(key(x), key(s[0])) then [x] + s else [s[0]] + Insert(x, s[1..], key)
  }

  function Sort<T>(s: seq<T>, key: T -> SortKey): seq<T> {
    if s == [] then [] else Insert(s[0], Sort(s[1..], key), key)
  }

  ghost predicate Sorted<T>(s: seq<T>, key: T -> SortKey) {
    forall i, j :: 0 <= i < j < |s| ==> Le(key(s[i]), key(s[j]))
  }

  /** Elements with equal keys are equal. */
  ghost predicate KeysIdentify<T>(s: seq<T>, key: T -> SortKey) {
    forall x, y :: x in s && y in s && key(x) == key(y) ==> x == y
  }

  lemma {:induction false} InsertKeeps<T>(x: T, s: seq<T>, key: T -> SortKey)
    requires Sorted(s, key)
    ensures Sorted(Insert(x, s, key), key)
    ensures multiset(Insert(x, s, key)) == multiset(s) + multiset{x}
  {
    if s == [] {
    } else if Le(key(x), key(s[0])) {
      forall i | 0 <= i < |s| ensures Le(key(x), key(s[i])) {
        if i > 0 { LeTransitive(key(x), key(s[0]), key(s[i])); }
      }
    } else {
      var rest := s[1..];
      assert s == [s[0]] + rest;
      InsertKeeps(x, rest, key);
      LeTotal(key(x), key(s[0]));
      var t := Insert(x, rest, key);
      forall i | 0 <= i < |t| ensures Le(key(s[0]), key(t[i])) {
        assert t[i] in multiset(t);
        if t[i] != x {
          assert t[i] in multiset(rest) && t[i] in rest;
          var j :| 0 <= j < |rest| && rest[j] == t[i];
          assert s[j + 1] == t[i];
        }
      }
    }
  }

  lemma {:induction false} SortKeeps<T>(s: seq<T>, key: T -> SortKey)
    ensures Sorted(Sort(s, key), key)
    ensures multiset(Sort(s, key)) == multiset(s)
    ensures |Sort(s, key)| == |s|
  {
    if s != [] {
      SortKeeps(s[1..], key);
      InsertKeeps(s[0], Sort(s[1..], key), key);
      assert s == [s[0]] + s[1..];
      assert |Sort(s, key)| == |multiset(Sort(s, key))| == |multiset(s)|;
    }
  }

  lemma SameFirst<T>(a: seq<T>, b: seq<T>, key: T -> SortKey)
    requires Sorted(a, key) && Sorted(b, key) && multiset(a) == multiset(b) && KeysIdentify(a, key) && a != [] && b != []
    ensures a[0] == b[0]
  {
    assert a[0] in multiset(b) && b[0] in multiset(a);
    var i :| 0 <= i < |b| && b[i] == a[0];
    var j :| 0 <= j < |a| && a[j] == b[0];
    LeTotal(key(a[0]), key(b[0]));
  }

  lemma SameRest<T>(a: seq<T>, b: seq<T>)
    requires a != [] && b != [] && a[0] == b[0] && multiset(a) == multiset(b)
    ensures multiset(a[1..]) == multiset(b[1..])
  {
    assert a == [a[0]] + a[1..] && b == [b[0]] + b[1..];
    assert multiset(a[1..]) == multiset(a) - multiset{a[0]} && multiset(b[1..]) == multiset(b) - multiset{b[0]};
  }

  /** One multiset has one sorted arrangement. */
  lemma {:induction false} SortedUnique<T>(a: seq<T>, b: seq<T>, key: T -> SortKey)
    requires Sorted(a, key) && Sorted(b, key) && multiset(a) == multiset(b) && KeysIdentify(a, key)
    ensures a == b
  {
    assert |a| == |multiset(a)| == |multiset(b)| == |b|;
    if a != [] {
      SameFirst(a, b, key);
      SameRest(a, b);
      assert Sorted(a[1..], key) && Sorted(b[1..], key);
      assert forall x :: x in a[1..] ==> x in a;
      SortedUnique(a[1..], b[1..], key);
      assert a == [a[0]] + a[1..] && b == [b[0]] + b[1..];
    }
  }

  /** Sorting forgets the order it was given. */
  lemma SortCanonical<T>(a: seq<T>, b: seq<T>, key: T -> SortKey)
    requires multiset(a) == multiset(b) && KeysIdentify(a, key)
    ensures Sort(a, key) == Sort(b, key)
  {
    SortKeeps(a, key);
    SortKeeps(b, key);
    var s := Sort(a, key);
    forall x, y | x in s && y in s && key(x) == key(y) ensures x == y {
      assert x in multiset(s) && y in multiset(s);
      assert x in a && y in a;
    }
    SortedUnique(s, Sort(b, key), key);
  }

  lemma SameMembers<T>(s: seq<T>, key: T -> SortKey)
    ensures forall x :: x in Sort(s, key) <==> x in s
  {
    SortKeeps(s, key);
    forall x ensures x in Sort(s, key) <==> x in s {
      assert x in Sort(s, key) <==> x in multiset(Sort(s, key));
      assert x in s <==> x in multiset(s);
    }
  }

  /** The elements with one key, in order. */
  function Having<T>(s: seq<T>, key: T -> SortKey, k: SortKey): seq<T> {
    if s == [] then [] else (if key(s[0]) == k then [s[0]] else []) + Having(s[1..], key, k)
  }

  lemma {:induction false} InsertStable<T>(x: T, s: seq<T>, key: T -> SortKey, k: SortKey)
    ensures Having(Insert(x, s, key), key, k) == (if key(x) == k then [x] else []) + Having(s, key, k)
  {
    if s != [] && !Le(key(x), key(s[0])) {
      InsertStable(x, s[1..], key, k);
      LeTotal(key(x), key(s[0]));
    }
  }

  /** Elements with equal keys keep their order. */
  lemma {:induction false} SortStable<T>(s: seq<T>, key: T -> SortKey, k: SortKey)
    ensures Having(Sort(s, key), key, k) == Having(s, key, k)
  {
    if s != [] {
      SortStable(s[1..], key, k);
      InsertStable(s[0], Sort(s[1..], key), key, k);
    }
  }
}
