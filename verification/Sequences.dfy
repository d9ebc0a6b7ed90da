/** Mapping and filtering of sequences, and what they keep when the sequence is rearranged. */
module Sequences {
  function Map<T, U>(f: T -> U, s: seq<T>): (r: seq<U>)
    ensures |r| == |s| && forall i :: 0 <= i < |s| ==> r[i] == f(s[i])
  {
    if s == [] then [] else [f(s[0])] + Map(f, s[1..])
  }

  function Keep<T>(p: T -> bool, s: seq<T>): seq<T> {
    if s == [] then [] else (if p(s[0]) then [s[0]] else []) + Keep(p, s[1..])
  }

  lemma Assoc<T>(a: seq<T>, b: seq<T>, c: seq<T>)
    ensures a + b + c == a + (b + c)
  {}

  lemma {:induction false} KeepConcat<T>(p: T -> bool, a: seq<T>, b: seq<T>)
    ensures Keep(p, a + b) == Keep(p, a) + Keep(p, b)
  {
    if a == [] {
      assert a + b == b;
    } else {
      KeepConcat(p, a[1..], b);
      assert (a + b)[0] == a[0] && (a + b)[1..] == a[1..] + b;
      Assoc(if p(a[0]) then [a[0]] else [], Keep(p, a[1..]), Keep(p, b));
    }
  }

  lemma KeepRemove<T>(p: T -> bool, before: seq<T>, x: T, after: seq<T>)
    ensures multiset(Keep(p, before + ([x] + after))) == multiset(Keep(p, [x] + (before + after)))
  {
    KeepConcat(p, before, after);
    KeepConcat(p, before, [x] + after);
    KeepConcat(p, [x], after);
    KeepConcat(p, [x], before + after);
  }

  lemma PullOut<T>(s: seq<T>, x: T) returns (before: seq<T>, after: seq<T>)
    requires x in s
    ensures s == before + ([x] + after)
    ensures multiset(s) == multiset{x} + multiset(before + after)
  {
    var j :| 0 <= j < |s| && s[j] == x;
    before, after := s[..j], s[j + 1..];
    assert s == before + ([x] + after);
  }

  lemma {:induction false} KeepMultiset<T>(p: T -> bool, a: seq<T>, b: seq<T>)
    requires multiset(a) == multiset(b)
    ensures multiset(Keep(p, a)) == multiset(Keep(p, b))
    decreases |a|
  {
    if a == [] {
      assert |b| == |multiset(b)| == 0;
    } else {
      assert a[0] in multiset(b);
      var before, after := PullOut(b, a[0]);
      assert a == [a[0]] + a[1..];
      assert multiset(a[1..]) == multiset(a) - multiset{a[0]};
      assert multiset(before + after) == multiset(b) - multiset{a[0]};
      KeepMultiset(p, a[1..], before + after);
      KeepRemove(p, before, a[0], after);
      assert ([a[0]] + (before + after))[1..] == before + after;
    }
  }

  lemma {:induction false} KeepMember<T>(p: T -> bool, s: seq<T>, x: T)
    ensures x in Keep(p, s) <==> x in s && p(x)
  {
    if s != [] { KeepMember(p, s[1..], x); }
  }

  lemma {:induction false} KeepAgree<T(!new)>(p: T -> bool, q: T -> bool, s: seq<T>)
    requires forall x :: p(x) == q(x)
    ensures Keep(p, s) == Keep(q, s)
  {
    if s != [] { KeepAgree(p, q, s[1..]); }
  }

  lemma {:induction false} MapConcat<T, U>(f: T -> U, a: seq<T>, b: seq<T>)
    ensures Map(f, a + b) == Map(f, a) + Map(f, b)
  {
  }

  lemma {:induction false} MapMultiset<T, U>(f: T -> U, a: seq<T>, b: seq<T>)
    requires multiset(a) == multiset(b)
    ensures multiset(Map(f, a)) == multiset(Map(f, b))
    decreases |a|
  {
    if a == [] {
      assert |b| == |multiset(b)| == 0;
    } else {
      assert a[0] in multiset(b);
      var before, after := PullOut(b, a[0]);
      assert a == [a[0]] + a[1..];
      assert multiset(a[1..]) == multiset(a) - multiset{a[0]};
      assert multiset(before + after) == multiset(b) - multiset{a[0]};
      MapMultiset(f, a[1..], before + after);
      MapConcat(f, before, [a[0]] + after);
      MapConcat(f, [a[0]], after);
      MapConcat(f, before, after);
      MapConcat(f, [a[0]], a[1..]);
    }
  }
}
