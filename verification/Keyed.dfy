/** Lists whose rows are found by a text key. */
module Keyed {
  import opened Results
  import opened Sequences

  predicate Distinct<T>(key: T -> string, s: seq<T>) { forall i, j :: 0 <= i < j < |s| ==> key(s[i]) != key(s[j]) }

  /** Array.prototype.find by key: the index of the first match, or the length. */
  function Find<T>(key: T -> string, s: seq<T>, k: string): (i: nat)
    ensures i <= |s| && (i < |s| ==> key(s[i]) == k)
    ensures forall j :: 0 <= j < i ==> key(s[j]) != k
  {
    if s == [] || key(s[0]) == k then 0 else 1 + Find(key, s[1..], k)
  }

  function Keys<T>(key: T -> string, s: seq<T>): (r: seq<string>)
    ensures |r| == |s| && forall k :: 0 <= k < |s| ==> r[k] == key(s[k])
  { seq(|s|, k requires 0 <= k < |s| => key(s[k])) }

  lemma FindIs<T>(key: T -> string, s: seq<T>, k: string, i: nat)
    requires i <= |s| && (i < |s| ==> key(s[i]) == k) && forall j :: 0 <= j < i ==> key(s[j]) != k
    ensures Find(key, s, k) == i
  {}

  lemma FindOnly<T>(key: T -> string, s: seq<T>, i: nat)
    requires Distinct(key, s) && i < |s|
    ensures Find(key, s, key(s[i])) == i
  {}

  lemma DistinctUpdate<T>(key: T -> string, s: seq<T>, i: nat, x: T)
    requires Distinct(key, s) && i < |s| && key(x) == key(s[i])
    ensures Distinct(key, s[i := x])
  {}

  lemma DistinctAppend<T>(key: T -> string, s: seq<T>, x: T)
    requires Distinct(key, s) && Find(key, s, key(x)) == |s|
    ensures Distinct(key, s + [x])
  {}

  lemma DistinctRemove<T>(key: T -> string, s: seq<T>, i: nat)
    requires Distinct(key, s) && i < |s|
    ensures Distinct(key, s[..i] + s[i + 1..])
  {}

  lemma {:induction false} DistinctKeep<T>(key: T -> string, p: T -> bool, s: seq<T>)
    requires Distinct(key, s)
    ensures Distinct(key, Keep(p, s)) && forall x :: x in Keep(p, s) <==> x in s && p(x)
  {
    forall x ensures x in Keep(p, s) <==> x in s && p(x) { KeepMember(p, s, x); }
    if s != [] {
      DistinctKeep(key, p, s[1..]);
      forall x | x in Keep(p, s[1..]) ensures key(x) != key(s[0]) {
        KeepMember(p, s[1..], x);
        var j :| 0 <= j < |s[1..]| && s[1..][j] == x;
        assert s[j + 1] == x;
      }
    }
  }

  lemma DistinctMap<T>(key: T -> string, f: T -> T, s: seq<T>)
    requires Distinct(key, s) && forall k :: 0 <= k < |s| ==> key(f(s[k])) == key(s[k])
    ensures Distinct(key, Map(f, s))
  {}

  function Lookup<T>(key: T -> string, s: seq<T>, k: string): Option<T> {
    if Find(key, s, k) < |s| then Some(s[Find(key, s, k)]) else None
  }

  lemma LookupUpdate<T>(key: T -> string, s: seq<T>, i: nat, x: T, k: string)
    requires i < |s| && key(x) == key(s[i]) && Distinct(key, s)
    ensures Lookup(key, s[i := x], k) == if k == key(x) then Some(x) else Lookup(key, s, k)
  {
    FindOnly(key, s, i);
    DistinctUpdate(key, s, i, x);
    FindOnly(key, s[i := x], i);
    var h, j := Find(key, s, k), Find(key, s[i := x], k);
    assert h < |s| ==> key(s[i := x][h]) == key(s[h]);
    assert j < |s| ==> key(s[i := x][j]) == key(s[j]);
  }

  lemma LookupAppend<T>(key: T -> string, s: seq<T>, x: T, k: string)
    requires Find(key, s, key(x)) == |s|
    ensures Lookup(key, s + [x], k) == if k == key(x) then Some(x) else Lookup(key, s, k)
  {
    var i := Find(key, s, k);
    if i < |s| || k == key(x) {
      FindIs(key, s + [x], k, i);
    } else {
      FindIs(key, s + [x], k, |s| + 1);
    }
  }

  lemma LookupRemove<T>(key: T -> string, s: seq<T>, i: nat, k: string)
    requires i < |s| && Distinct(key, s)
    ensures Lookup(key, s[..i] + s[i + 1..], k) == if k == key(s[i]) then None else Lookup(key, s, k)
  {
    var rest := s[..i] + s[i + 1..];
    DistinctRemove(key, s, i);
    var j, h := Find(key, s, k), Find(key, rest, k);
    assert j < |s| && j != i ==> rest[if j < i then j else j - 1] == s[j];
    if h < |rest| {
      var at := if h < i then h else h + 1;
      assert s[at] == rest[h];
      FindOnly(key, s, at);
    }
  }
}
