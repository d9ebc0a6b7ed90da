/**
 * The searches for an unused name: number the candidates and take the first free one.  Distinct candidates leave one
 * free among any used.size + 1 of them, so a bounded search always succeeds and an unbounded one ends.
 */
module FreshKeys {
  import opened Results
  import SafeText

  function Digit(n: nat): (c: char)
    requires n < 10
    ensures SafeText.IsDigit(c)
  { (n + 48) as char }

  function Decimal(n: nat): (s: string)
    ensures |s| > 0 && forall k :: 0 <= k < |s| ==> SafeText.IsDigit(s[k])
  {
    if n < 10 then [Digit(n)] else Decimal(n / 10) + [Digit(n % 10)]
  }

  lemma {:induction false} DecimalInjective(m: nat, n: nat)
    requires Decimal(m) == Decimal(n)
    ensures m == n
    decreases m + n
  {
    var s, t := Decimal(m), Decimal(n);
    assert (m >= 10 <==> |s| >= 2) && (n >= 10 <==> |t| >= 2);
    assert s[|s| - 1] == t[|t| - 1];
    assert Digit(m % 10) == Digit(n % 10);
    if m >= 10 && n >= 10 {
      assert Decimal(m / 10) == s[..|s| - 1] == t[..|t| - 1] == Decimal(n / 10);
      DecimalInjective(m / 10, n / 10);
    }
  }

  lemma {:induction false} DecimalShort(n: nat, limit: nat, digits: nat)
    requires n < limit && Power(digits) >= limit && digits > 0
    ensures |Decimal(n)| <= digits
    decreases digits
  {
    if n >= 10 { DecimalShort(n / 10, Power(digits - 1), digits - 1); }
  }

  function Power(k: nat): nat { if k == 0 then 1 else 10 * Power(k - 1) }

  /** A number after a last hyphen is the same number in equal texts. */
  lemma {:induction false} NumberedInjective(p: string, q: string, m: nat, n: nat)
    requires p + "-" + Decimal(m) == q + "-" + Decimal(n)
    ensures m == n
  {
    var s := p + "-" + Decimal(m);
    var t := q + "-" + Decimal(n);
    var i, j := |Decimal(m)|, |Decimal(n)|;
    assert s[|s| - 1 - i] == '-' && t[|t| - 1 - j] == '-';
    assert forall k :: |t| - j <= k < |t| ==> SafeText.IsDigit(t[k]);
    assert forall k :: |s| - i <= k < |s| ==> SafeText.IsDigit(s[k]);
    assert Decimal(m) == s[|s| - i..] && Decimal(n) == t[|t| - j..];
    DecimalInjective(m, n);
  }

  ghost predicate Distinct(names: nat -> string) { forall i: nat, j: nat :: i != j ==> names(i) != names(j) }

  /** Distinct names that are all used are no more than the used ones. */
  lemma {:induction false} Pigeonhole(names: nat -> string, first: nat, count: nat, used: set<string>)
    requires Distinct(names) && forall k: nat :: first <= k < first + count ==> names(k) in used
    ensures count <= |used|
    decreases count
  {
    if count > 0 {
      var last := names(first + count - 1);
      Pigeonhole(names, first, count - 1, used - {last});
    }
  }

  /** The first free number from suffix on, trying at most room + 1 of them. */
  function FirstFree(names: nat -> string, used: set<string>, suffix: nat, room: nat): (n: nat)
    ensures suffix <= n <= suffix + room
    ensures forall k: nat :: suffix <= k < n ==> names(k) in used
    ensures names(n) in used ==> n == suffix + room
    decreases room
  {
    if names(suffix) !in used || room == 0 then suffix else FirstFree(names, used, suffix + 1, room - 1)
  }

  /** One candidate more than there are used names always suffices. */
  lemma FirstFreeIsFree(names: nat -> string, used: set<string>, suffix: nat)
    requires Distinct(names)
    ensures names(FirstFree(names, used, suffix, |used|)) !in used
  {
    var n := FirstFree(names, used, suffix, |used|);
    if names(n) in used { Pigeonhole(names, suffix, |used| + 1, used); }
  }

  /** Whoever searches in order finds the same number. */
  lemma FirstFreeUnique(names: nat -> string, used: set<string>, suffix: nat, n: nat)
    requires Distinct(names) && suffix <= n && names(n) !in used
    requires forall k: nat :: suffix <= k < n ==> names(k) in used
    ensures n == FirstFree(names, used, suffix, |used|)
  {
    FirstFreeIsFree(names, used, suffix);
  }

  /** The loop that counts until a key is free. */
  method SearchFree(names: nat -> string, keys: seq<string>, initial: nat) returns (suffix: nat)
    requires Distinct(names)
    ensures names(suffix) !in keys && suffix == FirstFree(names, Members(keys), initial, |Members(keys)|)
  {
    suffix := initial;
    while names(suffix) in keys
      invariant initial <= suffix <= initial + |Members(keys)|
      invariant forall k: nat :: initial <= k < suffix ==> names(k) in Members(keys)
      decreases initial + |Members(keys)| - suffix
    {
      Pigeonhole(names, initial, suffix + 1 - initial, Members(keys));
      suffix := suffix + 1;
    }
    FirstFreeUnique(names, Members(keys), initial, suffix);
  }

  function Members(keys: seq<string>): (s: set<string>)
    ensures forall k :: k in s <==> k in keys
  { set k | k in keys }

  /** The bounded search: None is the trailing error, and it is never reached. */
  method SearchBounded(names: nat -> string, used: set<string>) returns (r: Option<string>)
    requires Distinct(names)
    ensures r == Some(names(FirstFree(names, used, 1, |used|))) && r.value !in used
  {
    for suffix := 1 to |used| + 2
      invariant forall k: nat :: 1 <= k < suffix ==> names(k) in used
    {
      if names(suffix) !in used {
        FirstFreeUnique(names, used, 1, suffix);
        return Some(names(suffix));
      }
    }
    Pigeonhole(names, 1, |used| + 1, used);
    return None;
  }
}
