/** Version lineage of maker-v8-catalog-adapter.js: one chain of roots, reconstructed from unordered discovery. */
module CatalogLineage {
  import opened Results
  import SafeText
  import opened Ordering
  import opened Sequences

  const MAX_SAFE_INTEGER: nat := 9007199254740991

  datatype Lifecycle = Draft | Active | Paused | Archived

  /** A discovered activation; rootId is None when it is not an exact non-zero identity. */
  datatype Activation = Activation(makerKey: Option<string>, rootId: Option<string>, tag: nat)

  /** The fields a root read reports; version is None when not a number. */
  datatype Root = Root(objectId: Option<string>, makerKey: string, lifecycle: Lifecycle, version: Option<int>,
                       versionCommitment: string, previousRootId: Option<string>,
                       previousVersionCommitment: Option<string>, successorRootId: Option<string>)

  /** The chain and manifest readers: the root of an activation, and the document of a manifest that binds
      its root. */
  datatype Readers = Readers(root: Activation -> Option<Root>, document: Root -> Option<string>)

  datatype View = View(rootId: string, version: nat, commitment: string, previousRootId: Option<string>,
                       previousCommitment: Option<string>, successor: Option<string>, lifecycle: Lifecycle,
                       document: string)

  datatype LineageError = KeyInvalid | IdInvalid | RootDuplicate | RootInvalid | VersionInvalid | ManifestInvalid | LinkInvalid

  // ---- what one activation shows ----------------------------------------------------------------------

  predicate RootOk(makerKey: string, rootId: string, root: Root) {
    root.objectId == Some(rootId) && root.makerKey == makerKey && !root.lifecycle.Draft?
  }

  predicate VersionOk(root: Root) { root.version.Some? && 1 <= root.version.value <= MAX_SAFE_INTEGER }

  /** The activation's root can be read, is this maker's, has a version, and its manifest binds it. */
  predicate Readable(readers: Readers, makerKey: string, a: Activation) {
    && a.rootId.Some? && readers.root(a).Some?
    && RootOk(makerKey, a.rootId.value, readers.root(a).value) && VersionOk(readers.root(a).value)
    && readers.document(readers.root(a).value).Some?
  }

  const BLANK := View("", 0, "", None, None, None, Draft, "")

  /** What a readable activation contributes. */
  function ViewOf(readers: Readers, a: Activation): View {
    if a.rootId.None? || readers.root(a).None? then BLANK
    else
      var root := readers.root(a).value;
      if root.version.None? || root.version.value < 0 || readers.document(root).None? then BLANK
      else View(a.rootId.value, root.version.value, root.versionCommitment, root.previousRootId,
                root.previousVersionCommitment, root.successorRootId, root.lifecycle, readers.document(root).value)
  }

  function Views(readers: Readers, activations: seq<Activation>): (r: seq<View>)
    ensures |r| == |activations| && forall i :: 0 <= i < |r| ==> r[i] == ViewOf(readers, activations[i])
  {
    if activations == [] then [] else [ViewOf(readers, activations[0])] + Views(readers, activations[1..])
  }

  ghost predicate AllReadable(readers: Readers, makerKey: string, activations: seq<Activation>) {
    forall i :: 0 <= i < |activations| ==> Readable(readers, makerKey, activations[i])
  }

  predicate IsFor(makerKey: string, a: Activation) { a.makerKey == Some(makerKey) }

  /** The activations of this maker, in discovery order. */
  function Matching(makerKey: string, activations: seq<Activation>): seq<Activation> {
    if activations == [] then []
    else (if IsFor(makerKey, activations[0]) then [activations[0]] else []) + Matching(makerKey, activations[1..])
  }

  predicate KeyOk(makerKey: string) { 0 < SafeText.Utf8Length(makerKey) <= 128 }

  // ---- one chain --------------------------------------------------------------------------------------

  /** v's links to its predecessor u hold in both directions. */
  predicate Linked(v: View, u: View) {
    && v.version == u.version + 1
    && v.previousRootId == Some(u.rootId) && v.previousCommitment == Some(u.commitment) && u.successor == Some(v.rootId)
  }

  /** Versions n, n-1, ..., 1; neighbours linked both ways; version 1 without a predecessor; no root twice. */
  ghost predicate IsChain(r: seq<View>) {
    && (forall i {:trigger r[i].version} :: 0 <= i < |r| ==> r[i].version == |r| - i)
    && (forall i {:trigger Linked(r[i], r[i + 1])} :: 0 <= i < |r| - 1 ==> Linked(r[i], r[i + 1]))
    && (r != [] ==> r[|r| - 1].previousRootId == None && r[|r| - 1].previousCommitment == None)
    && (forall i, j :: 0 <= i < j < |r| ==> r[i].rootId != r[j].rootId)
  }

  /** The matching activations are all readable, and their views, arranged newest first, are one chain. */
  ghost predicate Lineage(r: seq<View>, readers: Readers, makerKey: string, activations: seq<Activation>) {
    var matching := Matching(makerKey, activations);
    AllReadable(readers, makerKey, matching) && IsChain(r) && multiset(r) == multiset(Views(readers, matching))
  }

  function Newest(v: View): SortKey { SortKey(-(v.version as real), "") }

  /** A multiset of views makes at most one chain. */
  lemma ChainUnique(r: seq<View>, s: seq<View>)
    requires IsChain(r) && IsChain(s) && multiset(r) == multiset(s)
    ensures r == s
  {
    assert |r| == |multiset(r)| == |multiset(s)| == |s|;
    forall i | 0 <= i < |r| ensures r[i] == s[i] {
      assert r[i] in multiset(s);
      var j :| 0 <= j < |s| && s[j] == r[i];
      assert s[j].version == |s| - j && r[i].version == |r| - i;
    }
  }

  /** A chain is the newest-first arrangement of its views. */
  lemma ChainSorted(r: seq<View>, views: seq<View>)
    requires IsChain(r) && multiset(r) == multiset(views)
    ensures Sort(views, Newest) == r
  {
    forall x, y | x in r && y in r && Newest(x) == Newest(y) ensures x == y {
      var i :| 0 <= i < |r| && r[i] == x;
      var j :| 0 <= j < |r| && r[j] == y;
      assert r[i].version == |r| - i && r[j].version == |r| - j;
    }
    assert Sorted(r, Newest) by {
      forall i, j | 0 <= i < j < |r| ensures Le(Newest(r[i]), Newest(r[j])) {
        assert r[i].version == |r| - i && r[j].version == |r| - j;
      }
    }
    SortKeeps(views, Newest);
    SortedUnique(r, Sort(views, Newest), Newest);
  }

  // ---- the link check ---------------------------------------------------------------------------------

  /** What the final loop checks of one version. */
  predicate LinkOk(v: View, views: seq<View>) {
    if v.version == 1 then v.previousRootId == None && v.previousCommitment == None
    else exists u :: u in views && Linked(v, u)
  }

  ghost predicate DistinctVersions(views: seq<View>) {
    && (forall i, j :: 0 <= i < j < |views| ==> views[i].version != views[j].version)
    && (forall v :: v in views ==> v.version >= 1)
  }

  ghost predicate DistinctRoots(views: seq<View>) {
    forall i, j :: 0 <= i < j < |views| ==> views[i].rootId != views[j].rootId
  }

  lemma SortedStrictly(r: seq<View>)
    requires Sorted(r, Newest) && DistinctVersions(r)
    ensures forall i, j :: 0 <= i < j < |r| ==> r[i].version > r[j].version
  {
    forall i, j | 0 <= i < j < |r| ensures r[i].version > r[j].version {
      assert Le(Newest(r[i]), Newest(r[j])) && r[i].version != r[j].version;
    }
  }

  /** From the tail up: with every predecessor present, the versions are consecutive down to 1. */
  lemma {:induction false} VersionsConsecutive(r: seq<View>, i: nat)
    requires Sorted(r, Newest) && DistinctVersions(r) && i < |r|
    requires forall v :: v in r ==> LinkOk(v, r)
    ensures r[i].version == |r| - i
    ensures i + 1 < |r| ==> Linked(r[i], r[i + 1])
    decreases |r| - i
  {
    SortedStrictly(r);
    var v := r[i];
    assert v in r && LinkOk(v, r);
    if i + 1 < |r| {
      VersionsConsecutive(r, i + 1);
    }
    if v.version > 1 {
      var u :| u in r && Linked(v, u);
      var j :| 0 <= j < |r| && r[j] == u;
      assert j > i && r[i].version > r[i + 1].version >= r[j].version;
      assert j == i + 1;
    } else if i + 1 < |r| {
      assert false;
    }
  }

  lemma ChecksMakeChain(r: seq<View>)
    requires Sorted(r, Newest) && DistinctVersions(r) && DistinctRoots(r)
    requires forall v :: v in r ==> LinkOk(v, r)
    ensures IsChain(r)
  {
    forall i | 0 <= i < |r| ensures r[i].version == |r| - i { VersionsConsecutive(r, i); }
    forall i | 0 <= i < |r| - 1 ensures Linked(r[i], r[i + 1]) { VersionsConsecutive(r, i); }
    if r != [] { assert r[|r| - 1] in r && LinkOk(r[|r| - 1], r); }
  }

  lemma ChainPasses(r: seq<View>, v: View)
    requires IsChain(r) && v in r
    ensures LinkOk(v, r)
  {
    var i :| 0 <= i < |r| && r[i] == v;
    assert r[i].version == |r| - i;
    if i + 1 < |r| { assert Linked(r[i], r[i + 1]) && r[i + 1] in r; }
  }

  // ---- the reader -------------------------------------------------------------------------------------

  /** The per-activation checks, with the roots and versions seen so far. */
  method ReadOne(readers: Readers, makerKey: string, a: Activation, rootIds: set<string>, versions: set<int>)
    returns (r: Result<View, LineageError>)
    ensures r.Ok? <==> Readable(readers, makerKey, a) && a.rootId.value !in rootIds
                       && readers.root(a).value.version.value !in versions
    ensures r.Ok? ==> r.value == ViewOf(readers, a)
  {
    if a.rootId.None? { return Err(IdInvalid); }
    var rootId := a.rootId.value;
    if rootId in rootIds { return Err(RootDuplicate); }
    var read := readers.root(a);
    if read.None? { return Err(RootInvalid); }
    var root := read.value;
    if root.objectId != Some(rootId) || root.makerKey != makerKey || root.lifecycle == Draft { return Err(RootInvalid); }
    if root.version.None? || root.version.value < 1 || root.version.value > MAX_SAFE_INTEGER
       || root.version.value in versions { return Err(VersionInvalid); }
    var document := readers.document(root);
    if document.None? { return Err(ManifestInvalid); }
    return Ok(View(rootId, root.version.value, root.versionCommitment, root.previousRootId,
                   root.previousVersionCommitment, root.successorRootId, root.lifecycle, document.value));
  }

  /** The loop's state after some matching activations. */
  ghost predicate Collected(views: seq<View>, rootIds: set<string>, versions: set<int>, readers: Readers, makerKey: string,
                            activations: seq<Activation>) {
    && AllReadable(readers, makerKey, activations) && views == Views(readers, activations)
    && DistinctVersions(views) && DistinctRoots(views)
    && rootIds == RootIds(views) && versions == Versions(views)
  }

  ghost function RootIds(views: seq<View>): set<string> { set v | v in views :: v.rootId }

  ghost function Versions(views: seq<View>): set<int> { set v | v in views :: v.version as int }

  lemma {:induction false} ViewsConcat(readers: Readers, a: seq<Activation>, b: seq<Activation>)
    ensures Views(readers, a + b) == Views(readers, a) + Views(readers, b)
  {
  }

  lemma CollectedSnoc(views: seq<View>, rootIds: set<string>, versions: set<int>, readers: Readers, makerKey: string,
                      activations: seq<Activation>, a: Activation)
    requires Collected(views, rootIds, versions, readers, makerKey, activations)
    requires Readable(readers, makerKey, a) && ViewOf(readers, a).rootId !in rootIds && ViewOf(readers, a).version !in versions
    ensures var v := ViewOf(readers, a);
      Collected(views + [v], rootIds + {v.rootId}, versions + {v.version}, readers, makerKey, activations + [a])
  {
    var v := ViewOf(readers, a);
    ViewsConcat(readers, activations, [a]);
    SeenSnoc(views, v);
    DistinctSnoc(views, v);
  }

  lemma SeenSnoc(views: seq<View>, v: View)
    ensures RootIds(views + [v]) == RootIds(views) + {v.rootId} && Versions(views + [v]) == Versions(views) + {v.version as int}
  {
    assert forall x :: x in views + [v] <==> x in views || x == v;
  }

  lemma DistinctSnoc(views: seq<View>, v: View)
    requires DistinctVersions(views) && DistinctRoots(views) && v.version >= 1
    requires v.rootId !in RootIds(views) && v.version !in Versions(views)
    ensures DistinctVersions(views + [v]) && DistinctRoots(views + [v])
  {
    forall k | 0 <= k < |views| ensures views[k].rootId != v.rootId && views[k].version != v.version {
      assert views[k] in views;
    }
  }

  lemma TwiceInMultiset<T>(s: seq<T>, m: nat, n: nat)
    requires m < n < |s| && s[m] == s[n]
    ensures multiset(s)[s[n]] >= 2
  {
    assert s == s[..m] + [s[m]] + s[m + 1..n] + [s[n]] + s[n + 1..];
  }

  lemma OnceWhenDistinct(views: seq<View>, a: nat)
    requires DistinctVersions(views) && a < |views|
    ensures multiset(views)[views[a]] == 1
  {
    assert views == views[..a] + [views[a]] + views[a + 1..];
    assert views[a] !in multiset(views[..a]) && views[a] !in multiset(views[a + 1..]);
  }

  /** Distinctness depends on the views alone, not on their order. */
  lemma DistinctTransfers(views: seq<View>, other: seq<View>)
    requires multiset(views) == multiset(other) && DistinctVersions(views) && DistinctRoots(views)
    ensures DistinctVersions(other) && DistinctRoots(other)
  {
    forall i, j | 0 <= i < j < |other| ensures other[i].version != other[j].version && other[i].rootId != other[j].rootId {
      assert other[i] in multiset(views) && other[j] in multiset(views);
      var a :| 0 <= a < |views| && views[a] == other[i];
      var b :| 0 <= b < |views| && views[b] == other[j];
      if a == b {
        TwiceInMultiset(other, i, j);
        OnceWhenDistinct(views, a);
      }
    }
    forall v | v in other ensures v.version >= 1 { assert v in multiset(views); }
  }

  lemma ChainDistinct(r: seq<View>)
    requires IsChain(r)
    ensures DistinctVersions(r) && DistinctRoots(r)
  {
    forall i, j | 0 <= i < j < |r| ensures r[i].version != r[j].version {
      assert r[i].version == |r| - i && r[j].version == |r| - j;
    }
    forall v | v in r ensures v.version >= 1 {
      var i :| 0 <= i < |r| && r[i] == v;
      assert r[i].version == |r| - i;
    }
  }

  /** A read that is refused rules every lineage out. */
  lemma RefusedRead(s: seq<View>, views: seq<View>, rootIds: set<string>, versions: set<int>, readers: Readers, makerKey: string,
                    activations: seq<Activation>, n: nat)
    requires Lineage(s, readers, makerKey, activations) && n < |Matching(makerKey, activations)|
    requires Collected(views, rootIds, versions, readers, makerKey, Matching(makerKey, activations)[..n])
    ensures var a := Matching(makerKey, activations)[n];
      Readable(readers, makerKey, a) && ViewOf(readers, a).rootId !in rootIds && ViewOf(readers, a).version !in versions
  {
    var matching := Matching(makerKey, activations);
    var all := Views(readers, matching);
    ChainDistinct(s);
    DistinctTransfers(s, all);
    forall v | v in views ensures v.rootId != all[n].rootId && v.version != all[n].version {
      var i :| 0 <= i < n && views[i] == v;
      assert views[i] == ViewOf(readers, matching[..n][i]) == all[i];
    }
  }

  lemma CollectedNext(views: seq<View>, rootIds: set<string>, versions: set<int>, readers: Readers, makerKey: string,
                      matching: seq<Activation>, n: nat)
    requires n < |matching| && Collected(views, rootIds, versions, readers, makerKey, matching[..n])
    requires var a := matching[n];
      Readable(readers, makerKey, a) && ViewOf(readers, a).rootId !in rootIds && ViewOf(readers, a).version !in versions
    ensures var v := ViewOf(readers, matching[n]);
      Collected(views + [v], rootIds + {v.rootId}, versions + {v.version}, readers, makerKey, matching[..n + 1])
  {
    assert matching[..n + 1] == matching[..n] + [matching[n]];
    CollectedSnoc(views, rootIds, versions, readers, makerKey, matching[..n], matching[n]);
  }

  lemma NoLineage(views: seq<View>, rootIds: set<string>, versions: set<int>, readers: Readers, makerKey: string,
                  activations: seq<Activation>, n: nat)
    requires n < |Matching(makerKey, activations)|
    requires Collected(views, rootIds, versions, readers, makerKey, Matching(makerKey, activations)[..n])
    requires var a := Matching(makerKey, activations)[n];
      !(Readable(readers, makerKey, a) && ViewOf(readers, a).rootId !in rootIds && ViewOf(readers, a).version !in versions)
    ensures forall s :: !Lineage(s, readers, makerKey, activations)
  {
    forall s ensures !Lineage(s, readers, makerKey, activations) {
      if Lineage(s, readers, makerKey, activations) {
        RefusedRead(s, views, rootIds, versions, readers, makerKey, activations, n);
      }
    }
  }

  /** One iteration: the view to collect, or an error that leaves no lineage. */
  method ReadNext(ghost views: seq<View>, rootIds: set<string>, versions: set<int>, readers: Readers, makerKey: string,
                  activations: seq<Activation>, n: nat) returns (r: Result<View, LineageError>)
    requires n < |Matching(makerKey, activations)|
    requires Collected(views, rootIds, versions, readers, makerKey, Matching(makerKey, activations)[..n])
    ensures r.Ok? ==> Collected(views + [r.value], rootIds + {r.value.rootId}, versions + {r.value.version},
                                readers, makerKey, Matching(makerKey, activations)[..n + 1])
    ensures r.Err? ==> forall s :: !Lineage(s, readers, makerKey, activations)
  {
    r := ReadOne(readers, makerKey, Matching(makerKey, activations)[n], rootIds, versions);
    if r.Err? {
      NoLineage(views, rootIds, versions, readers, makerKey, activations, n);
    } else {
      CollectedNext(views, rootIds, versions, readers, makerKey, Matching(makerKey, activations), n);
    }
  }

  lemma CollectedAll(views: seq<View>, rootIds: set<string>, versions: set<int>, readers: Readers, makerKey: string,
                     activations: seq<Activation>)
    requires var matching := Matching(makerKey, activations);
      Collected(views, rootIds, versions, readers, makerKey, matching[..|matching|])
    ensures AllReadable(readers, makerKey, Matching(makerKey, activations))
            && views == Views(readers, Matching(makerKey, activations)) && DistinctVersions(views) && DistinctRoots(views)
  {
    var matching := Matching(makerKey, activations);
    assert matching[..|matching|] == matching;
  }

  /** Reads every matching root. */
  method ReadAll(makerKey: string, activations: seq<Activation>, readers: Readers) returns (r: Result<seq<View>, LineageError>)
    ensures r.Ok? ==> AllReadable(readers, makerKey, Matching(makerKey, activations))
                      && r.value == Views(readers, Matching(makerKey, activations))
                      && DistinctVersions(r.value) && DistinctRoots(r.value)
    ensures r.Err? ==> forall s :: !Lineage(s, readers, makerKey, activations)
  {
    var matching := Matching(makerKey, activations);
    var views: seq<View>, rootIds: set<string>, versions: set<int> := [], {}, {};
    for n := 0 to |matching|
      invariant Collected(views, rootIds, versions, readers, makerKey, matching[..n])
    {
      var view := ReadNext(views, rootIds, versions, readers, makerKey, activations, n);
      if view.Err? { return Err(view.error); }
      views, rootIds, versions := views + [view.value], rootIds + {view.value.rootId}, versions + {view.value.version};
    }
    CollectedAll(views, rootIds, versions, readers, makerKey, activations);
    return Ok(views);
  }

  /** The final loop over the sorted versions. */
  method CheckLinks(sorted: seq<View>) returns (ok: bool)
    ensures ok <==> forall v :: v in sorted ==> LinkOk(v, sorted)
  {
    for n := 0 to |sorted|
      invariant forall i :: 0 <= i < n ==> LinkOk(sorted[i], sorted)
    {
      var v := sorted[n];
      assert v in sorted;
      if v.version == 1 {
        if v.previousRootId != None || v.previousCommitment != None { return false; }
      } else if !(exists u | u in sorted :: Linked(v, u)) {
        return false;
      }
    }
    return true;
  }

  /** Reads every matching root, sorts newest first, then checks the links.  It succeeds exactly when the
      matching activations form one chain, and returns that chain. */
  method LoadLineage(makerKey: string, activations: seq<Activation>, readers: Readers)
    returns (r: Result<seq<View>, LineageError>)
    ensures r.Ok? ==> KeyOk(makerKey) && Lineage(r.value, readers, makerKey, activations)
    ensures r.Err? ==> !KeyOk(makerKey) || forall s :: !Lineage(s, readers, makerKey, activations)
  {
    if !KeyOk(makerKey) { return Err(KeyInvalid); }
    var read := ReadAll(makerKey, activations, readers);
    if read.Err? { return Err(read.error); }
    var views := read.value;
    var sorted := Sort(views, Newest);
    SortKeeps(views, Newest);
    DistinctTransfers(views, sorted);
    var ok := CheckLinks(sorted);
    if !ok {
      forall s ensures !Lineage(s, readers, makerKey, activations) {
        if Lineage(s, readers, makerKey, activations) {
          ChainSorted(s, views);
          forall v | v in s ensures LinkOk(v, s) { ChainPasses(s, v); }
        }
      }
      return Err(LinkInvalid);
    }
    ChecksMakeChain(sorted);
    return Ok(sorted);
  }

  // ---- consequences -----------------------------------------------------------------------------------

  lemma ConcatGroups<T>(a: seq<T>, b: seq<T>, c: seq<T>)
    ensures a + (b + c) == (a + b) + c
  {
  }

  lemma {:induction false} MatchingConcat(makerKey: string, a: seq<Activation>, b: seq<Activation>)
    ensures Matching(makerKey, a + b) == Matching(makerKey, a) + Matching(makerKey, b)
  {
    if a == [] {
      assert a + b == b;
    } else {
      MatchingConcat(makerKey, a[1..], b);
      assert (a + b)[1..] == a[1..] + b && (a + b)[0] == a[0];
      var first := if IsFor(makerKey, a[0]) then [a[0]] else [];
      ConcatGroups(first, Matching(makerKey, a[1..]), Matching(makerKey, b));
    }
  }

  lemma RemoveEqually(a: seq<Activation>, b: seq<Activation>, before: seq<Activation>, after: seq<Activation>)
    requires a != [] && multiset(a) == multiset(b) && b == before + ([a[0]] + after)
    ensures multiset(a[1..]) == multiset(before + after)
  {
    assert a == [a[0]] + a[1..];
    assert multiset(a[1..]) == multiset(a) - multiset{a[0]};
    assert multiset(b) == multiset(before) + multiset{a[0]} + multiset(after);
    assert multiset(before + after) == multiset(b) - multiset{a[0]};
  }

  lemma {:induction false} MatchingMultiset(makerKey: string, a: seq<Activation>, b: seq<Activation>)
    requires multiset(a) == multiset(b)
    ensures multiset(Matching(makerKey, a)) == multiset(Matching(makerKey, b))
    decreases |a|
  {
    if a == [] {
      assert |b| == |multiset(b)| == 0;
    } else {
      assert a[0] in multiset(b);
      var before, after := PullOut(b, a[0]);
      RemoveEqually(a, b, before, after);
      MatchingMultiset(makerKey, a[1..], before + after);
      MatchingConcat(makerKey, before, [a[0]] + after);
      MatchingConcat(makerKey, [a[0]], after);
      MatchingConcat(makerKey, before, after);
      MatchingConcat(makerKey, [a[0]], a[1..]);
      assert [a[0]] + a[1..] == a;
    }
  }

  lemma ViewsMultiset(readers: Readers, a: seq<Activation>, b: seq<Activation>)
    requires multiset(a) == multiset(b)
    ensures multiset(Views(readers, a)) == multiset(Views(readers, b))
  {
    var f := (x: Activation) => ViewOf(readers, x);
    MapMultiset(f, a, b);
    assert Views(readers, a) == Map(f, a) && Views(readers, b) == Map(f, b);
  }

  /** The order of discovery does not matter. */
  lemma DiscoveryOrder(a: seq<Activation>, b: seq<Activation>, readers: Readers, makerKey: string, r: seq<View>)
    requires multiset(a) == multiset(b)
    ensures Lineage(r, readers, makerKey, a) ==> Lineage(r, readers, makerKey, b)
  {
    MatchingMultiset(makerKey, a, b);
    ViewsMultiset(readers, Matching(makerKey, a), Matching(makerKey, b));
    var x, y := Matching(makerKey, a), Matching(makerKey, b);
    if AllReadable(readers, makerKey, x) {
      forall i | 0 <= i < |y| ensures Readable(readers, makerKey, y[i]) {
        assert y[i] in multiset(x);
        var j :| 0 <= j < |x| && x[j] == y[i];
      }
    }
  }

  /** There is at most one lineage, and it has one version for every activation of the maker. */
  lemma LineageOnce(r: seq<View>, s: seq<View>, readers: Readers, makerKey: string, a: seq<Activation>)
    requires Lineage(r, readers, makerKey, a) && Lineage(s, readers, makerKey, a)
    ensures r == s && |r| == |Matching(makerKey, a)|
  {
    ChainUnique(r, s);
    assert |r| == |multiset(r)| == |multiset(Views(readers, Matching(makerKey, a)))|;
  }

  /** Follow previousRootId links through the views, newest first. */
  function Follow(views: seq<View>, at: Option<string>, steps: nat): seq<string>
    decreases steps
  {
    if at.None? || steps == 0 then []
    else
      match Find(views, at.value)
      case None => []
      case Some(v) => [at.value] + Follow(views, v.previousRootId, steps - 1)
  }

  function Find(views: seq<View>, id: string): (r: Option<View>)
    ensures r.Some? ==> r.value in views && r.value.rootId == id
    ensures r.None? ==> forall v :: v in views ==> v.rootId != id
  {
    if views == [] then None
    else if views[0].rootId == id then Some(views[0])
    else Find(views[1..], id)
  }

  lemma FindInChain(r: seq<View>, i: nat)
    requires IsChain(r) && i < |r|
    ensures Find(r, r[i].rootId) == Some(r[i])
  {
    var v := Find(r, r[i].rootId).value;
    var j :| 0 <= j < |r| && r[j] == v;
    assert j == i;
  }

  /** Walking back from the head visits every root exactly once, and stops. */
  lemma {:induction false} WalkVisitsAll(r: seq<View>, i: nat, extra: nat)
    requires IsChain(r) && i < |r|
    ensures var walk := Follow(r, Some(r[i].rootId), |r| - i + extra);
      |walk| == |r| - i && forall k :: 0 <= k < |walk| ==> walk[k] == r[i + k].rootId
    decreases |r| - i
  {
    FindInChain(r, i);
    if i + 1 < |r| {
      assert Linked(r[i], r[i + 1]);
      WalkVisitsAll(r, i + 1, extra);
    }
  }

  /** Follow successor links. */
  function Climb(views: seq<View>, at: Option<string>, steps: nat): seq<string>
    decreases steps
  {
    if at.None? || steps == 0 then []
    else
      match Find(views, at.value)
      case None => []
      case Some(v) => [at.value] + Climb(views, v.successor, steps - 1)
  }

  /** Climbing from version 1 takes the same roots in the other order, up to the head. */
  lemma {:induction false} ClimbVisitsAll(r: seq<View>, i: nat)
    requires IsChain(r) && i < |r|
    ensures var climb := Climb(r, Some(r[i].rootId), i + 1);
      |climb| == i + 1 && forall k :: 0 <= k <= i ==> climb[k] == r[i - k].rootId
    decreases i
  {
    FindInChain(r, i);
    if i > 0 {
      assert Linked(r[i - 1], r[i]);
      ClimbVisitsAll(r, i - 1);
    }
  }

  // ---- what a version shows ---------------------------------------------------------------------------

  /** The view is this activation's root as it was read: of this maker, published, numbered from 1, with the document
      its manifest binds. */
  ghost predicate Shows(readers: Readers, makerKey: string, a: Activation, v: View) {
    && a.makerKey == Some(makerKey) && a.rootId == Some(v.rootId) && v.lifecycle in {Active, Paused, Archived}
    && 1 <= v.version <= MAX_SAFE_INTEGER
    && exists root :: readers.root(a) == Some(root) && root == Root(Some(v.rootId), makerKey, v.lifecycle, Some(v.version),
         v.commitment, v.previousRootId, v.previousCommitment, v.successor) && readers.document(root) == Some(v.document)
  }

  lemma ShownIsView(readers: Readers, makerKey: string, a: Activation, v: View)
    requires a.makerKey == Some(makerKey)
    ensures Shows(readers, makerKey, a, v) <==> Readable(readers, makerKey, a) && v == ViewOf(readers, a)
  {
  }

  /** One view for each activation of the key, in discovery order. */
  ghost predicate ShowsAll(readers: Readers, makerKey: string, activations: seq<Activation>, views: seq<View>) {
    && |views| == |Matching(makerKey, activations)|
    && forall i :: 0 <= i < |views| ==> Shows(readers, makerKey, Matching(makerKey, activations)[i], views[i])
  }

  lemma {:induction false} MatchingAreFor(makerKey: string, activations: seq<Activation>)
    ensures forall a :: a in Matching(makerKey, activations) <==> a in activations && a.makerKey == Some(makerKey)
  {
    if activations != [] {
      MatchingAreFor(makerKey, activations[1..]);
      assert activations == [activations[0]] + activations[1..];
    }
  }

  /** A lineage is exactly a chain of what the activations of the key show. */
  lemma LineageExactly(r: seq<View>, readers: Readers, makerKey: string, activations: seq<Activation>)
    ensures Lineage(r, readers, makerKey, activations) <==>
              IsChain(r) && exists views :: ShowsAll(readers, makerKey, activations, views) && multiset(views) == multiset(r)
  {
    var matching := Matching(makerKey, activations);
    MatchingAreFor(makerKey, activations);
    forall i, v | 0 <= i < |matching|
      ensures Shows(readers, makerKey, matching[i], v) <==> Readable(readers, makerKey, matching[i]) && v == ViewOf(readers, matching[i])
    {
      assert matching[i] in matching;
      ShownIsView(readers, makerKey, matching[i], v);
    }
    if Lineage(r, readers, makerKey, activations) {
      assert ShowsAll(readers, makerKey, activations, Views(readers, matching));
    }
    if views :| ShowsAll(readers, makerKey, activations, views) && multiset(views) == multiset(r) {
      assert views == Views(readers, matching);
    }
  }
}
