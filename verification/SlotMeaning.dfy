/** What a built slot layout holds, in terms of the Parts, profiles and Packs it was built from. */
module SlotMeaning {
  import opened Keyed
  import opened SlotLayout
  import Ordering
  import SafeText

  predicate IsFor(row: Slot, sourceId: string, key: string, capacity: int) {
    row.sourceId == sourceId && row.partKey == key && row.capacity == capacity
  }

  /** The same Parts by menu order, equal orders by key. */
  ghost predicate InMenuOrder(menu: seq<PartDef>, parts: seq<PartDef>) {
    && multiset(menu) == multiset(parts) && |menu| == |parts|
    && forall i, j :: 0 <= i < j < |menu| ==>
         menu[i].menuOrder < menu[j].menuOrder
         || (menu[i].menuOrder == menu[j].menuOrder && (menu[i].key == menu[j].key || Ordering.TextLess(menu[i].key, menu[j].key)))
  }

  /** How many Parts the first n Packs own. */
  function PartsBefore(packs: seq<Pack>, n: nat): nat
    requires n <= |packs|
  {
    if n == 0 then 0 else PartsBefore(packs, n - 1) + |packs[n - 1].ownedParts|
  }

  predicate RootRow(rows: seq<Slot>, rootId: string, menu: seq<PartDef>, k: nat)
    requires k < |menu|
  { k < |rows| && IsFor(rows[k], rootId, menu[k].key, menu[k].capacity) }

  predicate ProfileRow(rows: seq<Slot>, from: nat, profiles: seq<Profile>, k: nat)
    requires k < |profiles|
  { from + k < |rows| && IsFor(rows[from + k], profiles[k].releaseId, profiles[k].partKey, profiles[k].capacity) }

  predicate PackRow(rows: seq<Slot>, from: nat, packs: seq<Pack>, n: nat, k: nat)
    requires n < |packs| && k < |packs[n].ownedParts|
  {
    var at := from + PartsBefore(packs, n) + k;
    at < |rows| && IsFor(rows[at], packs[n].releaseId, packs[n].ownedParts[k].key, packs[n].ownedParts[k].capacity)
  }

  /** The Maker's Parts in menu order, then the profiles in theirs, then each Pack's Parts in theirs, and nothing else. */
  ghost predicate Laid(rows: seq<Slot>, rootId: string, menu: seq<PartDef>, profiles: seq<Profile>, packs: seq<Pack>) {
    var from := |menu| + |profiles|;
    && |rows| == from + PartsBefore(packs, |packs|)
    && (forall k: nat :: k < |menu| ==> RootRow(rows, rootId, menu, k))
    && (forall k: nat :: k < |profiles| ==> ProfileRow(rows, |menu|, profiles, k))
    && (forall n: nat, k: nat :: n < |packs| && k < |packs[n].ownedParts| ==> PackRow(rows, from, packs, n, k))
  }

  predicate IsRequest(packs: seq<Pack>, requests: seq<Request>, n: nat, k: nat)
    requires n < |packs| && k < |packs[n].ownedParts|
  {
    var at := PartsBefore(packs, n) + k;
    at < |requests| && requests[at] == Request(packs[n].releaseId, packs[n].ownedParts[k].key, packs[n].ownedParts[k].capacity)
  }

  lemma {:induction false} PackRequestCount(packs: seq<Pack>)
    ensures |PackRequests(packs)| == PartsBefore(packs, |packs|)
    decreases |packs|
  {
    if packs != [] {
      PackRequestCount(packs[..|packs| - 1]);
      SameBefore(packs, |packs| - 1);
    }
  }

  lemma {:induction false} PackRequestAt(packs: seq<Pack>, n: nat, k: nat)
    requires n < |packs| && k < |packs[n].ownedParts|
    ensures IsRequest(packs, PackRequests(packs), n, k)
    decreases |packs|
  {
    var init := packs[..|packs| - 1];
    SameBefore(packs, n);
    if n < |init| { PackRequestAt(init, n, k); } else { PackRequestCount(init); }
  }

  lemma {:induction false} SameBefore(packs: seq<Pack>, n: nat)
    requires n < |packs|
    ensures PartsBefore(packs[..|packs| - 1], n) == PartsBefore(packs, n)
  {
    if n > 0 { SameBefore(packs, n - 1); }
  }

  /** What is built lays out exactly the Parts it was given, each with its source and capacity. */
  lemma RowsLaid(rows: seq<Slot>, rootId: string, parts: seq<PartDef>, profiles: seq<Profile>, packs: seq<Pack>)
    returns (menu: seq<PartDef>)
    requires PlacesAll(rows, AllRequests(rootId, parts, profiles, packs))
    ensures InMenuOrder(menu, parts) && Laid(rows, rootId, menu, profiles, packs)
  {
    menu := Ordering.Sort(parts, MenuKey);
    MenuSorted(parts);
    PackRequestCount(packs);
    var own, other, last := PartRequests(rootId, menu), ProfileRequests(profiles), PackRequests(packs);
    var all, from := own + other + last, |menu| + |profiles|;
    forall k: nat | k < |menu| ensures RootRow(rows, rootId, menu, k) { assert all[k] == own[k] && Places(rows[k], all[k]); }
    forall k: nat | k < |profiles| ensures ProfileRow(rows, |menu|, profiles, k) {
      assert all[|menu| + k] == other[k] && Places(rows[|menu| + k], all[|menu| + k]);
    }
    forall n: nat, k: nat | n < |packs| && k < |packs[n].ownedParts| ensures PackRow(rows, from, packs, n, k) {
      var at := PartsBefore(packs, n) + k;
      PackRequestAt(packs, n, k);
      assert all[from + at] == last[at] && Places(rows[from + at], all[from + at]);
    }
  }

  lemma MenuSorted(parts: seq<PartDef>)
    ensures InMenuOrder(Ordering.Sort(parts, MenuKey), parts)
  {
    Ordering.SortKeeps(parts, MenuKey);
    var menu := Ordering.Sort(parts, MenuKey);
    forall i, j | 0 <= i < j < |menu|
      ensures menu[i].menuOrder < menu[j].menuOrder
              || (menu[i].menuOrder == menu[j].menuOrder && (menu[i].key == menu[j].key || Ordering.TextLess(menu[i].key, menu[j].key)))
    {
      assert Ordering.Le(MenuKey(menu[i]), MenuKey(menu[j]));
      Ordering.TextTotal(menu[i].key, menu[j].key);
    }
  }

  // ---- the order of the profiles ----------------------------------------------------------------------

  /** Profile k belongs to the binding at[k]; profiles never go back to an earlier binding. */
  ghost predicate Follow(bindings: seq<Binding>, profiles: seq<Profile>, at: seq<nat>) {
    && |at| == |profiles|
    && (forall k :: 0 <= k < |at| ==> at[k] < |bindings| && bindings[at[k]].releaseId == profiles[k].releaseId)
    && (forall i, j :: 0 <= i < j < |at| ==> at[i] <= at[j])
  }

  /** The check of each profile against the one before it accepts exactly the profiles in the order of their bindings. */
  lemma ProfilesFollow(bindings: seq<Binding>, profiles: seq<Profile>)
    requires Distinct(BindingKey, bindings)
    ensures ProfilesOk(bindings, profiles) <==>
              && (exists at :: Follow(bindings, profiles, at))
              && forall k :: 0 <= k < |profiles| ==> SafeText.IsHash(profiles[k].profileCommitment) && profiles[k].capacity > 0
  {
    var at := seq(|profiles|, k requires 0 <= k < |profiles| => Position(bindings, profiles[k].releaseId));
    if ProfilesOk(bindings, profiles) {
      forall i: nat, j: nat | i < j < |at| ensures at[i] <= at[j] { NeverBack(bindings, profiles, i, j); }
      forall k: nat | k < |at|
        ensures at[k] < |bindings| && bindings[at[k]].releaseId == profiles[k].releaseId
        ensures SafeText.IsHash(profiles[k].profileCommitment) && profiles[k].capacity > 0
      { assert ProfileOk(bindings, profiles, k); }
      assert Follow(bindings, profiles, at);
    }
    if b :| Follow(bindings, profiles, b) {
      forall k: nat | k < |profiles| ensures Position(bindings, profiles[k].releaseId) == b[k] { FindOnly(BindingKey, bindings, b[k]); }
      assert forall k: nat :: 0 < k < |profiles| ==> b[k - 1] <= b[k];
      if forall k :: 0 <= k < |profiles| ==> SafeText.IsHash(profiles[k].profileCommitment) && profiles[k].capacity > 0 {
        forall k: nat | k < |profiles| ensures ProfileOk(bindings, profiles, k) {}
      }
    }
  }

  lemma {:induction false} NeverBack(bindings: seq<Binding>, profiles: seq<Profile>, i: nat, j: nat)
    requires ProfilesOk(bindings, profiles) && i <= j < |profiles|
    ensures Position(bindings, profiles[i].releaseId) <= Position(bindings, profiles[j].releaseId)
    decreases j - i
  {
    if i < j {
      NeverBack(bindings, profiles, i, j - 1);
      assert ProfileOk(bindings, profiles, j);
    }
  }
}
