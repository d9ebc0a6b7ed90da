/** maker-v8-player-slot-layout.js: every Part of the Maker and of its attached Packs gets its own run of loadout slots. */
module SlotLayout {
  import opened Results
  import opened Keyed
  import Ordering
  import SafeText

  const MAX_SLOTS: nat := 500

  datatype Request = Request(sourceId: string, partKey: string, capacity: int)

  /** capacity slots from start on, for one Part of one source. */
  datatype Slot = Slot(sourceId: string, partKey: string, capacity: int, start: int)

  type Identity = (string, string)

  function IdentityOf(s: Slot): Identity { (s.sourceId, s.partKey) }

  predicate IsObjectId(s: string) { |s| == 66 && s[0] == '0' && s[1] == 'x' && SafeText.IsHash(s[2..]) }

  predicate IsPartKey(s: string) {
    0 < |s| <= 128 && SafeText.IsAlphanumeric(s[0]) && forall k :: 0 <= k < |s| ==> SafeText.IsKeyTail(s[k])
  }

  /** Rows are laid end to end from zero. */
  ghost predicate EndToEnd(rows: seq<Slot>) {
    forall k :: 0 <= k < |rows| ==> rows[k].start == Total(rows[..k]) && 1 <= rows[k].capacity <= 64
  }

  function Total(rows: seq<Slot>): int
    decreases |rows|
  { if rows == [] then 0 else Total(rows[..|rows| - 1]) + rows[|rows| - 1].capacity }

  ghost predicate OneEach(rows: seq<Slot>) { forall i, j :: 0 <= i < j < |rows| ==> IdentityOf(rows[i]) != IdentityOf(rows[j]) }

  ghost predicate LayoutOk(rows: seq<Slot>) { EndToEnd(rows) && OneEach(rows) && Total(rows) <= MAX_SLOTS }

  /** Row r places request q. */
  predicate Places(r: Slot, q: Request) { r.sourceId == q.sourceId && r.partKey == q.partKey && r.capacity == q.capacity }

  ghost predicate PlacesAll(rows: seq<Slot>, requests: seq<Request>) {
    |rows| == |requests| && forall k :: 0 <= k < |rows| ==> Places(rows[k], requests[k])
  }

  lemma TotalSnoc(rows: seq<Slot>, r: Slot)
    ensures Total(rows + [r]) == Total(rows) + r.capacity
  {
    assert (rows + [r])[..|rows|] == rows;
  }

  lemma EndToEndSnoc(rows: seq<Slot>, r: Slot)
    requires EndToEnd(rows) && r.start == Total(rows) && 1 <= r.capacity <= 64
    ensures EndToEnd(rows + [r])
  {
    var all := rows + [r];
    forall k | 0 <= k < |all| ensures all[k].start == Total(all[..k]) && 1 <= all[k].capacity <= 64 {
      assert all[..k] == rows[..k];
      assert rows[..|rows|] == rows;
    }
  }

  ghost function Identities(rows: seq<Slot>): set<Identity> { set k | 0 <= k < |rows| :: IdentityOf(rows[k]) }

  lemma IdentitiesSnoc(rows: seq<Slot>, r: Slot)
    ensures Identities(rows + [r]) == Identities(rows) + {IdentityOf(r)}
  {
    var all := rows + [r];
    assert all[|rows|] == r && forall k :: 0 <= k < |rows| ==> all[k] == rows[k];
  }

  /** Could this request still be appended? */
  ghost predicate Fits(rows: seq<Slot>, q: Request) {
    && IsPartKey(q.partKey) && (q.sourceId, q.partKey) !in Identities(rows)
    && 1 <= q.capacity <= 64 && Total(rows) + q.capacity <= MAX_SLOTS
  }

  lemma OneEachSnoc(rows: seq<Slot>, r: Slot)
    requires OneEach(rows) && IdentityOf(r) !in Identities(rows)
    ensures OneEach(rows + [r])
  {
    forall k | 0 <= k < |rows| ensures IdentityOf(rows[k]) != IdentityOf(r) {
      assert IdentityOf(rows[k]) in Identities(rows);
    }
  }

  lemma LayoutSnoc(rows: seq<Slot>, q: Request)
    requires LayoutOk(rows) && Fits(rows, q)
    ensures LayoutOk(rows + [Slot(q.sourceId, q.partKey, q.capacity, Total(rows))])
  {
    var r := Slot(q.sourceId, q.partKey, q.capacity, Total(rows));
    TotalSnoc(rows, r);
    EndToEndSnoc(rows, r);
    OneEachSnoc(rows, r);
  }

  lemma PlacesSnoc(rows: seq<Slot>, requests: seq<Request>, r: Slot, q: Request)
    requires PlacesAll(rows, requests) && Places(r, q)
    ensures PlacesAll(rows + [r], requests + [q])
  {}

  /** A layout places its requests in one way only. */
  lemma LayoutUnique(a: seq<Slot>, b: seq<Slot>, requests: seq<Request>)
    requires LayoutOk(a) && LayoutOk(b) && PlacesAll(a, requests) && PlacesAll(b, requests)
    ensures a == b
  {
    forall k: nat | k < |a| ensures a[k] == b[k] { SameRow(a, b, requests, k); }
  }

  lemma SameRow(a: seq<Slot>, b: seq<Slot>, requests: seq<Request>, k: nat)
    requires EndToEnd(a) && EndToEnd(b) && PlacesAll(a, requests) && PlacesAll(b, requests) && k < |a|
    ensures a[k] == b[k]
  {
    SameTotal(a, b, requests, k);
    assert Places(a[k], requests[k]) && Places(b[k], requests[k]);
  }

  lemma {:induction false} SameTotal(a: seq<Slot>, b: seq<Slot>, requests: seq<Request>, k: nat)
    requires PlacesAll(a, requests) && PlacesAll(b, requests) && k <= |a|
    ensures Total(a[..k]) == Total(b[..k])
  {
    if k > 0 {
      SameTotal(a, b, requests, k - 1);
      assert a[..k][..k - 1] == a[..k - 1] && b[..k][..k - 1] == b[..k - 1];
      assert Places(a[k - 1], requests[k - 1]) && Places(b[k - 1], requests[k - 1]);
    }
  }

  lemma {:induction false} TotalPrefix(rows: seq<Slot>, i: nat, j: nat)
    requires EndToEnd(rows) && i <= j <= |rows|
    ensures Total(rows[..i]) <= Total(rows[..j])
    decreases j - i
  {
    if i < j {
      TotalPrefix(rows, i, j - 1);
      assert rows[..j][..j - 1] == rows[..j - 1];
    }
  }

  /** A row ends before every later row starts. */
  lemma RowsApart(rows: seq<Slot>, i: nat, j: nat)
    requires EndToEnd(rows) && i < j < |rows|
    ensures rows[i].start + rows[i].capacity <= rows[j].start
  {
    assert rows[..i + 1][..i] == rows[..i];
    TotalPrefix(rows, i + 1, j);
  }

  // ---- the builder ------------------------------------------------------------------------------------

  datatype PartDef = PartDef(key: string, menuOrder: int, capacity: int)
  datatype Binding = Binding(releaseId: string, definitionCommitment: string)
  /** capacity is the number its decimal text denotes. */
  datatype Profile = Profile(releaseId: string, partKey: string, profileCommitment: string, capacity: nat)
  datatype Pack = Pack(releaseId: string, definitionCommitment: string, ownedParts: seq<PartDef>)

  function MenuKey(p: PartDef): Ordering.SortKey { Ordering.SortKey(p.menuOrder as real, p.key) }

  function PartRequests(sourceId: string, parts: seq<PartDef>): (r: seq<Request>)
    ensures |r| == |parts|
  { seq(|parts|, k requires 0 <= k < |parts| => Request(sourceId, parts[k].key, parts[k].capacity)) }

  function ProfileRequests(profiles: seq<Profile>): (r: seq<Request>)
    ensures |r| == |profiles|
  { seq(|profiles|, k requires 0 <= k < |profiles| => Request(profiles[k].releaseId, profiles[k].partKey, profiles[k].capacity)) }

  function PackRequests(packs: seq<Pack>): seq<Request>
    decreases |packs|
  {
    if packs == [] then []
    else PackRequests(packs[..|packs| - 1]) + PartRequests(packs[|packs| - 1].releaseId, packs[|packs| - 1].ownedParts)
  }

  lemma PackRequestsSnoc(packs: seq<Pack>, k: nat)
    requires k < |packs|
    ensures PackRequests(packs[..k + 1]) == PackRequests(packs[..k]) + PartRequests(packs[k].releaseId, packs[k].ownedParts)
  {
    assert packs[..k + 1][..k] == packs[..k];
  }

  lemma Assoc(a: seq<Request>, b: seq<Request>, c: seq<Request>)
    ensures a + b + c == a + (b + c)
  {}

  function BindingKey(b: Binding): string { b.releaseId }
  function PackKey(p: Pack): string { p.releaseId }

  predicate BindingOk(b: Binding, rootId: string) {
    IsObjectId(b.releaseId) && b.releaseId != rootId && SafeText.IsHash(b.definitionCommitment)
  }

  ghost predicate BindingsOk(rootId: string, bindings: seq<Binding>) {
    (forall k :: 0 <= k < |bindings| ==> BindingOk(bindings[k], rootId)) && Distinct(BindingKey, bindings)
  }

  /** Where a source is attached; the length when it is not. */
  function Position(bindings: seq<Binding>, id: string): nat { Find(BindingKey, bindings, id) }

  /** A profile of an attached Pack, not before the profile it follows. */
  predicate ProfileOk(bindings: seq<Binding>, profiles: seq<Profile>, k: nat)
    requires k < |profiles|
  {
    && Position(bindings, profiles[k].releaseId) < |bindings|
    && (k > 0 ==> Position(bindings, profiles[k - 1].releaseId) <= Position(bindings, profiles[k].releaseId))
    && SafeText.IsHash(profiles[k].profileCommitment) && profiles[k].capacity >= 1
  }

  ghost predicate ProfilesOk(bindings: seq<Binding>, profiles: seq<Profile>) {
    forall k: nat {:trigger ProfileOk(bindings, profiles, k)} :: k < |profiles| ==> ProfileOk(bindings, profiles, k)
  }

  ghost predicate PacksOk(rootId: string, bindings: seq<Binding>, packs: seq<Pack>) {
    && (forall k :: 0 <= k < |packs| ==> PackOk(packs[k], rootId) && Position(bindings, packs[k].releaseId) == |bindings|)
    && Distinct(PackKey, packs) && |bindings| + |packs| <= 500
  }

  /** Some layout places the requests, and their keys are valid. */
  ghost predicate Placeable(requests: seq<Request>) {
    (exists rows :: LayoutOk(rows) && PlacesAll(rows, requests)) && forall k :: 0 <= k < |requests| ==> IsPartKey(requests[k].partKey)
  }

  /** The inputs a layout can be built from. */
  ghost predicate Buildable(rootId: string, parts: seq<PartDef>, bindings: seq<Binding>, profiles: seq<Profile>, packs: seq<Pack>) {
    && IsObjectId(rootId) && |bindings| <= 500 && BindingsOk(rootId, bindings) && ProfilesOk(bindings, profiles)
    && PacksOk(rootId, bindings, packs) && Placeable(AllRequests(rootId, parts, profiles, packs))
  }

  lemma LayoutPrefix(rows: seq<Slot>, n: nat)
    requires LayoutOk(rows) && n <= |rows|
    ensures LayoutOk(rows[..n])
  {
    forall k | 0 <= k < n ensures rows[..n][k].start == Total(rows[..n][..k]) && 1 <= rows[..n][k].capacity <= 64 {
      assert rows[..n][..k] == rows[..k];
    }
    TotalPrefix(rows, n, |rows|);
    assert rows[..|rows|] == rows;
  }

  lemma PlacesPrefix(rows: seq<Slot>, a: seq<Request>, b: seq<Request>)
    requires PlacesAll(rows, a + b)
    ensures PlacesAll(rows[..|a|], a)
  {
    forall k | 0 <= k < |a| ensures Places(rows[..|a|][k], a[k]) { assert Places(rows[k], (a + b)[k]); }
  }

  lemma FitsWhenPlaced(rows: seq<Slot>, r: Slot, q: Request)
    requires LayoutOk(rows + [r]) && Places(r, q) && IsPartKey(q.partKey)
    ensures Fits(rows, q)
  {
    var all := rows + [r];
    TotalSnoc(rows, r);
    NewIdentity(rows, r);
    assert all[|rows|] == r;
  }

  lemma PlaceablePrefix(a: seq<Request>, b: seq<Request>)
    requires Placeable(a + b)
    ensures Placeable(a)
  {
    var rows :| LayoutOk(rows) && PlacesAll(rows, a + b);
    LayoutPrefix(rows, |a|);
    PlacesPrefix(rows, a, b);
    forall k | 0 <= k < |a| ensures IsPartKey(a[k].partKey) { assert (a + b)[k] == a[k]; }
  }

  lemma PlacedFits(other: seq<Slot>, rows: seq<Slot>, requests: seq<Request>, q: Request)
    requires LayoutOk(other) && PlacesAll(other, requests + [q]) && IsPartKey(q.partKey)
    requires LayoutOk(rows) && PlacesAll(rows, requests)
    ensures Fits(rows, q)
  {
    var n := |requests|;
    LayoutPrefix(other, n);
    PlacesPrefix(other, requests, [q]);
    LayoutUnique(other[..n], rows, requests);
    assert other == other[..n] + [other[n]];
    assert Places(other[n], (requests + [q])[n]);
    FitsWhenPlaced(rows, other[n], q);
  }

  /** A request that does not fit after its predecessors cannot be placed after them. */
  lemma RefusedIsUnplaceable(rows: seq<Slot>, requests: seq<Request>, q: Request)
    requires LayoutOk(rows) && PlacesAll(rows, requests) && !Fits(rows, q)
    ensures !Placeable(requests + [q])
  {
    if Placeable(requests + [q]) {
      var other :| LayoutOk(other) && PlacesAll(other, requests + [q]);
      assert (requests + [q])[|requests|] == q;
      PlacedFits(other, rows, requests, q);
    }
  }

  lemma NewIdentity(rows: seq<Slot>, r: Slot)
    requires OneEach(rows + [r])
    ensures IdentityOf(r) !in Identities(rows)
  {
    var all := rows + [r];
    forall k | 0 <= k < |rows| ensures IdentityOf(rows[k]) != IdentityOf(r) {
      assert all[k] == rows[k] && all[|rows|] == r;
    }
  }

  lemma MoreIsUnplaceable(done: seq<Request>, all: seq<Request>, k: nat)
    requires k < |all| && !Placeable(done + all[..k] + [all[k]])
    ensures !Placeable(done + all)
  {
    NextRequest(done, all, k);
    if Placeable(done + all) {
      assert done + all == (done + all[..k + 1]) + all[k + 1..];
      PlaceablePrefix(done + all[..k + 1], all[k + 1..]);
    }
  }

  lemma {:induction false} PackRequestsPrefix(packs: seq<Pack>, k: nat) returns (rest: seq<Request>)
    requires k <= |packs|
    ensures PackRequests(packs) == PackRequests(packs[..k]) + rest
    decreases |packs|
  {
    if k == |packs| {
      assert packs[..k] == packs;
      rest := [];
    } else {
      var init := packs[..|packs| - 1];
      rest := PackRequestsPrefix(init, k);
      assert init[..k] == packs[..k];
      var last := PartRequests(packs[|packs| - 1].releaseId, packs[|packs| - 1].ownedParts);
      Assoc(PackRequests(packs[..k]), rest, last);
      rest := rest + last;
    }
  }

  predicate PackOk(p: Pack, rootId: string) {
    IsObjectId(p.releaseId) && p.releaseId != rootId && SafeText.IsHash(p.definitionCommitment)
  }

  /** Root Parts in menu order, then attached profiles, then the Parts of new Packs. */
  function AllRequests(rootId: string, parts: seq<PartDef>, profiles: seq<Profile>, packs: seq<Pack>): seq<Request> {
    PartRequests(rootId, Ordering.Sort(parts, MenuKey)) + ProfileRequests(profiles) + PackRequests(packs)
  }

  lemma AppendBuilds(rows: seq<Slot>, requests: seq<Request>, q: Request)
    requires LayoutOk(rows) && PlacesAll(rows, requests) && Fits(rows, q)
    ensures var r := Slot(q.sourceId, q.partKey, q.capacity, Total(rows));
      && LayoutOk(rows + [r]) && PlacesAll(rows + [r], requests + [q])
      && Total(rows + [r]) == Total(rows) + q.capacity && Identities(rows + [r]) == Identities(rows) + {(q.sourceId, q.partKey)}
  {
    var r := Slot(q.sourceId, q.partKey, q.capacity, Total(rows));
    LayoutSnoc(rows, q);
    IdentitiesSnoc(rows, r);
    TotalSnoc(rows, r);
    PlacesSnoc(rows, requests, r, q);
  }

  lemma NextRequest(done: seq<Request>, all: seq<Request>, k: nat)
    requires k < |all|
    ensures done + all[..k] + [all[k]] == done + all[..k + 1] && all[..|all|] == all
  {}

  lemma InOrder(rootId: string, parts: seq<PartDef>, profiles: seq<Profile>, packs: seq<Pack>)
    ensures [] + PartRequests(rootId, Ordering.Sort(parts, MenuKey)) + ProfileRequests(profiles) + PackRequests(packs)
         == AllRequests(rootId, parts, profiles, packs)
  {
    assert [] + PartRequests(rootId, Ordering.Sort(parts, MenuKey)) == PartRequests(rootId, Ordering.Sort(parts, MenuKey));
  }

  /** The map of sources to their positions. */
  ghost predicate Orders(order: map<string, nat>, bindings: seq<Binding>) {
    && |order| == |bindings|
    && forall id :: (id in order <==> Position(bindings, id) < |bindings|) && (id in order ==> order[id] == Position(bindings, id))
  }

  ghost predicate KeysOk(requests: seq<Request>) { forall k :: 0 <= k < |requests| ==> IsPartKey(requests[k].partKey) }

  /** The keys of the map are the attached sources and these Packs. */
  ghost predicate Attached(order: map<string, nat>, bindings: seq<Binding>, packs: seq<Pack>) {
    && |order| == |bindings| + |packs|
    && forall id :: id in order <==> Position(bindings, id) < |bindings| || Find(PackKey, packs, id) < |packs|
  }

  lemma PositionSnoc(init: seq<Binding>, x: Binding, id: string)
    ensures Position(init + [x], id) ==
              if Position(init, id) < |init| then Position(init, id) else if id == x.releaseId then |init| else |init| + 1
  {
    var at := if Position(init, id) < |init| then Position(init, id) else if id == x.releaseId then |init| else |init| + 1;
    FindIs(BindingKey, init + [x], id, at);
  }

  lemma OrdersSnoc(init: seq<Binding>, order: map<string, nat>, x: Binding)
    requires Orders(order, init) && x.releaseId !in order
    ensures Orders(order[x.releaseId := |init|], init + [x])
  {
    forall id ensures Position(init + [x], id) ==
                        if Position(init, id) < |init| then Position(init, id) else if id == x.releaseId then |init| else |init| + 1
    { PositionSnoc(init, x, id); }
  }

  lemma BindingsOkSnoc(rootId: string, bindings: seq<Binding>, order: map<string, nat>, k: nat)
    requires k < |bindings| && BindingsOk(rootId, bindings[..k]) && Orders(order, bindings[..k])
    ensures var x := bindings[k];
      if BindingOk(x, rootId) && x.releaseId !in order
      then BindingsOk(rootId, bindings[..k + 1]) && Orders(order[x.releaseId := k], bindings[..k + 1])
      else !BindingsOk(rootId, bindings)
  {
    var x, init := bindings[k], bindings[..k];
    assert bindings[..k + 1] == init + [x];
    if BindingOk(x, rootId) && x.releaseId !in order {
      DistinctAppend(BindingKey, init, x);
      OrdersSnoc(init, order, x);
    } else if x.releaseId in order {
      assert BindingKey(bindings[Position(init, x.releaseId)]) == BindingKey(bindings[k]);
    }
  }

  lemma ProfilesOkSnoc(bindings: seq<Binding>, profiles: seq<Profile>, k: nat)
    requires k < |profiles| && ProfilesOk(bindings, profiles[..k])
    ensures if ProfileOk(bindings, profiles, k) then ProfilesOk(bindings, profiles[..k + 1]) else !ProfilesOk(bindings, profiles)
  {
    if ProfileOk(bindings, profiles, k) {
      var next := profiles[..k + 1];
      forall j: nat | j < k + 1 ensures ProfileOk(bindings, next, j) {
        if j < k { assert ProfileOk(bindings, profiles[..k], j); }
      }
    }
  }

  lemma KeysOkSnoc(all: seq<Request>, k: nat)
    requires k < |all| && KeysOk(all[..k]) && IsPartKey(all[k].partKey)
    ensures KeysOk(all[..k + 1])
  {}

  lemma KeysOkConcat(a: seq<Request>, b: seq<Request>)
    requires KeysOk(a) && KeysOk(b)
    ensures KeysOk(a + b)
  {}

  lemma PacksOkSnoc(rootId: string, bindings: seq<Binding>, packs: seq<Pack>, k: nat)
    requires k < |packs| && PacksOk(rootId, bindings, packs[..k])
    ensures var p := packs[k];
      if PackOk(p, rootId) && Position(bindings, p.releaseId) == |bindings| && Find(PackKey, packs[..k], p.releaseId) == k && |bindings| + k < 500
      then PacksOk(rootId, bindings, packs[..k + 1])
      else !PacksOk(rootId, bindings, packs)
  {
    var p, init := packs[k], packs[..k];
    assert packs[..k + 1] == init + [p];
    if Find(PackKey, init, p.releaseId) == k {
      DistinctAppend(PackKey, init, p);
    } else {
      assert PackKey(packs[Find(PackKey, init, p.releaseId)]) == PackKey(packs[k]);
    }
  }

  lemma AttachedSnoc(order: map<string, nat>, bindings: seq<Binding>, packs: seq<Pack>, k: nat)
    requires k < |packs| && Attached(order, bindings, packs[..k]) && packs[k].releaseId !in order
    ensures Attached(order[packs[k].releaseId := |order|], bindings, packs[..k + 1])
  {
    var p, init := packs[k], packs[..k];
    assert packs[..k + 1] == init + [p];
    forall id ensures Find(PackKey, init + [p], id) < k + 1 <==> Find(PackKey, init, id) < k || id == p.releaseId {
      PackSnoc(init, p, id);
    }
  }

  lemma PackSnoc(init: seq<Pack>, p: Pack, id: string)
    ensures Find(PackKey, init + [p], id) <= |init| <==> Find(PackKey, init, id) < |init| || id == p.releaseId
  {
    var k := |init|;
    FindIs(PackKey, init + [p], id, if Find(PackKey, init, id) < k then Find(PackKey, init, id) else if id == p.releaseId then k else k + 1);
  }

  lemma PackStep(done: seq<Request>, packs: seq<Pack>, k: nat)
    requires k < |packs| && KeysOk(PackRequests(packs[..k])) && KeysOk(PartRequests(packs[k].releaseId, packs[k].ownedParts))
    ensures done + PackRequests(packs[..k]) + PartRequests(packs[k].releaseId, packs[k].ownedParts) == done + PackRequests(packs[..k + 1])
    ensures KeysOk(PackRequests(packs[..k + 1]))
  {
    PackRequestsSnoc(packs, k);
    Assoc(done, PackRequests(packs[..k]), PartRequests(packs[k].releaseId, packs[k].ownedParts));
    KeysOkConcat(PackRequests(packs[..k]), PartRequests(packs[k].releaseId, packs[k].ownedParts));
  }

  lemma PackIsUnplaceable(done: seq<Request>, packs: seq<Pack>, k: nat)
    requires k < |packs|
    requires !Placeable(done + PackRequests(packs[..k]) + PartRequests(packs[k].releaseId, packs[k].ownedParts))
    ensures !Placeable(done + PackRequests(packs))
  {
    PackRequestsSnoc(packs, k);
    var upTo := PackRequests(packs[..k + 1]);
    Assoc(done, PackRequests(packs[..k]), PartRequests(packs[k].releaseId, packs[k].ownedParts));
    var rest := PackRequestsPrefix(packs, k + 1);
    Assoc(done, upTo, rest);
    if Placeable(done + PackRequests(packs)) { PlaceablePrefix(done + upTo, rest); }
  }

  /** Where the loop over the new Packs stands after k of them. */
  ghost predicate PacksDone(rootId: string, bindings: seq<Binding>, packs: seq<Pack>, k: nat, order: map<string, nat>,
    before: seq<Request>, now: seq<Request>)
    requires k <= |packs|
  {
    && now == before + PackRequests(packs[..k]) && KeysOk(PackRequests(packs[..k]))
    && Attached(order, bindings, packs[..k]) && PacksOk(rootId, bindings, packs[..k])
  }

  lemma PacksDoneStep(rootId: string, bindings: seq<Binding>, packs: seq<Pack>, k: nat, order: map<string, nat>,
    before: seq<Request>, now: seq<Request>)
    requires k < |packs| && PacksDone(rootId, bindings, packs, k, order, before, now)
    ensures var p := packs[k]; var requests := PartRequests(p.releaseId, p.ownedParts);
      if PackOk(p, rootId) && p.releaseId !in order && |order| < 500
      then KeysOk(requests) ==> PacksDone(rootId, bindings, packs, k + 1, order[p.releaseId := |order|], before, now + requests)
      else !PacksOk(rootId, bindings, packs)
  {
    var p := packs[k];
    PacksOkSnoc(rootId, bindings, packs, k);
    if PackOk(p, rootId) && p.releaseId !in order && |order| < 500 && KeysOk(PartRequests(p.releaseId, p.ownedParts)) {
      AttachedSnoc(order, bindings, packs, k);
      PackStep(before, packs, k);
    }
  }

  class Builder {
    var rows: seq<Slot>
    var seen: set<Identity>
    var nextSlot: int
    ghost var requests: seq<Request>

    ghost predicate Valid()
      reads this
    {
      && LayoutOk(rows) && PlacesAll(rows, requests) && nextSlot == Total(rows)
      && seen == Identities(rows)
    }

    constructor ()
      ensures Valid() && requests == []
    {
      rows, seen, nextSlot, requests := [], {}, 0, [];
    }

    method Append(sourceId: string, partKey: string, capacity: int) returns (ok: bool)
      requires Valid()
      modifies this
      ensures Valid()
      ensures ok == Fits(old(rows), Request(sourceId, partKey, capacity))
      ensures requests == if ok then old(requests) + [Request(sourceId, partKey, capacity)] else old(requests)
      ensures ok ==> IsPartKey(partKey)
      ensures !ok ==> !Placeable(old(requests) + [Request(sourceId, partKey, capacity)])
    {
      ok := IsPartKey(partKey) && (sourceId, partKey) !in seen && 1 <= capacity <= 64 && nextSlot + capacity <= MAX_SLOTS;
      if !ok {
        RefusedIsUnplaceable(rows, requests, Request(sourceId, partKey, capacity));
      } else {
        Place(Request(sourceId, partKey, capacity));
      }
    }

    method Place(q: Request)
      requires Valid() && Fits(rows, q)
      modifies this
      ensures Valid() && requests == old(requests) + [q]
    {
      AppendBuilds(rows, requests, q);
      seen := seen + {(q.sourceId, q.partKey)};
      rows := rows + [Slot(q.sourceId, q.partKey, q.capacity, nextSlot)];
      nextSlot := nextSlot + q.capacity;
      requests := requests + [q];
    }

    /** Appends each part of a source in turn. */
    method AppendParts(sourceId: string, parts: seq<PartDef>) returns (ok: bool)
      requires Valid()
      modifies this
      ensures Valid()
      ensures ok ==> requests == old(requests) + PartRequests(sourceId, parts) && KeysOk(PartRequests(sourceId, parts))
      ensures !ok ==> !Placeable(old(requests) + PartRequests(sourceId, parts))
    {
      ghost var all := PartRequests(sourceId, parts);
      for k := 0 to |parts|
        invariant Valid() && requests == old(requests) + all[..k] && KeysOk(all[..k])
      {
        NextRequest(old(requests), all, k);
        ok := Append(sourceId, parts[k].key, parts[k].capacity);
        if !ok {
          MoreIsUnplaceable(old(requests), all, k);
          return;
        }
        KeysOkSnoc(all, k);
      }
      assert all[..|all|] == all;
      ok := true;
    }

    /** One profile: attached, not before the one before it, and with room. */
    method AppendProfile(p: Profile, prior: int, order: map<string, nat>) returns (known: bool, ok: bool)
      requires Valid()
      modifies this
      ensures Valid()
      ensures known <==> p.releaseId in order && prior <= order[p.releaseId] && SafeText.IsHash(p.profileCommitment) && p.capacity >= 1
      ensures ok ==> known && requests == old(requests) + [Request(p.releaseId, p.partKey, p.capacity)] && IsPartKey(p.partKey)
      ensures known && !ok ==> !Placeable(old(requests) + [Request(p.releaseId, p.partKey, p.capacity)])
    {
      known := p.releaseId in order && prior <= order[p.releaseId] && SafeText.IsHash(p.profileCommitment) && p.capacity >= 1;
      ok := false;
      if known { ok := Append(p.releaseId, p.partKey, p.capacity); }
    }

    /** Profiles keep the order of their bindings. */
    method AppendProfiles(profiles: seq<Profile>, order: map<string, nat>, ghost bindings: seq<Binding>) returns (ok: bool)
      requires Valid() && Orders(order, bindings)
      modifies this
      ensures Valid()
      ensures ok ==> requests == old(requests) + ProfileRequests(profiles) && KeysOk(ProfileRequests(profiles)) && ProfilesOk(bindings, profiles)
      ensures !ok ==> !ProfilesOk(bindings, profiles) || !Placeable(old(requests) + ProfileRequests(profiles))
    {
      ghost var all := ProfileRequests(profiles);
      var prior: int := -1;
      for k := 0 to |profiles|
        invariant Valid() && requests == old(requests) + all[..k]
        invariant prior == if k == 0 then -1 else Position(bindings, profiles[k - 1].releaseId)
        invariant KeysOk(all[..k]) && ProfilesOk(bindings, profiles[..k])
      {
        ProfilesOkSnoc(bindings, profiles, k);
        NextRequest(old(requests), all, k);
        var known;
        known, ok := AppendProfile(profiles[k], prior, order);
        if !ok {
          if known { MoreIsUnplaceable(old(requests), all, k); }
          return;
        }
        KeysOkSnoc(all, k);
        prior := order[profiles[k].releaseId];
      }
      assert profiles[..|profiles|] == profiles && all[..|all|] == all;
      ok := true;
    }

    /** One new Pack, not attached yet, with all its Parts. */
    method AppendPack(rootId: string, p: Pack, order: map<string, nat>) returns (known: bool, ok: bool)
      requires Valid()
      modifies this
      ensures Valid()
      ensures known <==> PackOk(p, rootId) && p.releaseId !in order && |order| < 500
      ensures ok ==> known && requests == old(requests) + PartRequests(p.releaseId, p.ownedParts) && KeysOk(PartRequests(p.releaseId, p.ownedParts))
      ensures known && !ok ==> !Placeable(old(requests) + PartRequests(p.releaseId, p.ownedParts))
    {
      known := PackOk(p, rootId) && p.releaseId !in order && |order| < 500;
      ok := false;
      if known { ok := AppendParts(p.releaseId, p.ownedParts); }
    }

    /** New Packs come after everything attached. */
    method AppendPacks(rootId: string, packs: seq<Pack>, attached: map<string, nat>, ghost bindings: seq<Binding>) returns (ok: bool)
      requires Valid() && Orders(attached, bindings) && |bindings| <= 500
      modifies this
      ensures Valid()
      ensures ok ==> requests == old(requests) + PackRequests(packs) && KeysOk(PackRequests(packs)) && PacksOk(rootId, bindings, packs)
      ensures !ok ==> !PacksOk(rootId, bindings, packs) || !Placeable(old(requests) + PackRequests(packs))
    {
      var order: map<string, nat> := attached;
      for k := 0 to |packs|
        invariant Valid() && PacksDone(rootId, bindings, packs, k, order, old(requests), requests)
      {
        PacksDoneStep(rootId, bindings, packs, k, order, old(requests), requests);
        var known;
        known, ok := AppendPack(rootId, packs[k], order);
        if !ok {
          if known { PackIsUnplaceable(old(requests), packs, k); }
          return;
        }
        order := order[packs[k].releaseId := |order|];
      }
      assert packs[..|packs|] == packs;
      ok := true;
    }
  }

  /** The position of each attached Pack; None for a malformed or repeated binding. */
  method OrderBindings(rootId: string, bindings: seq<Binding>) returns (r: Option<map<string, nat>>)
    ensures r.Some? <==> BindingsOk(rootId, bindings)
    ensures r.Some? ==> Orders(r.value, bindings)
  {
    var order: map<string, nat> := map[];
    for k := 0 to |bindings|
      invariant BindingsOk(rootId, bindings[..k]) && Orders(order, bindings[..k])
    {
      var x := bindings[k];
      BindingsOkSnoc(rootId, bindings, order, k);
      if !BindingOk(x, rootId) || x.releaseId in order { return None; }
      order := order[x.releaseId := k];
    }
    assert bindings[..|bindings|] == bindings;
    return Some(order);
  }

  lemma PlaceableParts(own: seq<Request>, profiles: seq<Request>, packs: seq<Request>)
    requires Placeable(own + profiles + packs)
    ensures Placeable([] + own) && Placeable([] + own + profiles)
  {
    assert [] + own == own;
    PlaceablePrefix(own + profiles, packs);
    PlaceablePrefix(own, profiles);
  }

  /** A layout is built exactly from the inputs that allow one; what is built places every request, in order, each in slots of its own. */
  method BuildLayout(rootId: string, parts: seq<PartDef>, bindings: seq<Binding>, profiles: seq<Profile>, packs: seq<Pack>)
    returns (r: Option<seq<Slot>>)
    ensures r.Some? <==> Buildable(rootId, parts, bindings, profiles, packs)
    ensures r.Some? ==> LayoutOk(r.value) && PlacesAll(r.value, AllRequests(rootId, parts, profiles, packs))
  {
    if !IsObjectId(rootId) || |bindings| > 500 { return None; }
    var b := new Builder();
    InOrder(rootId, parts, profiles, packs);
    ghost var own := PartRequests(rootId, Ordering.Sort(parts, MenuKey));
    ghost var all := AllRequests(rootId, parts, profiles, packs);
    if Placeable(all) { PlaceableParts(own, ProfileRequests(profiles), PackRequests(packs)); }
    var ok := b.AppendParts(rootId, Ordering.Sort(parts, MenuKey));
    if !ok { return None; }
    var order := OrderBindings(rootId, bindings);
    if order.None? { return None; }
    ok := b.AppendProfiles(profiles, order.value, bindings);
    if !ok { return None; }
    ok := b.AppendPacks(rootId, packs, order.value, bindings);
    if !ok { return None; }
    assert PlacesAll(b.rows, all) && KeysOk(all);
    return Some(b.rows);
  }
}
