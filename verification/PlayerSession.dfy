/**
 * The decisions of exactRecipeLoadoutAuthority and exactSession in maker-player-v8-view.js that tie a Player's loadout
 * to its recipe: a position-by-position check of the loadout, and a comparison of key counts.
 */
module PlayerSession {
  import opened Results
  import opened SlotLayout

  /** A field's value: null or text; the other fields of a selection are not compared. */
  datatype Val = Null | Text(text: string)

  /** The fields a selection owns. */
  type Selection = map<string, Val>

  const FIELDS: seq<string> := ["source", "partKey", "itemKey", "styleKey", "trackKey", "colorChannelKey", "defaultSwatchKey",
    "releaseId", "semanticPackId", "externalProductId", "ownedExternalItemId"]

  datatype LoadoutSelection = LoadoutSelection(binding: Selection, selectionIndex: int, swatchKey: Val)

  predicate SameField(a: Selection, b: Selection, field: string) { field in a && field in b && a[field] == b[field] }

  /** sameSelectionBinding */
  predicate SameBinding(a: Selection, b: Selection) { forall k :: 0 <= k < |FIELDS| ==> SameField(a, b, FIELDS[k]) }

  function FieldText(s: Selection, field: string): string {
    field + (if field !in s then "=!missing" else if s[field].Null? then "=!null" else "=" + s[field].text)
  }

  function KeyFrom(s: Selection, fields: seq<string>): string {
    if fields == [] then "" else if |fields| == 1 then FieldText(s, fields[0]) else FieldText(s, fields[0]) + "\0" + KeyFrom(s, fields[1..])
  }

  /** selectionKey */
  function SelectionKey(s: Selection): string { KeyFrom(s, FIELDS) }

  // ---- the recipe's layout ----------------------------------------------------------------------------

  /** scopeKey and slot: None is their thrown error. */
  datatype Layout = Layout(rows: seq<Slot>, scope: Selection -> Option<Identity>)

  function RowIndex(rows: seq<Slot>, id: Identity): (k: nat)
    ensures k <= |rows| && (k < |rows| ==> IdentityOf(rows[k]) == id)
    ensures k == |rows| ==> forall j :: 0 <= j < |rows| ==> IdentityOf(rows[j]) != id
  {
    if rows == [] || IdentityOf(rows[0]) == id then 0 else 1 + RowIndex(rows[1..], id)
  }

  function RowOf(layout: Layout, s: Selection): Option<nat> {
    var id := layout.scope(s);
    if id.None? || RowIndex(layout.rows, id.value) == |layout.rows| then None else Some(RowIndex(layout.rows, id.value))
  }

  /** How many of the first k selections share a row. */
  function Earlier(layout: Layout, recipe: seq<Selection>, k: nat, row: nat): nat
    requires k <= |recipe|
  {
    if k == 0 then 0 else Earlier(layout, recipe, k - 1, row) + (if RowOf(layout, recipe[k - 1]) == Some(row) then 1 else 0)
  }

  /** What the loop asks of position k. */
  predicate PositionOk(layout: Layout, swatch: Selection -> Val, recipe: seq<Selection>, loadout: seq<LoadoutSelection>, k: nat)
    requires k < |loadout|
  {
    k < |recipe| && SameBinding(loadout[k].binding, recipe[k]) &&
    var row := RowOf(layout, recipe[k]);
    row.Some? &&
    var slot := layout.rows[row.value];
    && Earlier(layout, recipe, k, row.value) < slot.capacity
    && loadout[k].selectionIndex == slot.start + Earlier(layout, recipe, k, row.value)
    && loadout[k].swatchKey == swatch(recipe[k])
    && NotBefore(layout, recipe, k, row.value)
  }

  /** Slots are taken in the order of the layout. */
  predicate NotBefore(layout: Layout, recipe: seq<Selection>, k: nat, row: nat)
    requires k < |recipe| && row < |layout.rows|
  {
    0 <= layout.rows[row].start &&
    (k > 0 ==> RowOf(layout, recipe[k - 1]).Some? && layout.rows[RowOf(layout, recipe[k - 1]).value].start <= layout.rows[row].start)
  }

  ghost predicate LoadoutOk(layout: Layout, swatch: Selection -> Val, recipe: seq<Selection>, loadout: seq<LoadoutSelection>, n: nat)
    requires n <= |loadout|
  {
    forall k: nat {:trigger PositionOk(layout, swatch, recipe, loadout, k)} :: k < n ==> PositionOk(layout, swatch, recipe, loadout, k)
  }

  function Bindings(loadout: seq<LoadoutSelection>): (r: seq<Selection>)
    ensures |r| == |loadout| && forall k :: 0 <= k < |r| ==> r[k] == loadout[k].binding
  { seq(|loadout|, k requires 0 <= k < |loadout| => loadout[k].binding) }

  function KeysOf(s: seq<Selection>): (r: seq<string>)
    ensures |r| == |s| && forall k :: 0 <= k < |s| ==> r[k] == SelectionKey(s[k])
  { seq(|s|, k requires 0 <= k < |s| => SelectionKey(s[k])) }

  // ---- the two loops ----------------------------------------------------------------------------------

  ghost predicate OffsetsOk(layout: Layout, recipe: seq<Selection>, k: nat, offsets: map<Identity, nat>)
    requires k <= |recipe|
  {
    forall row: nat {:trigger Earlier(layout, recipe, k, row)} :: row < |layout.rows| ==>
      (if IdentityOf(layout.rows[row]) in offsets then offsets[IdentityOf(layout.rows[row])] else 0) == Earlier(layout, recipe, k, row)
  }

  lemma RowsDiffer(layout: Layout, i: nat, j: nat)
    requires OneEach(layout.rows) && i < |layout.rows| && j < |layout.rows| && i != j
    ensures IdentityOf(layout.rows[i]) != IdentityOf(layout.rows[j])
  {}

  lemma OffsetsStep(layout: Layout, recipe: seq<Selection>, k: nat, row: nat, offsets: map<Identity, nat>)
    requires OneEach(layout.rows) && k < |recipe| && RowOf(layout, recipe[k]) == Some(row) && OffsetsOk(layout, recipe, k, offsets)
    ensures OffsetsOk(layout, recipe, k + 1, offsets[IdentityOf(layout.rows[row]) := Earlier(layout, recipe, k, row) + 1])
  {
    var next := offsets[IdentityOf(layout.rows[row]) := Earlier(layout, recipe, k, row) + 1];
    forall r: nat | r < |layout.rows|
      ensures (if IdentityOf(layout.rows[r]) in next then next[IdentityOf(layout.rows[r])] else 0) == Earlier(layout, recipe, k + 1, r)
    {
      assert Earlier(layout, recipe, k, r) >= 0;
      if r != row { RowsDiffer(layout, r, row); }
    }
  }

  /** The start of the Part before, or -1. */
  ghost predicate PriorOk(layout: Layout, recipe: seq<Selection>, k: nat, prior: int)
    requires k <= |recipe|
  {
    if k == 0 then prior == -1
    else RowOf(layout, recipe[k - 1]).Some? && prior == layout.rows[RowOf(layout, recipe[k - 1]).value].start
  }

  /** One iteration: the new start and offsets, when the position is right. */
  method TakePosition(layout: Layout, swatch: Selection -> Val, recipe: seq<Selection>, loadout: seq<LoadoutSelection>, k: nat,
                      offsets: map<Identity, nat>, prior: int) returns (r: Option<(int, map<Identity, nat>)>)
    requires LayoutOk(layout.rows) && k < |loadout| && k <= |recipe|
    requires OffsetsOk(layout, recipe, k, offsets) && PriorOk(layout, recipe, k, prior)
    ensures r.Some? <==> PositionOk(layout, swatch, recipe, loadout, k)
    ensures r.Some? ==> PriorOk(layout, recipe, k + 1, r.value.0) && OffsetsOk(layout, recipe, k + 1, r.value.1)
  {
    if k >= |recipe| || !SameBinding(loadout[k].binding, recipe[k]) { return None; }
    var row := RowOf(layout, recipe[k]);
    if row.None? { return None; }
    var slot := layout.rows[row.value];
    var offset := if IdentityOf(slot) in offsets then offsets[IdentityOf(slot)] else 0;
    assert offset == Earlier(layout, recipe, k, row.value);
    if offset >= slot.capacity || slot.start < prior || slot.start < 0 || loadout[k].selectionIndex != slot.start + offset
       || loadout[k].swatchKey != swatch(recipe[k])
    {
      return None;
    }
    OffsetsStep(layout, recipe, k, row.value, offsets);
    return Some((slot.start, offsets[IdentityOf(slot) := offset + 1]));
  }

  /** The loop over the loadout, with its per-Part offsets and the order of the Part before. */
  method CheckLoadout(layout: Layout, swatch: Selection -> Val, recipe: seq<Selection>, loadout: seq<LoadoutSelection>) returns (ok: bool)
    requires LayoutOk(layout.rows)
    ensures ok <==> LoadoutOk(layout, swatch, recipe, loadout, |loadout|)
  {
    var offsets: map<Identity, nat> := map[];
    var prior: int := -1;
    for k := 0 to |loadout|
      invariant k <= |recipe| && LoadoutOk(layout, swatch, recipe, loadout, k)
      invariant OffsetsOk(layout, recipe, k, offsets)
      invariant PriorOk(layout, recipe, k, prior)
    {
      var taken := TakePosition(layout, swatch, recipe, loadout, k, offsets, prior);
      if taken.None? { return false; }
      prior, offsets := taken.value.0, taken.value.1;
    }
    return true;
  }

  /** m counts the keys of a list. */
  ghost predicate Counts(m: map<string, nat>, keys: seq<string>) {
    forall k :: (k in m <==> k in multiset(keys)) && (k in m ==> m[k] == multiset(keys)[k])
  }

  lemma CountsSnoc(m: map<string, nat>, keys: seq<string>, key: string)
    requires Counts(m, keys)
    ensures Counts(m[key := (if key in m then m[key] else 0) + 1], keys + [key])
  {}

  method CountKeys(keys: seq<string>) returns (m: map<string, nat>)
    ensures Counts(m, keys)
  {
    m := map[];
    for i := 0 to |keys|
      invariant Counts(m, keys[..i])
    {
      assert keys[..i + 1] == keys[..i] + [keys[i]];
      CountsSnoc(m, keys[..i], keys[i]);
      m := m[keys[i] := (if keys[i] in m then m[keys[i]] else 0) + 1];
    }
    assert keys[..|keys|] == keys;
  }

  lemma SameKeys(m: map<string, nat>, n: map<string, nat>)
    requires |m| == |n| && forall k :: k in m ==> k in n && n[k] == m[k]
    ensures m == n
  {
    assert m.Keys <= n.Keys;
    if exists k :: k in n && k !in m {
      var k :| k in n && k !in m;
      Smaller(m.Keys, n.Keys - {k});
      assert false;
    }
  }

  lemma {:induction false} Smaller(a: set<string>, b: set<string>)
    requires a <= b
    ensures |a| <= |b|
    decreases |a|
  {
    if x :| x in a { Smaller(a - {x}, b - {x}); }
  }

  /** The comparison of key counts: it sees how often each key occurs, and nothing of order. */
  method SameCounts(recipe: seq<Selection>, loadout: seq<Selection>) returns (ok: bool)
    ensures ok <==> multiset(KeysOf(recipe)) == multiset(KeysOf(loadout))
  {
    var a := CountKeys(KeysOf(recipe));
    var b := CountKeys(KeysOf(loadout));
    if multiset(KeysOf(recipe)) == multiset(KeysOf(loadout)) { SameCountsSameMap(a, b, KeysOf(recipe), KeysOf(loadout)); }
    ok := |a| == |b| && forall k :: k in a ==> k in b && b[k] == a[k];
    if ok {
      SameKeys(a, b);
      forall k ensures multiset(KeysOf(recipe))[k] == multiset(KeysOf(loadout))[k] {
        assert (k in a <==> k in multiset(KeysOf(recipe))) && (k in b <==> k in multiset(KeysOf(loadout)));
      }
    }
  }

  lemma SameCountsSameMap(a: map<string, nat>, b: map<string, nat>, x: seq<string>, y: seq<string>)
    requires Counts(a, x) && Counts(b, y) && multiset(x) == multiset(y)
    ensures a == b
  {
    assert forall k :: (k in a <==> k in b) && (k in a ==> a[k] == b[k]);
  }

  /** exactSession's acceptance, for these two checks. */
  method AcceptSession(layout: Layout, swatch: Selection -> Val, recipe: seq<Selection>, loadout: seq<LoadoutSelection>) returns (ok: bool)
    requires LayoutOk(layout.rows)
    ensures ok <==> Accepted(layout, swatch, recipe, loadout)
  {
    ok := CheckLoadout(layout, swatch, recipe, loadout);
    if ok { ok := SameCounts(recipe, Bindings(loadout)); }
  }

  ghost predicate Accepted(layout: Layout, swatch: Selection -> Val, recipe: seq<Selection>, loadout: seq<LoadoutSelection>) {
    LoadoutOk(layout, swatch, recipe, loadout, |loadout|) && multiset(KeysOf(recipe)) == multiset(KeysOf(Bindings(loadout)))
  }

  // ---- what acceptance means --------------------------------------------------------------------------

  /**
   * The first check proves the loadout a prefix, the second only counts keys that may collide; together they prove
   * recipe and loadout equal in length and alike at every position.
   */
  lemma AcceptedIsSame(layout: Layout, swatch: Selection -> Val, recipe: seq<Selection>, loadout: seq<LoadoutSelection>)
    requires Accepted(layout, swatch, recipe, loadout)
    ensures |recipe| == |loadout| && forall k :: 0 <= k < |recipe| ==> SameBinding(loadout[k].binding, recipe[k])
  {
    assert |KeysOf(recipe)| == |multiset(KeysOf(recipe))| == |KeysOf(Bindings(loadout))|;
    forall k: nat | k < |recipe| ensures SameBinding(loadout[k].binding, recipe[k]) {
      assert PositionOk(layout, swatch, recipe, loadout, k);
    }
  }

  predicate InSlot(s: Slot, index: int) { s.start <= index < s.start + s.capacity }

  /** Each selection lies in the slots of its own Part. */
  lemma IndexInOwnSlot(layout: Layout, swatch: Selection -> Val, recipe: seq<Selection>, loadout: seq<LoadoutSelection>, k: nat)
    requires LoadoutOk(layout, swatch, recipe, loadout, |loadout|) && k < |loadout|
    ensures k < |recipe| && RowOf(layout, recipe[k]).Some?
    ensures InSlot(layout.rows[RowOf(layout, recipe[k]).value], loadout[k].selectionIndex)
  {
    assert PositionOk(layout, swatch, recipe, loadout, k);
  }

  /** Indices only grow: within a Part one by one, and from a Part to a later one past all its slots. */
  lemma NextIndexGrows(layout: Layout, swatch: Selection -> Val, recipe: seq<Selection>, loadout: seq<LoadoutSelection>, k: nat)
    requires LayoutOk(layout.rows) && LoadoutOk(layout, swatch, recipe, loadout, |loadout|) && k + 1 < |loadout|
    ensures loadout[k].selectionIndex < loadout[k + 1].selectionIndex
  {
    assert PositionOk(layout, swatch, recipe, loadout, k) && PositionOk(layout, swatch, recipe, loadout, k + 1);
    var i, j := RowOf(layout, recipe[k]).value, RowOf(layout, recipe[k + 1]).value;
    if i < j { RowsApart(layout.rows, i, j); }
    if j < i { RowsApart(layout.rows, j, i); }
  }

  lemma {:induction false} IndicesIncrease(layout: Layout, swatch: Selection -> Val, recipe: seq<Selection>, loadout: seq<LoadoutSelection>, i: nat, j: nat)
    requires LayoutOk(layout.rows) && LoadoutOk(layout, swatch, recipe, loadout, |loadout|) && i < j < |loadout|
    ensures loadout[i].selectionIndex < loadout[j].selectionIndex
    decreases j - i
  {
    NextIndexGrows(layout, swatch, recipe, loadout, j - 1);
    if i < j - 1 { IndicesIncrease(layout, swatch, recipe, loadout, i, j - 1); }
  }

  /** Counting keys alone would not do: two different selections can have one key. */
  lemma KeysCollide(s: Selection)
    ensures SelectionKey(s["releaseId" := Null]) == SelectionKey(s["releaseId" := Text("!null")])
    ensures !SameBinding(s["releaseId" := Null], s["releaseId" := Text("!null")])
  {
    SameKeyFrom(s, FIELDS);
    assert FIELDS[7] == "releaseId";
    assert !SameField(s["releaseId" := Null], s["releaseId" := Text("!null")], FIELDS[7]);
  }

  lemma {:induction false} SameKeyFrom(s: Selection, fields: seq<string>)
    ensures KeyFrom(s["releaseId" := Null], fields) == KeyFrom(s["releaseId" := Text("!null")], fields)
  {
    if fields != [] {
      SameFieldText(s, fields[0]);
      SameKeyFrom(s, fields[1..]);
    }
  }

  lemma SameFieldText(s: Selection, field: string)
    ensures FieldText(s["releaseId" := Null], field) == FieldText(s["releaseId" := Text("!null")], field)
  {
    assert "=" + "!null" == "=!null";
  }

  // ---- acceptance, told by the lists alone ------------------------------------------------------------

  /** Both own every field of a binding, with the same values. */
  ghost predicate Alike(a: Selection, b: Selection) { forall f :: f in FIELDS ==> SameField(a, b, f) }

  lemma AlikeExactly(a: Selection, b: Selection)
    ensures SameBinding(a, b) <==> Alike(a, b)
  {
    if SameBinding(a, b) {
      forall f | f in FIELDS ensures SameField(a, b, f) {
        var k :| 0 <= k < |FIELDS| && FIELDS[k] == f;
        assert SameField(a, b, FIELDS[k]);
      }
    }
  }

  /** The selections before k for the same Part. */
  ghost function Siblings(layout: Layout, recipe: seq<Selection>, k: nat, id: Option<Identity>): set<nat>
    requires k <= |recipe|
  { set j: nat | j < k && layout.scope(recipe[j]) == id }

  lemma SiblingsStep(layout: Layout, recipe: seq<Selection>, k: nat, id: Option<Identity>)
    requires k < |recipe|
    ensures |Siblings(layout, recipe, k + 1, id)| == |Siblings(layout, recipe, k, id)| + if layout.scope(recipe[k]) == id then 1 else 0
  {
    var before := Siblings(layout, recipe, k, id);
    assert Siblings(layout, recipe, k + 1, id) == before + if layout.scope(recipe[k]) == id then {k} else {};
  }

  lemma {:induction false} EarlierCounts(layout: Layout, recipe: seq<Selection>, k: nat, row: nat)
    requires OneEach(layout.rows) && k <= |recipe| && row < |layout.rows|
    ensures Earlier(layout, recipe, k, row) == |Siblings(layout, recipe, k, Some(IdentityOf(layout.rows[row])))|
  {
    if k > 0 {
      EarlierCounts(layout, recipe, k - 1, row);
      SiblingsStep(layout, recipe, k - 1, Some(IdentityOf(layout.rows[row])));
      RowIsScope(layout, recipe[k - 1], row);
    }
  }

  lemma RowIsScope(layout: Layout, s: Selection, row: nat)
    requires OneEach(layout.rows) && row < |layout.rows|
    ensures RowOf(layout, s) == Some(row) <==> layout.scope(s) == Some(IdentityOf(layout.rows[row]))
  {
    var id := layout.scope(s);
    if id == Some(IdentityOf(layout.rows[row])) && RowIndex(layout.rows, id.value) != row {
      RowsDiffer(layout, RowIndex(layout.rows, id.value), row);
    }
  }

  /** The Part of selection k has this row. */
  predicate RowFor(layout: Layout, recipe: seq<Selection>, k: nat, row: nat)
    requires k < |recipe|
  { row < |layout.rows| && layout.scope(recipe[k]) == Some(IdentityOf(layout.rows[row])) }

  /** Position k repeats the recipe's binding and color, in the slot that follows those its Part already took. */
  ghost predicate Follows(layout: Layout, swatch: Selection -> Val, recipe: seq<Selection>, loadout: seq<LoadoutSelection>, k: nat, row: nat)
    requires k < |recipe| == |loadout|
  {
    && RowFor(layout, recipe, k, row)
    && Alike(loadout[k].binding, recipe[k]) && loadout[k].swatchKey == swatch(recipe[k])
    && loadout[k].selectionIndex == layout.rows[row].start + |Siblings(layout, recipe, k, layout.scope(recipe[k]))|
    && InSlot(layout.rows[row], loadout[k].selectionIndex)
  }

  ghost predicate InPlace(layout: Layout, swatch: Selection -> Val, recipe: seq<Selection>, loadout: seq<LoadoutSelection>, k: nat)
    requires k < |recipe| == |loadout|
  { exists row: nat :: Follows(layout, swatch, recipe, loadout, k, row) }

  /** No Part comes after one whose slots are later. */
  ghost predicate PartsInOrder(layout: Layout, recipe: seq<Selection>) {
    forall i: nat, j: nat, x: nat, y: nat {:trigger RowFor(layout, recipe, i, x), RowFor(layout, recipe, j, y)} ::
      i < j < |recipe| && RowFor(layout, recipe, i, x) && RowFor(layout, recipe, j, y) ==> layout.rows[x].start <= layout.rows[y].start
  }

  ghost predicate FollowsAll(layout: Layout, swatch: Selection -> Val, recipe: seq<Selection>, loadout: seq<LoadoutSelection>) {
    && |recipe| == |loadout| && PartsInOrder(layout, recipe)
    && forall k: nat :: k < |recipe| ==> InPlace(layout, swatch, recipe, loadout, k)
  }

  lemma PositionExactly(layout: Layout, swatch: Selection -> Val, recipe: seq<Selection>, loadout: seq<LoadoutSelection>, k: nat, row: nat)
    requires LayoutOk(layout.rows) && k < |recipe| == |loadout| && RowOf(layout, recipe[k]) == Some(row)
    ensures PositionOk(layout, swatch, recipe, loadout, k) <==>
              Follows(layout, swatch, recipe, loadout, k, row) && NotBefore(layout, recipe, k, row)
  {
    AlikeExactly(loadout[k].binding, recipe[k]);
    EarlierCounts(layout, recipe, k, row);
    RowIsScope(layout, recipe[k], row);
  }

  lemma {:induction false} StartsGrow(layout: Layout, swatch: Selection -> Val, recipe: seq<Selection>, loadout: seq<LoadoutSelection>, i: nat, j: nat)
    requires LoadoutOk(layout, swatch, recipe, loadout, |loadout|) && i <= j < |loadout|
    ensures j < |recipe| && RowOf(layout, recipe[i]).Some? && RowOf(layout, recipe[j]).Some?
    ensures layout.rows[RowOf(layout, recipe[i]).value].start <= layout.rows[RowOf(layout, recipe[j]).value].start
    decreases j - i
  {
    assert PositionOk(layout, swatch, recipe, loadout, j);
    if i < j { StartsGrow(layout, swatch, recipe, loadout, i, j - 1); }
  }

  /** A session is accepted exactly when its loadout is the one the recipe and the layout determine: the count of keys
      then asks no more than that the lists are equally long. */
  lemma AcceptedExactly(layout: Layout, swatch: Selection -> Val, recipe: seq<Selection>, loadout: seq<LoadoutSelection>)
    requires LayoutOk(layout.rows)
    ensures Accepted(layout, swatch, recipe, loadout) <==> FollowsAll(layout, swatch, recipe, loadout)
  {
    if Accepted(layout, swatch, recipe, loadout) { AcceptedFollows(layout, swatch, recipe, loadout); }
    if FollowsAll(layout, swatch, recipe, loadout) { FollowingIsAccepted(layout, swatch, recipe, loadout); }
  }

  lemma AcceptedFollows(layout: Layout, swatch: Selection -> Val, recipe: seq<Selection>, loadout: seq<LoadoutSelection>)
    requires LayoutOk(layout.rows) && Accepted(layout, swatch, recipe, loadout)
    ensures FollowsAll(layout, swatch, recipe, loadout)
  {
    AcceptedIsSame(layout, swatch, recipe, loadout);
    forall k: nat | k < |recipe| ensures InPlace(layout, swatch, recipe, loadout, k) {
      assert PositionOk(layout, swatch, recipe, loadout, k);
      PositionExactly(layout, swatch, recipe, loadout, k, RowOf(layout, recipe[k]).value);
    }
    forall i: nat, j: nat, x: nat, y: nat | i < j < |recipe| && RowFor(layout, recipe, i, x) && RowFor(layout, recipe, j, y)
      ensures layout.rows[x].start <= layout.rows[y].start
    {
      RowIsScope(layout, recipe[i], x);
      RowIsScope(layout, recipe[j], y);
      StartsGrow(layout, swatch, recipe, loadout, i, j);
    }
  }

  lemma FollowingIsAccepted(layout: Layout, swatch: Selection -> Val, recipe: seq<Selection>, loadout: seq<LoadoutSelection>)
    requires LayoutOk(layout.rows) && FollowsAll(layout, swatch, recipe, loadout)
    ensures Accepted(layout, swatch, recipe, loadout)
  {
    forall k: nat | k < |recipe| ensures PositionOk(layout, swatch, recipe, loadout, k) {
      assert InPlace(layout, swatch, recipe, loadout, k);
      var row: nat :| Follows(layout, swatch, recipe, loadout, k, row);
      RowIsScope(layout, recipe[k], row);
      PositionExactly(layout, swatch, recipe, loadout, k, row);
      StartNatural(layout.rows, row);
      if k > 0 {
        assert InPlace(layout, swatch, recipe, loadout, k - 1);
        var prior: nat :| Follows(layout, swatch, recipe, loadout, k - 1, prior);
        RowIsScope(layout, recipe[k - 1], prior);
      }
    }
    forall k | 0 <= k < |recipe| ensures SelectionKey(recipe[k]) == SelectionKey(loadout[k].binding) {
      assert InPlace(layout, swatch, recipe, loadout, k);
      var row: nat :| Follows(layout, swatch, recipe, loadout, k, row);
      AlikeExactly(loadout[k].binding, recipe[k]);
      SameKey(loadout[k].binding, recipe[k], 0);
    }
    assert KeysOf(recipe) == KeysOf(Bindings(loadout));
  }

  lemma StartNatural(rows: seq<Slot>, row: nat)
    requires EndToEnd(rows) && row < |rows|
    ensures 0 <= rows[row].start
  {
    TotalPrefix(rows, 0, row);
  }

  lemma {:induction false} SameKey(a: Selection, b: Selection, k: nat)
    requires SameBinding(a, b) && k <= |FIELDS|
    ensures KeyFrom(a, FIELDS[k..]) == KeyFrom(b, FIELDS[k..])
    decreases |FIELDS| - k
  {
    if k < |FIELDS| {
      SameKey(a, b, k + 1);
      assert SameField(a, b, FIELDS[k]) && FIELDS[k..][1..] == FIELDS[k + 1..];
    }
  }
}
