/**
 * The reference search of maker-v8-creator-cover.js and maker-v8-creator-image.js: walk a JSON tree for one string,
 * skipping some places.  The source tells a place by object identity; in a tree that is its path.
 */
module JsonReferences {
  import opened Results

  datatype Json = Null | Bool(b: bool) | Num(n: real) | Str(s: string) | Arr(items: seq<Json>) | Obj(fields: map<string, Json>)

  datatype Segment = Field(name: string) | Index(i: nat)

  type Path = seq<Segment>

  function Child(v: Json, at: Segment): Option<Json> {
    match v
    case Arr(items) => if at.Index? && at.i < |items| then Some(items[at.i]) else None
    case Obj(fields) => if at.Field? && at.name in fields then Some(fields[at.name]) else None
    case _ => None
  }

  /** What stands at a path. */
  function Get(v: Json, path: Path): Option<Json>
    decreases |path|
  {
    if path == [] then Some(v)
    else
      var child := Child(v, path[0]);
      if child.None? then None else Get(child.value, path[1..])
  }

  /** The visit: does id stand anywhere below, outside the holes? */
  predicate Visit(v: Json, here: Path, holes: set<Path>, id: string)
    decreases v
  {
    match v
    case Str(s) => s == id
    case Arr(items) => exists i: nat :: i < |items| && here + [Index(i)] !in holes && Visit(items[i], here + [Index(i)], holes, id)
    case Obj(fields) => exists k :: k in fields && here + [Field(k)] !in holes && Visit(fields[k], here + [Field(k)], holes, id)
    case _ => false
  }

  /** The path goes through no hole. */
  ghost predicate Clear(here: Path, rel: Path, holes: set<Path>) {
    forall k :: 1 <= k <= |rel| ==> here + rel[..k] !in holes
  }

  ghost predicate Refers(v: Json, rel: Path, id: string) { Get(v, rel) == Some(Str(id)) }

  lemma ClearFirst(here: Path, rel: Path, holes: set<Path>)
    requires rel != []
    ensures Clear(here, rel, holes) <==> here + [rel[0]] !in holes && Clear(here + [rel[0]], rel[1..], holes)
  {
    assert rel[..1] == [rel[0]];
    forall k | 1 <= k <= |rel| ensures here + rel[..k] == (here + [rel[0]]) + rel[1..][..k - 1] {
      assert rel[..k] == [rel[0]] + rel[1..][..k - 1];
    }
    if here + [rel[0]] !in holes && Clear(here + [rel[0]], rel[1..], holes) {
      forall k | 1 <= k <= |rel| ensures here + rel[..k] !in holes {
        assert here + rel[..k] == (here + [rel[0]]) + rel[1..][..k - 1];
        if k > 1 { assert (here + [rel[0]]) + rel[1..][..k - 1] !in holes; }
      }
    }
    if Clear(here, rel, holes) {
      assert here + rel[..1] !in holes;
      forall k | 1 <= k <= |rel[1..]| ensures (here + [rel[0]]) + rel[1..][..k] !in holes {
        assert here + rel[..k + 1] == (here + [rel[0]]) + rel[1..][..k];
      }
    }
  }

  /** The visit succeeds exactly when some path outside the holes ends in the string. */
  lemma {:induction false} VisitExact(v: Json, here: Path, holes: set<Path>, id: string)
    ensures Visit(v, here, holes, id) <==> exists rel :: Refers(v, rel, id) && Clear(here, rel, holes)
    decreases v
  {
    if Visit(v, here, holes, id) { var rel := Found(v, here, holes, id); }
    forall rel | Refers(v, rel, id) && Clear(here, rel, holes) ensures Visit(v, here, holes, id) { Finds(v, here, rel, holes, id); }
  }

  lemma {:induction false} Found(v: Json, here: Path, holes: set<Path>, id: string) returns (rel: Path)
    requires Visit(v, here, holes, id)
    ensures Refers(v, rel, id) && Clear(here, rel, holes)
    decreases v
  {
    match v
    case Str(_) => rel := [];
    case Arr(items) =>
      var i: nat :| i < |items| && here + [Index(i)] !in holes && Visit(items[i], here + [Index(i)], holes, id);
      rel := Found(items[i], here + [Index(i)], holes, id);
      rel := Prepended(v, here, Index(i), rel, holes, id);
    case Obj(fields) =>
      var k :| k in fields && here + [Field(k)] !in holes && Visit(fields[k], here + [Field(k)], holes, id);
      rel := Found(fields[k], here + [Field(k)], holes, id);
      rel := Prepended(v, here, Field(k), rel, holes, id);
  }

  lemma Prepended(v: Json, here: Path, at: Segment, rel: Path, holes: set<Path>, id: string) returns (all: Path)
    requires Child(v, at).Some? && here + [at] !in holes
    requires Refers(Child(v, at).value, rel, id) && Clear(here + [at], rel, holes)
    ensures Refers(v, all, id) && Clear(here, all, holes)
  {
    all := [at] + rel;
    assert all[0] == at && all[1..] == rel;
    ClearFirst(here, all, holes);
  }

  lemma {:induction false} Finds(v: Json, here: Path, rel: Path, holes: set<Path>, id: string)
    requires Refers(v, rel, id) && Clear(here, rel, holes)
    ensures Visit(v, here, holes, id)
    decreases |rel|
  {
    if rel != [] {
      ClearFirst(here, rel, holes);
      var child := Child(v, rel[0]).value;
      Finds(child, here + [rel[0]], rel[1..], holes, id);
    }
  }
}
