/**
 * The boundary walk of maker-commerce-v8.js: does a heap graph of JavaScript values denote a bounded plain
 * JSON tree?  Reflection is modelled by what one descriptor read of each object reports.
 */
module JsonBoundary {
  import opened Results

  const MAX_DEPTH: nat := 64
  const MAX_NODES: nat := 100_000
  const MAX_SAFE_INTEGER: nat := 9007199254740991

  type ObjectId = nat

  datatype Key = Length | Index(i: nat) | Name(text: string) | Symbol(id: nat)

  datatype Value =
    | Undefined | Null | Text(s: string) | Bool(b: bool)
    | Number(finite: bool)
    | Foreign                      // a function, symbol or bigint
    | Ref(id: ObjectId)

  datatype Property = Data(value: Value, enumerable: bool) | Accessor | Unreadable

  datatype Prototype = ArrayPrototype | ObjectPrototype | NullPrototype | OtherPrototype

  datatype LengthRead = LengthUnreadable | LengthNotInteger | LengthIs(n: int)

  /** What prototype, ownKeys and getOwnPropertyDescriptor report; unreadable when the first two throw. */
  datatype Object = Object(readable: bool, isArray: bool, prototype: Prototype, keys: seq<Key>,
                           properties: map<Key, Property>, length: LengthRead)

  type Heap = map<ObjectId, Object>
  type Path = seq<Key>

  /** Facts of the JavaScript heap itself: own keys are distinct, each has a descriptor, no dangling reference. */
  ghost predicate HeapOk(heap: Heap) {
    forall id :: id in heap ==>
      && (forall i, j :: 0 <= i < j < |heap[id].keys| ==> heap[id].keys[i] != heap[id].keys[j])
      && (forall k :: k in heap[id].keys ==> k in heap[id].properties)
      && (forall k :: k in heap[id].properties ==> Resolves(heap, heap[id].properties[k]))
  }

  predicate Resolves(heap: Heap, p: Property) {
    p.Data? && p.value.Ref? ==> p.value.id in heap
  }

  // ---- what a bounded tree is -------------------------------------------------------------------------

  predicate IsChildKey(o: Object, k: Key) {
    k in o.keys && !(o.isArray && k == Length)
  }

  /** The value the unfolding from root has at a path of property keys, if it has one. */
  function ValueAt(heap: Heap, root: Value, path: Path): Option<Value>
    decreases |path|
  {
    if path == [] then Some(root)
    else
      match ValueAt(heap, root, path[..|path| - 1])
      case Some(Ref(id)) =>
        var k := path[|path| - 1];
        if id in heap && IsChildKey(heap[id], k) && k in heap[id].properties && heap[id].properties[k].Data? then
          Some(heap[id].properties[k].value)
        else None
      case _ => None
  }

  predicate IsNode(heap: Heap, root: Value, path: Path) { ValueAt(heap, root, path).Some? }

  predicate ArrayKeysExact(o: Object) {
    && o.length.LengthIs? && 0 <= o.length.n <= MAX_SAFE_INTEGER
    && |o.keys| == o.length.n + 1
    && forall k :: k in o.keys ==> k == Length || (k.Index? && k.i < o.length.n)
  }

  predicate PrototypeStandard(o: Object) {
    if o.isArray then o.prototype == ArrayPrototype else o.prototype == ObjectPrototype || o.prototype == NullPrototype
  }

  predicate PropertyPlain(o: Object, k: Key) {
    k in o.properties && o.properties[k].Data? && o.properties[k].enumerable
  }

  predicate WellFormed(o: Object) {
    && o.readable && PrototypeStandard(o)
    && (forall k :: k in o.keys ==> !k.Symbol?)
    && (o.isArray ==> ArrayKeysExact(o))
    && (forall k :: k in o.keys && IsChildKey(o, k) ==> PropertyPlain(o, k))
  }

  predicate NodeFine(heap: Heap, v: Value) {
    match v
    case Number(finite) => finite
    case Foreign => false
    case Ref(id) => id in heap && WellFormed(heap[id])
    case _ => true
  }

  ghost predicate RefersTo(heap: Heap, root: Value, path: Path, id: ObjectId) {
    ValueAt(heap, root, path) == Some(Ref(id))
  }

  /** No object is reached along two paths. */
  ghost predicate NoSharing(heap: Heap, root: Value) {
    forall p, q, id :: RefersTo(heap, root, p, id) && RefersTo(heap, root, q, id) ==> p == q
  }

  ghost predicate NodeOk(heap: Heap, root: Value, p: Path)
    requires IsNode(heap, root, p)
  {
    |p| <= MAX_DEPTH && NodeFine(heap, ValueAt(heap, root, p).value)
  }

  /** These are all the nodes of the unfolding, and they are few. */
  ghost predicate AllNodes(heap: Heap, root: Value, nodes: set<Path>) {
    && |nodes| <= MAX_NODES
    && forall p :: p in nodes <==> IsNode(heap, root, p)
  }

  ghost predicate BoundedTree(heap: Heap, root: Value) {
    && (forall p | IsNode(heap, root, p) :: NodeOk(heap, root, p))
    && NoSharing(heap, root)
    && exists nodes :: AllNodes(heap, root, nodes)
  }

  // ---- the walk ---------------------------------------------------------------------------------------

  datatype Code = Limit | ScalarInvalid | GraphInvalid | RecordInvalid | SymbolInvalid | ArrayInvalid

  datatype Issue = Issue(path: Path, code: Code)

  datatype Frame = Frame(value: Value, path: Path, depth: nat)

  ghost predicate OnStack(stack: seq<Frame>, path: Path) {
    exists i :: 0 <= i < |stack| && stack[i].path == path
  }

  ghost predicate FrameOk(heap: Heap, root: Value, done: set<Path>, f: Frame) {
    && ValueAt(heap, root, f.path) == Some(f.value)
    && f.depth == |f.path|
    && f.path !in done
    && (f.path != [] ==> Parent(f.path) in done)
  }

  ghost predicate StackOk(heap: Heap, root: Value, done: set<Path>, stack: seq<Frame>) {
    && (forall i :: 0 <= i < |stack| ==> FrameOk(heap, root, done, stack[i]))
    && Distinct(stack)
  }

  ghost predicate Distinct(stack: seq<Frame>) {
    forall i, j :: 0 <= i < j < |stack| ==> stack[i].path != stack[j].path
  }

  ghost predicate VisitedOk(heap: Heap, root: Value, p: Path) {
    IsNode(heap, root, p) && NodeOk(heap, root, p)
  }

  function Parent(p: Path): Path { if p == [] then [] else p[..|p| - 1] }

  ghost predicate ParentClosed(done: set<Path>) {
    forall p {:trigger Parent(p)} :: p in done ==> Parent(p) in done
  }

  ghost predicate SeenOk(heap: Heap, root: Value, done: set<Path>, seen: set<ObjectId>) {
    && (forall p, id :: p in done && RefersTo(heap, root, p, id) ==> id in seen)
    && (forall id :: id in seen ==> exists p :: p in done && RefersTo(heap, root, p, id))
  }

  ghost predicate UnsharedSoFar(heap: Heap, root: Value, done: set<Path>) {
    forall p, q, id :: p in done && q in done && RefersTo(heap, root, p, id) && RefersTo(heap, root, q, id) ==> p == q
  }

  ghost predicate DoneOk(heap: Heap, root: Value, done: set<Path>, seen: set<ObjectId>) {
    && (forall p :: p in done ==> VisitedOk(heap, root, p))
    && ParentClosed(done)
    && SeenOk(heap, root, done, seen)
    && UnsharedSoFar(heap, root, done)
  }

  /** Every child of a visited node is visited or waiting. */
  ghost predicate Frontier(heap: Heap, root: Value, done: set<Path>, stack: seq<Frame>) {
    && ([] in done || OnStack(stack, []))
    && forall p, k :: p in done && IsNode(heap, root, p + [k]) ==> p + [k] in done || OnStack(stack, p + [k])
  }

  lemma {:induction false} NodesAreDone(heap: Heap, root: Value, done: set<Path>, p: Path)
    requires Frontier(heap, root, done, []) && IsNode(heap, root, p)
    ensures p in done
    decreases |p|
  {
    if p != [] {
      var prefix := p[..|p| - 1];
      assert p == prefix + [p[|p| - 1]];
      NodesAreDone(heap, root, done, prefix);
    }
  }

  lemma SubsetSize<T>(a: set<T>, b: set<T>)
    requires a <= b
    ensures |a| <= |b|
  {
    assert b == a + (b - a);
  }

  lemma TooManyNodes(heap: Heap, root: Value, some: set<Path>)
    requires |some| > MAX_NODES && forall p :: p in some ==> IsNode(heap, root, p)
    ensures !BoundedTree(heap, root)
  {
    if BoundedTree(heap, root) {
      var nodes :| AllNodes(heap, root, nodes);
      SubsetSize(some, nodes);
    }
  }

  lemma BadNode(heap: Heap, root: Value, p: Path)
    requires IsNode(heap, root, p) && !NodeOk(heap, root, p)
    ensures !BoundedTree(heap, root)
  {
  }

  lemma Shared(heap: Heap, root: Value, p: Path, q: Path, id: ObjectId)
    requires p != q && RefersTo(heap, root, p, id) && RefersTo(heap, root, q, id)
    ensures !BoundedTree(heap, root)
  {
  }

  lemma WalkComplete(heap: Heap, root: Value, done: set<Path>, seen: set<ObjectId>)
    requires DoneOk(heap, root, done, seen) && Frontier(heap, root, done, []) && |done| <= MAX_NODES
    ensures BoundedTree(heap, root)
  {
    forall p | IsNode(heap, root, p) ensures p in done { NodesAreDone(heap, root, done, p); }
    assert AllNodes(heap, root, done);
  }

  /** What an issue says is true of the graph. */
  ghost predicate Genuine(heap: Heap, root: Value, issue: Issue) {
    match issue.code
    case Limit =>
      && IsNode(heap, root, issue.path)
      && (|issue.path| > MAX_DEPTH
          || exists some: set<Path> :: |some| > MAX_NODES && forall p :: p in some ==> IsNode(heap, root, p))
    case GraphInvalid =>
      && IsNode(heap, root, issue.path)
      && exists q, id :: q != issue.path && RefersTo(heap, root, q, id) && RefersTo(heap, root, issue.path, id)
    case ScalarInvalid =>
      IsNode(heap, root, issue.path)
      && (ValueAt(heap, root, issue.path).value == Number(false) || ValueAt(heap, root, issue.path).value == Foreign)
    case _ =>
      exists p: Path :: p <= issue.path && |issue.path| <= |p| + 1 && IsNode(heap, root, p)
        && ValueAt(heap, root, p).value.Ref? && ValueAt(heap, root, p).value.id in heap
        && !WellFormed(heap[ValueAt(heap, root, p).value.id])
  }

  /** The checks the walk makes on one object before it reads the properties. */
  method InspectObject(o: Object) returns (bad: Option<Code>)
    requires forall i, j :: 0 <= i < j < |o.keys| ==> o.keys[i] != o.keys[j]
    ensures bad.None? <==> o.readable && PrototypeStandard(o) && (forall k :: k in o.keys ==> !k.Symbol?)
                           && (o.isArray ==> ArrayKeysExact(o))
    ensures bad.Some? ==> bad.value in {RecordInvalid, SymbolInvalid, ArrayInvalid}
  {
    if !o.readable { return Some(RecordInvalid); }
    if (o.isArray && o.prototype != ArrayPrototype)
       || (!o.isArray && o.prototype != ObjectPrototype && o.prototype != NullPrototype) {
      return Some(RecordInvalid);
    }
    if exists k | k in o.keys :: k.Symbol? { return Some(SymbolInvalid); }
    if o.isArray {
      if !o.length.LengthIs? || o.length.n < 0 || o.length.n > MAX_SAFE_INTEGER { return Some(ArrayInvalid); }
      if |o.keys| != o.length.n + 1 || exists k | k in o.keys :: !(k == Length || (k.Index? && k.i < o.length.n)) {
        return Some(ArrayInvalid);
      }
    }
    return None;
  }

  lemma ChildValue(heap: Heap, root: Value, p: Path, k: Key)
    requires IsNode(heap, root, p)
    ensures IsNode(heap, root, p + [k]) <==>
            var v := ValueAt(heap, root, p).value;
            v.Ref? && v.id in heap && IsChildKey(heap[v.id], k) && k in heap[v.id].properties
            && heap[v.id].properties[k].Data?
    ensures IsNode(heap, root, p + [k]) ==>
              ValueAt(heap, root, p + [k]) == Some(heap[ValueAt(heap, root, p).value.id].properties[k].value)
  {
    assert (p + [k])[..|p + [k]| - 1] == p;
  }

  /** The first property that is not plain, in key order. */
  ghost predicate FirstBad(o: Object, i: int) {
    && 0 <= i < |o.keys| && IsChildKey(o, o.keys[i]) && !PropertyPlain(o, o.keys[i])
    && forall j :: 0 <= j < i && IsChildKey(o, o.keys[j]) ==> PropertyPlain(o, o.keys[j])
  }

  /** Reads one object's properties in key order; stops at the first that is not plain enumerable data. */
  method PushProperties(o: Object, path: Path, depth: nat) returns (pushed: seq<Frame>, bad: Option<Key>)
    requires depth == |path|
    ensures bad.None? ==> pushed == Children(o, path, o.keys)
    ensures bad.None? <==> forall k :: k in o.keys && IsChildKey(o, k) ==> PropertyPlain(o, k)
    ensures bad.Some? ==> exists i :: FirstBad(o, i) && o.keys[i] == bad.value
  {
    pushed := [];
    for i := 0 to |o.keys|
      invariant forall j :: 0 <= j < i && IsChildKey(o, o.keys[j]) ==> PropertyPlain(o, o.keys[j])
      invariant pushed == Children(o, path, o.keys[..i])
    {
      var key := o.keys[i];
      assert o.keys[..i + 1] == o.keys[..i] + [key];
      ChildrenSnoc(o, path, o.keys[..i], key);
      if !(o.isArray && key == Length) {
        if !(key in o.properties && o.properties[key].Data? && o.properties[key].enumerable) {
          assert FirstBad(o, i);
          return pushed, Some(key);
        }
        pushed := pushed + [Frame(o.properties[key].value, path + [key], depth + 1)];
      }
    }
    assert o.keys[..|o.keys|] == o.keys;
    return pushed, None;
  }

  /** The checks on one value within the limits, and the frames and reference it adds. */
  method Visit(heap: Heap, root: Value, f: Frame, seen: set<ObjectId>, ghost done: set<Path>)
    returns (issue: Option<Issue>, pushed: seq<Frame>)
    requires HeapOk(heap) && (root.Ref? ==> root.id in heap)
    requires FrameOk(heap, root, done, f) && SeenOk(heap, root, done, seen)
    ensures issue.Some? ==> !BoundedTree(heap, root) && Genuine(heap, root, issue.value)
    ensures issue.None? <==> NodeFine(heap, f.value) && (f.value.Ref? ==> f.value.id !in seen)
    ensures issue.None? ==> pushed == if f.value.Ref? then Children(heap[f.value.id], f.path, heap[f.value.id].keys)
                                      else []
  {
    var value, path := f.value, f.path;
    pushed := [];
    if value.Undefined? || value.Null? || value.Text? || value.Bool? || (value.Number? && value.finite) {
      return None, [];
    }
    if !value.Ref? {
      BadNode(heap, root, path);
      return Some(Issue(path, ScalarInvalid)), [];
    }
    if value.id in seen {
      ghost var q :| q in done && RefersTo(heap, root, q, value.id);
      Shared(heap, root, path, q, value.id);
      return Some(Issue(path, GraphInvalid)), [];
    }
    NodeInHeap(heap, root, path);
    var o := heap[value.id];
    var bad := InspectObject(o);
    if bad.Some? {
      BadNode(heap, root, path);
      BadObject(heap, root, path, Issue(path, bad.value));
      return Some(Issue(path, bad.value)), [];
    }
    var badKey;
    pushed, badKey := PushProperties(o, path, f.depth);
    if badKey.Some? {
      BadNode(heap, root, path);
      BadObject(heap, root, path, Issue(path + [badKey.value], RecordInvalid));
      return Some(Issue(path + [badKey.value], RecordInvalid)), [];
    }
    return None, pushed;
  }

  lemma BadObject(heap: Heap, root: Value, p: Path, issue: Issue)
    requires IsNode(heap, root, p) && ValueAt(heap, root, p).value.Ref? && ValueAt(heap, root, p).value.id in heap
    requires !WellFormed(heap[ValueAt(heap, root, p).value.id])
    requires p <= issue.path && |issue.path| <= |p| + 1
    requires issue.code in {RecordInvalid, SymbolInvalid, ArrayInvalid}
    ensures Genuine(heap, root, issue)
  {
  }

  /** The explicit-stack walk: it accepts exactly the bounded trees, whatever order the stack imposes, and
      an issue it reports is a genuine one. */
  method Inspect(heap: Heap, root: Value) returns (ok: bool, issue: Option<Issue>)
    requires HeapOk(heap) && (root.Ref? ==> root.id in heap)
    ensures ok <==> BoundedTree(heap, root)
    ensures ok <==> issue == None
    ensures issue.Some? ==> Genuine(heap, root, issue.value)
  {
    var stack := [Frame(root, [], 0)];
    var seen: set<ObjectId> := {};
    var nodes := 0;
    ghost var done: set<Path> := {};
    assert stack[0].path == [];
    while stack != []
      invariant nodes == |done| <= MAX_NODES
      invariant StackOk(heap, root, done, stack)
      invariant DoneOk(heap, root, done, seen)
      invariant Frontier(heap, root, done, stack)
      decreases MAX_NODES - nodes
    {
      var current := stack[|stack| - 1];
      var below := stack[..|stack| - 1];
      SplitLast(stack);
      TopFrame(heap, root, done, below, current);
      nodes := nodes + 1;
      if nodes > MAX_NODES || current.depth > MAX_DEPTH {
        LimitPassed(heap, root, done, seen, current);
        return false, Some(Issue(current.path, Limit));
      }
      var pushed;
      issue, pushed := Visit(heap, root, current, seen, done);
      if issue.Some? { return false, issue; }
      VisitStep(heap, root, done, seen, below, current, pushed);
      if current.value.Ref? { seen := seen + {current.value.id}; }
      stack := below + pushed;
      done := done + {current.path};
    }
    WalkComplete(heap, root, done, seen);
    return true, None;
  }

  lemma SplitLast<T>(s: seq<T>)
    requires s != []
    ensures s == s[..|s| - 1] + [s[|s| - 1]]
  {
  }

  lemma TopFrame(heap: Heap, root: Value, done: set<Path>, below: seq<Frame>, f: Frame)
    requires StackOk(heap, root, done, below + [f])
    ensures FrameOk(heap, root, done, f)
  {
    assert (below + [f])[|below|] == f;
  }

  /** One fine value visited: the invariants of the walk. */
  lemma VisitStep(heap: Heap, root: Value, done: set<Path>, seen: set<ObjectId>, below: seq<Frame>, f: Frame, pushed: seq<Frame>)
    requires HeapOk(heap) && StackOk(heap, root, done, below + [f]) && DoneOk(heap, root, done, seen)
    requires Frontier(heap, root, done, below + [f])
    requires f.depth <= MAX_DEPTH && NodeFine(heap, f.value) && (f.value.Ref? ==> f.value.id !in seen)
    requires pushed == if f.value.Ref? then Children(heap[f.value.id], f.path, heap[f.value.id].keys) else []
    ensures StackOk(heap, root, done + {f.path}, below + pushed)
    ensures DoneOk(heap, root, done + {f.path}, SeenWith(seen, f.value))
    ensures Frontier(heap, root, done + {f.path}, below + pushed)
  {
    if f.value.Ref? {
      ObjectStep(heap, root, done, seen, below, f, heap[f.value.id]);
    } else {
      LeafStep(heap, root, done, seen, below, f);
      assert below + [] == below;
    }
  }

  lemma LimitPassed(heap: Heap, root: Value, done: set<Path>, seen: set<ObjectId>, f: Frame)
    requires DoneOk(heap, root, done, seen) && FrameOk(heap, root, done, f)
    requires |done| + 1 > MAX_NODES || f.depth > MAX_DEPTH
    ensures !BoundedTree(heap, root) && Genuine(heap, root, Issue(f.path, Limit))
  {
    if |done| + 1 > MAX_NODES {
      var visited := done + {f.path};
      assert |visited| > MAX_NODES;
      forall p | p in visited ensures IsNode(heap, root, p) {
        if p in done { assert VisitedOk(heap, root, p); }
      }
      TooManyNodes(heap, root, visited);
    } else {
      BadNode(heap, root, f.path);
    }
  }

  /** The frames pushed for some of an object's keys. */
  function Children(o: Object, path: Path, keys: seq<Key>): seq<Frame> {
    if keys == [] then []
    else
      Children(o, path, keys[..|keys| - 1]) +
      (var k := keys[|keys| - 1];
       if (o.isArray && k == Length) || !PropertyPlain(o, k) then []
       else [Frame(o.properties[k].value, path + [k], |path| + 1)])
  }

  lemma ChildrenSnoc(o: Object, path: Path, keys: seq<Key>, key: Key)
    ensures Children(o, path, keys + [key]) == Children(o, path, keys) +
              if (o.isArray && key == Length) || !PropertyPlain(o, key) then []
              else [Frame(o.properties[key].value, path + [key], |path| + 1)]
  {
    assert (keys + [key])[..|keys + [key]| - 1] == keys;
  }

  predicate Pushed(o: Object, k: Key) {
    !(o.isArray && k == Length) && PropertyPlain(o, k)
  }

  ghost predicate IsChildFrame(o: Object, path: Path, keys: seq<Key>, f: Frame) {
    exists k :: k in keys && Pushed(o, k) && f == Frame(o.properties[k].value, path + [k], |path| + 1)
  }

  function ChildFrame(o: Object, path: Path, k: Key): seq<Frame> {
    if !Pushed(o, k) then [] else [Frame(o.properties[k].value, path + [k], |path| + 1)]
  }

  ghost predicate ChildrenOk(o: Object, path: Path, keys: seq<Key>, frames: seq<Frame>) {
    && (forall f :: f in frames ==> IsChildFrame(o, path, keys, f)) && Distinct(frames)
    && (forall k :: k in keys && Pushed(o, k) ==> OnStack(frames, path + [k]))
  }

  lemma ChildFramesGrow(o: Object, path: Path, init: seq<Key>, k: Key, f: Frame)
    requires IsChildFrame(o, path, init, f)
    ensures IsChildFrame(o, path, init + [k], f)
  {
    var k' :| k' in init && Pushed(o, k') && f == Frame(o.properties[k'].value, path + [k'], |path| + 1);
    assert k' in init + [k];
  }

  lemma ChildPathsDiffer(o: Object, path: Path, init: seq<Key>, k: Key, f: Frame)
    requires IsChildFrame(o, path, init, f) && k !in init
    ensures f.path != path + [k]
  {
    var k' :| k' in init && Pushed(o, k') && f == Frame(o.properties[k'].value, path + [k'], |path| + 1);
    assert (path + [k'])[|path|] == k' && (path + [k])[|path|] == k;
  }

  lemma ChildrenOkSnoc(o: Object, path: Path, init: seq<Key>, k: Key, rest: seq<Frame>)
    requires ChildrenOk(o, path, init, rest) && k !in init
    ensures ChildrenOk(o, path, init + [k], rest + ChildFrame(o, path, k))
  {
    var last := ChildFrame(o, path, k);
    StackAppend(rest, last);
    assert k in init + [k];
    forall f | f in rest + last ensures IsChildFrame(o, path, init + [k], f) {
      if f in rest { ChildFramesGrow(o, path, init, k, f); }
    }
    forall f | f in rest ensures f.path != path + [k] { ChildPathsDiffer(o, path, init, k, f); }
    if Pushed(o, k) { assert last[0].path == path + [k]; }
  }

  lemma {:induction false} ChildrenAre(o: Object, path: Path, keys: seq<Key>)
    requires forall i, j :: 0 <= i < j < |keys| ==> keys[i] != keys[j]
    ensures ChildrenOk(o, path, keys, Children(o, path, keys))
  {
    if keys != [] {
      var init, k := keys[..|keys| - 1], keys[|keys| - 1];
      assert keys == init + [k] && k !in init;
      ChildrenAre(o, path, init);
      ChildrenSnoc(o, path, init, k);
      ChildrenOkSnoc(o, path, init, k, Children(o, path, init));
    }
  }

  lemma {:induction false} NodeInHeap(heap: Heap, root: Value, p: Path)
    requires HeapOk(heap) && (root.Ref? ==> root.id in heap)
    requires IsNode(heap, root, p) && ValueAt(heap, root, p).value.Ref?
    ensures ValueAt(heap, root, p).value.id in heap
  {
    if p != [] {
      var id := ValueAt(heap, root, p[..|p| - 1]).value.id;
      assert Resolves(heap, heap[id].properties[p[|p| - 1]]);
    }
  }

  function SeenWith(seen: set<ObjectId>, v: Value): set<ObjectId> {
    if v.Ref? then seen + {v.id} else seen
  }

  lemma VisitedPlus(heap: Heap, root: Value, done: set<Path>, f: Frame)
    requires forall p :: p in done ==> VisitedOk(heap, root, p)
    requires ParentClosed(done)
    requires FrameOk(heap, root, done, f) && f.depth <= MAX_DEPTH && NodeFine(heap, f.value)
    ensures forall p :: p in done + {f.path} ==> VisitedOk(heap, root, p)
    ensures ParentClosed(done + {f.path})
  {
  }

  lemma SeenPlus(heap: Heap, root: Value, done: set<Path>, seen: set<ObjectId>, f: Frame)
    requires SeenOk(heap, root, done, seen) && FrameOk(heap, root, done, f)
    ensures SeenOk(heap, root, done + {f.path}, SeenWith(seen, f.value))
  {
    var visited := done + {f.path};
    forall p, id | p in visited && RefersTo(heap, root, p, id) ensures id in SeenWith(seen, f.value) {
      if p in done { assert RefersTo(heap, root, p, id); }
    }
    forall id | id in SeenWith(seen, f.value) ensures exists p :: p in visited && RefersTo(heap, root, p, id) {
      if id in seen {
        var p :| p in done && RefersTo(heap, root, p, id);
        assert p in visited;
      } else {
        assert f.path in visited && RefersTo(heap, root, f.path, id);
      }
    }
  }

  lemma UnsharedPlus(heap: Heap, root: Value, done: set<Path>, seen: set<ObjectId>, f: Frame)
    requires SeenOk(heap, root, done, seen) && UnsharedSoFar(heap, root, done) && FrameOk(heap, root, done, f)
    requires f.value.Ref? ==> f.value.id !in seen
    ensures UnsharedSoFar(heap, root, done + {f.path})
  {
    var visited := done + {f.path};
    forall p, q, id | p in visited && q in visited && RefersTo(heap, root, p, id) && RefersTo(heap, root, q, id)
      ensures p == q
    {
      if (p in done) != (q in done) { assert false; }
    }
  }

  lemma DonePlus(heap: Heap, root: Value, done: set<Path>, seen: set<ObjectId>, f: Frame)
    requires DoneOk(heap, root, done, seen) && FrameOk(heap, root, done, f)
    requires f.depth <= MAX_DEPTH && NodeFine(heap, f.value)
    requires f.value.Ref? ==> f.value.id !in seen
    ensures DoneOk(heap, root, done + {f.path}, SeenWith(seen, f.value))
  {
    VisitedPlus(heap, root, done, f);
    SeenPlus(heap, root, done, seen, f);
    UnsharedPlus(heap, root, done, seen, f);
  }

  lemma LeafStep(heap: Heap, root: Value, done: set<Path>, seen: set<ObjectId>, below: seq<Frame>, f: Frame)
    requires StackOk(heap, root, done, below + [f]) && DoneOk(heap, root, done, seen)
    requires Frontier(heap, root, done, below + [f])
    requires f.depth <= MAX_DEPTH && NodeFine(heap, f.value) && !f.value.Ref?
    ensures StackOk(heap, root, done + {f.path}, below)
    ensures DoneOk(heap, root, done + {f.path}, seen)
    ensures Frontier(heap, root, done + {f.path}, below)
  {
    assert FrameOk(heap, root, done, (below + [f])[|below|]);
    DonePlus(heap, root, done, seen, f);
    BelowStays(heap, root, done, below, f);
    forall k ensures !IsNode(heap, root, f.path + [k]) {
      ChildValue(heap, root, f.path, k);
    }
    FrontierGrows(heap, root, done, below, f, []);
    assert below + [] == below;
  }

  lemma BelowStays(heap: Heap, root: Value, done: set<Path>, below: seq<Frame>, f: Frame)
    requires StackOk(heap, root, done, below + [f])
    ensures StackOk(heap, root, done + {f.path}, below)
    ensures forall p :: OnStack(below + [f], p) ==> p == f.path || OnStack(below, p)
  {
    var all := below + [f];
    forall i | 0 <= i < |below| ensures FrameOk(heap, root, done + {f.path}, below[i]) {
      assert all[i] == below[i] && all[|below|] == f && FrameOk(heap, root, done, all[i]);
    }
    forall i, j | 0 <= i < j < |below| ensures below[i].path != below[j].path {
      assert all[i] == below[i] && all[j] == below[j];
    }
    forall p | OnStack(all, p) && p != f.path ensures OnStack(below, p) {
      var i :| 0 <= i < |all| && all[i].path == p;
      assert below[i].path == p;
    }
  }

  lemma NotYetDone(done: set<Path>, p: Path, k: Key)
    requires ParentClosed(done) && p !in done
    ensures p + [k] !in done
  {
    assert Parent(p + [k]) == p;
  }

  lemma ChildFrameOk(heap: Heap, root: Value, done: set<Path>, f: Frame, o: Object, c: Frame)
    requires FrameOk(heap, root, done, f) && f.value.Ref? && f.value.id in heap && o == heap[f.value.id]
    requires ParentClosed(done) && IsChildFrame(o, f.path, o.keys, c)
    ensures FrameOk(heap, root, done + {f.path}, c)
  {
    var k :| k in o.keys && Pushed(o, k) && c == Frame(o.properties[k].value, f.path + [k], |f.path| + 1);
    assert Parent(c.path) == f.path;
    ChildValue(heap, root, f.path, k);
    NotYetDone(done, f.path, k);
  }

  lemma PushChildren(heap: Heap, root: Value, done: set<Path>, below: seq<Frame>, f: Frame, o: Object)
    requires HeapOk(heap) && StackOk(heap, root, done, below + [f])
    requires ParentClosed(done)
    requires f.value.Ref? && f.value.id in heap && o == heap[f.value.id]
    ensures StackOk(heap, root, done + {f.path}, below + Children(o, f.path, o.keys))
  {
    var visited, added := done + {f.path}, Children(o, f.path, o.keys);
    var stack := below + added;
    assert FrameOk(heap, root, done, (below + [f])[|below|]);
    BelowStays(heap, root, done, below, f);
    ChildrenAre(o, f.path, o.keys);
    forall i | 0 <= i < |stack| ensures FrameOk(heap, root, visited, stack[i]) {
      if i >= |below| {
        assert stack[i] == added[i - |below|];
        ChildFrameOk(heap, root, done, f, o, stack[i]);
      }
    }
    forall i, j | 0 <= i < j < |stack| ensures stack[i].path != stack[j].path {
      if i < |below| <= j {
        assert FrameOk(heap, root, done, (below + [f])[i]);
        assert IsChildFrame(o, f.path, o.keys, added[j - |below|]);
      } else if |below| <= i {
        assert stack[i] == added[i - |below|] && stack[j] == added[j - |below|];
      }
    }
  }

  lemma FrontierGrows(heap: Heap, root: Value, done: set<Path>, below: seq<Frame>, f: Frame, added: seq<Frame>)
    requires StackOk(heap, root, done, below + [f]) && Frontier(heap, root, done, below + [f])
    requires forall k :: IsNode(heap, root, f.path + [k]) ==> OnStack(added, f.path + [k])
    ensures Frontier(heap, root, done + {f.path}, below + added)
  {
    BelowStays(heap, root, done, below, f);
    StackAppend(below, added);
    forall p, k | p in done + {f.path} && IsNode(heap, root, p + [k])
      ensures p + [k] in done + {f.path} || OnStack(below + added, p + [k])
    {
      if p != f.path { assert p + [k] in done || OnStack(below + [f], p + [k]); }
    }
  }

  lemma ChildrenWait(heap: Heap, root: Value, f: Frame, o: Object, k: Key)
    requires HeapOk(heap) && ValueAt(heap, root, f.path) == Some(f.value)
    requires f.value.Ref? && f.value.id in heap && o == heap[f.value.id] && WellFormed(o)
    requires IsNode(heap, root, f.path + [k])
    ensures OnStack(Children(o, f.path, o.keys), f.path + [k])
  {
    ChildrenAre(o, f.path, o.keys);
    ChildValue(heap, root, f.path, k);
    assert PropertyPlain(o, k);
  }

  lemma ObjectStep(heap: Heap, root: Value, done: set<Path>, seen: set<ObjectId>, below: seq<Frame>, f: Frame, o: Object)
    requires HeapOk(heap)
    requires StackOk(heap, root, done, below + [f]) && DoneOk(heap, root, done, seen)
    requires Frontier(heap, root, done, below + [f])
    requires f.depth <= MAX_DEPTH && f.value.Ref? && f.value.id in heap && o == heap[f.value.id] && WellFormed(o)
    requires f.value.id !in seen
    ensures StackOk(heap, root, done + {f.path}, below + Children(o, f.path, o.keys))
    ensures DoneOk(heap, root, done + {f.path}, SeenWith(seen, f.value))
    ensures Frontier(heap, root, done + {f.path}, below + Children(o, f.path, o.keys))
  {
    assert FrameOk(heap, root, done, (below + [f])[|below|]);
    DonePlus(heap, root, done, seen, f);
    PushChildren(heap, root, done, below, f, o);
    forall k | IsNode(heap, root, f.path + [k]) ensures OnStack(Children(o, f.path, o.keys), f.path + [k]) {
      ChildrenWait(heap, root, f, o, k);
    }
    FrontierGrows(heap, root, done, below, f, Children(o, f.path, o.keys));
  }

  lemma StackAppend(a: seq<Frame>, b: seq<Frame>)
    ensures forall p :: OnStack(a, p) || OnStack(b, p) ==> OnStack(a + b, p)
  {
    forall p | OnStack(a, p) || OnStack(b, p) ensures OnStack(a + b, p) {
      if OnStack(a, p) {
        var i :| 0 <= i < |a| && a[i].path == p;
        assert (a + b)[i] == a[i];
      } else {
        var i :| 0 <= i < |b| && b[i].path == p;
        assert (a + b)[|a| + i] == b[i];
      }
    }
  }

  // ---- arrays -----------------------------------------------------------------------------------------

  /** The keys of an array without holes and without other properties. */
  ghost function DenseKeys(n: nat): set<Key>
    ensures Length in DenseKeys(n) && |DenseKeys(n)| == n + 1
    ensures forall k :: k in DenseKeys(n) <==> k == Length || (k.Index? && k.i < n)
  {
    if n == 0 then {Length} else DenseKeys(n - 1) + {Index(n - 1)}
  }

  lemma {:induction false} DistinctCount(keys: seq<Key>)
    requires forall i, j :: 0 <= i < j < |keys| ==> keys[i] != keys[j]
    ensures |set k | k in keys| == |keys|
  {
    if keys != [] {
      var init, last := keys[..|keys| - 1], keys[|keys| - 1];
      DistinctCount(init);
      assert (set k | k in keys) == (set k | k in init) + {last};
    }
  }

  lemma SubsetOfSize<T>(a: set<T>, b: set<T>)
    requires a <= b && |a| == |b|
    ensures a == b
  {
    if x :| x in b && x !in a { SubsetSize(a, b - {x}); }
  }

  /** Counting the keys is enough: an accepted array has every index below its length, and no other key. */
  lemma ArraysAreDense(o: Object)
    requires forall i, j :: 0 <= i < j < |o.keys| ==> o.keys[i] != o.keys[j]
    ensures ArrayKeysExact(o) <==>
              o.length.LengthIs? && 0 <= o.length.n <= MAX_SAFE_INTEGER && (set k | k in o.keys) == DenseKeys(o.length.n)
  {
    DistinctCount(o.keys);
    var own := set k | k in o.keys;
    if ArrayKeysExact(o) { SubsetOfSize(own, DenseKeys(o.length.n)); }
    if o.length.LengthIs? && 0 <= o.length.n && own == DenseKeys(o.length.n) {
      forall k | k in o.keys ensures k == Length || (k.Index? && k.i < o.length.n) { assert k in own; }
    }
  }
}
