/** Conversion between Vimscript values, which share containers by reference and may be
    cyclic, and API objects, which are trees. */
module Typvals {
  import opened Wrappers

  const MAX_DEPTH: nat := 100
  const MAX_INTEGER: nat := 0x7FFF_FFFF_FFFF_FFFF

  /** A list or dictionary is a reference to a cell of the heap. */
  datatype Typval =
    | Number(n: int) | Float(r: real) | Str(s: string) | Blob(bytes: string) | Bool(b: bool) | Null
    | Funcref(name: string) | Partial(name: string) | Channel(id: nat) | Job(id: nat) | Container(cell: nat)

  /** `borrowed` says that somebody holds the cell mutably. */
  datatype Cell =
    | ListCell(items: seq<Typval>, borrowed: bool)
    | DictCell(entries: seq<(string, Typval)>, borrowed: bool)

  type Heap = seq<Cell>

  datatype Object =
    | Nil | Boolean(b: bool) | Integer(n: int) | Real(r: real) | String(s: string)
    | Array(items: seq<Object>) | Dict(entries: seq<(string, Object)>)
    | LuaRef(reference: int) | BufferHandle(handle: int) | WindowHandle(handle: int) | TabpageHandle(handle: int)

  datatype Error = TooDeep | Borrowed(cell: nat) | IdTooBig | LuaRefUnavailable

  function Values(c: Cell): seq<Typval> {
    match c
    case ListCell(items, _) => items
    case DictCell(entries, _) => seq(|entries|, i requires 0 <= i < |entries| => entries[i].1)
  }

  predicate Within(heap: Heap, v: Typval) {
    v.Container? ==> v.cell < |heap|
  }

  predicate AllWithin(heap: Heap, vs: seq<Typval>) {
    forall i :: 0 <= i < |vs| ==> Within(heap, vs[i])
  }

  /** No reference dangles. */
  predicate Closed(heap: Heap) {
    forall k :: 0 <= k < |heap| ==> AllWithin(heap, Values(heap[k]))
  }

  // ----- from values to objects

  function Scalar(v: Typval): Result<Object, Error>
    requires !v.Container?
  {
    match v
    case Number(n) => Ok(Integer(n))
    case Float(r) => Ok(Real(r))
    case Str(s) => Ok(String(s))
    case Blob(bytes) => Ok(String(bytes))
    case Bool(b) => Ok(Boolean(b))
    case Null => Ok(Nil)
    case Funcref(_) => Ok(Nil)
    case Partial(_) => Ok(Nil)
    case Channel(id) => if id <= MAX_INTEGER then Ok(Integer(id)) else Err(IdTooBig)
    case Job(id) => if id <= MAX_INTEGER then Ok(Integer(id)) else Err(IdTooBig)
  }

  /** The object of a cell whose values have been converted. */
  function Wrap(c: Cell, objects: seq<Object>): Object {
    match c
    case ListCell(_, _) => Array(objects)
    case DictCell(entries, _) =>
      Dict(seq(if |entries| <= |objects| then |entries| else |objects|,
               i requires 0 <= i < |entries| && i < |objects| => (entries[i].0, objects[i])))
  }

  /** Conversion under a path: the containers entered and not yet left. */
  function Convert(heap: Heap, v: Typval, depth: nat, path: set<nat>): Result<Object, Error>
    requires Closed(heap) && Within(heap, v)
    decreases if depth < MAX_DEPTH then MAX_DEPTH - depth else 0, 0
  {
    if depth >= MAX_DEPTH then Err(TooDeep)
    else if !v.Container? then Scalar(v)
    else if v.cell in path then Ok(Nil)
    else if heap[v.cell].borrowed then Err(Borrowed(v.cell))
    else match ConvertAll(heap, Values(heap[v.cell]), depth + 1, path + {v.cell})
      case Err(e) => Err(e)
      case Ok(objects) => Ok(Wrap(heap[v.cell], objects))
  }

  function ConvertAll(heap: Heap, vs: seq<Typval>, depth: nat, path: set<nat>): (r: Result<seq<Object>, Error>)
    requires Closed(heap) && AllWithin(heap, vs)
    ensures r.Ok? ==> |r.value| == |vs|
    decreases if depth < MAX_DEPTH then MAX_DEPTH - depth else 0, 1, |vs|
  {
    if vs == [] then Ok([])
    else match Convert(heap, vs[0], depth, path)
      case Err(e) => Err(e)
      case Ok(o) => match ConvertAll(heap, vs[1..], depth, path)
        case Err(e) => Err(e)
        case Ok(os) => Ok([o] + os)
  }

  /** What is left in the set of active containers: what was there, and a container that
      turned out to be borrowed. */
  function Left<T>(active: set<nat>, r: Result<T, Error>): set<nat> {
    if r.Err? && r.error.Borrowed? then active + {r.error.cell} else active
  }

  lemma ConvertStep(heap: Heap, vs: seq<Typval>, depth: nat, path: set<nat>, i: nat, objects: seq<Object>)
    requires Closed(heap) && AllWithin(heap, vs) && i < |vs|
    ensures AllWithin(heap, vs[i + 1..])
    ensures Gathered(objects, ConvertAll(heap, vs[i..], depth, path))
         == match Convert(heap, vs[i], depth, path)
            case Err(e) => Err(e)
            case Ok(o) => Gathered(objects + [o], ConvertAll(heap, vs[i + 1..], depth, path))
  {
    assert vs[i..][0] == vs[i] && vs[i..][1..] == vs[i + 1..];
    var first, others := Convert(heap, vs[i], depth, path), ConvertAll(heap, vs[i + 1..], depth, path);
    if first.Ok? && others.Ok? {
      assert objects + ([first.value] + others.value) == (objects + [first.value]) + others.value;
    }
  }

  /** The code's traversal, with its one mutable set. */
  method TypvalToObjectInner(heap: Heap, value: Typval, depth: nat, active: set<nat>)
      returns (r: Result<Object, Error>, left: set<nat>)
    requires Closed(heap) && Within(heap, value)
    ensures r == Convert(heap, value, depth, active) && left == Left(active, r)
    ensures r.Err? && r.error.Borrowed? ==> r.error.cell !in active
    decreases if depth < MAX_DEPTH then MAX_DEPTH - depth else 0
  {
    left := active;
    if depth >= MAX_DEPTH {
      return Err(TooDeep), left;
    }
    if !value.Container? {
      return Scalar(value), left;
    }
    if value.cell in left {
      return Ok(Nil), left;
    }
    left := left + {value.cell};
    var cell := heap[value.cell];
    if cell.borrowed {
      return Err(Borrowed(value.cell)), left;
    }
    var vs := Values(cell);
    var objects := [];
    assert vs[0..] == vs;
    GatheredNothing(ConvertAll(heap, vs, depth + 1, left));
    ghost var path := left;
    for i := 0 to |vs|
      invariant left == path
      invariant Closed(heap) && AllWithin(heap, vs[i..])
      invariant Gathered(objects, ConvertAll(heap, vs[i..], depth + 1, path)) == ConvertAll(heap, vs, depth + 1, path)
    {
      ConvertStep(heap, vs, depth + 1, path, i, objects);
      var item;
      item, left := TypvalToObjectInner(heap, vs[i], depth + 1, left);
      if item.Err? {
        left := left - {value.cell};
        return Err(item.error), left;
      }
      objects := objects + [item.value];
    }
    assert vs[|vs|..] == [];
    assert objects + [] == objects;
    left := left - {value.cell};
    return Ok(Wrap(cell, objects)), left;
  }

  // ----- when the set of active containers comes back as it was

  predicate NoneBorrowed(heap: Heap) {
    forall k :: 0 <= k < |heap| ==> !heap[k].borrowed
  }

  /** Every conversion of the heap's values, at any depth and under any path, leaves the set
      of active containers as it found it. */
  ghost predicate RestoresActive(heap: Heap)
    requires Closed(heap)
  {
    forall v, depth: nat, path: set<nat> :: Within(heap, v) ==> Left(path, Convert(heap, v, depth, path)) == path
  }

  lemma {:induction false} NeverBorrowed(heap: Heap, v: Typval, depth: nat, path: set<nat>)
    requires Closed(heap) && Within(heap, v) && NoneBorrowed(heap)
    ensures var r := Convert(heap, v, depth, path); r.Err? ==> !r.error.Borrowed?
    decreases if depth < MAX_DEPTH then MAX_DEPTH - depth else 0, 0
  {
    if depth < MAX_DEPTH && v.Container? && v.cell !in path {
      NoneOfThemBorrowed(heap, Values(heap[v.cell]), depth + 1, path + {v.cell});
    }
  }

  lemma {:induction false} NoneOfThemBorrowed(heap: Heap, vs: seq<Typval>, depth: nat, path: set<nat>)
    requires Closed(heap) && AllWithin(heap, vs) && NoneBorrowed(heap)
    ensures var r := ConvertAll(heap, vs, depth, path); r.Err? ==> !r.error.Borrowed?
    decreases if depth < MAX_DEPTH then MAX_DEPTH - depth else 0, 1, |vs|
  {
    if vs != [] {
      NeverBorrowed(heap, vs[0], depth, path);
      NoneOfThemBorrowed(heap, vs[1..], depth, path);
    }
  }

  /** The set always comes back as it was exactly if no cell of the heap is borrowed. */
  lemma ActiveRestoredIff(heap: Heap)
    requires Closed(heap)
    ensures RestoresActive(heap) <==> NoneBorrowed(heap)
  {
    if NoneBorrowed(heap) {
      forall v, depth: nat, path: set<nat> | Within(heap, v)
        ensures Left(path, Convert(heap, v, depth, path)) == path
      {
        NeverBorrowed(heap, v, depth, path);
      }
    } else {
      var k :| 0 <= k < |heap| && heap[k].borrowed;
      assert Convert(heap, Container(k), 0, {}) == Err(Borrowed(k));
      assert k in Left({}, Convert(heap, Container(k), 0, {}));
    }
  }

  /** The smallest heap on which it does not: one empty list that somebody holds, and a list
      that refers to it. The inner container stays active, the outer one does not. */
  lemma BorrowedStaysActive()
    ensures var heap := [ListCell([], true), ListCell([Container(0)], false)];
            && Closed(heap) && Convert(heap, Container(1), 0, {}) == Err(Borrowed(0))
            && Left({}, Convert(heap, Container(1), 0, {})) == {0}
  {
    var heap := [ListCell([], true), ListCell([Container(0)], false)];
    assert Values(heap[1]) == [Container(0)] && Values(heap[0]) == [];
    assert ConvertAll(heap, [Container(0)], 1, {1}) == Err(Borrowed(0));
    assert {} + {1} == {1};
  }

  // ----- what the object shows of the value, position by position

  /** What one position of an object shows without its parts. */
  datatype Head = Leaf(value: Object) | ArrayOf(length: nat) | DictOf(keys: seq<string>)

  function HeadOf(o: Object): Head {
    match o
    case Array(items) => ArrayOf(|items|)
    case Dict(entries) => DictOf(seq(|entries|, i requires 0 <= i < |entries| => entries[i].0))
    case _ => Leaf(o)
  }

  function Parts(o: Object): seq<Object> {
    match o
    case Array(items) => items
    case Dict(entries) => seq(|entries|, i requires 0 <= i < |entries| => entries[i].1)
    case _ => []
  }

  /** The head at a position of an object: a list of part numbers from the root. */
  function At(o: Object, position: seq<nat>): Option<Head>
    decreases |position|
  {
    if position == [] then Some(HeadOf(o))
    else if position[0] < |Parts(o)| then At(Parts(o)[position[0]], position[1..])
    else None
  }

  function CellHead(c: Cell): Head {
    match c
    case ListCell(items, _) => ArrayOf(|items|)
    case DictCell(entries, _) => DictOf(seq(|entries|, i requires 0 <= i < |entries| => entries[i].0))
  }

  /** The same walk in the heap. It shows Nil at, and does not go below, a reference to a
      container that the walk has already been through: a back edge. */
  function WalkTo(heap: Heap, v: Typval, seen: set<nat>, position: seq<nat>): Option<Head>
    requires Closed(heap) && Within(heap, v)
    decreases |position|
  {
    if !v.Container? then if position == [] && Scalar(v).Ok? then Some(Leaf(Scalar(v).value)) else None
    else if v.cell in seen then if position == [] then Some(Leaf(Nil)) else None
    else if position == [] then Some(CellHead(heap[v.cell]))
    else
      var vs := Values(heap[v.cell]);
      if position[0] < |vs| then WalkTo(heap, vs[position[0]], seen + {v.cell}, position[1..]) else None
  }

  lemma ScalarHead(v: Typval)
    requires !v.Container? && Scalar(v).Ok?
    ensures HeadOf(Scalar(v).value) == Leaf(Scalar(v).value) && Parts(Scalar(v).value) == []
  {
  }

  lemma WrapShows(c: Cell, objects: seq<Object>)
    requires |objects| == |Values(c)|
    ensures HeadOf(Wrap(c, objects)) == CellHead(c) && Parts(Wrap(c, objects)) == objects
  {
  }

  lemma {:induction false} ConvertAllAt(heap: Heap, vs: seq<Typval>, depth: nat, path: set<nat>, i: nat)
    requires Closed(heap) && AllWithin(heap, vs) && ConvertAll(heap, vs, depth, path).Ok? && i < |vs|
    ensures Convert(heap, vs[i], depth, path) == Ok(ConvertAll(heap, vs, depth, path).value[i])
    decreases |vs|
  {
    if i > 0 {
      ConvertAllAt(heap, vs[1..], depth, path, i - 1);
    }
  }

  /** Every position of the converted object, and no other, is a walk in the heap that
      repeats no container; the object shows there what the walk leads to, and Nil for a
      container exactly at the back edges. */
  lemma {:induction false} ObjectShowsTheWalks(heap: Heap, v: Typval, depth: nat, path: set<nat>, position: seq<nat>)
    requires Closed(heap) && Within(heap, v) && Convert(heap, v, depth, path).Ok?
    ensures At(Convert(heap, v, depth, path).value, position) == WalkTo(heap, v, path, position)
    decreases |position|
  {
    var o := Convert(heap, v, depth, path).value;
    if !v.Container? {
      ScalarHead(v);
    } else if v.cell !in path {
      var vs := Values(heap[v.cell]);
      var objects := ConvertAll(heap, vs, depth + 1, path + {v.cell}).value;
      WrapShows(heap[v.cell], objects);
      if position != [] && position[0] < |vs| {
        ConvertAllAt(heap, vs, depth + 1, path + {v.cell}, position[0]);
        ObjectShowsTheWalks(heap, vs[position[0]], depth + 1, path + {v.cell}, position[1..]);
      }
    }
  }

  // ----- heaps without cycles

  predicate Fits(v: Typval) {
    (v.Channel? || v.Job?) ==> v.id <= MAX_INTEGER
  }

  /** Nobody holds a cell mutably and every identifier fits an integer. */
  predicate Calm(heap: Heap) {
    forall k :: 0 <= k < |heap| ==>
      !heap[k].borrowed && forall i :: 0 <= i < |Values(heap[k])| ==> Fits(Values(heap[k])[i])
  }

  /** Ranks that go down along every reference: the heap has no cycle. */
  predicate Ranked(heap: Heap, rank: seq<nat>) {
    |rank| == |heap| && forall k :: 0 <= k < |heap| ==> AllBelow(heap, rank, Values(heap[k]), rank[k])
  }

  predicate AllBelow(heap: Heap, rank: seq<nat>, vs: seq<Typval>, bound: nat)
    requires |rank| == |heap|
  {
    forall i :: 0 <= i < |vs| ==> Below(heap, rank, vs[i], bound)
  }

  predicate Below(heap: Heap, rank: seq<nat>, v: Typval, bound: nat)
    requires |rank| == |heap|
  {
    v.Container? ==> v.cell < |heap| && rank[v.cell] < bound
  }

  /** The plain unfolding of an acyclic heap: no path, no limit. */
  function Unfold(heap: Heap, rank: seq<nat>, v: Typval, bound: nat): Object
    requires Ranked(heap, rank) && Below(heap, rank, v, bound)
    decreases bound, 0
  {
    if v.Container? then Wrap(heap[v.cell], UnfoldAll(heap, rank, Values(heap[v.cell]), rank[v.cell]))
    else if Scalar(v).Ok? then Scalar(v).value else Nil
  }

  function UnfoldAll(heap: Heap, rank: seq<nat>, vs: seq<Typval>, bound: nat): seq<Object>
    requires Ranked(heap, rank) && AllBelow(heap, rank, vs, bound)
    decreases bound, 1, |vs|
  {
    if vs == [] then [] else [Unfold(heap, rank, vs[0], bound)] + UnfoldAll(heap, rank, vs[1..], bound)
  }

  /** How many containers are nested below a value, the value not counted. */
  function Height(heap: Heap, rank: seq<nat>, v: Typval, bound: nat): nat
    requires Ranked(heap, rank) && Below(heap, rank, v, bound)
    decreases bound, 0
  {
    if v.Container? then HeightAll(heap, rank, Values(heap[v.cell]), rank[v.cell]) else 0
  }

  function HeightAll(heap: Heap, rank: seq<nat>, vs: seq<Typval>, bound: nat): nat
    requires Ranked(heap, rank) && AllBelow(heap, rank, vs, bound)
    decreases bound, 1, |vs|
  {
    if vs == [] then 0
    else
      var first, others := Height(heap, rank, vs[0], bound) + 1, HeightAll(heap, rank, vs[1..], bound);
      if first > others then first else others
  }

  predicate AboveRank(heap: Heap, rank: seq<nat>, path: set<nat>, bound: nat)
    requires |rank| == |heap|
  {
    forall k :: k in path && k < |heap| ==> rank[k] >= bound
  }

  /** On a heap without cycles the conversion is the plain unfolding, as long as nothing is
      nested a hundred deep; otherwise, and only then, it fails for depth. */
  lemma {:induction false} AcyclicConvertsByUnfolding(heap: Heap, rank: seq<nat>, v: Typval, bound: nat, depth: nat,
                                                       path: set<nat>)
    requires Closed(heap) && Calm(heap) && Ranked(heap, rank) && Below(heap, rank, v, bound) && Fits(v)
    requires AboveRank(heap, rank, path, bound)
    ensures Within(heap, v)
    ensures Convert(heap, v, depth, path)
         == if depth + Height(heap, rank, v, bound) < MAX_DEPTH then Ok(Unfold(heap, rank, v, bound)) else Err(TooDeep)
    decreases bound, 0
  {
    if v.Container? && depth < MAX_DEPTH {
      assert rank[v.cell] < bound;
      assert v.cell !in path;
      var vs := Values(heap[v.cell]);
      assert AllBelow(heap, rank, vs, rank[v.cell]);
      AllConvertByUnfolding(heap, rank, vs, rank[v.cell], depth + 1, path + {v.cell});
    }
  }

  lemma {:induction false} AllConvertByUnfolding(heap: Heap, rank: seq<nat>, vs: seq<Typval>, bound: nat, depth: nat,
                                                 path: set<nat>)
    requires Closed(heap) && Calm(heap) && Ranked(heap, rank) && AllBelow(heap, rank, vs, bound)
    requires (forall i :: 0 <= i < |vs| ==> Fits(vs[i])) && AboveRank(heap, rank, path, bound) && 0 < depth
    ensures AllWithin(heap, vs)
    ensures ConvertAll(heap, vs, depth, path)
         == if vs == [] || depth - 1 + HeightAll(heap, rank, vs, bound) < MAX_DEPTH
             then Ok(UnfoldAll(heap, rank, vs, bound))
            else Err(TooDeep)
    decreases bound, 1, |vs|
  {
    if vs != [] {
      AcyclicConvertsByUnfolding(heap, rank, vs[0], bound, depth, path);
      AllConvertByUnfolding(heap, rank, vs[1..], bound, depth, path);
    }
  }

  // ----- small heaps, cyclic or not

  lemma {:induction false} CountBelow(path: set<nat>, n: nat)
    requires forall k :: k in path ==> k < n
    ensures |path| <= n
  {
    if n > 0 {
      CountBelow(path - {n - 1}, n - 1);
    } else {
      assert path == {};
    }
  }

  /** However the references run, a heap of fewer than a hundred cells converts: each level
      of nesting enters a container not yet on the path. */
  lemma {:induction false} FewCellsAlwaysConvert(heap: Heap, v: Typval, depth: nat, path: set<nat>)
    requires Closed(heap) && Calm(heap) && Within(heap, v) && Fits(v)
    requires (forall k :: k in path ==> k < |heap|) && depth == |path| && |heap| < MAX_DEPTH
    ensures Convert(heap, v, depth, path).Ok?
    decreases MAX_DEPTH - depth, 0
  {
    CountBelow(path, |heap|);
    if v.Container? && v.cell !in path {
      CountBelow(path + {v.cell}, |heap|);
      AllConvert(heap, Values(heap[v.cell]), depth + 1, path + {v.cell});
    }
  }

  lemma {:induction false} AllConvert(heap: Heap, vs: seq<Typval>, depth: nat, path: set<nat>)
    requires Closed(heap) && Calm(heap) && AllWithin(heap, vs) && forall i :: 0 <= i < |vs| ==> Fits(vs[i])
    requires (forall k :: k in path ==> k < |heap|) && depth == |path| && depth <= |heap| < MAX_DEPTH
    ensures ConvertAll(heap, vs, depth, path).Ok?
    decreases MAX_DEPTH - depth, 1, |vs|
  {
    if vs != [] {
      FewCellsAlwaysConvert(heap, vs[0], depth, path);
      AllConvert(heap, vs[1..], depth, path);
    }
  }

  // ----- from objects to values

  ghost predicate Smaller(os: seq<Object>, o: Object) {
    forall i :: 0 <= i < |os| ==> os[i] < o
  }

  lemma PartsSmaller(o: Object)
    ensures Smaller(Parts(o), o)
  {
    if o.Dict? {
      forall i | 0 <= i < |o.entries|
        ensures Parts(o)[i] < o
      {
        assert o.entries[i] < o && o.entries[i].1 < o.entries[i];
      }
    }
  }

  /** A leaf of an object as a value: handles become numbers. */
  function LeafValue(o: Object): Result<Typval, Error>
    requires !o.Array? && !o.Dict?
  {
    match o
    case Nil => Ok(Null)
    case Boolean(b) => Ok(Bool(b))
    case Integer(n) => Ok(Number(n))
    case Real(r) => Ok(Float(r))
    case String(s) => Ok(Str(s))
    case BufferHandle(h) => Ok(Number(h))
    case WindowHandle(h) => Ok(Number(h))
    case TabpageHandle(h) => Ok(Number(h))
    case LuaRef(_) => Err(LuaRefUnavailable)
  }

  function NewCell(o: Object, vs: seq<Typval>): Cell
    requires o.Array? || (o.Dict? && |vs| == |o.entries|)
  {
    if o.Array? then ListCell(vs, false)
    else DictCell(seq(|vs|, i requires 0 <= i < |vs| => (o.entries[i].0, vs[i])), false)
  }

  /** Conversion allocates a new cell for each container, after those of its parts. */
  function ToTypval(o: Object, depth: nat, heap: Heap): Result<(Typval, Heap), Error>
    decreases o, 0
  {
    if depth >= MAX_DEPTH then Err(TooDeep)
    else if o.Array? || o.Dict? then
      PartsSmaller(o);
      match ToTypvals(o, Parts(o), depth + 1, heap)
      case Err(e) => Err(e)
      case Ok((vs, h)) => Ok((Container(|h|), h + [NewCell(o, vs)]))
    else match LeafValue(o) case Err(e) => Err(e) case Ok(v) => Ok((v, heap))
  }

  function ToTypvals(whole: Object, os: seq<Object>, depth: nat, heap: Heap): (r: Result<(seq<Typval>, Heap), Error>)
    requires Smaller(os, whole)
    ensures r.Ok? ==> |r.value.0| == |os|
    decreases whole, 0, |os|
  {
    if os == [] then Ok(([], heap))
    else match ToTypval(os[0], depth, heap)
      case Err(e) => Err(e)
      case Ok((v, h)) => match ToTypvals(whole, os[1..], depth, h)
        case Err(e) => Err(e)
        case Ok((vs, h')) => Ok(([v] + vs, h'))
  }

  // ----- the round trip

  predicate LuaFree(o: Object)
    decreases o
  {
    !o.LuaRef? && (PartsSmaller(o); forall i :: 0 <= i < |Parts(o)| ==> LuaFree(Parts(o)[i]))
  }

  predicate HandleFree(o: Object)
    decreases o
  {
    && !o.BufferHandle? && !o.WindowHandle? && !o.TabpageHandle?
    && (PartsSmaller(o); forall i :: 0 <= i < |Parts(o)| ==> HandleFree(Parts(o)[i]))
  }

  /** The object with its handles as integers. */
  function Plain(o: Object): Object
    decreases o, 0
  {
    match o
    case BufferHandle(h) => Integer(h)
    case WindowHandle(h) => Integer(h)
    case TabpageHandle(h) => Integer(h)
    case Array(items) => PartsSmaller(o); Rebuild(o, PlainAll(o, Parts(o)))
    case Dict(entries) => PartsSmaller(o); Rebuild(o, PlainAll(o, Parts(o)))
    case _ => o
  }

  function PlainAll(whole: Object, os: seq<Object>): (r: seq<Object>)
    requires Smaller(os, whole)
    ensures |r| == |os|
    decreases whole, 0, |os|
  {
    if os == [] then [] else [Plain(os[0])] + PlainAll(whole, os[1..])
  }

  /** A container with the same keys and other parts. */
  function Rebuild(o: Object, parts: seq<Object>): Object
    requires |parts| == |Parts(o)|
  {
    match o
    case Array(_) => Array(parts)
    case Dict(entries) => Dict(seq(|entries|, i requires 0 <= i < |entries| => (entries[i].0, parts[i])))
    case _ => o
  }

  function Nesting(o: Object): nat
    decreases o, 0
  {
    PartsSmaller(o);
    NestingAll(o, Parts(o))
  }

  function NestingAll(whole: Object, os: seq<Object>): nat
    requires Smaller(os, whole)
    decreases whole, 0, |os|
  {
    if os == [] then 0
    else
      var first, others := Nesting(os[0]) + 1, NestingAll(whole, os[1..]);
      if first > others then first else others
  }

  /** The conversion succeeds exactly on objects without Lua references nested less than a
      hundred deep. */
  lemma {:induction false} ConvertsIff(o: Object, depth: nat, heap: Heap)
    ensures ToTypval(o, depth, heap).Ok? <==> LuaFree(o) && depth + Nesting(o) < MAX_DEPTH
    decreases o, 0
  {
    PartsSmaller(o);
    if o.Array? || o.Dict? {
      AllConvertIff(o, Parts(o), depth + 1, heap);
    } else {
      assert Parts(o) == [];
    }
  }

  lemma {:induction false} AllConvertIff(whole: Object, os: seq<Object>, depth: nat, heap: Heap)
    requires Smaller(os, whole) && depth > 0
    ensures ToTypvals(whole, os, depth, heap).Ok?
       <==> && (forall i :: 0 <= i < |os| ==> LuaFree(os[i]))
            && (os == [] || depth - 1 + NestingAll(whole, os) < MAX_DEPTH)
    decreases whole, 0, |os|
  {
    if os != [] {
      ConvertsIff(os[0], depth, heap);
      if ToTypval(os[0], depth, heap).Ok? {
        AllConvertIff(whole, os[1..], depth, ToTypval(os[0], depth, heap).value.1);
      }
    }
  }

  /** The cells a conversion allocates. */
  predicate Apart(path: set<nat>, from: nat, to: nat) {
    forall k :: k in path ==> k < from || to <= k
  }

  /** The value converts back, under any path apart from the new cells and in any later heap,
      to the object with its handles as integers. */
  lemma {:induction false} ConvertsBack(o: Object, depth: nat, heap: Heap, later: Heap, path: set<nat>)
    requires ToTypval(o, depth, heap).Ok? && Closed(later) && ToTypval(o, depth, heap).value.1 <= later
    requires Apart(path, |heap|, |ToTypval(o, depth, heap).value.1|)
    ensures var (v, h) := ToTypval(o, depth, heap).value;
            heap <= h && Within(later, v) && Convert(later, v, depth, path) == Ok(Plain(o))
    decreases o, 0
  {
    if o.Array? || o.Dict? {
      PartsSmaller(o);
      var (vs, h) := ToTypvals(o, Parts(o), depth + 1, heap).value;
      var cell := NewCell(o, vs);
      assert (h + [cell])[|h|] == cell && later[|h|] == cell;
      NewCellValues(o, vs);
      assert h <= later;
      AllConvertBack(o, Parts(o), depth + 1, heap, later, path + {|h|});
      WrapRebuilds(o, vs, PlainAll(o, Parts(o)));
    } else {
      assert Parts(o) == [];
    }
  }

  lemma NewCellValues(o: Object, vs: seq<Typval>)
    requires o.Array? || (o.Dict? && |vs| == |o.entries|)
    ensures Values(NewCell(o, vs)) == vs && !NewCell(o, vs).borrowed
  {
  }

  lemma WrapRebuilds(o: Object, vs: seq<Typval>, parts: seq<Object>)
    requires (o.Array? || (o.Dict? && |vs| == |o.entries|)) && |parts| == |vs| == |Parts(o)|
    ensures Wrap(NewCell(o, vs), parts) == Rebuild(o, parts)
  {
  }

  lemma {:induction false} AllConvertBack(whole: Object, os: seq<Object>, depth: nat, heap: Heap, later: Heap,
                                          path: set<nat>)
    requires Smaller(os, whole) && ToTypvals(whole, os, depth, heap).Ok?
    requires Closed(later) && ToTypvals(whole, os, depth, heap).value.1 <= later
    requires Apart(path, |heap|, |ToTypvals(whole, os, depth, heap).value.1|)
    ensures var (vs, h) := ToTypvals(whole, os, depth, heap).value;
            heap <= h && AllWithin(later, vs) && ConvertAll(later, vs, depth, path) == Ok(PlainAll(whole, os))
    decreases whole, 0, |os|
  {
    if os != [] {
      var (v, h) := ToTypval(os[0], depth, heap).value;
      var (vs, h') := ToTypvals(whole, os[1..], depth, h).value;
      HeapGrowsAll(whole, os[1..], depth, h);
      HeapGrows(os[0], depth, heap);
      ConvertsBack(os[0], depth, heap, later, path);
      AllConvertBack(whole, os[1..], depth, h, later, path);
      assert ([v] + vs)[1..] == vs;
    }
  }

  lemma {:induction false} HeapGrows(o: Object, depth: nat, heap: Heap)
    requires ToTypval(o, depth, heap).Ok?
    ensures heap <= ToTypval(o, depth, heap).value.1
    decreases o, 0
  {
    if o.Array? || o.Dict? {
      PartsSmaller(o);
      HeapGrowsAll(o, Parts(o), depth + 1, heap);
    }
  }

  lemma {:induction false} HeapGrowsAll(whole: Object, os: seq<Object>, depth: nat, heap: Heap)
    requires Smaller(os, whole) && ToTypvals(whole, os, depth, heap).Ok?
    ensures heap <= ToTypvals(whole, os, depth, heap).value.1
    decreases whole, 0, |os|
  {
    if os != [] {
      HeapGrows(os[0], depth, heap);
      HeapGrowsAll(whole, os[1..], depth, ToTypval(os[0], depth, heap).value.1);
    }
  }

  lemma {:induction false} HandleFreeIsPlain(o: Object)
    requires HandleFree(o)
    ensures Plain(o) == o
    decreases o, 0
  {
    if o.Array? || o.Dict? {
      PartsSmaller(o);
      AllPlain(o, Parts(o));
    }
  }

  lemma {:induction false} AllPlain(whole: Object, os: seq<Object>)
    requires Smaller(os, whole) && forall i :: 0 <= i < |os| ==> HandleFree(os[i])
    ensures PlainAll(whole, os) == os
    decreases whole, 0, |os|
  {
    if os != [] {
      HandleFreeIsPlain(os[0]);
      AllPlain(whole, os[1..]);
    }
  }

  /** An object without handles or Lua references, nested less than a hundred deep, comes
      back unchanged, with repeated dictionary keys and all. */
  lemma RoundTrip(o: Object, heap: Heap)
    requires Closed(heap) && HandleFree(o) && LuaFree(o) && Nesting(o) < MAX_DEPTH
    ensures ToTypval(o, 0, heap).Ok?
    ensures var (v, h) := ToTypval(o, 0, heap).value; Closed(h) && Within(h, v) && Convert(h, v, 0, {}) == Ok(o)
  {
    ConvertsIff(o, 0, heap);
    StaysClosed(o, 0, heap);
    var (v, h) := ToTypval(o, 0, heap).value;
    ConvertsBack(o, 0, heap, h, {});
    HandleFreeIsPlain(o);
  }

  lemma {:induction false} StaysClosed(o: Object, depth: nat, heap: Heap)
    requires Closed(heap) && ToTypval(o, depth, heap).Ok?
    ensures var (v, h) := ToTypval(o, depth, heap).value; Closed(h) && Within(h, v)
    decreases o, 0
  {
    if o.Array? || o.Dict? {
      PartsSmaller(o);
      AllStayClosed(o, Parts(o), depth + 1, heap);
      var (vs, h) := ToTypvals(o, Parts(o), depth + 1, heap).value;
      NewCellValues(o, vs);
    }
  }

  lemma {:induction false} AllStayClosed(whole: Object, os: seq<Object>, depth: nat, heap: Heap)
    requires Smaller(os, whole) && Closed(heap) && ToTypvals(whole, os, depth, heap).Ok?
    ensures var (vs, h) := ToTypvals(whole, os, depth, heap).value; Closed(h) && AllWithin(h, vs)
    decreases whole, 0, |os|
  {
    if os != [] {
      StaysClosed(os[0], depth, heap);
      var (v, h) := ToTypval(os[0], depth, heap).value;
      AllStayClosed(whole, os[1..], depth, h);
      HeapGrowsAll(whole, os[1..], depth, h);
    }
  }

  /** What a value that holds no other converts to: a blob to a string of its bytes, a function
      to nil, and a channel or job to its number if that fits a signed 64-bit integer. */
  lemma ScalarsConvert(heap: Heap, depth: nat, path: set<nat>)
    requires Closed(heap) && depth < 100
    ensures forall n :: Convert(heap, Number(n), depth, path) == Ok(Integer(n))
    ensures forall r :: Convert(heap, Float(r), depth, path) == Ok(Real(r))
    ensures forall s :: Convert(heap, Str(s), depth, path) == Convert(heap, Blob(s), depth, path) == Ok(String(s))
    ensures forall b :: Convert(heap, Bool(b), depth, path) == Ok(Boolean(b))
    ensures Convert(heap, Null, depth, path) == Ok(Nil)
    ensures forall name :: Convert(heap, Funcref(name), depth, path) == Ok(Nil)
    ensures forall name :: Convert(heap, Partial(name), depth, path) == Ok(Nil)
    ensures forall id: nat :: Convert(heap, Channel(id), depth, path) == Convert(heap, Job(id), depth, path)
                      == if id < 0x8000_0000_0000_0000 then Ok(Integer(id)) else Err(IdTooBig)
  {
  }

  /** At a hundred levels nothing converts, either way. */
  lemma HundredLevels(heap: Heap, v: Typval, o: Object, path: set<nat>)
    requires Closed(heap) && Within(heap, v)
    ensures Convert(heap, v, 100, path) == Err(TooDeep) && ToTypval(o, 100, heap) == Err(TooDeep)
  {
  }
}
