/**
 Cleaning an object graph into a tree that can be serialised: `parent` entries are left out and
 references to what is being visited become undefined, which is left out too.
 */
module GraphCleaner {
  import opened Common

  type Ref = nat

  /** A value: something that is no object, undefined, or a reference. */
  datatype Value = Prim(p: int) | Undefined | At(ref: Ref)

  datatype Object = Array(items: seq<Value>) | Record(fields: seq<(string, Value)>)

  type Heap = map<Ref, Object>

  datatype Tree = Leaf(p: int) | List(items: seq<Tree>) | Map(fields: seq<Entry>)

  datatype Entry = Entry(key: string, value: Tree)

  // ---------------------------------------------------------------- the function

  /** The cleaned value (None for undefined) and the visited set afterwards. A record is taken out
      of the set again when it is done, an array is not. */
  function Clean(heap: Heap, v: Value, visited: set<Ref>): (r: (Option<Tree>, set<Ref>))
    ensures visited <= r.1
    decreases heap.Keys - visited, 1, 0
  {
    match v
    case Prim(p) => (Some(Leaf(p)), visited)
    case Undefined => (None, visited)
    case At(ref) =>
      if ref in visited || ref !in heap then (None, visited)
      else
        match heap[ref]
        case Array(items) =>
          var (ts, after) := CleanItems(heap, items, visited + {ref});
          (Some(List(ts)), after)
        case Record(fields) =>
          var (fs, after) := CleanFields(heap, fields, visited + {ref});
          (Some(Map(fs)), after - {ref})
  }

  function CleanItems(heap: Heap, items: seq<Value>, visited: set<Ref>): (r: (seq<Tree>, set<Ref>))
    ensures visited <= r.1
    decreases heap.Keys - visited, 2, |items|
  {
    if items == [] then ([], visited)
    else
      var (t, v1) := Clean(heap, items[0], visited);
      var (ts, v2) := CleanItems(heap, items[1..], v1);
      ((if t.Some? then [t.value] else []) + ts, v2)
  }

  function CleanFields(heap: Heap, fields: seq<(string, Value)>, visited: set<Ref>): (r: (seq<Entry>, set<Ref>))
    ensures visited <= r.1
    decreases heap.Keys - visited, 2, |fields|
  {
    if fields == [] then ([], visited)
    else if fields[0].0 == "parent" then CleanFields(heap, fields[1..], visited)
    else
      var (t, v1) := Clean(heap, fields[0].1, visited);
      var (fs, v2) := CleanFields(heap, fields[1..], v1);
      ((if t.Some? then [Entry(fields[0].0, t.value)] else []) + fs, v2)
  }

  // ---------------------------------------------------------------- no parents

  predicate ParentFree(t: Tree)
    decreases t
  {
    match t
    case Leaf(_) => true
    case List(items) => forall i :: 0 <= i < |items| ==> ParentFree(items[i])
    case Map(fields) => forall i :: 0 <= i < |fields| ==> fields[i].key != "parent" && ParentFree(fields[i].value)
  }

  predicate ItemsParentFree(ts: seq<Tree>) {
    forall i :: 0 <= i < |ts| ==> ParentFree(ts[i])
  }

  predicate FieldsParentFree(fs: seq<Entry>) {
    forall i :: 0 <= i < |fs| ==> fs[i].key != "parent" && ParentFree(fs[i].value)
  }

  /** On every finite graph, cyclic or not, the result has no `parent` key at any depth. */
  lemma {:induction false} ResultHasNoParents(heap: Heap, v: Value, visited: set<Ref>)
    ensures Clean(heap, v, visited).0.Some? ==> ParentFree(Clean(heap, v, visited).0.value)
    decreases heap.Keys - visited, 1, 0
  {
    if v.At? && v.ref !in visited && v.ref in heap {
      match heap[v.ref]
      case Array(items) =>
        ItemsHaveNoParents(heap, items, visited + {v.ref});
        assert Clean(heap, v, visited).0 == Some(List(CleanItems(heap, items, visited + {v.ref}).0));
      case Record(fields) =>
        FieldsHaveNoParents(heap, fields, visited + {v.ref});
        assert Clean(heap, v, visited).0 == Some(Map(CleanFields(heap, fields, visited + {v.ref}).0));
    }
  }

  lemma {:induction false} ItemsHaveNoParents(heap: Heap, items: seq<Value>, visited: set<Ref>)
    ensures ItemsParentFree(CleanItems(heap, items, visited).0)
    decreases heap.Keys - visited, 2, |items|
  {
    if items != [] {
      ResultHasNoParents(heap, items[0], visited);
      var (t, v1) := Clean(heap, items[0], visited);
      ItemsHaveNoParents(heap, items[1..], v1);
    }
  }

  lemma {:induction false} FieldsHaveNoParents(heap: Heap, fields: seq<(string, Value)>, visited: set<Ref>)
    ensures FieldsParentFree(CleanFields(heap, fields, visited).0)
    decreases heap.Keys - visited, 2, |fields|
  {
    if fields != [] {
      if fields[0].0 == "parent" {
        FieldsHaveNoParents(heap, fields[1..], visited);
      } else {
        ResultHasNoParents(heap, fields[0].1, visited);
        var (t, v1) := Clean(heap, fields[0].1, visited);
        FieldsHaveNoParents(heap, fields[1..], v1);
      }
    }
  }

  // ---------------------------------------------------------------- the unfolding cut at returns

  /** The tree one gets by following every reference except those that return to an object on the way
      to them, with `parent` and undefined entries left out. */
  function Cut(heap: Heap, v: Value, path: set<Ref>): Option<Tree>
    decreases heap.Keys - path, 1, 0
  {
    match v
    case Prim(p) => Some(Leaf(p))
    case Undefined => None
    case At(ref) =>
      if ref in path || ref !in heap then None
      else
        match heap[ref]
        case Array(items) => Some(List(CutItems(heap, items, path + {ref})))
        case Record(fields) => Some(Map(CutFields(heap, fields, path + {ref})))
  }

  function CutItems(heap: Heap, items: seq<Value>, path: set<Ref>): seq<Tree>
    decreases heap.Keys - path, 2, |items|
  {
    if items == [] then [] else PutItem(Cut(heap, items[0], path)) + CutItems(heap, items[1..], path)
  }

  function CutFields(heap: Heap, fields: seq<(string, Value)>, path: set<Ref>): seq<Entry>
    decreases heap.Keys - path, 2, |fields|
  {
    if fields == [] then []
    else if fields[0].0 == "parent" then CutFields(heap, fields[1..], path)
    else Put(fields[0].0, Cut(heap, fields[0].1, path)) + CutFields(heap, fields[1..], path)
  }

  /** The arrays met on the way, once per path that leads to them. */
  function CutArrays(heap: Heap, v: Value, path: set<Ref>): seq<Ref>
    decreases heap.Keys - path, 1, 0
  {
    if !v.At? || v.ref in path || v.ref !in heap then []
    else
      match heap[v.ref]
      case Array(items) => [v.ref] + CutArraysOfItems(heap, items, path + {v.ref})
      case Record(fields) => CutArraysOfFields(heap, fields, path + {v.ref})
  }

  function CutArraysOfItems(heap: Heap, items: seq<Value>, path: set<Ref>): seq<Ref>
    decreases heap.Keys - path, 2, |items|
  {
    if items == [] then [] else CutArrays(heap, items[0], path) + CutArraysOfItems(heap, items[1..], path)
  }

  function CutArraysOfFields(heap: Heap, fields: seq<(string, Value)>, path: set<Ref>): seq<Ref>
    decreases heap.Keys - path, 2, |fields|
  {
    if fields == [] then []
    else if fields[0].0 == "parent" then CutArraysOfFields(heap, fields[1..], path)
    else CutArrays(heap, fields[0].1, path) + CutArraysOfFields(heap, fields[1..], path)
  }

  // ---------------------------------------------------------------- the full unfolding

  /** Apart from `parent` entries every reference leads strictly down in rank. */
  predicate Acyclic(heap: Heap, rank: map<Ref, nat>) {
    && heap.Keys <= rank.Keys
    && (forall r, i :: r in heap && heap[r].Array? && 0 <= i < |heap[r].items| ==> Below(heap, rank, heap[r].items[i], rank[r]))
    && (forall r, i :: r in heap && heap[r].Record? && 0 <= i < |heap[r].fields| && heap[r].fields[i].0 != "parent"
          ==> Below(heap, rank, heap[r].fields[i].1, rank[r]))
  }

  predicate Below(heap: Heap, rank: map<Ref, nat>, v: Value, bound: nat) {
    v.At? && v.ref in heap ==> v.ref in rank && rank[v.ref] < bound
  }

  predicate ItemsBelow(heap: Heap, rank: map<Ref, nat>, items: seq<Value>, bound: nat) {
    forall i :: 0 <= i < |items| ==> Below(heap, rank, items[i], bound)
  }

  predicate FieldsBelow(heap: Heap, rank: map<Ref, nat>, fields: seq<(string, Value)>, bound: nat) {
    forall i :: 0 <= i < |fields| && fields[i].0 != "parent" ==> Below(heap, rank, fields[i].1, bound)
  }

  /** The tree one gets by following every reference, with `parent` and undefined entries left out. */
  function Unfold(heap: Heap, rank: map<Ref, nat>, v: Value, bound: nat): Option<Tree>
    requires Acyclic(heap, rank) && Below(heap, rank, v, bound)
    decreases bound, 0, 0
  {
    match v
    case Prim(p) => Some(Leaf(p))
    case Undefined => None
    case At(ref) =>
      if ref !in heap then None
      else
        match heap[ref]
        case Array(items) => Some(List(UnfoldItems(heap, rank, items, rank[ref])))
        case Record(fields) => Some(Map(UnfoldFields(heap, rank, fields, rank[ref])))
  }

  function UnfoldItems(heap: Heap, rank: map<Ref, nat>, items: seq<Value>, bound: nat): seq<Tree>
    requires Acyclic(heap, rank) && ItemsBelow(heap, rank, items, bound)
    decreases bound, 1, |items|
  {
    if items == [] then []
    else
      var t := Unfold(heap, rank, items[0], bound);
      (if t.Some? then [t.value] else []) + UnfoldItems(heap, rank, items[1..], bound)
  }

  function UnfoldFields(heap: Heap, rank: map<Ref, nat>, fields: seq<(string, Value)>, bound: nat): seq<Entry>
    requires Acyclic(heap, rank) && FieldsBelow(heap, rank, fields, bound)
    decreases bound, 1, |fields|
  {
    if fields == [] then []
    else if fields[0].0 == "parent" then UnfoldFields(heap, rank, fields[1..], bound)
    else
      var t := Unfold(heap, rank, fields[0].1, bound);
      (if t.Some? then [Entry(fields[0].0, t.value)] else []) + UnfoldFields(heap, rank, fields[1..], bound)
  }

  /** The arrays met on the way, once per path that leads to them. */
  function Arrays(heap: Heap, rank: map<Ref, nat>, v: Value, bound: nat): seq<Ref>
    requires Acyclic(heap, rank) && Below(heap, rank, v, bound)
    decreases bound, 0, 0
  {
    if !v.At? || v.ref !in heap then []
    else
      match heap[v.ref]
      case Array(items) => [v.ref] + ArraysOfItems(heap, rank, items, rank[v.ref])
      case Record(fields) => ArraysOfFields(heap, rank, fields, rank[v.ref])
  }

  function ArraysOfItems(heap: Heap, rank: map<Ref, nat>, items: seq<Value>, bound: nat): seq<Ref>
    requires Acyclic(heap, rank) && ItemsBelow(heap, rank, items, bound)
    decreases bound, 1, |items|
  {
    if items == [] then []
    else Arrays(heap, rank, items[0], bound) + ArraysOfItems(heap, rank, items[1..], bound)
  }

  function ArraysOfFields(heap: Heap, rank: map<Ref, nat>, fields: seq<(string, Value)>, bound: nat): seq<Ref>
    requires Acyclic(heap, rank) && FieldsBelow(heap, rank, fields, bound)
    decreases bound, 1, |fields|
  {
    if fields == [] then []
    else if fields[0].0 == "parent" then ArraysOfFields(heap, rank, fields[1..], bound)
    else Arrays(heap, rank, fields[0].1, bound) + ArraysOfFields(heap, rank, fields[1..], bound)
  }

  // ---------------------------------------------------------------- cleaning against unfolding

  function Size(t: Tree): nat
    ensures Size(t) >= 1
    decreases t, 0
  {
    match t
    case Leaf(_) => 1
    case List(items) => 1 + ItemsSize(items)
    case Map(fields) => 1 + FieldsSize(fields)
  }

  function ItemsSize(ts: seq<Tree>): nat
    decreases ts, |ts|
  {
    if ts == [] then 0 else Size(ts[0]) + ItemsSize(ts[1..])
  }

  function FieldsSize(fs: seq<Entry>): nat
    decreases fs, |fs|
  {
    if fs == [] then 0
    else
      var f := fs[0];
      Size(f.value) + FieldsSize(fs[1..])
  }

  function SizeOf(t: Option<Tree>): nat {
    if t.None? then 0 else Size(t.value)
  }

  lemma ItemsSizePut(t: Option<Tree>, ts: seq<Tree>)
    ensures ItemsSize(PutItem(t) + ts) == SizeOf(t) + ItemsSize(ts)
  {
    if t.Some? { assert ([t.value] + ts)[1..] == ts; } else { assert [] + ts == ts; }
  }

  lemma FieldsSizePut(k: string, t: Option<Tree>, fs: seq<Entry>)
    ensures FieldsSize(Put(k, t) + fs) == SizeOf(t) + FieldsSize(fs)
  {
    if t.Some? { assert ([Entry(k, t.value)] + fs)[1..] == fs; } else { assert [] + fs == fs; }
  }

  function SetOf(s: seq<Ref>): set<Ref> {
    set x | x in s
  }

  predicate Distinct(s: seq<Ref>) {
    forall i, j :: 0 <= i < j < |s| ==> s[i] != s[j]
  }

  /** No array is met twice, nor one that was visited before. */
  predicate Unshared(met: seq<Ref>, visited: set<Ref>) {
    Distinct(met) && SetOf(met) !! visited
  }

  /** What was visited besides the objects on the way are arrays. */
  predicate VisitedArrays(heap: Heap, path: set<Ref>, visited: set<Ref>) {
    path <= visited && forall x :: x in visited && x !in path ==> x in heap && heap[x].Array?
  }

  predicate ArraysAdded(heap: Heap, before: set<Ref>, after: set<Ref>) {
    forall x :: x in after && x !in before ==> x in heap && heap[x].Array?
  }

  lemma UnsharedConcat(a: seq<Ref>, b: seq<Ref>, visited: set<Ref>)
    ensures Unshared(a + b, visited) <==> Unshared(a, visited) && Unshared(b, visited + SetOf(a))
    ensures SetOf(a + b) == SetOf(a) + SetOf(b)
  {
    var s := a + b;
    assert forall x :: x in s <==> x in a || x in b;
    if Unshared(s, visited) {
      forall i, j | 0 <= i < j < |a| ensures a[i] != a[j] { assert s[i] == a[i] && s[j] == a[j]; }
      forall i, j | 0 <= i < j < |b| ensures b[i] != b[j] { assert s[|a| + i] == b[i] && s[|a| + j] == b[j]; }
      forall i, j | 0 <= i < |a| && 0 <= j < |b| ensures a[i] != b[j] { assert s[i] == a[i] && s[|a| + j] == b[j]; }
    }
    if Unshared(a, visited) && Unshared(b, visited + SetOf(a)) {
      forall i, j | 0 <= i < j < |s| ensures s[i] != s[j] {
        if i < |a| <= j {
          assert s[i] in a && s[j] in b;
          assert s[i] in SetOf(a) && s[j] in SetOf(b);
        }
      }
    }
  }

  lemma UnsharedSingle(r: Ref, met: seq<Ref>, visited: set<Ref>)
    requires r !in visited
    ensures Unshared([r] + met, visited) <==> Unshared(met, visited + {r})
    ensures SetOf([r] + met) == {r} + SetOf(met)
  {
    UnsharedConcat([r], met, visited);
    assert SetOf([r]) == {r};
    assert Distinct([r]);
  }

  /** How a cleaned value compares with its unfolding, and the visited sets around it. */
  predicate ValueOutcome(t: Option<Tree>, full: Option<Tree>, met: seq<Ref>, before: set<Ref>, after: set<Ref>) {
    if Unshared(met, before) then t == full && after == before + SetOf(met) else SizeOf(t) < SizeOf(full)
  }

  predicate ItemsOutcome(ts: seq<Tree>, full: seq<Tree>, met: seq<Ref>, before: set<Ref>, after: set<Ref>) {
    if Unshared(met, before) then ts == full && after == before + SetOf(met) else ItemsSize(ts) < ItemsSize(full)
  }

  predicate FieldsOutcome(fs: seq<Entry>, full: seq<Entry>, met: seq<Ref>, before: set<Ref>, after: set<Ref>) {
    if Unshared(met, before) then fs == full && after == before + SetOf(met) else FieldsSize(fs) < FieldsSize(full)
  }

  lemma JoinItems(t: Option<Tree>, full: Option<Tree>, ts: seq<Tree>, fulls: seq<Tree>,
                  m1: seq<Ref>, m2: seq<Ref>, v0: set<Ref>, v1: set<Ref>, v2: set<Ref>)
    requires ValueOutcome(t, full, m1, v0, v1) && ItemsOutcome(ts, fulls, m2, v1, v2)
    ensures ItemsOutcome(PutItem(t) + ts, PutItem(full) + fulls, m1 + m2, v0, v2)
  {
    UnsharedConcat(m1, m2, v0);
    ItemsSizePut(t, ts);
    ItemsSizePut(full, fulls);
  }

  lemma JoinFields(k: string, t: Option<Tree>, full: Option<Tree>, fs: seq<Entry>, fulls: seq<Entry>,
                   m1: seq<Ref>, m2: seq<Ref>, v0: set<Ref>, v1: set<Ref>, v2: set<Ref>)
    requires ValueOutcome(t, full, m1, v0, v1) && FieldsOutcome(fs, fulls, m2, v1, v2)
    ensures FieldsOutcome(Put(k, t) + fs, Put(k, full) + fulls, m1 + m2, v0, v2)
  {
    UnsharedConcat(m1, m2, v0);
    FieldsSizePut(k, t, fs);
    FieldsSizePut(k, full, fulls);
  }

  lemma {:induction false} CleanValue(heap: Heap, v: Value, path: set<Ref>, visited: set<Ref>)
    requires VisitedArrays(heap, path, visited)
    ensures var (t, after) := Clean(heap, v, visited);
      var met := CutArrays(heap, v, path);
      && ArraysAdded(heap, visited, after)
      && (forall x :: x in met ==> x in heap && heap[x].Array?)
      && ValueOutcome(t, Cut(heap, v, path), met, visited, after)
    decreases heap.Keys - path, 1, 0
  {
    if v.At? && v.ref in heap && v.ref !in path {
      if heap[v.ref].Array? {
        CleanArrayValue(heap, v.ref, path, visited);
      } else {
        CleanRecordValue(heap, v.ref, path, visited);
      }
    } else {
      assert SetOf([]) == {};
    }
  }

  lemma {:induction false} CleanArrayValue(heap: Heap, ref: Ref, path: set<Ref>, visited: set<Ref>)
    requires VisitedArrays(heap, path, visited) && ref in heap && heap[ref].Array? && ref !in path
    ensures var (t, after) := Clean(heap, At(ref), visited);
      var met := CutArrays(heap, At(ref), path);
      && ArraysAdded(heap, visited, after)
      && (forall x :: x in met ==> x in heap && heap[x].Array?)
      && ValueOutcome(t, Cut(heap, At(ref), path), met, visited, after)
    decreases heap.Keys - path, 0, 0
  {
    var items := heap[ref].items;
    var met := CutArraysOfItems(heap, items, path + {ref});
    if ref in visited {
      CleanManyItems(heap, items, path + {ref}, path + {ref});
      assert ([ref] + met)[0] == ref;
      assert ref in SetOf([ref] + met);
    } else {
      CleanManyItems(heap, items, path + {ref}, visited + {ref});
      UnsharedSingle(ref, met, visited);
    }
  }

  lemma {:induction false} CleanRecordValue(heap: Heap, ref: Ref, path: set<Ref>, visited: set<Ref>)
    requires VisitedArrays(heap, path, visited) && ref in heap && heap[ref].Record? && ref !in path
    ensures var (t, after) := Clean(heap, At(ref), visited);
      var met := CutArrays(heap, At(ref), path);
      && ArraysAdded(heap, visited, after)
      && (forall x :: x in met ==> x in heap && heap[x].Array?)
      && ValueOutcome(t, Cut(heap, At(ref), path), met, visited, after)
    decreases heap.Keys - path, 0, 0
  {
    var fields := heap[ref].fields;
    var met := CutArraysOfFields(heap, fields, path + {ref});
    assert ref !in visited;
    CleanManyFields(heap, fields, path + {ref}, visited + {ref});
    assert ref !in SetOf(met);
    assert Unshared(met, visited) <==> Unshared(met, visited + {ref});
  }

  lemma {:induction false} CleanManyItems(heap: Heap, items: seq<Value>, path: set<Ref>, visited: set<Ref>)
    requires VisitedArrays(heap, path, visited)
    ensures var (ts, after) := CleanItems(heap, items, visited);
      var met := CutArraysOfItems(heap, items, path);
      && ArraysAdded(heap, visited, after)
      && (forall x :: x in met ==> x in heap && heap[x].Array?)
      && ItemsOutcome(ts, CutItems(heap, items, path), met, visited, after)
    decreases heap.Keys - path, 2, |items|
  {
    if items == [] {
      assert SetOf([]) == {};
    } else {
      var v, rest := items[0], items[1..];
      var (t, v1) := Clean(heap, v, visited);
      CleanValue(heap, v, path, visited);
      CleanManyItems(heap, rest, path, v1);
      var (ts, v2) := CleanItems(heap, rest, v1);
      JoinItems(t, Cut(heap, v, path), ts, CutItems(heap, rest, path),
                CutArrays(heap, v, path), CutArraysOfItems(heap, rest, path), visited, v1, v2);
    }
  }

  lemma {:induction false} CleanManyFields(heap: Heap, fields: seq<(string, Value)>, path: set<Ref>, visited: set<Ref>)
    requires VisitedArrays(heap, path, visited)
    ensures var (fs, after) := CleanFields(heap, fields, visited);
      var met := CutArraysOfFields(heap, fields, path);
      && ArraysAdded(heap, visited, after)
      && (forall x :: x in met ==> x in heap && heap[x].Array?)
      && FieldsOutcome(fs, CutFields(heap, fields, path), met, visited, after)
    decreases heap.Keys - path, 2, |fields|
  {
    if fields == [] {
      assert SetOf([]) == {};
    } else if fields[0].0 == "parent" {
      CleanManyFields(heap, fields[1..], path, visited);
    } else {
      var k, v, rest := fields[0].0, fields[0].1, fields[1..];
      var (t, v1) := Clean(heap, v, visited);
      CleanValue(heap, v, path, visited);
      CleanManyFields(heap, rest, path, v1);
      var (fs, v2) := CleanFields(heap, rest, v1);
      JoinFields(k, t, Cut(heap, v, path), fs, CutFields(heap, rest, path),
                 CutArrays(heap, v, path), CutArraysOfFields(heap, rest, path), visited, v1, v2);
    }
  }

  function PutItem(t: Option<Tree>): seq<Tree> {
    if t.Some? then [t.value] else []
  }

  function Put(k: string, t: Option<Tree>): seq<Entry> {
    if t.Some? then [Entry(k, t.value)] else []
  }

  /** On every finite graph, cyclic or not, cleaning gives the unfolding cut where a path returns to an
      object on it, exactly when no array is reached by two paths; otherwise something is missing. */
  lemma CleanIsCutIff(heap: Heap, v: Value)
    ensures Clean(heap, v, {}).0 == Cut(heap, v, {}) <==> Distinct(CutArrays(heap, v, {}))
    ensures SizeOf(Clean(heap, v, {}).0) <= SizeOf(Cut(heap, v, {}))
  {
    CleanValue(heap, v, {}, {});
  }

  /** Above the bound: what is on the way when an acyclic graph is followed downwards. */
  predicate PathAbove(heap: Heap, rank: map<Ref, nat>, path: set<Ref>, bound: nat) {
    forall x :: x in path && x in heap ==> x in rank && rank[x] >= bound
  }

  lemma {:induction false} NothingToCut(heap: Heap, rank: map<Ref, nat>, v: Value, bound: nat, path: set<Ref>)
    requires Acyclic(heap, rank) && Below(heap, rank, v, bound) && PathAbove(heap, rank, path, bound)
    ensures Cut(heap, v, path) == Unfold(heap, rank, v, bound)
    ensures CutArrays(heap, v, path) == Arrays(heap, rank, v, bound)
    decreases bound, 0, 0
  {
    if v.At? && v.ref in heap {
      match heap[v.ref]
      case Array(items) => NothingToCutInItems(heap, rank, items, rank[v.ref], path + {v.ref});
      case Record(fields) => NothingToCutInFields(heap, rank, fields, rank[v.ref], path + {v.ref});
    }
  }

  lemma {:induction false} NothingToCutInItems(heap: Heap, rank: map<Ref, nat>, items: seq<Value>, bound: nat, path: set<Ref>)
    requires Acyclic(heap, rank) && ItemsBelow(heap, rank, items, bound) && PathAbove(heap, rank, path, bound)
    ensures CutItems(heap, items, path) == UnfoldItems(heap, rank, items, bound)
    ensures CutArraysOfItems(heap, items, path) == ArraysOfItems(heap, rank, items, bound)
    decreases bound, 1, |items|
  {
    if items != [] {
      NothingToCut(heap, rank, items[0], bound, path);
      NothingToCutInItems(heap, rank, items[1..], bound, path);
    }
  }

  lemma {:induction false} NothingToCutInFields(heap: Heap, rank: map<Ref, nat>, fields: seq<(string, Value)>, bound: nat, path: set<Ref>)
    requires Acyclic(heap, rank) && FieldsBelow(heap, rank, fields, bound) && PathAbove(heap, rank, path, bound)
    ensures CutFields(heap, fields, path) == UnfoldFields(heap, rank, fields, bound)
    ensures CutArraysOfFields(heap, fields, path) == ArraysOfFields(heap, rank, fields, bound)
    decreases bound, 1, |fields|
  {
    if fields != [] {
      NothingToCutInFields(heap, rank, fields[1..], bound, path);
      if fields[0].0 != "parent" { NothingToCut(heap, rank, fields[0].1, bound, path); }
    }
  }

  /** On a graph that is acyclic apart from its `parent` entries, cleaning gives the full unfolding
      exactly when no array is reached by two paths; otherwise something is missing from it. */
  lemma CleanIsUnfoldingIff(heap: Heap, rank: map<Ref, nat>, v: Value, bound: nat)
    requires Acyclic(heap, rank) && Below(heap, rank, v, bound)
    ensures Clean(heap, v, {}).0 == Unfold(heap, rank, v, bound) <==> Distinct(Arrays(heap, rank, v, bound))
    ensures SizeOf(Clean(heap, v, {}).0) <= SizeOf(Unfold(heap, rank, v, bound))
  {
    NothingToCut(heap, rank, v, bound, {});
    CleanIsCutIff(heap, v);
  }

  function OneArrayTwice(r: Ref, a: Ref, k1: string, k2: string, p: int): Heap {
    map[r := Record([(k1, At(a)), (k2, At(a))]), a := Array([Prim(p)])]
  }

  /** An array of one primitive, met for the first time. */
  lemma OneItemArray(heap: Heap, rank: map<Ref, nat>, a: Ref, p: int, visited: set<Ref>, bound: nat)
    requires a in heap && heap[a] == Array([Prim(p)]) && a !in visited
    requires Acyclic(heap, rank) && Below(heap, rank, At(a), bound)
    ensures Clean(heap, At(a), visited) == (Some(List([Leaf(p)])), visited + {a})
    ensures Unfold(heap, rank, At(a), bound) == Some(List([Leaf(p)]))
  {
    var items, after := heap[a].items, visited + {a};
    assert items[0] == Prim(p) && items[1..] == [];
    assert CleanItems(heap, items[1..], after) == ([], after);
    assert Clean(heap, items[0], after) == (Some(Leaf(p)), after);
    assert [Leaf(p)] + [] == [Leaf(p)];
    assert CleanItems(heap, items, after).0 == [Leaf(p)];
    assert CleanItems(heap, items, after).1 == after;
    assert UnfoldItems(heap, rank, items, rank[a]) == [Leaf(p)];
  }

  /** A record with one array under two keys: the second entry is gone. */
  lemma SharedArrayVanishes(r: Ref, a: Ref, k1: string, k2: string, p: int)
    requires r != a && k1 != "parent" && k2 != "parent"
    ensures var heap, rank := OneArrayTwice(r, a, k1, k2, p), map[r := 1, a := 0];
      && Acyclic(heap, rank) && Below(heap, rank, At(r), 2)
      && Clean(heap, At(r), {}).0 == Some(Map([Entry(k1, List([Leaf(p)]))]))
      && Unfold(heap, rank, At(r), 2) == Some(Map([Entry(k1, List([Leaf(p)])), Entry(k2, List([Leaf(p)]))]))
  {
    var heap, rank := OneArrayTwice(r, a, k1, k2, p), map[r := 1, a := 0];
    var fields, none: set<Ref> := heap[r].fields, {};
    var start, tree := none + {r}, List([Leaf(p)]);
    var both, rest := start + {a}, fields[1..];
    OneItemArray(heap, rank, a, p, start, 1);
    assert rest == [(k2, At(a))] && rest[1..] == [];
    assert CleanFields(heap, rest[1..], both) == ([], both);
    assert Clean(heap, rest[0].1, both) == (None, both);
    assert CleanFields(heap, rest, both).0 == [];
    assert CleanFields(heap, fields, start).0 == [Entry(k1, tree)];
    assert Clean(heap, At(r), none).0 == Some(Map([Entry(k1, tree)]));
    assert rank[r] == 1 && heap[r] == Record(fields);
    assert UnfoldFields(heap, rank, rest, 1) == [Entry(k2, tree)];
    assert UnfoldFields(heap, rank, fields, 1) == [Entry(k1, tree)] + [Entry(k2, tree)] == [Entry(k1, tree), Entry(k2, tree)];
    assert Unfold(heap, rank, At(r), 2) == Some(Map(UnfoldFields(heap, rank, fields, rank[r])));
  }

  /** A record that refers to itself: the reference is gone, the record is not. */
  lemma BackReferenceIsCut(r: Ref, k1: string, k2: string, p: int)
    requires k1 != "parent" && k2 != "parent"
    ensures var heap := map[r := Record([(k1, At(r)), (k2, Prim(p))])];
      Clean(heap, At(r), {}).0 == Some(Map([Entry(k2, Leaf(p))]))
  {
    var heap: Heap, none: set<Ref> := map[r := Record([(k1, At(r)), (k2, Prim(p))])], {};
    var fields, on := heap[r].fields, none + {r};
    var rest := fields[1..];
    assert rest == [(k2, Prim(p))] && rest[1..] == [] && r in on;
    assert Clean(heap, At(r), on) == (None, on);
    assert CleanFields(heap, rest[1..], on) == ([], on);
    assert Clean(heap, Prim(p), on) == (Some(Leaf(p)), on);
    assert [Entry(k2, Leaf(p))] + [] == [Entry(k2, Leaf(p))];
    assert CleanFields(heap, rest, on).0 == [Entry(k2, Leaf(p))];
    assert [] + [Entry(k2, Leaf(p))] == [Entry(k2, Leaf(p))];
    assert CleanFields(heap, fields, on).0 == [Entry(k2, Leaf(p))];
    assert Clean(heap, At(r), none).0 == Some(Map(CleanFields(heap, fields, on).0));
  }

  // ---------------------------------------------------------------- the recursion as it is written

  class Cleaner {
    const heap: Heap
    var visited: set<Ref>

    constructor (heap: Heap)
      ensures this.heap == heap && visited == {}
    {
      this.heap := heap;
      visited := {};
    }

    method RemoveCircularRefs(v: Value) returns (t: Option<Tree>)
      modifies this
      ensures (t, visited) == Clean(heap, v, old(visited))
      decreases heap.Keys - visited, 1
    {
      match v
      case Prim(p) => return Some(Leaf(p));
      case Undefined => return None;
      case At(ref) =>
        if ref in visited || ref !in heap { return None; }
        assert ref in heap.Keys - visited;
        visited := visited + {ref};
        match heap[ref]
        case Array(items) =>
          var mapped := CleanArray(items);
          return Some(List(mapped));
        case Record(fields) =>
          var result := CleanRecord(fields);
          visited := visited - {ref};
          return Some(Map(result));
    }

    /** map and filter over the items of an array. */
    method CleanArray(items: seq<Value>) returns (mapped: seq<Tree>)
      modifies this
      ensures mapped == CleanItems(heap, items, old(visited)).0 && visited == CleanItems(heap, items, old(visited)).1
      decreases heap.Keys - visited, 2
    {
      mapped := [];
      ghost var goal := CleanItems(heap, items, visited);
      var i := 0;
      assert items[0..] == items;
      while i < |items|
        invariant i <= |items| && old(visited) <= visited
        invariant goal.0 == mapped + CleanItems(heap, items[i..], visited).0
        invariant goal.1 == CleanItems(heap, items[i..], visited).1
      {
        ghost var rest := items[i..];
        assert rest[0] == items[i] && rest[1..] == items[i + 1..];
        var cleaned := RemoveCircularRefs(items[i]);
        if cleaned.Some? { mapped := mapped + [cleaned.value]; }
        i := i + 1;
      }
      assert items[i..] == [] && mapped + [] == mapped;
    }

    /** The loop over the entries of a record. */
    method CleanRecord(fields: seq<(string, Value)>) returns (result: seq<Entry>)
      modifies this
      ensures result == CleanFields(heap, fields, old(visited)).0 && visited == CleanFields(heap, fields, old(visited)).1
      decreases heap.Keys - visited, 2
    {
      result := [];
      ghost var goal := CleanFields(heap, fields, visited);
      var i := 0;
      assert fields[0..] == fields;
      while i < |fields|
        invariant i <= |fields| && old(visited) <= visited
        invariant goal.0 == result + CleanFields(heap, fields[i..], visited).0
        invariant goal.1 == CleanFields(heap, fields[i..], visited).1
      {
        ghost var rest := fields[i..];
        assert rest[0] == fields[i] && rest[1..] == fields[i + 1..];
        var (key, value) := fields[i];
        i := i + 1;
        if key == "parent" { continue; }
        var cleaned := RemoveCircularRefs(value);
        if cleaned.Some? { result := result + [Entry(key, cleaned.value)]; }
      }
      assert fields[i..] == [] && result + [] == result;
    }
  }
}
