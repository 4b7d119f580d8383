/**
 The LRU cache over an insertion-ordered map, and the two lookups cached in it: compiled
 validators and schema getters found by path.
 */
module SchemaCache {
  import opened Common
  import opened Joining

  /** An insertion-ordered map: entries oldest first, keys distinct. */
  type Entries<K, V> = seq<(K, V)>

  function Keys<K, V>(es: Entries<K, V>): (r: seq<K>)
    ensures |r| == |es|
  {
    seq(|es|, i requires 0 <= i < |es| => es[i].0)
  }

  function Lookup<K(==), V>(es: Entries<K, V>, key: K): Option<V> {
    if es == [] then None else if es[0].0 == key then Some(es[0].1) else Lookup(es[1..], key)
  }

  function Delete<K(==), V>(es: Entries<K, V>, key: K): Entries<K, V> {
    if es == [] then [] else (if es[0].0 == key then [] else [es[0]]) + Delete(es[1..], key)
  }

  function Get<K(==), V>(es: Entries<K, V>, key: K): (Entries<K, V>, Option<V>) {
    match Lookup(es, key)
    case None => (es, None)
    case Some(v) => (Delete(es, key) + [(key, v)], Some(v))
  }

  function Set<K(==), V>(es: Entries<K, V>, limit: int, key: K, value: V): Entries<K, V> {
    (if Lookup(es, key).Some? then Delete(es, key)
     else if |es| >= limit && es != [] then es[1..] else es) + [(key, value)]
  }

  // ---------------------------------------------------------------- against the trace of uses

  datatype Op<K, V> = GetOp(key: K) | SetOp(key: K, value: V)

  function Apply<K(==), V>(es: Entries<K, V>, limit: int, op: Op<K, V>): Entries<K, V> {
    if op.GetOp? then Get(es, op.key).0 else Set(es, limit, op.key, op.value)
  }

  /** The cache after a sequence of operations on an empty one. */
  function After<K(==), V>(ops: seq<Op<K, V>>, limit: int): Entries<K, V> {
    if ops == [] then [] else Apply(After(ops[..|ops| - 1], limit), limit, ops[|ops| - 1])
  }

  /** An operation uses its key if it sets it or finds it. */
  predicate Used<K(==), V>(es: Entries<K, V>, op: Op<K, V>) {
    op.SetOp? || Lookup(es, op.key).Some?
  }

  function Uses<K(==), V>(ops: seq<Op<K, V>>, limit: int): seq<K> {
    if ops == [] then []
    else
      var init := ops[..|ops| - 1];
      Uses(init, limit) + if Used(After(init, limit), ops[|ops| - 1]) then [ops[|ops| - 1].key] else []
  }

  function Drop<K(==)>(s: seq<K>, k: K): seq<K> {
    if s == [] then [] else (if s[0] == k then [] else [s[0]]) + Drop(s[1..], k)
  }

  /** The distinct keys of a trace in the order of their last use. */
  function Recent<K(==)>(uses: seq<K>): seq<K> {
    if uses == [] then []
    else Drop(Recent(uses[..|uses| - 1]), uses[|uses| - 1]) + [uses[|uses| - 1]]
  }

  function Newest<K>(s: seq<K>, n: int): seq<K> {
    if |s| <= n then s else if n <= 0 then [] else s[|s| - n..]
  }

  /** How many entries a cache of this limit can hold: never less than one. */
  function Capacity(limit: int): int {
    if limit > 1 then limit else 1
  }

  predicate Distinct<K(==)>(s: seq<K>) {
    forall i, j :: 0 <= i < j < |s| ==> s[i] != s[j]
  }

  lemma {:induction false} LookupHas<K, V>(es: Entries<K, V>, key: K)
    ensures Lookup(es, key).Some? <==> key in Keys(es)
  {
    if es != [] {
      LookupHas(es[1..], key);
      assert Keys(es) == [es[0].0] + Keys(es[1..]);
    }
  }

  lemma {:induction false} DeleteKeys<K, V>(es: Entries<K, V>, key: K)
    ensures Keys(Delete(es, key)) == Drop(Keys(es), key)
  {
    if es != [] {
      DeleteKeys(es[1..], key);
      assert Keys(es)[1..] == Keys(es[1..]);
      assert Keys([es[0]] + Delete(es[1..], key)) == [es[0].0] + Keys(Delete(es[1..], key));
    }
  }

  lemma {:induction false} DropMembers<K>(s: seq<K>, k: K)
    ensures forall x :: x in Drop(s, k) <==> x in s && x != k
    ensures Distinct(s) ==> Distinct(Drop(s, k))
    ensures |Drop(s, k)| <= |s|
    ensures k !in s ==> Drop(s, k) == s
    ensures Distinct(s) && k in s ==> |Drop(s, k)| == |s| - 1
  {
    if s != [] {
      DropMembers(s[1..], k);
      assert forall x :: x in s <==> x == s[0] || x in s[1..];
      var rest := Drop(s[1..], k);
      if Distinct(s) {
        assert Distinct(s[1..]);
        forall j | 0 <= j < |rest| ensures rest[j] != s[0] {
          assert rest[j] in rest;
        }
      }
    }
  }

  lemma {:induction false} DropConcat<K>(a: seq<K>, b: seq<K>, k: K)
    ensures Drop(a + b, k) == Drop(a, k) + Drop(b, k)
  {
    if a == [] {
      assert a + b == b;
    } else {
      assert (a + b)[1..] == a[1..] + b;
      DropConcat(a[1..], b, k);
    }
  }

  lemma {:induction false} RecentDistinct<K>(uses: seq<K>)
    ensures Distinct(Recent(uses))
    ensures forall x :: x in Recent(uses) <==> x in uses
  {
    if uses != [] {
      var init, k := uses[..|uses| - 1], uses[|uses| - 1];
      assert uses == init + [k];
      RecentDistinct(init);
      DropMembers(Recent(init), k);
    }
  }

  lemma DistinctHalves<K>(head: seq<K>, tail: seq<K>, k: K)
    requires Distinct(head + tail) && k in tail
    ensures k !in head && Distinct(tail)
  {
    var all := head + tail;
    var i :| 0 <= i < |tail| && tail[i] == k;
    assert all[|head| + i] == k;
    forall j | 0 <= j < |head| ensures head[j] != k { assert all[j] == head[j]; }
    forall x, y | 0 <= x < y < |tail| ensures tail[x] != tail[y] {
      assert all[|head| + x] == tail[x] && all[|head| + y] == tail[y];
    }
  }

  lemma NewestAfterHit<K>(head: seq<K>, tail: seq<K>, k: K, n: nat)
    requires Distinct(head + tail) && k in tail && (|tail| == n || (|tail| <= n && head == []))
    ensures Newest(Drop(head + tail, k) + [k], n) == Drop(tail, k) + [k]
  {
    DistinctHalves(head, tail, k);
    DropConcat(head, tail, k);
    DropMembers(head, k);
    DropMembers(tail, k);
    Regroup(head, Drop(tail, k), [k]);
    NewestIs(head, Drop(tail, k) + [k], n);
  }

  lemma NewestIs<K>(head: seq<K>, tail: seq<K>, n: nat)
    requires |tail| == n || (|tail| <= n && head == [])
    ensures Newest(head + tail, n) == tail
  {
  }

  lemma NewestAfterMiss<K>(head: seq<K>, tail: seq<K>, k: K, n: nat)
    requires k !in tail && n >= 1 && (|tail| == n || (|tail| < n && head == []))
    ensures Newest(Drop(head + tail, k) + [k], n) == (if |tail| == n then tail[1..] else tail) + [k]
  {
    DropConcat(head, tail, k);
    DropMembers(tail, k);
    if |tail| == n {
      var h := Drop(head, k) + [tail[0]];
      assert Drop(head, k) + tail + [k] == h + (tail[1..] + [k]);
    } else {
      assert Drop(head + tail, k) == tail;
    }
  }

  lemma SplitNewest<K>(all: seq<K>, n: nat) returns (head: seq<K>, tail: seq<K>)
    ensures all == head + tail && tail == Newest(all, n)
    ensures |tail| == n || (|tail| < n && head == [])
    ensures |all| >= n <==> |tail| == n
  {
    tail := Newest(all, n);
    head := all[..|all| - |tail|];
  }

  /** The cache is exactly the most recently used keys, oldest first: whatever the operations, its
      keys are the last `limit` (at least one) of the distinct keys in the order of last use. */
  lemma {:induction false} LruKeepsMostRecent<K, V>(ops: seq<Op<K, V>>, limit: int)
    ensures Keys(After(ops, limit)) == Newest(Recent(Uses(ops, limit)), Capacity(limit))
  {
    if ops == [] {
      assert Keys<K, V>([]) == [];
    } else {
      var init, op := ops[..|ops| - 1], ops[|ops| - 1];
      var es, uses := After(init, limit), Uses(init, limit);
      LruKeepsMostRecent(init, limit);
      RecentDistinct(uses);
      LookupHas(es, op.key);
      if Used(es, op) {
        assert Uses(ops, limit) == uses + [op.key];
        assert (uses + [op.key])[..|uses + [op.key]| - 1] == uses;
        assert Recent(uses + [op.key]) == Drop(Recent(uses), op.key) + [op.key];
        var head, tail := SplitNewest((Recent(uses)), (Capacity(limit)));
        if op.key in tail { NewestAfterHit(head, tail, op.key, (Capacity(limit))); } else { NewestAfterMiss(head, tail, op.key, (Capacity(limit))); }
        UseKeys(es, limit, op);
        assert |es| == |Keys(es)|;
      } else {
        assert Uses(ops, limit) == uses;
      }
    }
  }

  lemma UseKeys<K, V>(es: Entries<K, V>, limit: int, op: Op<K, V>)
    requires Used(es, op)
    ensures Keys(Apply(es, limit, op)) ==
      (if op.key in Keys(es) then Drop(Keys(es), op.key)
       else if |es| >= limit && es != [] then Keys(es)[1..] else Keys(es)) + [op.key]
  {
    LookupHas(es, op.key);
    DeleteKeys(es, op.key);
    var base := if Lookup(es, op.key).Some? then Delete(es, op.key)
                else if |es| >= limit && es != [] then es[1..] else es;
    var v := if op.SetOp? then op.value else Lookup(es, op.key).value;
    assert Apply(es, limit, op) == base + [(op.key, v)];
    assert Keys(base + [(op.key, v)]) == Keys(base) + [op.key];
  }

  /** The value a key was given last. */
  function LastSet<K(==), V>(ops: seq<Op<K, V>>, key: K): Option<V> {
    if ops == [] then None
    else
      var op := ops[|ops| - 1];
      if op.SetOp? && op.key == key then Some(op.value) else LastSet(ops[..|ops| - 1], key)
  }

  lemma {:induction false} LookupDelete<K, V>(es: Entries<K, V>, key: K, x: K)
    ensures Lookup(Delete(es, key), x) == if x == key then None else Lookup(es, x)
  {
    if es != [] {
      LookupDelete(es[1..], key, x);
      var rest := Delete(es[1..], key);
      if es[0].0 != key { assert ([es[0]] + rest)[1..] == rest; } else { assert [] + rest == rest; }
    }
  }

  lemma {:induction false} LookupAppend<K, V>(es: Entries<K, V>, key: K, v: V, x: K)
    ensures Lookup(es + [(key, v)], x) == if Lookup(es, x).Some? then Lookup(es, x) else if x == key then Some(v) else None
  {
    if es == [] {
      assert es + [(key, v)] == [(key, v)] && [(key, v)][1..] == [];
    } else {
      assert (es + [(key, v)])[1..] == es[1..] + [(key, v)];
      LookupAppend(es[1..], key, v, x);
    }
  }

  lemma KeysDistinct<K, V>(ops: seq<Op<K, V>>, limit: int)
    ensures Distinct(Keys(After(ops, limit)))
  {
    LruKeepsMostRecent(ops, limit);
    RecentDistinct(Uses(ops, limit));
  }

  /** A key found in the cache has the value it was set to last, through any evictions and rewrites. */
  lemma {:induction false} FoundIsLastSet<K, V>(ops: seq<Op<K, V>>, limit: int, key: K)
    ensures Lookup(After(ops, limit), key).Some? ==> Lookup(After(ops, limit), key) == LastSet(ops, key)
  {
    if ops != [] {
      var init, op := ops[..|ops| - 1], ops[|ops| - 1];
      var es := After(init, limit);
      FoundIsLastSet(init, limit, key);
      LookupDelete(es, op.key, key);
      if Used(es, op) {
        var v := if op.SetOp? then op.value else Lookup(es, op.key).value;
        var base := if Lookup(es, op.key).Some? then Delete(es, op.key) else if |es| >= limit && es != [] then es[1..] else es;
        LookupAppend(base, op.key, v, key);
        KeysDistinct(init, limit);
        if es != [] && Lookup(es[1..], key).Some? { EvictedLookup(es, key); }
        assert After(ops, limit) == base + [(op.key, v)];
      }
    }
  }

  lemma EvictedLookup<K, V>(es: Entries<K, V>, key: K)
    requires Distinct(Keys(es)) && es != [] && Lookup(es[1..], key).Some?
    ensures Lookup(es[1..], key) == Lookup(es, key)
  {
    LookupHas(es[1..], key);
    assert Keys(es) == [es[0].0] + Keys(es[1..]);
    var i :| 0 <= i < |es[1..]| && Keys(es[1..])[i] == key;
    var keys := Keys(es);
    assert keys[0] == es[0].0 && keys[i + 1] == key && keys[0] != keys[i + 1];
  }

  // ---------------------------------------------------------------- cached lookups

  /** A request looked up under its key; what cannot be computed is not cached. */
  function Cached<R, K(==), V>(es: Entries<K, V>, limit: int, r: R, key: R -> K, compute: R -> Option<V>): (Entries<K, V>, Option<V>) {
    var (es', hit) := Get(es, key(r));
    if hit.Some? then (es', hit)
    else
      match compute(r)
      case None => (es', None)
      case Some(v) => (Set(es', limit, key(r), v), Some(v))
  }

  /** Every cached value is what computing any admitted request with its key anew gives. */
  ghost predicate Faithful<R(!new), K, V>(es: Entries<K, V>, admitted: R -> bool, key: R -> K, compute: R -> Option<V>) {
    forall i, r :: 0 <= i < |es| && admitted(r) && key(r) == es[i].0 ==> compute(r) == Some(es[i].1)
  }

  /** Admitted requests with one key compute the same. */
  ghost predicate NoClash<R(!new), K, V>(admitted: R -> bool, key: R -> K, compute: R -> Option<V>) {
    forall r, q :: admitted(r) && admitted(q) && key(r) == key(q) ==> compute(r) == compute(q)
  }

  lemma {:induction false} LookupFinds<K, V>(es: Entries<K, V>, key: K)
    ensures Lookup(es, key).Some? ==> exists i :: 0 <= i < |es| && es[i] == (key, Lookup(es, key).value)
    ensures forall x :: x in Delete(es, key) ==> x in es
  {
    if es != [] {
      LookupFinds(es[1..], key);
      if es[0].0 != key && Lookup(es[1..], key).Some? {
        var i :| 0 <= i < |es[1..]| && es[1..][i] == (key, Lookup(es[1..], key).value);
        assert es[i + 1] == (key, Lookup(es, key).value);
      }
    }
  }

  lemma SubsetFaithful<R(!new), K, V>(es: Entries<K, V>, fs: Entries<K, V>, admitted: R -> bool, key: R -> K, compute: R -> Option<V>)
    requires Faithful(es, admitted, key, compute) && forall x :: x in fs ==> x in es
    ensures Faithful(fs, admitted, key, compute)
  {
    forall i, r | 0 <= i < |fs| && admitted(r) && key(r) == fs[i].0 ensures compute(r) == Some(fs[i].1) {
      assert fs[i] in es;
      var j :| 0 <= j < |es| && es[j] == fs[i];
    }
  }

  lemma AppendFaithful<R(!new), K, V>(es: Entries<K, V>, r: R, v: V, admitted: R -> bool, key: R -> K, compute: R -> Option<V>)
    requires Faithful(es, admitted, key, compute) && NoClash(admitted, key, compute)
    requires admitted(r) && compute(r) == Some(v)
    ensures Faithful(es + [(key(r), v)], admitted, key, compute)
  {
  }

  /** A cached lookup answers what a fresh computation would, hit or miss, and stays faithful. */
  lemma CachedIsComputed<R(!new), K, V>(es: Entries<K, V>, limit: int, r: R, admitted: R -> bool, key: R -> K, compute: R -> Option<V>)
    requires Faithful(es, admitted, key, compute) && NoClash(admitted, key, compute) && admitted(r)
    ensures Cached(es, limit, r, key, compute).1 == compute(r)
    ensures Faithful(Cached(es, limit, r, key, compute).0, admitted, key, compute)
  {
    var k := key(r);
    LookupFinds(es, k);
    SubsetFaithful(es, Delete(es, k), admitted, key, compute);
    if Lookup(es, k).Some? {
      var i :| 0 <= i < |es| && es[i] == (k, Lookup(es, k).value);
      AppendFaithful(Delete(es, k), r, Lookup(es, k).value, admitted, key, compute);
    } else if compute(r).Some? {
      var base := if |es| >= limit && es != [] then es[1..] else es;
      SubsetFaithful(es, base, admitted, key, compute);
      AppendFaithful(base, r, compute(r).value, admitted, key, compute);
    }
  }

  function Answers<R, K(==), V>(es: Entries<K, V>, limit: int, rs: seq<R>, key: R -> K, compute: R -> Option<V>): seq<Option<V>>
    decreases |rs|
  {
    if rs == [] then []
    else
      var (es', v) := Cached(es, limit, rs[0], key, compute);
      [v] + Answers(es', limit, rs[1..], key, compute)
  }

  function Fresh<R, V>(rs: seq<R>, compute: R -> Option<V>): (r: seq<Option<V>>)
    ensures |r| == |rs|
  {
    seq(|rs|, i requires 0 <= i < |rs| => compute(rs[i]))
  }

  predicate AllAdmitted<R>(rs: seq<R>, admitted: R -> bool) {
    forall i :: 0 <= i < |rs| ==> admitted(rs[i])
  }

  lemma {:induction false} AnswersAreFresh<R(!new), K, V>(es: Entries<K, V>, limit: int, rs: seq<R>, admitted: R -> bool, key: R -> K, compute: R -> Option<V>)
    requires Faithful(es, admitted, key, compute) && NoClash(admitted, key, compute) && AllAdmitted(rs, admitted)
    ensures Answers(es, limit, rs, key, compute) == Fresh(rs, compute)
    decreases |rs|
  {
    if rs != [] {
      CachedIsComputed(es, limit, rs[0], admitted, key, compute);
      AnswersAreFresh(Cached(es, limit, rs[0], key, compute).0, limit, rs[1..], admitted, key, compute);
      FreshHead(rs, compute);
    }
  }

  lemma FreshHead<R, V>(rs: seq<R>, compute: R -> Option<V>)
    requires rs != []
    ensures Fresh(rs, compute) == [compute(rs[0])] + Fresh(rs[1..], compute)
  {
  }

  /** After a request that computed something, another one with its key gets the same answer. */
  lemma SecondIsTheSame<R, K, V>(limit: int, r: R, q: R, key: R -> K, compute: R -> Option<V>)
    requires key(r) == key(q) && compute(r).Some?
    ensures Answers<R, K, V>([], limit, [r, q], key, compute) == [compute(r), compute(r)]
  {
    var none: Entries<K, V> := [];
    var (es, first) := Cached(none, limit, r, key, compute);
    assert es == [(key(r), compute(r).value)] && first == compute(r);
    assert [r, q][1..] == [q] && [q][1..] == [];
    var (fs, second) := Cached(es, limit, q, key, compute);
    assert second == compute(r);
    assert Answers(fs, limit, [q][1..], key, compute) == [];
    assert Answers(es, limit, [q], key, compute) == [second];
  }

  /** Every sequence of admitted requests to an empty cache is answered as if computed anew. */
  ghost predicate AlwaysFresh<R(!new), K, V>(limit: int, admitted: R -> bool, key: R -> K, compute: R -> Option<V>) {
    forall rs :: AllAdmitted(rs, admitted) ==> Answers<R, K, V>([], limit, rs, key, compute) == Fresh(rs, compute)
  }

  lemma ClashShows<R(!new), K, V>(limit: int, r: R, q: R, admitted: R -> bool, key: R -> K, compute: R -> Option<V>)
    requires admitted(r) && admitted(q) && key(r) == key(q) && compute(r) != compute(q) && compute(r).Some?
    ensures !AlwaysFresh(limit, admitted, key, compute)
  {
    SecondIsTheSame(limit, r, q, key, compute);
    assert AllAdmitted([r, q], admitted);
    assert Fresh([r, q], compute)[1] == compute(q);
  }

  /** The exact condition for a cache whose key is derived from the request: every sequence of
      requests, evictions included, is answered as if computed anew if and only if no two admitted
      requests share a key and compute differently. For validators the request is a schema, the key
      its serialised text, and computing is compiling. */
  lemma AlwaysFreshIff<R(!new), K, V>(limit: int, admitted: R -> bool, key: R -> K, compute: R -> Option<V>)
    ensures AlwaysFresh(limit, admitted, key, compute) <==> NoClash(admitted, key, compute)
  {
    if NoClash(admitted, key, compute) {
      forall rs | AllAdmitted(rs, admitted)
        ensures Answers<R, K, V>([], limit, rs, key, compute) == Fresh(rs, compute)
      {
        AnswersAreFresh([], limit, rs, admitted, key, compute);
      }
    } else {
      var r, q :| admitted(r) && admitted(q) && key(r) == key(q) && compute(r) != compute(q);
      if compute(r).Some? {
        ClashShows(limit, r, q, admitted, key, compute);
      } else {
        ClashShows(limit, q, r, admitted, key, compute);
      }
    }
  }

  // ---------------------------------------------------------------- schema paths

  datatype Node = Module(children: map<string, Node>) | Getter(id: nat)

  /** The parts of an entity path between dots. */
  function Parts(path: string): (r: seq<string>)
    ensures |r| >= 1
  {
    if path == "" then [""]
    else
      var rest := Parts(path[1..]);
      if path[0] == '.' then [""] + rest else [[path[0]] + rest[0]] + rest[1..]
  }

  /** Parts put together again with a dot between two. */
  function Joined(parts: seq<string>): string {
    if parts == [] then "" else if |parts| == 1 then parts[0] else parts[0] + "." + Joined(parts[1..])
  }

  /** Splitting a path and joining parts are inverse: the parts of a path have no dots and join to
      it, and dot-free parts are what their joint path splits into. */
  lemma {:induction false} PartsJoin(path: string)
    ensures Joined(Parts(path)) == path
    ensures forall i :: 0 <= i < |Parts(path)| ==> DotFree(Parts(path)[i])
  {
    if path != "" {
      var rest := Parts(path[1..]);
      PartsJoin(path[1..]);
      if path[0] == '.' {
        assert ([""] + rest)[1..] == rest;
        assert Joined([""] + rest) == "" + "." + Joined(rest);
      } else {
        JoinedPrefix(path[0], rest);
      }
    }
  }

  lemma PrefixAssoc(c: char, head: string, tail: string)
    ensures ([c] + head) + "." + tail == [c] + (head + "." + tail)
  {
  }

  lemma JoinedPrefix(c: char, parts: seq<string>)
    requires |parts| >= 1
    ensures Joined([[c] + parts[0]] + parts[1..]) == [c] + Joined(parts)
  {
    var head, rest := [c] + parts[0], parts[1..];
    var more := [head] + rest;
    assert more[1..] == rest && more[0] == head && |more| == |parts|;
    if |parts| > 1 {
      PrefixAssoc(c, parts[0], Joined(rest));
      assert Joined(more) == head + "." + Joined(rest);
    }
  }

  lemma {:induction false} JoinedParts(parts: seq<string>)
    requires |parts| >= 1 && forall i :: 0 <= i < |parts| ==> DotFree(parts[i])
    ensures Parts(Joined(parts)) == parts
    decreases |parts|, |parts[0]|
  {
    if parts[0] == "" {
      if |parts| == 1 {
        assert parts == [""];
      } else {
        JoinedParts(parts[1..]);
        assert Joined(parts)[1..] == Joined(parts[1..]);
        assert [""] + parts[1..] == parts;
      }
    } else {
      var c, shorter := parts[0][0], [parts[0][1..]] + parts[1..];
      assert c in parts[0];
      assert DotFree(shorter[0]) by { assert forall x :: x in parts[0][1..] ==> x in parts[0]; }
      JoinedParts(shorter);
      JoinedPrefix(c, shorter);
      assert [c] + shorter[0] == parts[0] && shorter[1..] == parts[1..];
      assert [[c] + shorter[0]] + shorter[1..] == parts;
      assert Joined(parts)[1..] == Joined(shorter);
    }
  }

  function Walk(tree: Node, parts: seq<string>): Option<Node>
    decreases |parts|
  {
    if parts == [] then Some(tree)
    else if tree.Getter? || parts[0] !in tree.children then None
    else Walk(tree.children[parts[0]], parts[1..])
  }

  /** The getter of an action of an entity, if the tree has one. */
  function Resolve(tree: Node, entity: string, action: string): Option<nat> {
    match Walk(tree, Parts(entity))
    case None => None
    case Some(m) =>
      var name := action + "Schema";
      if m.Module? && name in m.children && m.children[name].Getter? then Some(m.children[name].id) else None
  }

  /** The nodes on the way along these parts, from the tree itself to where they lead. */
  predicate Leads(tree: Node, parts: seq<string>, nodes: seq<Node>) {
    && |nodes| == |parts| + 1 && nodes[0] == tree
    && forall i :: 0 <= i < |parts| ==>
         nodes[i].Module? && parts[i] in nodes[i].children && nodes[i + 1] == nodes[i].children[parts[i]]
  }

  lemma {:induction false} WalkLeads(tree: Node, parts: seq<string>)
    ensures Walk(tree, parts).Some? ==> exists nodes :: Leads(tree, parts, nodes) && nodes[|parts|] == Walk(tree, parts).value
    decreases |parts|
  {
    if parts == [] {
      assert Leads(tree, parts, [tree]);
    } else if tree.Module? && parts[0] in tree.children && Walk(tree, parts).Some? {
      var next := tree.children[parts[0]];
      WalkLeads(next, parts[1..]);
      var rest :| Leads(next, parts[1..], rest) && rest[|parts| - 1] == Walk(tree, parts).value;
      assert Leads(tree, parts, [tree] + rest);
    }
  }

  lemma {:induction false} LeadsIsWalked(tree: Node, parts: seq<string>, nodes: seq<Node>)
    requires Leads(tree, parts, nodes)
    ensures Walk(tree, parts) == Some(nodes[|parts|])
    decreases |parts|
  {
    if parts != [] {
      assert Leads(nodes[1], parts[1..], nodes[1..]);
      LeadsIsWalked(nodes[1], parts[1..], nodes[1..]);
    }
  }

  /** The getter found is the one that stands at the end of the path, under the action's name with
      "Schema" behind it; none is found exactly if none stands there. */
  lemma ResolvedIff(tree: Node, entity: string, action: string, id: nat)
    ensures Resolve(tree, entity, action) == Some(id) <==>
      exists nodes :: Leads(tree, Parts(entity), nodes) && HasGetter(nodes[|Parts(entity)|], action + "Schema", id)
  {
    WalkLeads(tree, Parts(entity));
    if nodes :| Leads(tree, Parts(entity), nodes) && HasGetter(nodes[|Parts(entity)|], action + "Schema", id) {
      LeadsIsWalked(tree, Parts(entity), nodes);
    }
  }

  predicate HasGetter(node: Node, name: string, id: nat) {
    node.Module? && name in node.children && node.children[name] == Getter(id)
  }

  datatype Request = Request(entity: string, action: string)

  function PathKey(r: Request): string {
    Join(r.entity, '.', r.action + "Schema")
  }

  function ResolverOf(tree: Node): Request -> Option<nat> {
    (r: Request) => Resolve(tree, r.entity, r.action)
  }

  predicate DotFree(s: string) {
    '.' !in s
  }

  predicate DotFreeAction(r: Request) {
    DotFree(r.action)
  }

  /** Two requests with one key: the longer entity goes on with a dot and a middle part, and the
      action of the other one is that part, a dot and the shorter action. */
  lemma SharedKey(r: Request, q: Request) returns (mid: string)
    requires PathKey(r) == PathKey(q) && r != q && |r.entity| <= |q.entity|
    ensures q.entity == Join(r.entity, '.', mid) && r.action == Join(mid, '.', q.action) && !DotFreeAction(r)
  {
    var t, u := r.action + "Schema", q.action + "Schema";
    if |r.entity| == |q.entity| {
      SameHead(r.entity, t, q.entity, u, '.');
      CutTail(r.action, q.action, "Schema");
    }
    mid := LongerHead(r.entity, t, q.entity, u, '.');
    JoinTail(mid, q.action, "Schema", '.');
    CutTail(r.action, Join(mid, '.', q.action), "Schema");
    assert r.action[|mid|] == '.';
  }

  lemma CacheKeyInjective(r: Request, q: Request)
    requires DotFreeAction(r) && DotFreeAction(q) && PathKey(r) == PathKey(q)
    ensures r == q
  {
    if r != q {
      if |r.entity| <= |q.entity| {
        var _ := SharedKey(r, q);
      } else {
        var _ := SharedKey(q, r);
      }
    }
  }

  /** On a fixed schema tree and for actions without a dot, the cached path lookup answers what
      walking the tree anew answers, and stays right. */
  lemma CachedPathIsResolved(es: Entries<string, nat>, limit: int, tree: Node, r: Request)
    requires Faithful(es, DotFreeAction, PathKey, ResolverOf(tree)) && DotFreeAction(r)
    ensures Cached(es, limit, r, PathKey, ResolverOf(tree)).1 == Resolve(tree, r.entity, r.action)
    ensures Faithful(Cached(es, limit, r, PathKey, ResolverOf(tree)).0, DotFreeAction, PathKey, ResolverOf(tree))
  {
    forall p, q | DotFreeAction(p) && DotFreeAction(q) && PathKey(p) == PathKey(q)
      ensures ResolverOf(tree)(p) == ResolverOf(tree)(q)
    {
      CacheKeyInjective(p, q);
    }
    CachedIsComputed(es, limit, r, DotFreeAction, PathKey, ResolverOf(tree));
  }

  // ---------------------------------------------------------------- when the path cache is right

  /** A tree with one getter, at the end of these parts. */
  function TreeOf(parts: seq<string>, name: string): Node {
    if parts == [] then Module(map[name := Getter(0)]) else Module(map[parts[0] := TreeOf(parts[1..], name)])
  }

  lemma {:induction false} WalkPart(a: seq<string>, b: seq<string>, name: string)
    ensures Walk(TreeOf(a + b, name), a) == Some(TreeOf(b, name))
  {
    if a == [] {
      assert a + b == b;
    } else {
      assert (a + b)[1..] == a[1..] + b;
      WalkPart(a[1..], b, name);
    }
  }

  lemma {:induction false} PartsConcat(a: string, b: string)
    ensures Parts(Join(a, '.', b)) == Parts(a) + Parts(b)
  {
    var s := Join(a, '.', b);
    if a == "" {
      assert s[1..] == b;
    } else {
      PartsConcat(a[1..], b);
      assert s[0] == a[0] && s[1..] == Join(a[1..], '.', b);
      PrependPart(a[0], Parts(a[1..]), Parts(b));
    }
  }

  lemma PrependPart(c: char, x: seq<string>, y: seq<string>)
    requires x != []
    ensures [""] + (x + y) == ([""] + x) + y
    ensures [[c] + (x + y)[0]] + (x + y)[1..] == ([[c] + x[0]] + x[1..]) + y
  {
    assert (x + y)[1..] == x[1..] + y;
  }

  /** With a dot in the action two different requests share a cache key, and one of them is answered
      with the getter of the other although the tree holds nothing for it. */
  lemma DottedActionsCollide(limit: int, entity: string, part: string, action: string)
    ensures var r, q := Request(Join(entity, '.', part), action), Request(entity, Join(part, '.', action));
      var tree := TreeOf(Parts(r.entity), action + "Schema");
      && PathKey(r) == PathKey(q)
      && Fresh([r, q], ResolverOf(tree)) == [Some(0), None]
      && Answers<Request, string, nat>([], limit, [r, q], PathKey, ResolverOf(tree)) == [Some(0), Some(0)]
  {
    var r, q := Request(Join(entity, '.', part), action), Request(entity, Join(part, '.', action));
    var name := action + "Schema";
    var tree := TreeOf(Parts(r.entity), name);
    JoinTail(part, action, "Schema", '.');
    JoinRegroup(entity, part, name, '.');
    OneGetter(Parts(r.entity), name);
    NothingElse(entity, part, action);
    SecondIsTheSame(limit, r, q, PathKey, ResolverOf(tree));
  }

  lemma OneGetter(parts: seq<string>, name: string)
    ensures Walk(TreeOf(parts, name), parts) == Some(Module(map[name := Getter(0)]))
  {
    assert parts + [] == parts;
    WalkPart(parts, [], name);
  }

  lemma NothingElse(entity: string, part: string, action: string)
    ensures var tree := TreeOf(Parts(Join(entity, '.', part)), action + "Schema");
      Resolve(tree, entity, Join(part, '.', action)) == None
  {
    var name := action + "Schema";
    PartsConcat(entity, part);
    WalkPart(Parts(entity), Parts(part), name);
    PartsJoin(part);
    var other := Join(part, '.', action) + "Schema";
    assert other[|part|] == '.';
    assert TreeOf(Parts(part), name).children.Keys == {Parts(part)[0]};
  }

  /** The path cache is right for these requests: on every tree and after every history of them. */
  ghost predicate PathsRight(limit: int, admitted: Request -> bool) {
    forall tree :: AlwaysFresh(limit, admitted, PathKey, ResolverOf(tree))
  }

  lemma SharedKeyIsWrong(limit: int, r: Request, q: Request, admitted: Request -> bool)
    requires admitted(r) && admitted(q) && PathKey(r) == PathKey(q) && r != q && |r.entity| <= |q.entity|
    ensures !PathsRight(limit, admitted)
  {
    var mid := SharedKey(r, q);
    var tree := TreeOf(Parts(q.entity), q.action + "Schema");
    DottedActionsCollide(limit, r.entity, mid, q.action);
    assert AllAdmitted([q, r], admitted);
    assert !AlwaysFresh(limit, admitted, PathKey, ResolverOf(tree));
  }

  /** The exact condition for the path cache: on every tree and after every history of admitted
      requests it answers what walking the tree answers if and only if no two of them share a key. */
  lemma PathsRightIff(limit: int, admitted: Request -> bool)
    ensures PathsRight(limit, admitted)
       <==> forall r, q :: admitted(r) && admitted(q) && PathKey(r) == PathKey(q) ==> r == q
  {
    if forall r, q :: admitted(r) && admitted(q) && PathKey(r) == PathKey(q) ==> r == q {
      forall tree ensures AlwaysFresh(limit, admitted, PathKey, ResolverOf(tree)) {
        AlwaysFreshIff(limit, admitted, PathKey, ResolverOf(tree));
      }
    } else {
      var r, q :| admitted(r) && admitted(q) && PathKey(r) == PathKey(q) && r != q;
      if |r.entity| <= |q.entity| {
        SharedKeyIsWrong(limit, r, q, admitted);
      } else {
        SharedKeyIsWrong(limit, q, r, admitted);
      }
    }
  }

  function WithActions(actions: string -> bool): Request -> bool {
    (r: Request) => actions(r.action)
  }

  /** The same in terms of the actions alone, entities being free: right if and only if no action
      ends in a dot and another action. So any set of dot-free actions is safe, and a dotted action
      is harmless only as long as nothing behind one of its dots is an action itself. */
  lemma ActionsRightIff(limit: int, actions: string -> bool)
    ensures PathsRight(limit, WithActions(actions)) <==> forall p, a :: actions(a) ==> !actions(Join(p, '.', a))
    ensures (forall a :: actions(a) ==> DotFree(a)) ==> PathsRight(limit, WithActions(actions))
  {
    var admitted := WithActions(actions);
    PathsRightIff(limit, admitted);
    if !PathsRight(limit, admitted) {
      var r, q :| admitted(r) && admitted(q) && PathKey(r) == PathKey(q) && r != q;
      var mid, a := DottedPair(r, q);
      assert actions(a) && actions(Join(mid, '.', a));
      assert Join(mid, '.', a)[|mid|] == '.';
    }
    if exists p, a :: actions(a) && actions(Join(p, '.', a)) {
      var p, a :| actions(a) && actions(Join(p, '.', a));
      var r, q := Request(Join("x", '.', p), a), Request("x", Join(p, '.', a));
      DottedActionsCollide(limit, "x", p, a);
      assert admitted(r) && admitted(q) && PathKey(r) == PathKey(q) && r != q;
    }
  }

  lemma DottedPair(r: Request, q: Request) returns (mid: string, a: string)
    requires PathKey(r) == PathKey(q) && r != q
    ensures (q.action == a && r.action == Join(mid, '.', a)) || (r.action == a && q.action == Join(mid, '.', a))
  {
    if |r.entity| <= |q.entity| {
      mid := SharedKey(r, q);
      a := q.action;
    } else {
      mid := SharedKey(q, r);
      a := r.action;
    }
  }

  /** The cache object. */
  class LRUCache<K(==), V(==)> {
    const limit: int
    var entries: Entries<K, V>

    constructor (limit: int)
      ensures this.limit == limit && entries == []
    {
      this.limit := limit;
      entries := [];
    }

    method GetValue(key: K) returns (r: Option<V>)
      modifies this
      ensures (entries, r) == Get(old(entries), key)
    {
      r := Lookup(entries, key);
      if r.None? { return; }
      entries := Delete(entries, key);
      entries := entries + [(key, r.value)];
    }

    method SetValue(key: K, value: V)
      modifies this
      ensures entries == Set(old(entries), limit, key, value)
    {
      var has := Lookup(entries, key);
      if has.Some? {
        entries := Delete(entries, key);
      } else if |entries| >= limit && |entries| > 0 {
        entries := entries[1..];
      }
      entries := entries + [(key, value)];
    }

    /** getValidator: look under the key of the request, else compile and remember. */
    method GetOrCompute<R(!new)>(request: R, key: R -> K, compute: R -> Option<V>, ghost admitted: R -> bool) returns (r: Option<V>)
      modifies this
      ensures (entries, r) == Cached(old(entries), limit, request, key, compute)
      ensures Faithful(old(entries), admitted, key, compute) && NoClash(admitted, key, compute) && admitted(request) ==>
        r == compute(request) && Faithful(entries, admitted, key, compute)
    {
      if Faithful(entries, admitted, key, compute) && NoClash(admitted, key, compute) && admitted(request) {
        CachedIsComputed(entries, limit, request, admitted, key, compute);
      }
      var k := key(request);
      r := GetValue(k);
      if r.Some? { return; }
      r := compute(request);
      if r.Some? { SetValue(k, r.value); }
    }
  }

  /** The path lookup of validateEndpoint: a fixed tree of schema modules and a cache of getters. */
  class PathResolver {
    const tree: Node
    const cache: LRUCache<string, nat>

    constructor (tree: Node, limit: int)
      ensures this.tree == tree && fresh(cache) && cache.limit == limit && cache.entries == []
    {
      this.tree := tree;
      cache := new LRUCache(limit);
    }

    /** Follow the parts of a path, one module at a time. */
    method Follow(parts: seq<string>) returns (found: Option<Node>)
      ensures found == Walk(tree, parts)
    {
      var module_ := tree;
      var i := 0;
      assert parts[0..] == parts;
      while i < |parts|
        invariant i <= |parts| && Walk(module_, parts[i..]) == Walk(tree, parts)
      {
        assert parts[i..][0] == parts[i] && parts[i..][1..] == parts[i + 1..];
        if module_.Getter? || parts[i] !in module_.children { return None; }
        module_ := module_.children[parts[i]];
        i := i + 1;
      }
      return Some(module_);
    }

    method FindGetter(entity: string, action: string) returns (getter: Option<nat>)
      modifies cache
      ensures (cache.entries, getter) == Cached(old(cache.entries), cache.limit, Request(entity, action), PathKey, ResolverOf(tree))
      ensures Faithful(old(cache.entries), DotFreeAction, PathKey, ResolverOf(tree)) && DotFree(action) ==>
        && getter == Resolve(tree, entity, action)
        && Faithful(cache.entries, DotFreeAction, PathKey, ResolverOf(tree))
    {
      ghost var before := cache.entries;
      var cacheKey := entity + "." + (action + "Schema");
      assert cacheKey == PathKey(Request(entity, action));
      getter := cache.GetValue(cacheKey);
      if getter.None? {
        var schemaModule := Follow(Parts(entity));
        var name := action + "Schema";
        if schemaModule.Some? && schemaModule.value.Module? && name in schemaModule.value.children
           && schemaModule.value.children[name].Getter? {
          getter := Some(schemaModule.value.children[name].id);
          cache.SetValue(cacheKey, getter.value);
        }
      }
      if Faithful(before, DotFreeAction, PathKey, ResolverOf(tree)) && DotFree(action) {
        CachedPathIsResolved(before, cache.limit, tree, Request(entity, action));
      }
    }
  }
}
