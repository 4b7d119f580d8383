/**
 Immutable cons lists with their length in every cell, against sequences.
 */
module ConsLists {
  import opened Common

  /** A list cell knows the length of the list it starts. */
  datatype List<T> = Nil | Cell(value: T, next: List<T>, size: nat)

  function Size<T>(l: List<T>): nat {
    if l.Nil? then 0 else l.size
  }

  /** Every cell is one longer than its successor. */
  predicate WellFormed<T>(l: List<T>) {
    l.Cell? ==> l.size == Size(l.next) + 1 && WellFormed(l.next)
  }

  function View<T>(l: List<T>): seq<T> {
    if l.Nil? then [] else [l.value] + View(l.next)
  }

  function Prepend<T>(l: List<T>, value: T): List<T> {
    Cell(value, l, Size(l) + 1)
  }

  function Of<T>(values: seq<T>): List<T> {
    if values == [] then Nil else Prepend(Of(values[1..]), values[0])
  }

  lemma {:induction false} SizeIsLength<T>(l: List<T>)
    requires WellFormed(l)
    ensures Size(l) == |View(l)|
  {
    if l.Cell? { SizeIsLength(l.next); }
  }

  lemma {:induction false} ViewOf<T>(values: seq<T>)
    ensures View(Of(values)) == values && WellFormed(Of(values))
  {
    if values != [] { ViewOf(values[1..]); }
  }

  /** fromArray and toArray are inverse on well-formed lists, so a list is its sequence. */
  lemma {:induction false} OfView<T>(l: List<T>)
    requires WellFormed(l)
    ensures Of(View(l)) == l
  {
    if l.Cell? {
      assert View(l)[1..] == View(l.next);
      OfView(l.next);
    }
  }

  function Reversed<T>(s: seq<T>): seq<T> {
    if s == [] then [] else Reversed(s[1..]) + [s[0]]
  }

  lemma {:induction false} ReversedAppend<T>(s: seq<T>, x: T)
    ensures Reversed(s + [x]) == [x] + Reversed(s)
  {
    if s == [] {
      assert s + [x] == [x] && [x][1..] == [];
    } else {
      assert (s + [x])[1..] == s[1..] + [x];
      ReversedAppend(s[1..], x);
    }
  }

  lemma {:induction false} ReversedIsInvolution<T>(s: seq<T>)
    ensures Reversed(Reversed(s)) == s
  {
    if s != [] {
      ReversedIsInvolution(s[1..]);
      ReversedAppend(Reversed(s[1..]), s[0]);
    }
  }

  function Joined<T>(lists: seq<List<T>>): seq<T> {
    if lists == [] then [] else View(lists[0]) + Joined(lists[1..])
  }

  /** Joining runs of lists one after the other is joining them all; one list alone is itself. */
  lemma {:induction false} JoinedConcat<T>(a: seq<List<T>>, b: seq<List<T>>, l: List<T>)
    ensures Joined(a + b) == Joined(a) + Joined(b)
    ensures Joined([l]) == View(l)
  {
    assert [l][1..] == [];
    if a == [] {
      assert a + b == b;
    } else {
      assert (a + b)[1..] == a[1..] + b;
      JoinedConcat(a[1..], b, l);
      Regroup(View(a[0]), Joined(a[1..]), Joined(b));
    }
  }

  method FromArray<T>(values: seq<T>) returns (list: List<T>)
    ensures list == Of(values) && WellFormed(list) && View(list) == values
  {
    list := Nil;
    var i := |values|;
    while i > 0
      invariant 0 <= i <= |values| && list == Of(values[i..])
    {
      i := i - 1;
      assert values[i..][1..] == values[i + 1..];
      list := Prepend(list, values[i]);
    }
    assert values[0..] == values;
    ViewOf(values);
  }

  method ToArray<T>(list: List<T>) returns (r: seq<T>)
    ensures r == View(list)
  {
    r := [];
    var current := list;
    while current.Cell?
      invariant r + View(current) == View(list)
      decreases current
    {
      r, current := r + [current.value], current.next;
    }
  }

  method ToReversed<T>(list: List<T>) returns (r: List<T>)
    requires WellFormed(list)
    ensures WellFormed(r) && View(r) == Reversed(View(list)) && r == Of(Reversed(View(list)))
  {
    r := Nil;
    var current := list;
    var i := 0;
    SizeIsLength(list);
    while i < Size(list)
      invariant i <= Size(list) && WellFormed(r) && WellFormed(current)
      invariant Size(current) == Size(list) - i
      invariant Reversed(View(current)) + View(r) == Reversed(View(list))
    {
      assert View(current)[1..] == View(current.next);
      r := Prepend(r, current.value);
      current := current.next;
      i := i + 1;
    }
    assert current.Nil?;
    OfView(r);
  }

  /** Element-wise equality, found by length first and then cell by cell. */
  method Equals<T(==)>(a: List<T>, b: List<T>) returns (r: bool)
    requires WellFormed(a) && WellFormed(b)
    ensures r <==> View(a) == View(b)
  {
    SizeIsLength(a);
    SizeIsLength(b);
    if Size(a) != Size(b) { return false; }
    var current, compared := a, b;
    var i := 0;
    while i < Size(a)
      invariant i <= Size(a) && WellFormed(current) && WellFormed(compared)
      invariant Size(current) == Size(compared) == Size(a) - i
      invariant View(a) == View(b) <==> View(current) == View(compared)
    {
      assert View(current)[0] == current.value && View(compared)[0] == compared.value;
      assert View(current)[1..] == View(current.next) && View(compared)[1..] == View(compared.next);
      if current.value != compared.value { return false; }
      assert View(current) == [current.value] + View(current.next);
      assert View(compared) == [compared.value] + View(compared.next);
      current, compared := current.next, compared.next;
      i := i + 1;
    }
    return true;
  }

  /** Concatenation of any number of lists; the last one becomes the tail of the result. */
  method Merge<T>(lists: seq<List<T>>) returns (result: List<T>)
    requires forall i :: 0 <= i < |lists| ==> WellFormed(lists[i])
    ensures WellFormed(result) && View(result) == Joined(lists)
  {
    if |lists| == 0 { return Nil; }
    var i := |lists| - 1;
    result := lists[i];
    assert Joined(lists[i..]) == View(lists[i]) + Joined(lists[i..][1..]);
    while i > 0
      invariant 0 <= i < |lists| && WellFormed(result) && View(result) == Joined(lists[i..])
    {
      i := i - 1;
      var list := lists[i];
      assert lists[i..][1..] == lists[i + 1..];
      SizeIsLength(list);
      SizeIsLength(result);
      if Size(list) == 0 { continue; }
      if Size(result) == 0 { result := list; continue; }
      result := PrependAll(list, result);
    }
    assert lists[0..] == lists;
  }

  /** Copy the cells of a list in front of another. */
  method PrependAll<T>(list: List<T>, tail: List<T>) returns (result: List<T>)
    requires WellFormed(list) && WellFormed(tail)
    ensures WellFormed(result) && View(result) == View(list) + View(tail)
  {
    var values := ToArray(list);
    result := tail;
    var j := |values|;
    while j > 0
      invariant 0 <= j <= |values| && WellFormed(result) && View(result) == values[j..] + View(tail)
    {
      j := j - 1;
      Regroup([values[j]], values[j + 1..], View(tail));
      assert values[j..] == [values[j]] + values[j + 1..];
      result := Prepend(result, values[j]);
    }
    assert values[0..] == values;
  }
}
