/** The sparse array: constant-time set, membership and clear over memory that is never initialised. */
module SparseArray {
  import opened Basics

  class SparseArray<T(0)> {
    const elems: array<nat>    // nodes[k].elem
    const indices: array<nat>  // nodes[n].index
    const contents: array<T>   // nodes[n].content
    var used: nat

    /** Nothing but the size is set up; the three arrays hold arbitrary values. */
    constructor (size: nat)
      ensures Valid() && Capacity() == size && Order() == []
      ensures fresh(Repr())
    {
      elems, indices, contents := new nat[size], new nat[size], new T[size];
      used := 0;
    }

    ghost function Repr(): set<object> {
      {this, elems, indices, contents}
    }

    ghost predicate Valid()
      reads this, elems, indices, contents
    {
      && elems.Length == indices.Length == contents.Length
      && elems != indices && contents as object != elems && contents as object != indices
      && used <= elems.Length
      && forall k :: 0 <= k < used ==> elems[k] < elems.Length && indices[elems[k]] == k
    }

    ghost function Capacity(): nat {
      elems.Length
    }

    /** The keys that are set, oldest first. */
    ghost function Order(): seq<nat>
      requires Valid()
      reads this, elems, indices, contents
    {
      elems[..used]
    }

    ghost function At(n: nat): T
      requires Valid() && n < Capacity()
      reads this, elems, indices, contents
    {
      contents[n]
    }

    predicate IsSet(n: nat)
      requires Valid() && n < Capacity()
      reads this, elems, indices, contents
      ensures IsSet(n) <==> n in Order()
    {
      assert n in Order() ==> exists k :: 0 <= k < used && elems[k] == n;
      indices[n] < used && elems[indices[n]] == n
    }

    function Get(n: nat): (r: Option<T>)
      requires Valid() && n < Capacity()
      reads this, elems, indices, contents
      ensures r == if n in Order() then Some(At(n)) else None
    {
      if IsSet(n) then Some(contents[n]) else None
    }

    method Set(n: nat, val: T)
      requires Valid() && n < Capacity()
      modifies this, elems, indices, contents
      ensures Valid()
      ensures Order() == old(Order()) + (if n in old(Order()) then [] else [n])
      ensures forall m: nat :: m < Capacity() ==> At(m) == if m == n then val else old(At(m))
    {
      contents[n] := val;
      if IsSet(n) {
        return;
      }
      RoomLeft(n);
      elems[used] := n;
      indices[n] := used;
      used := used + 1;
    }

    /** A key that is not set leaves room for one more entry. */
    lemma RoomLeft(n: nat)
      requires Valid() && n < Capacity() && n !in Order()
      ensures used < Capacity()
    {
      Pigeonhole(Order(), Capacity(), n);
    }

    method Clear()
      requires Valid()
      modifies `used
      ensures Valid() && Order() == []
      ensures forall m: nat :: m < Capacity() ==> At(m) == old(At(m))
    {
      used := 0;
    }
  }

  function Below(n: nat): (s: set<nat>)
    ensures |s| == n && forall k: nat :: k in s <==> k < n
  {
    if n == 0 then {} else Below(n - 1) + {n - 1}
  }

  lemma SubsetSize<T>(a: set<T>, b: set<T>)
    requires a <= b
    ensures |a| <= |b| && (a != b ==> |a| < |b|)
  {
    assert b == a + (b - a);
    if a != b {
      assert b - a != {};
    }
  }

  lemma {:induction false} Pigeonhole(s: seq<nat>, size: nat, missing: nat)
    requires forall i, j :: 0 <= i < j < |s| ==> s[i] != s[j]
    requires forall k :: 0 <= k < |s| ==> s[k] < size
    requires missing < size && missing !in s
    ensures |s| < size
  {
    DistinctCount(s);
    assert missing in Below(size) && missing !in Elements(s);
    assert forall k :: k in Elements(s) ==> k in Below(size);
    SubsetSize(Elements(s), Below(size));
  }

  ghost function Elements<T>(s: seq<T>): set<T> {
    set k | k in s
  }

  lemma {:induction false} DistinctCount<T>(s: seq<T>)
    requires forall i, j :: 0 <= i < j < |s| ==> s[i] != s[j]
    ensures |Elements(s)| == |s|
  {
    if s != [] {
      var init := s[..|s| - 1];
      var last := s[|s| - 1];
      DistinctCount(init);
      assert s == init + [last] && last !in Elements(init);
      assert Elements(s) == Elements(init) + {last};
    }
  }

  // ----- the iteration macro

  /** The keys the iteration macro hands to its body: the loop variables are refreshed before the
      counter moves on, so the first entry comes twice and the last one not at all. */
  function ForeachVisits<K>(order: seq<K>): seq<K> {
    if order == [] then [] else [order[0]] + order[..|order| - 1]
  }

  lemma ForeachCount<K>(order: seq<K>)
    ensures |ForeachVisits(order)| == |order|
    ensures forall k :: 0 <= k < |order| ==> ForeachVisits(order)[k] in order
  {
  }

  /** The first entry twice, and then one entry behind the counter. */
  lemma ForeachVisit<K>(order: seq<K>, k: nat)
    requires k < |order|
    ensures |ForeachVisits(order)| == |order| && ForeachVisits(order)[k] == order[if k == 0 then 0 else k - 1]
  {
  }

  /** It calls its body as often as there are entries, and reaches exactly those that are alone or not the last. */
  lemma ForeachReaches<K>(order: seq<K>, i: nat)
    requires i < |order| && forall j, k :: 0 <= j < k < |order| ==> order[j] != order[k]
    ensures |ForeachVisits(order)| == |order|
    ensures order[i] in ForeachVisits(order) <==> |order| == 1 || i + 1 < |order|
  {
    var visits := ForeachVisits(order);
    if |order| == 1 || i + 1 < |order| {
      assert visits[if |order| == 1 then 0 else i + 1] == order[i];
    }
  }

  /** The macro reaches every entry exactly when there is at most one. */
  lemma ForeachIsExhaustive<K>(order: seq<K>)
    requires forall i, j :: 0 <= i < j < |order| ==> order[i] != order[j]
    ensures (forall k :: k in order ==> k in ForeachVisits(order)) <==> |order| <= 1
  {
    if |order| > 1 {
      var last := order[|order| - 1];
      assert last in order;
      assert last !in order[..|order| - 1];
      assert last !in ForeachVisits(order);
    }
  }
}
