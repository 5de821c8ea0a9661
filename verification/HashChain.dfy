/** The chains of the hash table: an entry inside the bucket array, and the links behind it. */
module HashChain {
  import opened Basics

  /** `Free` is an entry without key: an unused head, or what a deletion leaves at the end of a chain. */
  datatype Entry<K, V> = Free | Live(key: K, value: V, hash: nat)

  predicate Holds<K(==), V>(e: Entry<K, V>, key: K) {
    e.Live? && e.key == key
  }

  /** The first entry with this key, or the length of the chain. */
  function Find<K(==), V>(chain: seq<Entry<K, V>>, key: K): (i: nat)
    ensures i <= |chain| && (i < |chain| ==> Holds(chain[i], key)) && forall j :: 0 <= j < i ==> !Holds(chain[j], key)
  {
    if chain == [] || Holds(chain[0], key) then 0 else Find(chain[1..], key) + 1
  }

  function Get<K(==), V>(chain: seq<Entry<K, V>>, key: K): Option<V> {
    var i := Find(chain, key);
    if i < |chain| then Some(chain[i].value) else None
  }

  /** `h_hashtable_put_raw` takes a free head without looking behind it. */
  function Put<K(==), V>(chain: seq<Entry<K, V>>, e: Entry<K, V>): (r: seq<Entry<K, V>>)
    requires chain != [] && e.Live?
    ensures r != []
  {
    if chain[0].Free? then [e] + chain[1..]
    else
      var i := Find(chain, e.key);
      if i < |chain| then chain[i := e] else chain + [e]
  }

  /** `h_hashtable_del`: the next entry moves up; the last entry of a chain stays as a free one. */
  function Del<K(==), V>(chain: seq<Entry<K, V>>, key: K): (r: seq<Entry<K, V>>)
    requires chain != []
    ensures r != []
  {
    var i := Find(chain, key);
    if i == |chain| then chain
    else if i + 1 < |chain| then chain[..i] + chain[i + 1..]
    else chain[i := Free]
  }

  // ----- what keeps a chain sane

  /** No key occurs twice. */
  ghost predicate Unique<K, V>(chain: seq<Entry<K, V>>) {
    forall i, j :: 0 <= i < j < |chain| && chain[i].Live? && chain[j].Live? ==> chain[i].key != chain[j].key
  }

  /** Nothing is kept behind a free head. */
  ghost predicate HeadOk<K, V>(chain: seq<Entry<K, V>>)
    requires chain != []
  {
    chain[0].Free? ==> forall j :: 0 <= j < |chain| ==> chain[j].Free?
  }

  /** Deleting `key` moves a free entry into the head while something is kept behind it. */
  predicate Exposes<K(==), V>(chain: seq<Entry<K, V>>, key: K)
    requires chain != []
  {
    Holds(chain[0], key) && |chain| > 1 && chain[1].Free? && exists j :: 2 <= j < |chain| && chain[j].Live?
  }

  lemma GetIs<K, V>(chain: seq<Entry<K, V>>, key: K, i: nat)
    requires i < |chain| && Holds(chain[i], key) && forall j :: 0 <= j < i ==> !Holds(chain[j], key)
    ensures Get(chain, key) == Some(chain[i].value) && Find(chain, key) == i
  {
    assert !(i < Find(chain, key));
  }

  lemma GetNone<K, V>(chain: seq<Entry<K, V>>, key: K)
    requires forall j :: 0 <= j < |chain| ==> !Holds(chain[j], key)
    ensures Get(chain, key) == None && Find(chain, key) == |chain|
  {
  }

  /** Looking up after a put finds the new value, and every other key as before; even when a free head hides an
      older entry of the same key. */
  lemma GetPut<K, V>(chain: seq<Entry<K, V>>, e: Entry<K, V>, key: K)
    requires chain != [] && e.Live?
    ensures Get(Put(chain, e), key) == if key == e.key then Some(e.value) else Get(chain, key)
  {
    var r, f := Put(chain, e), Find(chain, key);
    if key == e.key {
      if chain[0].Free? {
        GetIs(r, key, 0);
      } else {
        GetIs(r, key, f);
      }
    } else if f < |chain| {
      GetIs(r, key, f);
    } else {
      GetNone(r, key);
    }
  }

  /** Keys are unique after a put exactly when they were before and it does not take a free head in front of its own key. */
  lemma PutUnique<K, V>(chain: seq<Entry<K, V>>, e: Entry<K, V>)
    requires chain != [] && e.Live?
    ensures Unique(Put(chain, e)) <==> Unique(chain) && !(chain[0].Free? && Get(chain, e.key).Some?)
  {
    var r, f := Put(chain, e), Find(chain, e.key);
    if !Unique(chain) {
      var i, j :| 0 <= i < j < |chain| && chain[i].Live? && chain[j].Live? && chain[i].key == chain[j].key;
      assert r[i].Live? && r[j].Live? && r[i].key == r[j].key;
    } else if chain[0].Free? && f < |chain| {
      assert r[0].key == r[f].key;
    } else if chain[0].Free? {
      forall i, j | 0 <= i < j < |r| && r[i].Live? && r[j].Live? ensures r[i].key != r[j].key {
        assert r[j] == chain[j] && !Holds(chain[j], e.key);
      }
    } else if f < |chain| {
      assert forall i :: 0 <= i < |chain| && i != f && chain[i].Live? ==> chain[i].key != e.key;
    } else {
      forall i, j | 0 <= i < j < |r| && r[i].Live? && r[j].Live? ensures r[i].key != r[j].key {
        assert !Holds(chain[i], e.key);
      }
    }
  }

  lemma PutHeadOk<K, V>(chain: seq<Entry<K, V>>, e: Entry<K, V>)
    requires chain != [] && e.Live?
    ensures HeadOk(Put(chain, e)) && Put(chain, e)[0].Live?
  {
  }

  lemma GetStep<K, V>(x: Entry<K, V>, rest: seq<Entry<K, V>>, key: K)
    ensures Get([x] + rest, key) == if Holds(x, key) then Some(x.value) else Get(rest, key)
  {
    assert ([x] + rest)[1..] == rest;
  }

  /** An entry without the key does not matter. */
  lemma {:induction false} GetSkip<K, V>(a: seq<Entry<K, V>>, x: Entry<K, V>, b: seq<Entry<K, V>>, key: K)
    requires !Holds(x, key)
    ensures Get(a + [x] + b, key) == Get(a + b, key)
    decreases |a|
  {
    hide Get, Holds;
    if a == [] {
      assert a + [x] + b == [x] + b && a + b == b;
      GetStep(x, b, key);
    } else {
      GetSkip(a[1..], x, b, key);
      assert a + [x] + b == [a[0]] + (a[1..] + [x] + b) && a + b == [a[0]] + (a[1..] + b);
      GetStep(a[0], a[1..] + [x] + b, key);
      GetStep(a[0], a[1..] + b, key);
    }
  }

  lemma {:induction false} GetBehind<K, V>(a: seq<Entry<K, V>>, b: seq<Entry<K, V>>, key: K)
    requires forall j :: 0 <= j < |a| ==> !Holds(a[j], key)
    ensures Get(a + b, key) == Get(b, key)
    decreases |a|
  {
    hide Get, Holds;
    if a == [] {
      assert a + b == b;
    } else {
      GetBehind(a[1..], b, key);
      assert a + b == [a[0]] + (a[1..] + b);
      GetStep(a[0], a[1..] + b, key);
    }
  }

  /** Looking up after a deletion finds every other key as before, and the key itself exactly if it occurred a second time. */
  lemma GetDel<K, V>(chain: seq<Entry<K, V>>, gone: K, key: K)
    requires chain != []
    ensures Get(Del(chain, gone), key) ==
      var f := Find(chain, gone);
      if key != gone then Get(chain, key)
      else if f < |chain| then Get(chain[f + 1..], gone)
      else None
  {
    hide Get, Holds, Find, Del;
    var f := Find(chain, gone);
    if f < |chain| {
      var before, after := chain[..f], chain[f + 1..];
      assert chain == before + [chain[f]] + after;
      DelShape(chain, gone);
      GetFound(before, chain[f], after, gone, key);
    } else {
      NotFound(chain, gone);
    }
  }

  lemma NotFound<K, V>(chain: seq<Entry<K, V>>, key: K)
    requires chain != [] && Find(chain, key) == |chain|
    ensures Del(chain, key) == chain && Get(chain, key) == None
  {
  }

  lemma GetFound<K, V>(before: seq<Entry<K, V>>, e: Entry<K, V>, after: seq<Entry<K, V>>, gone: K, key: K)
    requires Holds(e, gone) && forall j :: 0 <= j < |before| ==> !Holds(before[j], gone)
    ensures Get(if after != [] then before + after else before + [Free] + after, key) ==
      if key != gone then Get(before + [e] + after, key) else Get(after, gone)
  {
    hide Get, Holds;
    if after == [] {
      FreeHoldsNothing<K, V>(key);
      GetSkip(before, Free, after, key);
    }
    if key != gone {
      OtherKey(e, gone, key);
      GetSkip(before, e, after, key);
    } else {
      GetBehind(before, after, key);
    }
  }

  lemma FreeHoldsNothing<K, V>(key: K)
    ensures !Holds(Entry<K, V>.Free, key)
  {
  }

  lemma OtherKey<K, V>(e: Entry<K, V>, key: K, other: K)
    requires Holds(e, key) && key != other
    ensures !Holds(e, other)
  {
  }

  lemma UpdateShape<T>(s: seq<T>, i: nat, x: T)
    requires i < |s|
    ensures s[i := x] == s[..i] + [x] + s[i + 1..]
  {
  }

  lemma DelShape<K, V>(chain: seq<Entry<K, V>>, key: K)
    requires Find(chain, key) < |chain|
    ensures var f := Find(chain, key);
      Del(chain, key) == if chain[f + 1..] != [] then chain[..f] + chain[f + 1..] else chain[..f] + [Free] + chain[f + 1..]
  {
    hide Find, Holds;
    UpdateShape(chain, Find(chain, key), Free);
  }

  /** With unique keys a deletion deletes. */
  lemma DelUnique<K, V>(chain: seq<Entry<K, V>>, key: K)
    requires chain != [] && Unique(chain)
    ensures Get(Del(chain, key), key) == None && Unique(Del(chain, key))
  {
    hide Get, Holds, Del, Find, Unique;
    var f := Find(chain, key);
    GetDel(chain, key, key);
    if f < |chain| {
      var before, after := chain[..f], chain[f + 1..];
      assert chain == before + [chain[f]] + after;
      DelShape(chain, key);
      FewerUnique(before, chain[f], after);
      UniqueMeans(before, chain[f], after, key);
      GetNone(after, key);
    } else {
      NotFound(chain, key);
    }
  }

  lemma FewerUnique<K, V>(before: seq<Entry<K, V>>, e: Entry<K, V>, after: seq<Entry<K, V>>)
    requires Unique(before + [e] + after)
    ensures Unique(before + after) && Unique(before + [Free] + after)
  {
    var all, less := before + [e] + after, before + after;
    var n := |before|;
    forall i, j | 0 <= i < j < |less| && less[i].Live? && less[j].Live? ensures less[i].key != less[j].key {
      assert less[i] == all[if i < n then i else i + 1] && less[j] == all[if j < n then j else j + 1];
    }
    var free := before + [Free] + after;
    forall i, j | 0 <= i < j < |free| && free[i].Live? && free[j].Live? ensures free[i].key != free[j].key {
      assert free[i] == all[i] && free[j] == all[j];
    }
  }

  lemma UniqueMeans<K, V>(before: seq<Entry<K, V>>, e: Entry<K, V>, after: seq<Entry<K, V>>, key: K)
    requires Unique(before + [e] + after) && Holds(e, key)
    ensures forall j :: 0 <= j < |after| ==> !Holds(after[j], key)
  {
    var all := before + [e] + after;
    forall j | 0 <= j < |after| ensures !Holds(after[j], key) {
      assert all[|before|] == e && all[|before| + 1 + j] == after[j];
    }
  }

  /** A deletion leaves the head in order exactly when it does not expose what lies behind a free entry. */
  lemma DelHeadOk<K, V>(chain: seq<Entry<K, V>>, key: K)
    requires chain != [] && HeadOk(chain)
    ensures HeadOk(Del(chain, key)) <==> !Exposes(chain, key)
  {
    var r, f := Del(chain, key), Find(chain, key);
    if Exposes(chain, key) {
      var j :| 2 <= j < |chain| && chain[j].Live?;
      assert f == 0 && r == chain[1..] && r[j - 1].Live?;
    } else if f == 0 && |chain| > 1 {
      assert r == chain[1..];
      if r[0].Free? {
        forall j | 0 <= j < |r| ensures r[j].Free? {
          assert r[j] == chain[j + 1];
        }
      }
    }
  }

  // ----- entries of the same key one behind the other

  /** The value of the last entry with this key: the one that is left when all entries are put one after the other. */
  function Last<K(==), V>(es: seq<Entry<K, V>>, key: K): Option<V> {
    if es == [] then None
    else if Holds(es[|es| - 1], key) then Some(es[|es| - 1].value)
    else Last(es[..|es| - 1], key)
  }

  lemma {:induction false} LastConcat<K, V>(a: seq<Entry<K, V>>, b: seq<Entry<K, V>>, key: K)
    ensures Last(a + b, key) == if Last(b, key).Some? then Last(b, key) else Last(a, key)
  {
    if b == [] {
      assert a + b == a;
    } else {
      assert (a + b)[..|a + b| - 1] == a + b[..|b| - 1];
      LastConcat(a, b[..|b| - 1], key);
    }
  }

  lemma {:induction false} LastNone<K, V>(es: seq<Entry<K, V>>, key: K)
    ensures Last(es, key) == None <==> Get(es, key) == None
  {
    hide Find;
    if es == [] {
      GetNone(es, key);
    } else {
      var init, n := es[..|es| - 1], |es| - 1;
      LastNone(init, key);
      if Get(init, key).Some? {
        GetIs(es, key, FindIn(init, key));
      } else if Holds(es[n], key) {
        FindOut(init, key);
        GetIs(es, key, n);
      } else {
        FindOut(init, key);
        GetNone(es, key);
      }
    }
  }

  function FindIn<K(==), V>(chain: seq<Entry<K, V>>, key: K): (i: nat)
    requires Get(chain, key).Some?
    ensures i < |chain| && Holds(chain[i], key) && forall j :: 0 <= j < i ==> !Holds(chain[j], key)
  {
    Find(chain, key)
  }

  lemma FindOut<K, V>(chain: seq<Entry<K, V>>, key: K)
    requires Get(chain, key) == None
    ensures forall j :: 0 <= j < |chain| ==> !Holds(chain[j], key)
  {
  }

  /** With unique keys the first entry of a key is the last. */
  lemma {:induction false} LastIsFirst<K, V>(es: seq<Entry<K, V>>, key: K)
    requires Unique(es)
    ensures Last(es, key) == Get(es, key)
  {
    hide Find;
    if es == [] {
      GetNone(es, key);
    } else {
      var init, n := es[..|es| - 1], |es| - 1;
      if Holds(es[n], key) {
        GetIs(es, key, n);
      } else {
        LastIsFirst(init, key);
        if Get(init, key).Some? {
          GetIs(es, key, FindIn(init, key));
        } else {
          FindOut(init, key);
          GetNone(es, key);
        }
      }
    }
  }

  /** Of the value just put, exactly a put that takes a free head in front of its own key leaves something else last. */
  lemma LastPut<K, V>(chain: seq<Entry<K, V>>, e: Entry<K, V>)
    requires chain != [] && e.Live? && Unique(chain)
    ensures Last(Put(chain, e), e.key) == if chain[0].Free? && Get(chain, e.key).Some? then Get(chain, e.key) else Some(e.value)
  {
    hide Find, Last, Get, Unique;
    PutUnique(chain, e);
    if chain[0].Free? && Get(chain, e.key).Some? {
      assert chain == [chain[0]] + chain[1..];
      LastConcat([chain[0]], chain[1..], e.key);
      LastConcat([e], chain[1..], e.key);
      FreeIsNotLast(chain[0], e.key);
      LastIsFirst(chain, e.key);
    } else {
      LastIsFirst(Put(chain, e), e.key);
      GetPut(chain, e, e.key);
    }
  }

  lemma FreeIsNotLast<K, V>(e: Entry<K, V>, key: K)
    requires e.Free?
    ensures Last([e], key) == None
  {
  }

  /** Three keys in one bucket: after B, then A are deleted, D sits behind a free head; putting D again keeps both,
      and deleting it brings the old value back. */
  lemma ExposedEntryReturns<K, V>(a: K, b: K, d: K, va: V, vb: V, old0: V, new0: V, h: nat)
    requires a != b && b != d && a != d
    ensures var c1 := Put(Put([Free], Live(a, va, h)), Live(b, vb, h));
      var c2 := Put(Del(c1, b), Live(d, old0, h));
      var c3 := Del(c2, a);
      var c4 := Put(c3, Live(d, new0, h));
      && Exposes(c2, a) && Get(c3, d) == Some(old0)
      && Get(c4, d) == Some(new0) && !Unique(c4)
      && Get(Del(c4, d), d) == Some(old0)
  {
    var ea, eb, ed, en := Live(a, va, h), Live(b, vb, h), Live(d, old0, h), Live(d, new0, h);
    var c0 := Put([Free], ea);
    assert c0 == [ea];
    GetNone(c0, b);
    var c1 := Put(c0, eb);
    assert c1 == [ea, eb];
    GetIs(c1, b, 1);
    var t: seq<Entry<K, V>> := [ea, Free];
    assert Del(c1, b) == t;
    GetNone(t, d);
    var c2 := Put(t, ed);
    assert c2 == [ea, Free, ed];
    assert c2[2].Live?;
    GetIs(c2, a, 0);
    var c3 := Del(c2, a);
    assert c3 == [Free, ed];
    GetIs(c3, d, 1);
    var c4 := Put(c3, en);
    assert c4 == [en, ed];
    GetIs(c4, d, 0);
    assert c4[0].key == c4[1].key;
    assert Del(c4, d) == [ed];
    GetIs([ed], d, 0);
  }
}
