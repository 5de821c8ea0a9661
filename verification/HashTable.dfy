/** The chained hash table.  Every table that operations produce looks keys up like a finite map; the map stays the one
    the operations describe as long as no key has two entries, and it is stated exactly which operations keep it so. */
module HashTable {
  import opened Basics
  import opened HashChain

  type Chains<K, V> = seq<seq<Entry<K, V>>>

  ghost predicate PowerOfTwo(n: nat) {
    n == 1 || (n % 2 == 0 && n > 0 && PowerOfTwo(n / 2))
  }

  /** Every chain has a head, and entries are where their hash value sends them. */
  ghost predicate Placed<K, V>(hash: K -> nat, chains: Chains<K, V>) {
    && |chains| > 0
    && forall i :: 0 <= i < |chains| ==>
         && chains[i] != []
         && forall j :: 0 <= j < |chains[i]| && chains[i][j].Live? ==> InPlace(hash, |chains|, i, chains[i][j])
  }

  ghost predicate InPlace<K, V>(hash: K -> nat, capacity: nat, i: nat, e: Entry<K, V>)
    requires e.Live? && capacity > 0
  {
    e.hash == hash(e.key) && e.hash % capacity == i
  }

  /** No key has two entries. */
  ghost predicate NoneTwice<K, V>(chains: Chains<K, V>) {
    forall i :: 0 <= i < |chains| ==> Unique(chains[i])
  }

  ghost predicate HeadsOk<K, V>(chains: Chains<K, V>)
    requires forall i :: 0 <= i < |chains| ==> chains[i] != []
  {
    forall i :: 0 <= i < |chains| ==> HeadOk(chains[i])
  }

  function Lookup<K(==), V>(hash: K -> nat, chains: Chains<K, V>, key: K): Option<V>
    requires |chains| > 0
  {
    Get(chains[hash(key) % |chains|], key)
  }

  /** Looking up gives what the map gives. */
  ghost predicate Refines<K(!new), V>(hash: K -> nat, chains: Chains<K, V>, m: map<K, V>)
    requires |chains| > 0
  {
    forall key :: Lookup(hash, chains, key) == if key in m then Some(m[key]) else None
  }

  // ----- changing one chain

  /** A put is a put on the map, from every table.  Afterwards no key has two entries exactly when none had before and
      the put did not take a free head in front of its own key. */
  lemma PutRefines<K(!new), V>(hash: K -> nat, chains: Chains<K, V>, m: map<K, V>, e: Entry<K, V>)
    requires Placed(hash, chains) && Refines(hash, chains, m)
    requires e.Live? && e.hash == hash(e.key)
    ensures var i := e.hash % |chains|;
      var chains' := chains[i := Put(chains[i], e)];
      && Placed(hash, chains') && Refines(hash, chains', m[e.key := e.value])
      && (NoneTwice(chains') <==> NoneTwice(chains) && !(chains[i][0].Free? && e.key in m))
      && (HeadsOk(chains) ==> HeadsOk(chains'))
  {
    hide Get, Put, Unique, HeadOk;
    var i := e.hash % |chains|;
    var chains' := chains[i := Put(chains[i], e)];
    PutUnique(chains[i], e);
    PutHeadOk(chains[i], e);
    PutPlaced(hash, |chains|, i, chains[i], e);
    assert Lookup(hash, chains, e.key) == if e.key in m then Some(m[e.key]) else None;
    assert forall k :: 0 <= k < |chains| ==> chains'[k] == if k == i then Put(chains[i], e) else chains[k];
    forall key ensures Lookup(hash, chains', key) == if key in m[e.key := e.value] then Some(m[e.key := e.value][key]) else None {
      GetPut(chains[i], e, key);
      assert Lookup(hash, chains, key) == if key in m then Some(m[key]) else None;
    }
  }

  lemma PutPlaced<K, V>(hash: K -> nat, capacity: nat, i: nat, chain: seq<Entry<K, V>>, e: Entry<K, V>)
    requires capacity > 0 && chain != [] && e.Live? && InPlace(hash, capacity, i, e)
    requires forall j :: 0 <= j < |chain| && chain[j].Live? ==> InPlace(hash, capacity, i, chain[j])
    ensures var r := Put(chain, e); forall j :: 0 <= j < |r| && r[j].Live? ==> InPlace(hash, capacity, i, r[j])
  {
  }

  /** The entry behind the first one of the key. */
  function Again<K(==), V>(chain: seq<Entry<K, V>>, key: K): Option<V> {
    var f := Find(chain, key);
    if f < |chain| then Get(chain[f + 1..], key) else None
  }

  /** What a deletion makes of the map: the key is gone, unless it has a second entry. */
  ghost function Deleted<K, V>(hash: K -> nat, chains: Chains<K, V>, m: map<K, V>, key: K): map<K, V>
    requires |chains| > 0
  {
    var again := Again(chains[hash(key) % |chains|], key);
    if again.Some? then m[key := again.value] else m - {key}
  }

  /** When no key has two entries, a deletion deletes, and keeps heads in order exactly when nothing is exposed. */
  lemma DelRefines<K(!new), V>(hash: K -> nat, chains: Chains<K, V>, m: map<K, V>, key: K)
    requires Placed(hash, chains) && Refines(hash, chains, m)
    ensures var i := hash(key) % |chains|;
      var chains' := chains[i := Del(chains[i], key)];
      && Placed(hash, chains') && Refines(hash, chains', Deleted(hash, chains, m, key))
      && (NoneTwice(chains) ==> NoneTwice(chains') && Deleted(hash, chains, m, key) == m - {key})
      && (HeadsOk(chains) ==> (HeadsOk(chains') <==> !Exposes(chains[i], key)))
  {
    hide Get, Del, Unique, HeadOk, Exposes, Again;
    var i := hash(key) % |chains|;
    var chains' := chains[i := Del(chains[i], key)];
    var m' := Deleted(hash, chains, m, key);
    assert Lookup(hash, chains, key) == if key in m then Some(m[key]) else None;
    assert forall k :: 0 <= k < |chains| ==> chains'[k] == if k == i then Del(chains[i], key) else chains[k];
    DelPlaced(hash, |chains|, i, chains[i], key);
    forall other ensures Lookup(hash, chains', other) == if other in m' then Some(m'[other]) else None {
      GetDel(chains[i], key, other);
      AgainIs(chains[i], key);
      assert Lookup(hash, chains, other) == if other in m then Some(m[other]) else None;
    }
    if NoneTwice(chains) {
      DelUnique(chains[i], key);
      AgainIs(chains[i], key);
    }
    if HeadsOk(chains) {
      DelHeadOk(chains[i], key);
    }
  }

  lemma AgainIs<K, V>(chain: seq<Entry<K, V>>, key: K)
    requires chain != []
    ensures Get(Del(chain, key), key) == Again(chain, key)
  {
    GetDel(chain, key, key);
  }

  lemma DelPlaced<K, V>(hash: K -> nat, capacity: nat, i: nat, chain: seq<Entry<K, V>>, key: K)
    requires capacity > 0 && chain != []
    requires forall j :: 0 <= j < |chain| && chain[j].Live? ==> InPlace(hash, capacity, i, chain[j])
    ensures var r := Del(chain, key); forall j :: 0 <= j < |r| && r[j].Live? ==> InPlace(hash, capacity, i, r[j])
  {
    var f := Find(chain, key);
    if f + 1 < |chain| {
      var r := Del(chain, key);
      forall j | 0 <= j < |r| && r[j].Live? ensures InPlace(hash, capacity, i, r[j]) {
        assert r[j] == chain[if j < f then j else j + 1];
      }
    }
  }

  /** Every deletion deletes exactly when no key has two entries. */
  lemma DeletionsDelete<K(!new), V>(hash: K -> nat, chains: Chains<K, V>)
    requires Placed(hash, chains)
    ensures (forall key :: Again(chains[hash(key) % |chains|], key) == None) <==> NoneTwice(chains)
  {
    hide Get, Find, Again;
    forall i, key | NoneTwice(chains) && 0 <= i < |chains| ensures Again(chains[i], key) == None {
      DelUnique(chains[i], key);
      AgainIs(chains[i], key);
    }
    if !NoneTwice(chains) {
      var i :| 0 <= i < |chains| && !Unique(chains[i]);
      var j, k :| 0 <= j < k < |chains[i]| && chains[i][j].Live? && chains[i][k].Live? && chains[i][j].key == chains[i][k].key;
      assert InPlace(hash, |chains|, i, chains[i][j]);
      TwiceIsAgain(chains[i], j, k);
      assert Again(chains[hash(chains[i][j].key) % |chains|], chains[i][j].key) != None;
    }
  }

  lemma TwiceIsAgain<K, V>(chain: seq<Entry<K, V>>, j: nat, k: nat)
    requires j < k < |chain| && chain[j].Live? && chain[k].Live? && chain[j].key == chain[k].key
    ensures Again(chain, chain[j].key).Some?
  {
    var key := chain[j].key;
    var f := Find(chain, key);
    assert f <= j;
    var rest := chain[f + 1..];
    assert Holds(rest[k - f - 1], key);
    assert Find(rest, key) <= k - f - 1;
  }

  // ----- walking over all entries

  /** All entries in the order of the walk: bucket by bucket. */
  function Entries<K, V>(chains: Chains<K, V>): seq<Entry<K, V>> {
    if chains == [] then [] else Entries(chains[..|chains| - 1]) + chains[|chains| - 1]
  }

  lemma EntriesRow<K, V>(chains: Chains<K, V>, i: nat)
    requires i < |chains|
    ensures Entries(chains[..i + 1]) == Entries(chains[..i]) + chains[i] && Entries(chains[..0]) == [] && chains[..|chains|] == chains
  {
    assert chains[..i + 1][..i] == chains[..i];
  }

  /** Put an entry, combined with what the map has for its key. */
  ghost function Combined<K, V>(combine: (Option<V>, V) -> V, m: map<K, V>, e: Entry<K, V>): map<K, V> {
    if e.Free? then m else m[e.key := combine(if e.key in m then Some(m[e.key]) else None, e.value)]
  }

  /** The same for entries one after the other. */
  ghost function Folded<K, V>(combine: (Option<V>, V) -> V, es: seq<Entry<K, V>>, m: map<K, V>): map<K, V> {
    if es == [] then m else Combined(combine, Folded(combine, es[..|es| - 1], m), es[|es| - 1])
  }

  lemma FoldedSnoc<K, V>(combine: (Option<V>, V) -> V, es: seq<Entry<K, V>>, e: Entry<K, V>, m: map<K, V>)
    ensures Folded(combine, es + [e], m) == Combined(combine, Folded(combine, es, m), e)
  {
    assert (es + [e])[..|es|] == es;
  }

  /** Plain puts: what was there is replaced. */
  ghost function Replaced<V>(): (Option<V>, V) -> V {
    (_, v) => v
  }

  /** What a rehash makes of a table: all entries put into an empty one. */
  ghost function Settled<K, V>(chains: Chains<K, V>): map<K, V> {
    Folded(Replaced(), Entries(chains), map[])
  }

  lemma {:induction false} FoldedLast<K, V>(es: seq<Entry<K, V>>, m: map<K, V>, key: K)
    ensures var r := Folded(Replaced(), es, m);
      && (key in r <==> key in m || Last(es, key).Some?)
      && (key in r ==> r[key] == if Last(es, key).Some? then Last(es, key).value else m[key])
  {
    if es != [] {
      FoldedLast(es[..|es| - 1], m, key);
    }
  }

  /** With unique keys every key is combined once at most. */
  lemma {:induction false} FoldedOnce<K, V>(combine: (Option<V>, V) -> V, es: seq<Entry<K, V>>, m: map<K, V>, key: K)
    requires Unique(es)
    ensures var r := Folded(combine, es, m);
      && (key in r <==> key in m || Last(es, key).Some?)
      && (key in r ==> r[key] == if Last(es, key).Some? then combine(if key in m then Some(m[key]) else None, Last(es, key).value) else m[key])
  {
    if es != [] {
      var init, e := es[..|es| - 1], es[|es| - 1];
      FoldedOnce(combine, init, m, key);
      if e.Live? && e.key == key {
        GetNone(init, key);
        LastNone(init, key);
      }
    }
  }

  lemma {:induction false} LastOfRows<K, V>(hash: K -> nat, chains: Chains<K, V>, k: nat, key: K)
    requires Placed(hash, chains) && k <= |chains|
    ensures var b := hash(key) % |chains|; Last(Entries(chains[..k]), key) == if b < k then Last(chains[b], key) else None
  {
    hide Last;
    if k == 0 {
      GetNone(Entries(chains[..0]), key);
      LastNone(Entries(chains[..0]), key);
    } else {
      LastOfRows(hash, chains, k - 1, key);
      EntriesRow(chains, k - 1);
      LastConcat(Entries(chains[..k - 1]), chains[k - 1], key);
      if k - 1 != hash(key) % |chains| {
        ElsewhereNone(hash, chains, k - 1, key);
      }
    }
  }

  lemma ElsewhereNone<K, V>(hash: K -> nat, chains: Chains<K, V>, i: nat, key: K)
    requires Placed(hash, chains) && i < |chains| && i != hash(key) % |chains|
    ensures Last(chains[i], key) == None
  {
    forall j | 0 <= j < |chains[i]| ensures !Holds(chains[i][j], key) {
      assert chains[i][j].Live? ==> InPlace(hash, |chains|, i, chains[i][j]);
    }
    GetNone(chains[i], key);
    LastNone(chains[i], key);
  }

  /** A rehash keeps all keys, each with the value of its last entry. */
  lemma RehashTakesLast<K(!new), V>(hash: K -> nat, chains: Chains<K, V>, m: map<K, V>, key: K)
    requires Placed(hash, chains) && Refines(hash, chains, m)
    ensures key in Settled(chains) <==> key in m
    ensures key in m ==> Some(Settled(chains)[key]) == Last(chains[hash(key) % |chains|], key)
  {
    hide Last, Get;
    FoldedLast(Entries(chains), map[], key);
    LastOfRows(hash, chains, |chains|, key);
    assert chains[..|chains|] == chains;
    LastNone(chains[hash(key) % |chains|], key);
    assert Lookup(hash, chains, key) == if key in m then Some(m[key]) else None;
  }

  /** It keeps the map when no key has two entries. */
  lemma RehashKeeps<K(!new), V>(hash: K -> nat, chains: Chains<K, V>, m: map<K, V>)
    requires Placed(hash, chains) && Refines(hash, chains, m)
    ensures Settled(chains).Keys == m.Keys && (NoneTwice(chains) ==> Settled(chains) == m)
  {
    hide Last, Get, Unique, Settled;
    forall key ensures key in Settled(chains) <==> key in m {
      RehashTakesLast(hash, chains, m, key);
    }
    forall key | key in m && NoneTwice(chains) ensures Settled(chains)[key] == m[key] {
      RehashTakesLast(hash, chains, m, key);
      LastIsFirst(chains[hash(key) % |chains|], key);
      assert Lookup(hash, chains, key) == if key in m then Some(m[key]) else None;
    }
  }

  /** After a put a rehash keeps the value just put, unless the put took a free head in front of its own key: then it
      brings the value from before the put back. */
  lemma PutThenRehash<K(!new), V>(hash: K -> nat, chains: Chains<K, V>, m: map<K, V>, e: Entry<K, V>)
    requires Placed(hash, chains) && NoneTwice(chains) && Refines(hash, chains, m)
    requires e.Live? && e.hash == hash(e.key)
    ensures var i := e.hash % |chains|;
      var chains' := chains[i := Put(chains[i], e)];
      e.key in Settled(chains') && Settled(chains')[e.key] == if chains[i][0].Free? && e.key in m then m[e.key] else e.value
  {
    hide Last, Get, Unique, Put, Settled;
    var i := e.hash % |chains|;
    var chains' := chains[i := Put(chains[i], e)];
    PutRefines(hash, chains, m, e);
    RehashTakesLast(hash, chains', m[e.key := e.value], e.key);
    LastPut(chains[i], e);
    assert Lookup(hash, chains, e.key) == if e.key in m then Some(m[e.key]) else None;
  }

  lemma {:induction false} RowsUnique<K, V>(hash: K -> nat, chains: Chains<K, V>, k: nat)
    requires Placed(hash, chains) && NoneTwice(chains) && k <= |chains|
    ensures Unique(Entries(chains[..k]))
    ensures forall j :: 0 <= j < |Entries(chains[..k])| && Entries(chains[..k])[j].Live? ==> hash(Entries(chains[..k])[j].key) % |chains| < k
  {
    if k > 0 {
      RowsUnique(hash, chains, k - 1);
      EntriesRow(chains, k - 1);
      var a, b := Entries(chains[..k - 1]), chains[k - 1];
      assert forall j :: 0 <= j < |b| && b[j].Live? ==> InPlace(hash, |chains|, k - 1, b[j]);
      UniqueParts(a, b);
    }
  }

  lemma UniqueParts<K, V>(a: seq<Entry<K, V>>, b: seq<Entry<K, V>>)
    requires Unique(a) && Unique(b)
    requires forall i, j :: 0 <= i < |a| && 0 <= j < |b| && a[i].Live? && b[j].Live? ==> a[i].key != b[j].key
    ensures Unique(a + b)
  {
  }

  /** All entries of a table without doubled keys, folded into a map. */
  lemma FoldedTable<K(!new), V>(combine: (Option<V>, V) -> V, hash: K -> nat, chains: Chains<K, V>, m: map<K, V>, before: map<K, V>)
    requires Placed(hash, chains) && Refines(hash, chains, m)
    ensures Folded(Replaced(), Entries(chains), before).Keys == before.Keys + m.Keys
    ensures NoneTwice(chains) ==> var r := Folded(combine, Entries(chains), before);
      && r.Keys == before.Keys + m.Keys
      && forall key :: key in r ==>
           r[key] == if key in m then combine(if key in before then Some(before[key]) else None, m[key]) else before[key]
  {
    hide Last, Get, Unique, Folded, Placed;
    assert chains[..|chains|] == chains;
    forall key ensures Last(Entries(chains), key).Some? <==> key in m {
      LastInTable(hash, chains, m, key);
      FoldedLast(Entries(chains), before, key);
    }
    forall key ensures key in Folded(Replaced(), Entries(chains), before) <==> key in before || key in m {
      FoldedLast(Entries(chains), before, key);
    }
    if NoneTwice(chains) {
      RowsUnique(hash, chains, |chains|);
      forall key ensures
        var r := Folded(combine, Entries(chains), before);
        && (key in r <==> key in before || key in m)
        && (key in r ==> r[key] == if key in m then combine(if key in before then Some(before[key]) else None, m[key]) else before[key])
      {
        FoldedOnce(combine, Entries(chains), before, key);
        LastInTable(hash, chains, m, key);
      }
    }
  }

  lemma LastInTable<K(!new), V>(hash: K -> nat, chains: Chains<K, V>, m: map<K, V>, key: K)
    requires Placed(hash, chains) && Refines(hash, chains, m)
    ensures Last(Entries(chains), key).Some? <==> key in m
    ensures NoneTwice(chains) && key in m ==> Last(Entries(chains), key) == Some(m[key])
  {
    hide Last, Get, Unique;
    assert chains[..|chains|] == chains;
    var b := hash(key) % |chains|;
    LastOfRows(hash, chains, |chains|, key);
    LastNone(chains[b], key);
    assert Lookup(hash, chains, key) == if key in m then Some(m[key]) else None;
    if NoneTwice(chains) {
      LastIsFirst(chains[b], key);
    }
  }

  /** Check each link for the key, comparing the stored hash values first. */
  method FindLink<K(==), V>(chain: seq<Entry<K, V>>, key: K, hashval: nat) returns (j: nat)
    requires forall k :: 0 <= k < |chain| && Holds(chain[k], key) ==> chain[k].hash == hashval
    ensures j == Find(chain, key)
  {
    j := 0;
    while j < |chain| && !(chain[j].Live? && chain[j].hash == hashval && chain[j].key == key)
      invariant j <= |chain| && forall k :: 0 <= k < j ==> !Holds(chain[k], key)
    {
      j := j + 1;
    }
    if j < |chain| {
      GetIs(chain, key, j);
    } else {
      GetNone(chain, key);
    }
  }

  class HashTable<K(==, !new), V> {
    const hash: K -> nat
    var contents: array<seq<Entry<K, V>>>
    var capacity: nat
    var used: nat
    ghost var model: map<K, V>

    /** Every table that operations produce: looking up gives what the map gives. */
    ghost predicate Sane()
      reads this, contents
    {
      && contents.Length == capacity && PowerOfTwo(capacity)
      && Placed(hash, contents[..]) && Refines(hash, contents[..], model) && |model| <= used
    }

    /** No key has two entries. */
    ghost predicate Usable()
      reads this, contents
    {
      Sane() && NoneTwice(contents[..])
    }

    /** And no free head hides an entry. */
    ghost predicate Valid()
      reads this, contents
    {
      Usable() && HeadsOk(contents[..])
    }

    /** Putting the key would take a free head in front of its entry. */
    ghost predicate Hides(key: K)
      requires Sane()
      reads this, contents
    {
      contents[hash(key) % capacity][0].Free? && key in model
    }

    ghost predicate HidesNone(keys: set<K>)
      requires Sane()
      reads this, contents
    {
      forall key :: key in keys ==> !Hides(key)
    }

    constructor (hash: K -> nat)
      ensures Valid() && model == map[] && capacity == 64 && fresh(contents) && this.hash == hash && used == 0
    {
      this.hash := hash;
      capacity, used, model := 64, 0, map[];
      contents := new seq<Entry<K, V>>[64](_ => [Free]);
      new;
      EmptyTable(hash, contents[..]);
    }

    method Get(key: K) returns (value: Option<V>)
      requires Sane()
      ensures value == if key in model then Some(model[key]) else None
    {
      var hashval := hash(key);
      var chain := contents[hashval % capacity];
      assert Lookup(hash, contents[..], key) == if key in model then Some(model[key]) else None;
      for j := 0 to |chain|
        invariant forall k :: 0 <= k < j ==> !Holds(chain[k], key)
      {
        if chain[j].Live? && chain[j].hash == hashval && chain[j].key == key {
          GetIs(chain, key, j);
          return Some(chain[j].value);
        }
        assert chain[j].Live? ==> InPlace(hash, capacity, hashval % capacity, contents[..][hashval % capacity][j]);
      }
      GetNone(chain, key);
      value := None;
    }

    /** Unlike `Get` this does not skip free entries; their hash value is 0 and no key equals theirs. */
    method Present(key: K) returns (r: bool)
      requires Sane()
      ensures r <==> key in model
    {
      var hashval := hash(key);
      var chain := contents[hashval % capacity];
      assert Lookup(hash, contents[..], key) == if key in model then Some(model[key]) else None;
      for j := 0 to |chain|
        invariant forall k :: 0 <= k < j ==> !Holds(chain[k], key)
      {
        var found := if chain[j].Free? then 0 else chain[j].hash;
        if found == hashval && Holds(chain[j], key) {
          GetIs(chain, key, j);
          return true;
        }
        assert chain[j].Live? ==> InPlace(hash, capacity, hashval % capacity, contents[..][hashval % capacity][j]);
      }
      GetNone(chain, key);
      r := false;
    }

    /** `h_hashtable_put_raw`: replace the entry of the key, or take the free head, or add a link. */
    method PutRaw(entry: Entry<K, V>)
      requires Sane() && entry.Live? && entry.hash == hash(entry.key)
      modifies this`used, this`model, contents
      ensures Sane() && model == old(model)[entry.key := entry.value]
      ensures Usable() <==> old(Usable() && !Hides(entry.key))
      ensures old(Valid()) ==> Valid()
      ensures forall other :: Hides(other) ==> old(Hides(other))
      ensures var b := entry.hash % capacity; contents[..] == old(contents[..])[b := HashChain.Put(old(contents[..])[b], entry)]
    {
      hide Placed, HeadsOk, Refines, Unique, NoneTwice;
      var b := entry.hash % capacity;
      PutRefines(hash, contents[..], model, entry);
      BucketHasHead(hash, contents[..], b);
      EntriesInPlace(hash, contents[..], b);
      ValidHides(hash, contents[..], model, entry.key);
      HeadTaken(contents[b], entry);
      FoundInMap(hash, contents[..], model, entry.key);
      var chain := contents[b];
      model := model[entry.key := entry.value];
      ghost var before := contents[..];
      if chain[0].Live? {
        // check each link, stay on the last if not found
        var j := FindLink(chain, entry.key, entry.hash);
        if j < |chain| {
          contents[b] := chain[j := entry];
        } else {
          contents[b] := chain + [entry]; // add a new link
          used := used + 1;
        }
      } else {
        contents[b] := [entry] + chain[1..];
        used := used + 1;
      }
      assert contents[..] == before[b := HashChain.Put(chain, entry)];
    }

    /** `h_hashtable_ensure_capacity`: grow while `n` entries would fill more than 10/13 of the table, and put all entries
        into the larger one.  Of two entries with the same key the one further behind, which is the older, prevails. */
    method EnsureCapacity(n: nat)
      requires Sane()
      modifies this, contents
      ensures Sane() && 13 * n <= 10 * capacity
      ensures contents == old(contents) <==> 13 * n <= 10 * old(capacity)
      ensures contents == old(contents) ==> model == old(model) && used == old(used) && capacity == old(capacity) && contents[..] == old(contents[..])
      ensures contents != old(contents) ==> fresh(contents) && Valid() && model == old(Settled(contents[..]))
      ensures forall other :: Hides(other) ==> old(Hides(other))
      ensures model.Keys == old(model).Keys && (old(Usable()) ==> model == old(model))
    {
      hide Placed, HeadsOk, Refines, Unique, NoneTwice, Settled;
      var grown := capacity;
      while 13 * n > 10 * grown
        invariant grown >= capacity && PowerOfTwo(grown) && grown > 0
        invariant grown == capacity || 13 * n > 10 * capacity
        decreases 13 * n - 10 * grown
      {
        grown := 2 * grown;
      }
      if grown == capacity {
        return;
      }
      RehashKeeps(hash, contents[..], model);
      Rehash(grown);
      forall other ensures !Hides(other) {
        ValidHides(hash, contents[..], model, other);
      }
    }

    /** Put all entries into an empty table of capacity `grown`. */
    method Rehash(grown: nat)
      requires Sane() && PowerOfTwo(grown) && grown > 0
      modifies this
      ensures fresh(contents) && capacity == grown && Valid() && model == old(Settled(contents[..]))
    {
      hide Placed, HeadsOk, Refines, Unique, NoneTwice, Entries, Folded, PowerOfTwo;
      var oldCapacity, oldContents := capacity, contents;
      ghost var chains := contents[..];
      capacity, used, model := grown, 0, map[];
      contents := new seq<Entry<K, V>>[grown](_ => [Free]);
      FreshTable(hash, contents[..]);
      FoldedNothing(Replaced(), chains, model);
      for i := 0 to oldCapacity
        invariant Valid() && fresh(contents) && oldContents[..] == chains && oldContents != contents && capacity == grown
        invariant model == Folded(Replaced(), Entries(chains[..i]), map[])
      {
        EntriesRow(chains, i);
        assert chains[i][..0] == [] && Entries(chains[..i]) + [] == Entries(chains[..i]);
        for j := 0 to |oldContents[i]|
          invariant Valid() && fresh(contents) && oldContents[..] == chains && oldContents != contents && capacity == grown
          invariant model == Folded(Replaced(), Entries(chains[..i]) + chains[i][..j], map[])
        {
          NextEntry(Replaced(), chains, i, j, map[]);
          if oldContents[i][j].Live? {
            EntriesInPlace(hash, chains, i);
            PutRaw(oldContents[i][j]);
          }
        }
        assert chains[i][..|chains[i]|] == chains[i];
      }
      assert chains[..|chains|] == chains;
    }

    /** Without a rehash a put is a put on the map; with one, on the map of the last entries, which is the same map
        unless a key has two entries. */
    method Put(key: K, value: V)
      requires Sane()
      modifies this, contents
      ensures Sane() && 13 * |model| <= 10 * capacity
      ensures contents == old(contents) <==> 13 * (old(used) + 1) <= 10 * old(capacity)
      ensures contents == old(contents) ==>
        && capacity == old(capacity) && model == old(model)[key := value]
        && (Usable() <==> old(Usable() && !Hides(key))) && (old(Valid()) ==> Valid())
        && var b := hash(key) % capacity; contents[..] == old(contents[..])[b := HashChain.Put(old(contents[..])[b], Live(key, value, hash(key)))]
      ensures contents != old(contents) ==> fresh(contents) && Valid() && model == old(Settled(contents[..]))[key := value]
      ensures model.Keys == old(model).Keys + {key} && (old(Usable()) ==> model == old(model)[key := value])
      ensures forall other :: Hides(other) ==> old(Hides(other))
    {
      // start with a rebalancing
      EnsureCapacity(used + 1);
      PutRaw(Live(key, value, hash(key)));
    }

    /** `h_hashtable_del`.  The key is gone unless it has a second entry, which then is found. */
    method Delete(key: K)
      requires Sane()
      modifies this`model, contents
      ensures Sane() && model == old(Deleted(hash, contents[..], model, key))
      ensures old(Usable()) ==> Usable() && model == old(model) - {key}
      ensures old(Valid()) ==> (Valid() <==> !old(Exposes(contents[hash(key) % capacity], key)))
    {
      hide Placed, HeadsOk, Refines, Unique, Exposes, NoneTwice, Deleted;
      var hashval := hash(key);
      var b := hashval % capacity;
      DelRefines(hash, contents[..], model, key);
      DeletedSize(hash, contents[..], model, key);
      BucketHasHead(hash, contents[..], b);
      EntriesInPlace(hash, contents[..], b);
      var chain := contents[b];
      ghost var before := contents[..];
      model := Deleted(hash, contents[..], model, key);
      var j := FindLink(chain, key, hashval);
      if j < |chain| {
        if j + 1 < |chain| {
          contents[b] := chain[..j] + chain[j + 1..]; // the next entry moves up
        } else {
          contents[b] := chain[j := Free];
        }
      }
      assert contents[..] == before[b := Del(chain, key)];
    }

    /** `h_hashtable_update`: put everything that is in `src`.  The result is all these puts on the map, when no rehash
        happened, or when no put took a free head in front of its key. */
    method Update(src: HashTable<K, V>)
      requires Sane() && src.Sane() && src.hash == hash && src != this && src.contents != contents
      modifies this, contents
      ensures Sane() && model.Keys == old(model).Keys + src.model.Keys
      ensures contents == old(contents) || old(Usable() && HidesNone(src.model.Keys)) ==>
        && model == old(Folded(Replaced(), Entries(src.contents[..]), model))
        && (src.Usable() ==> model == old(model) + src.model)
      ensures old(Usable() && HidesNone(src.model.Keys)) ==> Usable()
    {
      hide Placed, HeadsOk, Refines, Unique, NoneTwice, Entries, Folded, Settled, Hides, Tracks;
      ghost var chains, m, keys, kept := src.contents[..], model, src.model.Keys, Usable() && HidesNone(src.model.Keys);
      TracksNothing(Replaced(), chains, m, true);
      for i := 0 to src.capacity
        invariant Sane() && (contents == old(contents) || fresh(contents)) && unchanged(src) && unchanged(src.contents)
        invariant kept ==> Usable() && HidesNone(keys)
        invariant Tracks(Replaced(), Entries(chains[..i]), m, model, contents == old(contents) || kept)
      {
        EntriesRow(chains, i);
        assert chains[i][..0] == [] && Entries(chains[..i]) + [] == Entries(chains[..i]);
        for j := 0 to |src.contents[i]|
          invariant Sane() && (contents == old(contents) || fresh(contents)) && unchanged(src) && unchanged(src.contents)
          invariant kept ==> Usable() && HidesNone(keys)
          invariant Tracks(Replaced(), Entries(chains[..i]) + chains[i][..j], m, model, contents == old(contents) || kept)
        {
          ghost var now, exact := model, contents == old(contents) || kept;
          var e := src.contents[i][j];
          if e.Live? {
            EntryInMap(hash, chains, src.model, i, j);
            Put(e.key, e.value);
          }
          TracksNext(Replaced(), chains, i, j, m, now, exact, model, contents == old(contents) || kept);
        }
        assert chains[i][..|chains[i]|] == chains[i];
      }
      assert chains[..|chains|] == chains;
      TracksAll(Replaced(), hash, chains, src.model, m, model, contents == old(contents) || kept);
    }

    /** `h_hashtable_merge`: as `Update`, but combining what both tables have. */
    method Merge(combine: (Option<V>, V) -> V, src: HashTable<K, V>)
      requires Sane() && src.Sane() && src.hash == hash && src != this && src.contents != contents
      modifies this, contents
      ensures Sane() && model.Keys == old(model).Keys + src.model.Keys
      ensures contents == old(contents) || old(Usable() && HidesNone(src.model.Keys)) ==>
        && model == old(Folded(combine, Entries(src.contents[..]), model))
        && (src.Usable() ==> forall key :: key in model ==>
              model[key] == if key in src.model then combine(if key in old(model) then Some(old(model)[key]) else None, src.model[key])
                            else old(model)[key])
      ensures old(Usable() && HidesNone(src.model.Keys)) ==> Usable()
    {
      hide Placed, HeadsOk, Refines, Unique, NoneTwice, Entries, Folded, Settled, Hides, Tracks;
      ghost var chains, m, keys, kept := src.contents[..], model, src.model.Keys, Usable() && HidesNone(src.model.Keys);
      TracksNothing(combine, chains, m, true);
      for i := 0 to src.capacity
        invariant Sane() && (contents == old(contents) || fresh(contents)) && unchanged(src) && unchanged(src.contents)
        invariant kept ==> Usable() && HidesNone(keys)
        invariant Tracks(combine, Entries(chains[..i]), m, model, contents == old(contents) || kept)
      {
        EntriesRow(chains, i);
        assert chains[i][..0] == [] && Entries(chains[..i]) + [] == Entries(chains[..i]);
        for j := 0 to |src.contents[i]|
          invariant Sane() && (contents == old(contents) || fresh(contents)) && unchanged(src) && unchanged(src.contents)
          invariant kept ==> Usable() && HidesNone(keys)
          invariant Tracks(combine, Entries(chains[..i]) + chains[i][..j], m, model, contents == old(contents) || kept)
        {
          ghost var now, exact := model, contents == old(contents) || kept;
          var e := src.contents[i][j];
          if e.Live? {
            EntryInMap(hash, chains, src.model, i, j);
            var dstValue := Get(e.key);
            Put(e.key, combine(dstValue, e.value));
          }
          TracksNext(combine, chains, i, j, m, now, exact, model, contents == old(contents) || kept);
        }
        assert chains[i][..|chains[i]|] == chains[i];
      }
      assert chains[..|chains|] == chains;
      TracksAll(combine, hash, chains, src.model, m, model, contents == old(contents) || kept);
    }
  }

  lemma FoundInMap<K(!new), V>(hash: K -> nat, chains: Chains<K, V>, m: map<K, V>, key: K)
    requires Placed(hash, chains) && Refines(hash, chains, m)
    ensures var chain := chains[hash(key) % |chains|]; Find(chain, key) < |chain| ==> key in m
  {
    assert Lookup(hash, chains, key) == if key in m then Some(m[key]) else None;
  }

  /** Where heads are in order, a free one hides nothing. */
  lemma ValidHides<K(!new), V>(hash: K -> nat, chains: Chains<K, V>, m: map<K, V>, key: K)
    requires Placed(hash, chains) && Refines(hash, chains, m)
    ensures HeadsOk(chains) ==> !(chains[hash(key) % |chains|][0].Free? && key in m)
  {
    var chain := chains[hash(key) % |chains|];
    assert Lookup(hash, chains, key) == if key in m then Some(m[key]) else None;
  }

  lemma DeletedSize<K(!new), V>(hash: K -> nat, chains: Chains<K, V>, m: map<K, V>, key: K)
    requires Placed(hash, chains) && Refines(hash, chains, m)
    ensures |Deleted(hash, chains, m, key)| <= |m|
  {
    var m' := Deleted(hash, chains, m, key);
    assert m'.Keys <= m.Keys by {
      FoundInMap(hash, chains, m, key);
    }
    FewerKeys(m', m);
  }

  lemma FewerKeys<K, V>(m: map<K, V>, n: map<K, V>)
    requires m.Keys <= n.Keys
    ensures |m| <= |n|
  {
    assert |m| == |m.Keys| && |n| == |n.Keys|;
    assert n.Keys == m.Keys + (n.Keys - m.Keys);
  }

  lemma FoldedNothing<K, V>(combine: (Option<V>, V) -> V, chains: Chains<K, V>, m: map<K, V>)
    ensures Folded(combine, Entries(chains[..0]), m) == m
  {
  }

  /** One step of the walk. */
  lemma NextEntry<K, V>(combine: (Option<V>, V) -> V, chains: Chains<K, V>, i: nat, j: nat, m: map<K, V>)
    requires i < |chains| && j < |chains[i]|
    ensures var es := Entries(chains[..i]) + chains[i][..j];
      Folded(combine, Entries(chains[..i]) + chains[i][..j + 1], m) == Combined(combine, Folded(combine, es, m), chains[i][j])
  {
    var es := Entries(chains[..i]) + chains[i][..j];
    assert Entries(chains[..i]) + chains[i][..j + 1] == es + [chains[i][j]];
    FoldedSnoc(combine, es, chains[i][j], m);
  }

  lemma HeadTaken<K, V>(chain: seq<Entry<K, V>>, e: Entry<K, V>)
    requires chain != [] && e.Live?
    ensures HashChain.Put(chain, e)[0].Live?
  {
    PutHeadOk(chain, e);
  }

  /** The map has the keys that the entries so far have put, and, if `exact`, their values. */
  ghost predicate Tracks<K(!new), V>(combine: (Option<V>, V) -> V, es: seq<Entry<K, V>>, before: map<K, V>, now: map<K, V>, exact: bool) {
    var r := Folded(combine, es, before);
    now.Keys == r.Keys && (exact ==> now == r)
  }

  lemma TracksNothing<K(!new), V>(combine: (Option<V>, V) -> V, chains: Chains<K, V>, m: map<K, V>, exact: bool)
    ensures Tracks(combine, Entries(chains[..0]), m, m, exact)
  {
    FoldedNothing(combine, chains, m);
  }

  lemma TracksNext<K(!new), V>(combine: (Option<V>, V) -> V, chains: Chains<K, V>, i: nat, j: nat, before: map<K, V>,
                               now: map<K, V>, exact: bool, now': map<K, V>, exact': bool)
    requires i < |chains| && j < |chains[i]| && Tracks(combine, Entries(chains[..i]) + chains[i][..j], before, now, exact)
    requires var e := chains[i][j];
      if e.Free? then now' == now && (exact' ==> exact)
      else now'.Keys == now.Keys + {e.key} && (exact' ==> exact && now' == Combined(combine, now, e))
    ensures Tracks(combine, Entries(chains[..i]) + chains[i][..j + 1], before, now', exact')
  {
    hide Entries, Folded;
    NextEntry(combine, chains, i, j, before);
  }

  lemma TracksAll<K(!new), V>(combine: (Option<V>, V) -> V, hash: K -> nat, chains: Chains<K, V>, m: map<K, V>,
                              before: map<K, V>, now: map<K, V>, exact: bool)
    requires Placed(hash, chains) && Refines(hash, chains, m) && Tracks(combine, Entries(chains), before, now, exact)
    ensures now.Keys == before.Keys + m.Keys && (exact ==> now == Folded(combine, Entries(chains), before))
    ensures exact && NoneTwice(chains) ==> forall key :: key in now ==>
      now[key] == if key in m then combine(if key in before then Some(before[key]) else None, m[key]) else before[key]
  {
    hide Entries, Folded, Placed, Refines, NoneTwice;
    FoldedTable(combine, hash, chains, m, before);
    FoldedKeys(combine, Entries(chains), before);
  }

  lemma EntryInMap<K(!new), V>(hash: K -> nat, chains: Chains<K, V>, m: map<K, V>, i: nat, j: nat)
    requires Placed(hash, chains) && Refines(hash, chains, m) && i < |chains| && j < |chains[i]| && chains[i][j].Live?
    ensures chains[i][j].key in m
  {
    var e := chains[i][j];
    assert InPlace(hash, |chains|, i, e);
    assert Find(chains[i], e.key) <= j;
    FoundInMap(hash, chains, m, e.key);
  }

  /** Which keys are put does not depend on how values are combined. */
  lemma {:induction false} FoldedKeys<K, V>(combine: (Option<V>, V) -> V, es: seq<Entry<K, V>>, m: map<K, V>)
    ensures Folded(combine, es, m).Keys == Folded(Replaced(), es, m).Keys
  {
    if es != [] {
      FoldedKeys(combine, es[..|es| - 1], m);
    }
  }

  lemma BucketHasHead<K, V>(hash: K -> nat, chains: Chains<K, V>, b: nat)
    requires Placed(hash, chains) && b < |chains|
    ensures chains[b] != []
  {
  }

  lemma EntriesInPlace<K, V>(hash: K -> nat, chains: Chains<K, V>, b: nat)
    requires Placed(hash, chains) && b < |chains|
    ensures forall j :: 0 <= j < |chains[b]| && chains[b][j].Live? ==> chains[b][j].hash == hash(chains[b][j].key)
  {
    forall j | 0 <= j < |chains[b]| && chains[b][j].Live? ensures chains[b][j].hash == hash(chains[b][j].key) {
      assert InPlace(hash, |chains|, b, chains[b][j]);
    }
  }

  lemma FreshTable<K(!new), V>(hash: K -> nat, chains: Chains<K, V>)
    requires |chains| > 0 && forall i :: 0 <= i < |chains| ==> chains[i] == [Free]
    ensures Placed(hash, chains) && NoneTwice(chains) && HeadsOk(chains) && Refines(hash, chains, map[])
  {
    forall key ensures Lookup(hash, chains, key) == None {
      GetNone(chains[hash(key) % |chains|], key);
    }
  }

  lemma EmptyTable<K(!new), V>(hash: K -> nat, chains: Chains<K, V>)
    requires |chains| == 64 && forall i :: 0 <= i < 64 ==> chains[i] == [Free]
    ensures Placed(hash, chains) && NoneTwice(chains) && HeadsOk(chains) && Refines(hash, chains, map[]) && PowerOfTwo(64)
  {
    FreshTable(hash, chains);
    assert PowerOfTwo(4) && PowerOfTwo(16);
  }
}
