/** Sets of lookahead strings, as tries, and what it means that a string begins a sentence. */
module StringSet {
  import opened Basics
  import opened Grammar
  import opened StringMap

  type StringSet = StringMap<()>

  const Empty: StringSet := StringMap(None, None, map[])
  const SingletonEpsilon: StringSet := StringMap(Some(()), None, map[])

  function Branch(m: StringSet, c: byte): StringSet {
    if c in m.branches then m.branches[c] else Empty
  }

  ghost predicate In(m: StringSet, w: seq<byte>, end: bool) {
    At(m, w, end).Some?
  }

  /** A membership one byte down. */
  lemma InStep(m: StringSet, w: seq<byte>, end: bool)
    requires w != []
    ensures In(m, w, end) <==> w[0] in m.branches && In(m.branches[w[0]], w[1..], end)
    ensures In(m, w, end) <==> In(Branch(m, w[0]), w[1..], end)
    ensures !In(Empty, w, end)
  {
  }

  // ----- operations on tries

  /** `h_stringmap_update`: add the strings of `n`. */
  function Update(m: StringSet, n: StringSet): StringSet
    decreases n
  {
    StringMap(if n.epsilon.Some? then n.epsilon else m.epsilon,
              if n.end.Some? then n.end else m.end,
              map c | c in m.branches.Keys + n.branches.Keys ::
                if c in n.branches then Update(Branch(m, c), n.branches[c]) else m.branches[c])
  }

  lemma {:induction false} InUpdate(m: StringSet, n: StringSet, w: seq<byte>, end: bool)
    ensures In(Update(m, n), w, end) <==> In(m, w, end) || In(n, w, end)
    decreases |w|
  {
    if w != [] {
      var c, r := w[0], Update(m, n);
      InStep(m, w, end);
      InStep(n, w, end);
      InStep(r, w, end);
      if c in n.branches {
        InUpdate(Branch(m, c), n.branches[c], w[1..], end);
        assert r.branches[c] == Update(Branch(m, c), n.branches[c]);
      } else if c in m.branches {
        assert r.branches[c] == m.branches[c];
      }
    }
  }

  /** `h_stringmap_put_end`, `h_stringmap_put_after`, `h_stringmap_put_char`. */
  function PutEnd(m: StringSet): StringSet {
    m.(end := Some(()))
  }

  function PutAfter(m: StringSet, c: byte, ends: StringSet): StringSet {
    m.(branches := m.branches[c := ends])
  }

  function PutChar(m: StringSet, c: byte): StringSet {
    PutAfter(m, c, SingletonEpsilon)
  }

  predicate IsSingletonEpsilon(m: StringSet) {
    m.epsilon.Some? && m.end == None && |m.branches| == 0
  }

  predicate AnyStringShorter(k: nat, m: StringSet)
    decreases k
  {
    k > 0 && (m.epsilon.Some? || exists c :: c in m.branches && AnyStringShorter(k - 1, m.branches[c]))
  }

  function RemoveAllShorter(k: nat, m: StringSet): StringSet
    decreases k
  {
    if k == 0 then m
    else if k == 1 then m.(epsilon := None)
    else m.(epsilon := None, branches := map c | c in m.branches :: RemoveAllShorter(k - 1, m.branches[c]))
  }

  lemma {:induction false} RemovesShorter(k: nat, m: StringSet, w: seq<byte>, end: bool)
    ensures In(RemoveAllShorter(k, m), w, end) <==> In(m, w, end) && (end || |w| >= k)
    decreases k
  {
    if k > 0 && w != [] {
      InStep(m, w, end);
      InStep(RemoveAllShorter(k, m), w, end);
      if w[0] in m.branches && k > 1 {
        RemovesShorter(k - 1, m.branches[w[0]], w[1..], end);
      }
    }
  }

  /** No branch is deeper than `k`, and at depth `k` there are whole strings only. */
  ghost predicate Shaped(m: StringSet, k: nat)
    decreases k
  {
    if k == 0 then m.branches == map[] && m.end == None && m.epsilon.Some?
    else forall c :: c in m.branches ==> Shaped(m.branches[c], k - 1)
  }

  lemma {:induction false} UpdateShaped(m: StringSet, n: StringSet, k: nat)
    requires Shaped(n, k) && (Shaped(m, k) || m == Empty)
    ensures Shaped(Update(m, n), k)
    decreases k
  {
    if k > 0 {
      forall c | c in Update(m, n).branches ensures Shaped(Update(m, n).branches[c], k - 1) {
        if c in n.branches {
          UpdateShaped(Branch(m, c), n.branches[c], k - 1);
        }
      }
    }
  }

  // ----- strings and sentences

  /** The string `w`, followed by the end of the input if `end` is set, is what `k` symbols of lookahead show of `y`.
      The end of the input counts as if it filled the lookahead. */
  ghost predicate Shows(k: nat, w: seq<byte>, end: bool, y: seq<Symbol>) {
    if end then |w| < k && Chars(w) + [End] <= y
    else if |w| < k then y == Chars(w)
    else |w| == k && Chars(w) <= y
  }

  type Language = iset<seq<Symbol>>

  ghost predicate Has(k: nat, l: Language, w: seq<byte>, end: bool) {
    exists y :: y in l && Shows(k, w, end, y)
  }

  ghost function Cat(a: Language, b: Language): Language {
    iset y, z | y in a && z in b :: y + z
  }

  /** Every string of the set is genuine. */
  ghost predicate Sound(m: StringSet, k: nat, l: Language) {
    Shaped(m, k) && forall w, end :: In(m, w, end) ==> Has(k, l, w, end)
  }

  ghost predicate Complete1(m: StringSet, l: Language) {
    forall w, end :: Has(1, l, w, end) ==> In(m, w, end)
  }

  /** A string of the first part, continued by one of the second. */
  lemma HasCat(k: nat, a: Language, b: Language, v: seq<byte>, w: seq<byte>, end: bool)
    requires |v| <= k && Has(k, a, v, false) && Has(k - |v|, b, w, end)
    ensures Has(k, Cat(a, b), v + w, end)
  {
    var y :| y in a && Shows(k, v, false, y);
    var z :| z in b && Shows(k - |v|, w, end, z);
    assert y + z in Cat(a, b);
    assert Chars(v + w) == Chars(v) + Chars(w);
    if |v| == k {
      assert v + w == v;
    } else if end {
      assert Chars(v) + (Chars(w) + [End]) == Chars(v + w) + [End];
    }
    assert Shows(k, v + w, end, y + z);
  }

  lemma HasCatEnd(k: nat, a: Language, b: Language, v: seq<byte>)
    requires Has(k, a, v, true) && exists z :: z in b
    ensures Has(k, Cat(a, b), v, true)
  {
    var y :| y in a && Shows(k, v, true, y);
    var z :| z in b;
    assert y + z in Cat(a, b) && Shows(k, v, true, y + z);
  }
}
