/** The analysis proper: memo tables for FIRST and FOLLOW, filled by mutually recursive calls. */
module GrammarAnalysis {
  import opened Basics
  import opened FirstFollow
  import opened FollowSets
  import opened Grammar
  import opened Languages
  import opened Nullable
  import opened StringMap
  import opened StringSet

  type FirstTable = map<(nat, Symbol), StringSet>
  type FollowTable = map<(nat, nat), StringSet>

  ghost predicate FirstOk(g: Grammar, kmax: nat, e: (nat, Symbol), m: StringSet) {
    0 < e.0 <= kmax && Known(g, e.1) && Sound(m, e.0, Derives(g, [e.1]))
  }

  ghost predicate FollowOk(g: Grammar, start: nat, kmax: nat, e: (nat, nat), m: StringSet) {
    0 < e.0 <= kmax && e.1 < |g| && Sound(m, e.0, Follows(g, start, Nt(e.1)))
  }

  ghost predicate FirstsOk(g: Grammar, kmax: nat, t: FirstTable) {
    forall e :: e in t ==> FirstOk(g, kmax, e, t[e])
  }

  ghost predicate FollowsOk(g: Grammar, start: nat, kmax: nat, t: FollowTable) {
    forall e :: e in t ==> FollowOk(g, start, kmax, e, t[e])
  }

  /** The sets have no empty branches and, except those that are being filled, a string for what every sentence begins with. */
  ghost predicate ExactOn(g: Grammar, t: FirstTable, open: set<(nat, Symbol)>) {
    forall e :: e in t ==> Trim(t[e]) && (e !in open ==> Heads(t[e], YieldsOf(g, [e.1])))
  }

  ghost predicate Ranked(g: Grammar, rank: nat -> nat, top: nat) {
    NoLeftRecursion(g, rank) && forall a: nat :: a < |g| ==> rank(a) < top
  }

  lemma FirstsPut(g: Grammar, kmax: nat, t: FirstTable, k: nat, x: Symbol, m: StringSet)
    requires FirstsOk(g, kmax, t) && 0 < k <= kmax && Known(g, x) && Sound(m, k, Derives(g, [x]))
    ensures FirstsOk(g, kmax, t[(k, x) := m])
  {
    hide Derives, Sound;
  }

  lemma FirstsGet(g: Grammar, kmax: nat, t: FirstTable, k: nat, x: Symbol)
    requires FirstsOk(g, kmax, t) && (k, x) in t
    ensures Sound(t[(k, x)], k, Derives(g, [x]))
  {
    hide Derives, Sound;
    assert FirstOk(g, kmax, (k, x), t[(k, x)]);
  }

  lemma ExactPut(g: Grammar, t: FirstTable, open: set<(nat, Symbol)>, open': set<(nat, Symbol)>, k: nat, x: Symbol, m: StringSet)
    requires ExactOn(g, t, open) && open - {(k, x)} <= open'
    requires Trim(m) && ((k, x) in open' || Heads(m, YieldsOf(g, [x])))
    ensures ExactOn(g, t[(k, x) := m], open')
  {
    hide Heads, Trim;
  }

  lemma ExactGet(g: Grammar, t: FirstTable, open: set<(nat, Symbol)>, k: nat, x: Symbol)
    requires ExactOn(g, t, open) && (k, x) in t
    ensures Trim(t[(k, x)]) && ((k, x) !in open ==> Heads(t[(k, x)], YieldsOf(g, [x])))
  {
    hide Heads, Trim;
  }

  ghost function FirstKeys(g: Grammar, kmax: nat): (r: set<(nat, Symbol)>)
    ensures forall k: nat, x :: k <= kmax && Known(g, x) ==> (k, x) in r
  {
    set k: nat, x | k <= kmax && x in Symbols(g) :: (k, x)
  }

  ghost function FollowKeys(g: Grammar, kmax: nat): (r: set<(nat, nat)>)
    ensures forall k: nat, a: nat :: k <= kmax && a < |g| ==> (k, a) in r
  {
    set k: nat, a: nat | k <= kmax && a < |g| :: (k, a)
  }

  /** Entries are never changed once the call that made them has returned. */
  ghost predicate Agrees<K, V>(m: map<K, V>, n: map<K, V>) {
    m.Keys <= n.Keys && forall e :: e in m ==> n[e] == m[e]
  }

  // ----- sets for one symbol of lookahead

  /** The string of one symbol is in the set. */
  ghost predicate Shown(m: StringSet, x: Symbol) {
    match x
    case End => In(m, [], true)
    case Char(c) => In(m, [c], false)
    case Nt(_) => false
  }

  ghost function Syms(m: StringSet): Looks {
    iset x | Shown(m, x)
  }

  ghost function MemoOf(g: Grammar, t: FollowTable): Memo {
    map a: nat | a < |g| && (1, a) in t :: Syms(t[(1, a)])
  }

  /** The strings of a part that need no continuation. */
  ghost function Own(part: StringSet): Looks {
    OwnBytes(part) + if part.end.Some? then iset{End} else iset{}
  }

  ghost function OwnBytes(part: StringSet): Looks {
    BytesIn(part.branches.Keys)
  }

  ghost function BytesIn(bytes: set<byte>): Looks {
    iset x: Symbol | x.Char? && x.c in bytes
  }

  /** What extending a part by the follow set of `a` does to the set, and to the follow sets. */
  ghost predicate ExtendedBy(g: Grammar, start: nat, order: seq<nat>, ret: StringSet, r: StringSet, part: StringSet, memo: Memo, memo': Memo, a: nat)
    requires a < |g|
  {
    && memo' == (if part.epsilon.Some? then FollowRun(g, start, order, memo, a) else memo)
    && Syms(r) == Syms(ret) + Own(part) + if part.epsilon.Some? then memo'[a] else iset{}
  }

  lemma NoBytes()
    ensures forall bytes: set<byte> :: BytesIn(bytes - bytes) == iset{}
  {
  }

  lemma MoreBytes(bytes: set<byte>, rest: set<byte>, c: byte)
    requires c in bytes && c !in rest
    ensures BytesIn(bytes - rest) == BytesIn(bytes - (rest + {c})) + iset{Char(c)}
  {
  }

  lemma UpdateSyms(m: StringSet, n: StringSet)
    ensures Syms(Update(m, n)) == Syms(m) + Syms(n)
  {
    hide In, Update;
    forall x ensures Shown(Update(m, n), x) <==> Shown(m, x) || Shown(n, x) {
      InUpdate(m, n, [], true);
      if x.Char? {
        InUpdate(m, n, [x.c], false);
      }
    }
  }

  lemma EndSyms(m: StringSet)
    ensures Syms(PutEnd(m)) == Syms(m) + iset{End}
  {
    forall x ensures Shown(PutEnd(m), x) <==> Shown(m, x) || x == End {
    }
  }

  lemma ByteShown(m: StringSet, c: byte)
    ensures In(m, [c], false) <==> c in m.branches && m.branches[c].epsilon.Some?
  {
    assert [c][1..] == [];
    InStep(m, [c], false);
  }

  lemma AfterSyms(m: StringSet, c: byte, node: StringSet)
    requires node.epsilon.Some?
    ensures Syms(PutAfter(m, c, node)) == Syms(m) + iset{Char(c)}
  {
    forall x ensures Shown(PutAfter(m, c, node), x) <==> Shown(m, x) || x == Char(c) {
      if x.Char? {
        ByteShown(m, x.c);
        ByteShown(PutAfter(m, c, node), x.c);
      }
    }
  }

  lemma EmptySyms()
    ensures Syms(Empty) == iset{}
  {
    forall x ensures !Shown(Empty, x) {
    }
  }

  lemma ShorterSyms(m: StringSet)
    ensures Syms(RemoveAllShorter(1, m)) == Syms(m)
  {
    hide In, RemoveAllShorter;
    forall x ensures Shown(RemoveAllShorter(1, m), x) <==> Shown(m, x) {
      RemovesShorter(1, m, [], true);
      if x.Char? {
        RemovesShorter(1, m, [x.c], false);
      }
    }
  }

  /** An exact first set. */
  lemma FirstSyms(g: Grammar, s: seq<Symbol>, m: StringSet)
    requires Productive(g) && Sound(m, 1, Derives(g, s)) && Complete1(m, YieldsOf(g, s))
    ensures Own(m) == Begins(g, s) && (m.epsilon.Some? <==> Vanishes(g, s))
  {
    hide YieldsOf, Productive;
    forall x ensures x in Own(m) <==> x in Begins(g, s) {
      FirstSym(g, s, m, x);
    }
    if m.epsilon.Some? {
      assert In(m, [], false);
      var y :| y in YieldsOf(g, s) && Shows(1, [], false, y);
    }
    if Vanishes(g, s) {
      var none: seq<Symbol> := [];
      assert Shows(1, [], false, none);
      assert Has(1, YieldsOf(g, s), [], false);
    }
  }

  lemma FirstSym(g: Grammar, s: seq<Symbol>, m: StringSet, x: Symbol)
    requires Productive(g) && Sound(m, 1, Derives(g, s)) && Complete1(m, YieldsOf(g, s))
    ensures x in Own(m) <==> BeginsSome(g, s, x)
  {
    hide YieldsOf, Productive;
    var w, end := if x.Char? then [x.c] else [], x.End?;
    if x in Own(m) {
      if x.Char? {
        assert Shaped(m.branches[x.c], 0);
        ByteShown(m, x.c);
      }
      assert In(m, w, end);
      var y :| y in YieldsOf(g, s) && Shows(1, w, end, y);
      assert x.Char? ==> Chars(w)[0] == x;
      assert y[0] == x;
    }
    if y :| y in YieldsOf(g, s) && y != [] && y[0] == x {
      NoNonterminal(g, s, y);
      if x.Char? {
        assert Chars(w) == [x];
      } else {
        assert Chars(w) + [End] == [x];
      }
      assert Shows(1, w, end, y);
      assert In(m, w, end);
      if x.Char? {
        ByteShown(m, x.c);
      }
    }
  }

  /** Only the entry that is being filled has changed. */
  ghost predicate AgreesBut<K, V>(m: map<K, V>, n: map<K, V>, key: K) {
    m.Keys <= n.Keys && forall e :: e in m && e != key ==> n[e] == m[e]
  }

  lemma SetEmpty(k: nat, l: Language)
    requires k > 0
    ensures Sound(Empty, k, l)
  {
    forall w, end ensures !In(Empty, w, end) {
      NotInEmpty(w, end);
    }
  }

  lemma {:induction false} NoneShorter(k: nat, m: StringSet, w: seq<byte>)
    requires !AnyStringShorter(k, m) && In(m, w, false)
    ensures |w| >= k
    decreases k
  {
    if k > 0 && w != [] {
      InStep(m, w, false);
      NoneShorter(k - 1, m.branches[w[0]], w[1..]);
    }
  }

  /** A set of whole strings needs no continuation. */
  lemma WholeSound(g: Grammar, s: seq<Symbol>, m: StringSet, k: nat)
    requires s != [] && Sound(m, k, Derives(g, [s[0]])) && !AnyStringShorter(k, m) && exists z :: z in Derives(g, s[1..])
    ensures Sound(m, k, Derives(g, s))
  {
    hide YieldsOf, Cat, Productive;
    if Productive(g) {
      var a, b := YieldsOf(g, [s[0]]), YieldsOf(g, s[1..]);
      YieldsOfCons(g, s);
      forall w, end | In(m, w, end) ensures Has(k, YieldsOf(g, s), w, end) {
        if end {
          HasCatEnd(k, a, b, w);
        } else {
          NoneShorter(k, m, w);
          var y :| y in a && Shows(k, w, false, y);
          var z :| z in b;
          assert Shows(0, [], false, z);
          assert w + [] == w;
          HasCat(k, a, b, w, [], false);
        }
      }
    }
  }

  /** Behind a symbol that vanishes, the tail decides. */
  lemma TailSound(g: Grammar, s: seq<Symbol>, first: StringSet, m: StringSet, k: nat)
    requires s != [] && Sound(first, k, Derives(g, [s[0]])) && first.epsilon.Some? && Sound(m, k, Derives(g, s[1..]))
    requires exists y :: y in Derives(g, [s[0]])
    ensures Sound(m, k, Derives(g, s))
  {
    hide YieldsOf, Productive;
    if Productive(g) {
      var a, b := YieldsOf(g, [s[0]]), YieldsOf(g, s[1..]);
      YieldsOfCons(g, s);
      forall w, end | In(m, w, end) ensures Has(k, YieldsOf(g, s), w, end) {
        var z :| z in b && Shows(k, w, end, z);
        var y :| y in a && (k > 0 ==> y == []) by {
          if k > 0 {
            EpsilonMeansNullable(g, s[0], first, k);
          }
        }
        assert y + z in Cat(a, b);
        if k > 0 {
          assert y + z == z;
        } else {
          assert Shows(0, w, end, y + z);
        }
      }
    }
  }

  /** `h_stringmap_put_char` and the like for a terminal or a set of bytes. */
  lemma TerminalExact(g: Grammar, x: Symbol, m: StringSet, k: nat)
    requires k > 0 && Known(g, x)
    requires match x
             case End => m == PutEnd(Empty)
             case Char(c) => m == PutChar(Empty, c)
             case Nt(a) => g[a].CharsetRule? && m == StringMap(None, None, map c | c in g[a].chars :: SingletonEpsilon)
    ensures Sound(m, k, YieldsOf(g, [x])) && Sound(m, k, Derives(g, [x])) && Heads(m, YieldsOf(g, [x])) && Trim(m)
  {
    hide YieldsOf;
    var l := YieldsOf(g, [x]);
    if x.Nt? {
      CharsetYields(g, x.id);
    } else {
      TerminalYields(g, x);
    }
    forall c | c in m.branches ensures Shaped(m.branches[c], k - 1) {
      assert m.branches[c] == SingletonEpsilon;
    }
    forall w, end | In(m, w, end) ensures Has(k, l, w, end) {
      if w == [] {
        assert Shows(k, [], true, [End]);
      } else {
        InStep(m, w, end);
        NotInEmpty(w[1..], end);
        assert w == [w[0]] && !end;
        assert Shows(k, w, false, [Char(w[0])]);
      }
    }
    MoreSound(m, k, l, Derives(g, [x]));
    forall c | c in m.branches ensures NonEmpty(m.branches[c]) && Trim(m.branches[c]) {
      EmptyTrim();
      assert m.branches[c] == SingletonEpsilon;
    }
  }

  lemma EmptyTrim()
    ensures Trim(Empty) && Trim(SingletonEpsilon) && NonEmpty(SingletonEpsilon)
  {
    assert In(SingletonEpsilon, [], false);
  }

  /** All productions have been taken into account. */
  lemma ChoiceExact(g: Grammar, a: nat, prods: seq<seq<Symbol>>, m: StringSet)
    requires a < |g| && g[a] == ChoiceRule(prods)
    requires forall j :: 0 <= j < |prods| ==> Heads(m, YieldsOf(g, prods[j]))
    ensures Heads(m, YieldsOf(g, [Nt(a)]))
  {
    hide Headed;
    forall y | y in YieldsOf(g, [Nt(a)]) ensures Headed(m, y) {
      var rhs := ProductionOf(g, a, y);
      var j :| 0 <= j < |prods| && prods[j] == rhs;
      assert Heads(m, YieldsOf(g, prods[j]));
    }
  }

  lemma AllHeads(g: Grammar, m: StringSet, n: StringSet, prods: seq<seq<Symbol>>, i: nat)
    requires i < |prods| && Heads(n, YieldsOf(g, prods[i])) && forall j :: 0 <= j < i ==> Heads(m, YieldsOf(g, prods[j]))
    ensures forall j :: 0 <= j < i + 1 ==> Heads(Update(m, n), YieldsOf(g, prods[j]))
  {
    hide Heads, Update;
    forall j | 0 <= j < i + 1 ensures Heads(Update(m, n), YieldsOf(g, prods[j])) {
      HeadsUpdate(m, n, YieldsOf(g, prods[j]));
    }
  }

  lemma EmptyHeads(g: Grammar)
    ensures Heads(SingletonEpsilon, YieldsOf(g, [])) && Trim(SingletonEpsilon)
  {
    NothingYields(g);
  }

  lemma SomeBranch(bytes: set<byte>, r: StringSet)
    ensures BranchesIn(bytes, r) && bytes != {} ==> NonEmpty(r)
  {
    hide NonEmpty;
    if BranchesIn(bytes, r) && bytes != {} {
      var c :| c in bytes;
      NonEmptyBranch(r, c);
    }
  }

  lemma NoBranches(bytes: set<byte>, r: StringSet)
    ensures BranchesIn(bytes - bytes, r)
  {
  }

  lemma EndHeads(r: StringSet, b: Language)
    ensures PutEnd(r).end.Some? && NonEmpty(PutEnd(r)) && (Trim(r) ==> Trim(PutEnd(r))) && (Heads(r, b) ==> Heads(PutEnd(r), b))
  {
    NonEmptyHere(PutEnd(r));
  }

  lemma EndStays(r: StringSet, c: byte, node: StringSet)
    ensures (In(r, [], true) ==> In(PutAfter(r, c, node), [], true)) && PutAfter(r, c, node).end == r.end
  {
  }

  lemma TrimBranch(part: StringSet, c: byte)
    requires c in part.branches
    ensures Trim(part) ==> Trim(part.branches[c]) && NonEmpty(part.branches[c])
  {
    hide NonEmpty;
  }

  lemma AfterHeads(r: StringSet, c: byte, node: StringSet, b: Language, bytes: set<byte>, rest: set<byte>)
    requires NonEmpty(node) && Trim(node)
    ensures var r' := PutAfter(r, c, node);
      && NonEmpty(r') && (Trim(r) ==> Trim(r')) && (Heads(r, b) ==> Heads(r', b)) && r'.end == r.end
      && (BranchesIn(bytes - (rest + {c}), r) ==> BranchesIn(bytes - rest, r'))
  {
    hide NonEmpty;
    NonEmptyBranch(PutAfter(r, c, node), c);
  }

  lemma ContinuationNonEmpty(g: Grammar, tail: seq<Symbol>, k: nat, n: StringSet)
    requires Sound(n, k, Derives(g, tail)) && (k > 0 ==> Heads(n, YieldsOf(g, tail))) && exists z :: z in YieldsOf(g, tail)
    ensures NonEmpty(n)
  {
    hide YieldsOf, Has;
    if k > 0 {
      HeadsNonEmpty(g, tail, n);
    } else {
      NonEmptyHere(n);
    }
  }

  class Analysis {
    const g: Grammar
    const start: nat
    ghost const nts: set<nat>
    /** The nonterminals in the order in which they are walked. */
    const order: seq<nat>
    const kmax: nat
    var first: FirstTable
    var follow: FollowTable
    /** A ranking that shows the absence of left recursion, if `ranked` is set; and the first sets that are being
        filled. */
    ghost const rank: nat -> nat
    ghost const ranked: bool
    ghost const top: nat
    ghost var open: set<(nat, Symbol)>
    /** All predict sets computed so far. */
    ghost var predicted: set<(nat, nat, seq<Symbol>, StringSet)>

    ghost predicate Valid()
      reads this
    {
      && Usable(g, start, nts) && (forall a :: a in order <==> a in nts)
      && FirstsOk(g, kmax, first) && FollowsOk(g, start, kmax, follow)
      && (ranked ==> Productive(g) && Ranked(g, rank, top) && ExactOn(g, first, open))
      && (forall e :: e in open ==> e in first)
    }

    /** The follow sets are followed step by step. */
    ghost predicate Tracks() {
      ranked && kmax == 1
    }

    ghost function Now(): Memo
      reads this
    {
      MemoOf(g, follow)
    }

    /** The sets that are being filled are for more symbols, or belong to symbols of higher rank. */
    ghost predicate OpenAbove(k: nat, bound: nat)
      reads this
    {
      forall e: (nat, Symbol) :: e in open ==> e.0 >= k && (e.0 == k ==> e.1.Nt? && rank(e.1.id) >= bound)
    }

    /** They are for at least `k` symbols. */
    ghost predicate OpenFrom(k: nat)
      reads this
    {
      forall e: (nat, Symbol) :: e in open ==> e.0 >= k
    }

    ghost function UnFirst(): set<(nat, Symbol)>
      reads this
    {
      FirstKeys(g, kmax) - first.Keys
    }

    ghost function UnFollow(): set<(nat, nat)>
      reads this
    {
      FollowKeys(g, kmax) - follow.Keys
    }

    constructor (g: Grammar, start: nat, ghost nts: set<nat>, order: seq<nat>, kmax: nat, ghost rank: nat -> nat, ghost ranked: bool, ghost top: nat)
      requires Usable(g, start, nts) && forall a :: a in order <==> a in nts
      requires ranked ==> Productive(g) && Ranked(g, rank, top)
      ensures Valid() && open == {} && first == map[] && follow == map[] && predicted == {}
      ensures this.g == g && this.start == start && this.nts == nts && this.order == order && this.kmax == kmax && this.rank == rank && this.ranked == ranked && this.top == top
    {
      this.g, this.start, this.nts, this.order, this.kmax, this.rank, this.ranked, this.top := g, start, nts, order, kmax, rank, ranked, top;
      first, follow, open, predicted := map[], map[], {}, {};
    }

    /** `h_first`. */
    method First(k: nat, x: Symbol, ghost bound: nat) returns (ret: StringSet)
      requires Valid() && k <= kmax && Known(g, x)
      requires ranked && k > 0 ==> OpenAbove(k, bound) && (x.Nt? ==> rank(x.id) < bound)
      modifies this`first, this`follow, this`open
      ensures Valid() && open == old(open) && Agrees(old(first), first) && Agrees(old(follow), follow)
      ensures follow == old(follow)
      ensures Sound(ret, k, Derives(g, [x])) && (ranked ==> Trim(ret) && (k > 0 ==> Heads(ret, YieldsOf(g, [x]))))
      decreases UnFollow(), UnFirst(), 1, 0, 0, Empty
    {
      hide Derives, Sound, Heads, Ranked, Follows, FirstsOk, FollowsOk, ExactOn, Usable;
      if k == 0 {
        var y := SomeDerived(g, [x]);
        SingletonSound(0, Derives(g, [x]));
        return SingletonEpsilon;
      }
      if (k, x) in first {
        FirstsGet(g, kmax, first, k, x);
        if ranked {
          ExactGet(g, first, open, k, x);
        }
        return first[(k, x)];
      }
      match x {
        case End =>
          ret := PutEnd(Empty);
          TerminalExact(g, x, ret, k);
          Memoize(k, x, ret);
        case Char(c) =>
          ret := PutChar(Empty, c);
          TerminalExact(g, x, ret, k);
          Memoize(k, x, ret);
        case Nt(a) =>
          if g[a].CharsetRule? {
            ret := FirstOfCharset(g[a].chars);
            TerminalExact(g, x, ret, k);
            Memoize(k, x, ret);
          } else {
            ret := FirstOfChoice(k, a);
          }
      }
    }

    /** Enter a finished set. */
    method Memoize(k: nat, x: Symbol, m: StringSet)
      requires Valid() && 0 < k <= kmax && Known(g, x) && (k, x) !in first && Sound(m, k, Derives(g, [x])) && Trim(m) && Heads(m, YieldsOf(g, [x]))
      modifies this`first
      ensures Valid() && first == old(first)[(k, x) := m]
    {
      hide Derives, Sound, Heads, Trim, Ranked, Follows, FirstsOk, FollowsOk, ExactOn, Usable;
      FirstsPut(g, kmax, first, k, x, m);
      if ranked {
        ExactPut(g, first, open, open, k, x, m);
      }
      first := first[(k, x) := m];
    }

    /** A loop over all bytes. */
    static method FirstOfCharset(chars: set<byte>) returns (ret: StringSet)
      ensures ret == StringMap(None, None, map c | c in chars :: SingletonEpsilon)
    {
      ret := Empty;
      for c := 0 to 256
        invariant ret == StringMap(None, None, map d | d in chars && d < c :: SingletonEpsilon)
      {
        if c in chars {
          ret := PutChar(ret, c);
        }
      }
    }

    /** The union of the first sets of all productions. */
    method FirstOfChoice(k: nat, a: nat) returns (ret: StringSet)
      requires Valid() && 0 < k <= kmax && a < |g| && g[a].ChoiceRule? && (k, Nt(a)) !in first
      requires ranked ==> OpenAbove(k, rank(a) + 1)
      modifies this`first, this`follow, this`open
      ensures Valid() && open == old(open) && Agrees(old(first), first) && Agrees(old(follow), follow)
      ensures follow == old(follow)
      ensures Sound(ret, k, Derives(g, [Nt(a)])) && (ranked ==> Trim(ret) && Heads(ret, YieldsOf(g, [Nt(a)])))
      decreases UnFollow(), UnFirst(), 0, 0, 0, Empty
    {
      hide Derives, Sound, Heads, Trim, Ranked, Follows, FirstsOk, FollowsOk, ExactOn, Usable, LeftBelow, Update;
      var x := Nt(a);
      UsableFacts(g, start, nts);
      RankedFacts(g, rank, top, ranked);
      ret := Empty;
      SetEmpty(k, Derives(g, [x]));
      EmptyTrim();
      Publish(k, x, ret); // memoize
      var prods := g[a].prods;
      for i := 0 to |prods|
        invariant Valid() && open == old(open) + {(k, x)}
        invariant (k, x) in first && first[(k, x)] == ret && Sound(ret, k, Derives(g, [x])) && Agrees(old(first), first) && follow == old(follow)
        invariant Trim(ret) || !ranked
        invariant ranked ==> forall j :: 0 <= j < i ==> Heads(ret, YieldsOf(g, prods[j]))
        invariant UnFirst() < old(UnFirst()) && UnFollow() <= old(UnFollow())
      {
        ProductionFacts(g, a, prods[i], rank, ranked);
        var part := FirstSeq(k, prods[i], rank(a));
        UpdateSound(ret, part, k, Derives(g, [x]), Derives(g, prods[i]));
        if ranked {
          TrimUpdate(ret, part);
          AllHeads(g, ret, part, prods, i);
        }
        ret := Update(ret, part);
        Publish(k, x, ret);
      }
      if ranked {
        ChoiceExact(g, a, prods, ret);
        ExactPut(g, first, open, open - {(k, x)}, k, x, ret);
        assert first == first[(k, x) := ret];
      }
      open := open - {(k, x)};
    }

    /** Enter a set that is still being filled. */
    method Publish(k: nat, x: Symbol, m: StringSet)
      requires Valid() && 0 < k <= kmax && Known(g, x) && Sound(m, k, Derives(g, [x])) && (ranked ==> Trim(m))
      modifies this`first, this`open
      ensures Valid() && first == old(first)[(k, x) := m] && open == old(open) + {(k, x)}
    {
      hide Derives, Sound, Heads, Trim, Ranked, Follows, FirstsOk, FollowsOk, ExactOn, Usable;
      FirstsPut(g, kmax, first, k, x, m);
      if ranked {
        ExactPut(g, first, open, open + {(k, x)}, k, x, m);
      }
      first := first[(k, x) := m];
      open := open + {(k, x)};
    }

    /** `h_first_seq`. */
    method FirstSeq(k: nat, s: seq<Symbol>, ghost bound: nat) returns (ret: StringSet)
      requires Valid() && k <= kmax && AllKnown(g, s)
      requires ranked && k > 0 ==> OpenAbove(k, bound) && LeftBelow(g, rank, s, bound)
      modifies this`first, this`follow, this`open
      ensures Valid() && open == old(open) && Agrees(old(first), first) && Agrees(old(follow), follow)
      ensures follow == old(follow)
      ensures Sound(ret, k, Derives(g, s)) && (ranked ==> Trim(ret) && (k > 0 ==> Heads(ret, YieldsOf(g, s))) && (k == 1 ==> Complete1(ret, YieldsOf(g, s))))
      decreases UnFollow(), UnFirst(), 2, |s|, 0, Empty
    {
      hide Derives, Sound, Heads, Trim, Complete1, Ranked, Follows, FirstsOk, FollowsOk, ExactOn, Usable, LeftBelow, AnyStringShorter, Carries;
      UsableFacts(g, start, nts);
      if s == [] {
        NothingDerived(g);
        SingletonSound(k, Derives(g, s));
        EmptyHeads(g);
        HeadsComplete(SingletonEpsilon, k, YieldsOf(g, []), Derives(g, s));
        return SingletonEpsilon;
      }
      // first_k(X tail) = { a b | a in first_k(X), b in first_l(tail), l = k - |a| }
      var x, tail := s[0], s[1..];
      KnownParts(g, s);
      ghost var y := SomeDerived(g, [x]);
      ghost var z := SomeDerived(g, tail);
      if ranked && k > 0 {
        LeftBelowTail(g, rank, s, bound);
      }
      var firstX := First(k, x, bound);
      if ranked && k > 0 && firstX.epsilon.Some? {
        EpsilonMeansNullable(g, x, firstX, k);
      }
      if IsSingletonEpsilon(firstX) {
        ret := FirstSeq(k, tail, bound);
        TailSound(g, s, firstX, ret, k);
      } else if !AnyStringShorter(k, firstX) {
        ret := firstX;
        WholeSound(g, s, ret, k);
      } else {
        FirstBegins(firstX, k, Derives(g, [x]));
        ret := ExtendTop(k, firstX, tail, None, bound, Derives(g, [x]), Derives(g, tail));
        DerivesCons(g, s);
        MoreSound(ret, k, Cat(Derives(g, [x]), Derives(g, tail)), Derives(g, s));
      }
      if ranked && k > 0 {
        DerivesIsYields(g, tail);
        SeqHeads(g, s, k, firstX, ret);
        HeadsComplete(ret, k, YieldsOf(g, s), Derives(g, s));
      }
    }

    /** `stringset_extend` into a new set. */
    method ExtendTop(k: nat, part: StringSet, tail: seq<Symbol>, owner: Option<nat>, ghost bound: nat, ghost a: Language, ghost b: Language)
      returns (r: StringSet)
      requires Valid() && k <= kmax && Beginnings(part, k, k, [], a) && (exists z :: z in b)
      requires AllKnown(g, tail) && (owner.Some? ==> owner.value < |g| && owner.value in nts)
      requires b == if owner.Some? then Follows(g, start, Nt(owner.value)) else Derives(g, tail)
      requires owner == None && ranked ==> Trim(part) && OpenFrom(k)
      requires owner == None && ranked && 0 < k && part.epsilon.Some? ==> OpenAbove(k, bound) && LeftBelow(g, rank, tail, bound)
      requires owner.Some? ==> open == {}
      modifies this`first, this`follow, this`open
      ensures Valid() && open == old(open) && Agrees(old(first), first) && Agrees(old(follow), follow)
      ensures owner == None || k == 0 ==> follow == old(follow)
      ensures Tracks() && owner.Some? && k == 1 ==> ExtendedBy(g, start, order, Empty, r, part, old(Now()), Now(), owner.value)
      ensures Sound(r, k, Cat(a, b))
      ensures k == 1 ==> CarriesOwn(part, r)
      ensures owner == None && ranked ==> Trim(r) && (k > 0 ==> Carries(part, b, r))
      decreases UnFollow(), UnFirst(), if owner.Some? then 5 else 2, |tail|, 3, part
    {
      hide Derives, Beginnings, Extended, Cat, Ranked, Follows, FirstsOk, FollowsOk, Usable, LeftBelow, Carries, Trim;
      EmptyTrim();
      r := Extend(Empty, k, part, tail, owner, bound, k, [], a, b);
      ExtendedSound(r, k, Cat(a, b));
    }

    /** `stringset_extend`: add { a b | a in part, b in f_l(S), l = k - |a| }, where S is a tail of symbols or the nonterminal
        whose follow set continues the string.  A branch that is there already is replaced. */
    method Extend(ret: StringSet, k: nat, part: StringSet, tail: seq<Symbol>, owner: Option<nat>, ghost bound: nat,
                  ghost whole: nat, ghost pre: seq<byte>, ghost a: Language, ghost b: Language)
      returns (r: StringSet)
      requires Valid() && whole <= kmax && Beginnings(part, k, whole, pre, a) && (exists z :: z in b)
      requires AllKnown(g, tail) && (owner.Some? ==> owner.value < |g| && owner.value in nts)
      requires b == if owner.Some? then Follows(g, start, Nt(owner.value)) else Derives(g, tail)
      requires owner == None && ranked ==> Trim(part) && OpenFrom(whole)
      requires owner == None && ranked && whole == k && 0 < k && part.epsilon.Some? ==> OpenAbove(k, bound) && LeftBelow(g, rank, tail, bound)
      requires owner.Some? ==> open == {}
      requires Shaped(ret, k) || ret == Empty
      modifies this`first, this`follow, this`open
      ensures Valid() && open == old(open) && Agrees(old(first), first) && Agrees(old(follow), follow)
      ensures owner == None || k == 0 ==> follow == old(follow)
      ensures Tracks() && owner.Some? && k == 1 ==> ExtendedBy(g, start, order, ret, r, part, old(Now()), Now(), owner.value)
      ensures Extended(ret, r, k, whole, pre, Cat(a, b)) && (k == 0 ==> r.epsilon.Some?)
      ensures whole == k == 1 ==> CarriesOwn(part, r)
      ensures owner == None && ranked ==> (Trim(ret) ==> Trim(r)) && (NonEmpty(part) ==> NonEmpty(r)) && (whole == k > 0 ==> Carries(part, b, r))
      ensures k == 1 ==> Keeps(ret, r)
      decreases UnFollow(), UnFirst(), if owner.Some? then 5 else 2, |tail|, 2, part, 1
    {
      hide Derives, Extended, Cat, Ranked, Follows, FirstsOk, FollowsOk, ExactOn, Usable, LeftBelow, Has, Keeps, Heads, Trim, NonEmpty, BranchesIn, Sound, Syms, FollowRun, OwnBytes;
      ShortPart(part, k, whole, pre, a);
      r := ExtendHead(ret, k, part, tail, owner, bound, whole, pre, a, b);
      ghost var r0 := r;
      r := ExtendBranches(ret, r, k, part, tail, owner, bound, whole, pre, a, b);
      if k == 1 {
        KeepsTwice(ret, r0, r);
      }
      if owner == None && ranked {
        NonEmptyHere(part);
        SomeBranch(part.branches.Keys, r);
      }
    }

    /** The continuations of the empty string, and the end of the input. */
    method ExtendHead(ret: StringSet, k: nat, part: StringSet, tail: seq<Symbol>, owner: Option<nat>, ghost bound: nat,
                      ghost whole: nat, ghost pre: seq<byte>, ghost a: Language, ghost b: Language)
      returns (r: StringSet)
      requires Valid() && whole <= kmax && Beginnings(part, k, whole, pre, a) && (exists z :: z in b)
      requires AllKnown(g, tail) && (owner.Some? ==> owner.value < |g| && owner.value in nts)
      requires b == if owner.Some? then Follows(g, start, Nt(owner.value)) else Derives(g, tail)
      requires owner == None && ranked ==> Trim(part) && OpenFrom(whole)
      requires owner == None && ranked && whole == k && 0 < k && part.epsilon.Some? ==> OpenAbove(k, bound) && LeftBelow(g, rank, tail, bound)
      requires owner.Some? ==> open == {}
      requires Shaped(ret, k) || ret == Empty
      modifies this`first, this`follow, this`open
      ensures Valid() && open == old(open) && Agrees(old(first), first) && Agrees(old(follow), follow)
      ensures owner == None || k == 0 ==> follow == old(follow)
      ensures Tracks() && owner.Some? && k == 1 ==> HeadBy(old(Now()), ret, r, part, owner.value)
      ensures Extended(ret, r, k, whole, pre, Cat(a, b)) && (k == 0 ==> r.epsilon.Some?)
      ensures k == 1 ==> Keeps(ret, r) && (part.end.Some? ==> In(r, [], true))
      ensures owner == None && ranked ==> (Trim(ret) ==> Trim(r)) && (part.epsilon.Some? || part.end.Some? ==> NonEmpty(r))
      ensures part.end.Some? ==> r.end.Some?
      ensures owner == None && ranked && whole == k > 0 && part.epsilon.Some? ==> Heads(r, b)
      decreases UnFollow(), UnFirst(), if owner.Some? then 5 else 2, |tail|, 2, part, 0
    {
      hide Derives, Extended, Cat, Ranked, Follows, FirstsOk, FollowsOk, ExactOn, Usable, LeftBelow, Has, Update, PutEnd, PutAfter, Keeps, Heads, Trim, NonEmpty, Sound, Syms, FollowRun;
      NothingNew(ret, k, whole, pre, Cat(a, b));
      ShortPart(part, k, whole, pre, a);
      r := ret;
      if part.epsilon.Some? {
        // for a = "", add f_k(S)
        var n := Continuation(k, tail, owner, bound, whole, b);
        ExtendEpsilon(r, part, n, k, whole, pre, a, b);
        HeadsUpdate(r, n, b);
        NonEmptyUpdate(r, n);
        if owner == None && ranked && Trim(ret) {
          TrimUpdate(r, n);
        }
        UpdateSyms(r, n);
        r := Update(r, n);
      }
      assert Keeps(ret, r) by { KeepsItself(ret); }
      if part.end.Some? {
        // for a = "$", nothing can follow
        ExtendEnd(r, part, k, whole, pre, a, b);
        KeepsTwice(ret, r, PutEnd(r));
        ExtendedTwice(ret, r, PutEnd(r), k, whole, pre, Cat(a, b));
        EndHeads(r, b);
        EndSyms(r);
        r := PutEnd(r);
      }
    }

    ghost predicate HeadBy(memo: Memo, ret: StringSet, r: StringSet, part: StringSet, a: nat)
      requires a < |g|
      reads this
    {
      && Now() == (if part.epsilon.Some? then FollowRun(g, start, order, memo, a) else memo)
      && Syms(r) == Syms(ret) + (if part.end.Some? then iset{End} else iset{}) + if part.epsilon.Some? then Now()[a] else iset{}
    }

    /** Follow every branch to find { a' | c a' in part }, and extend these strings by recursion over k. */
    method ExtendBranches(ghost ret: StringSet, r0: StringSet, k: nat, part: StringSet, tail: seq<Symbol>, owner: Option<nat>, ghost bound: nat,
                          ghost whole: nat, ghost pre: seq<byte>, ghost a: Language, ghost b: Language)
      returns (r: StringSet)
      requires Valid() && whole <= kmax && Beginnings(part, k, whole, pre, a) && (exists z :: z in b)
      requires AllKnown(g, tail) && (owner.Some? ==> owner.value < |g| && owner.value in nts)
      requires b == if owner.Some? then Follows(g, start, Nt(owner.value)) else Derives(g, tail)
      requires owner == None && ranked ==> Trim(part) && OpenFrom(whole)
      requires owner.Some? ==> open == {}
      requires Extended(ret, r0, k, whole, pre, Cat(a, b)) && (k == 0 ==> r0.epsilon.Some? && part.branches == map[])
      modifies this`first, this`follow, this`open
      ensures Valid() && open == old(open) && Agrees(old(first), first) && Agrees(old(follow), follow)
      ensures owner == None || k <= 1 ==> follow == old(follow)
      ensures k == 1 ==> Syms(r) == Syms(r0) + OwnBytes(part)
      ensures Extended(ret, r, k, whole, pre, Cat(a, b)) && (k == 0 ==> r.epsilon.Some?)
      ensures (k <= 1 && In(r0, [], true) ==> In(r, [], true)) && (r0.end.Some? ==> r.end.Some?)
      ensures owner == None && ranked ==> (Trim(r0) ==> Trim(r)) && (NonEmpty(r0) ==> NonEmpty(r)) && (Heads(r0, b) ==> Heads(r, b)) && BranchesIn(part.branches.Keys, r)
      ensures k == 1 ==> Keeps(r0, r) && forall c :: c in part.branches ==> In(r, [c], false)
      decreases UnFollow(), UnFirst(), if owner.Some? then 5 else 2, |tail|, 2, part, 0
    {
      hide Derives, Extended, Cat, Ranked, Follows, FirstsOk, FollowsOk, ExactOn, Usable, LeftBelow, Has, Update, PutEnd, PutAfter, Keeps, Heads, Trim, NonEmpty, BranchesIn, Sound, Syms, BytesIn;
      r := r0;
      KeepsItself(r0);
      var rest := part.branches.Keys;
      NoBytes();
      NoBranches(part.branches.Keys, r0);
      EmptyTrim();
      while rest != {}
        invariant rest <= part.branches.Keys && Valid() && open == old(open) && Agrees(old(first), first) && Agrees(old(follow), follow)
        invariant Extended(ret, r, k, whole, pre, Cat(a, b)) && (k == 0 ==> r.epsilon.Some?)
        invariant (k <= 1 && In(r0, [], true) ==> In(r, [], true)) && (r0.end.Some? ==> r.end.Some?)
        invariant owner == None && ranked ==>
          (Trim(r0) ==> Trim(r)) && (NonEmpty(r0) ==> NonEmpty(r)) && (Heads(r0, b) ==> Heads(r, b)) && BranchesIn(part.branches.Keys - rest, r)
        invariant k == 1 ==> Keeps(r0, r) && forall c :: c in part.branches.Keys - rest ==> In(r, [c], false)
        invariant UnFirst() <= old(UnFirst()) && UnFollow() <= old(UnFollow())
        invariant (owner == None || k <= 1 ==> follow == old(follow)) && (k == 1 ==> Syms(r) == Syms(r0) + BytesIn(part.branches.Keys - rest))
        decreases rest
      {
        var c :| c in rest;
        ghost var rest0 := rest;
        rest := rest - {c};
        assert rest + {c} == rest0;
        Deeper(part, c, k, whole, pre, a);
        TrimBranch(part, c);
        var node := Extend(Empty, k - 1, part.branches[c], tail, owner, bound, whole, pre + [c], a, b);
        ExtendAfter(r, c, node, k, whole, pre, Cat(a, b));
        ExtendedTwice(ret, r, PutAfter(r, c, node), k, whole, pre, Cat(a, b));
        EndStays(r, c, node);
        if k == 1 {
          StringsKept(r, PutAfter(r, c, node));
          KeepsTwice(r0, r, PutAfter(r, c, node));
          AfterSyms(r, c, node);
          MoreBytes(part.branches.Keys, rest, c);
        }
        if owner == None && ranked {
          AfterHeads(r, c, node, b, part.branches.Keys, rest);
        }
        r := PutAfter(r, c, node);
      }
      assert part.branches.Keys - rest == part.branches.Keys;
    }

    /** The set that continues a string: first sets of the tail, or the follow set of the owner. */
    method Continuation(k: nat, tail: seq<Symbol>, owner: Option<nat>, ghost bound: nat, ghost whole: nat, ghost b: Language) returns (n: StringSet)
      requires Valid() && k <= whole <= kmax && AllKnown(g, tail) && (owner.Some? ==> owner.value < |g| && owner.value in nts)
      requires b == if owner.Some? then Follows(g, start, Nt(owner.value)) else Derives(g, tail)
      requires owner == None && ranked ==> OpenFrom(whole) && (exists z :: z in b)
      requires owner == None && ranked && whole == k > 0 ==> OpenAbove(k, bound) && LeftBelow(g, rank, tail, bound)
      requires owner.Some? ==> open == {}
      modifies this`first, this`follow, this`open
      ensures Valid() && open == old(open) && Agrees(old(first), first) && Agrees(old(follow), follow)
      ensures owner == None || k == 0 ==> follow == old(follow)
      ensures Tracks() && owner.Some? && k == 1 ==> Asked(old(Now()), owner.value, n)
      ensures Sound(n, k, b) && (owner == None && ranked ==> Trim(n) && NonEmpty(n) && (k > 0 ==> Heads(n, b)))
      decreases UnFollow(), UnFirst(), if owner.Some? then 5 else 2, |tail|, 1, Empty
    {
      hide Derives, Ranked, Follows, FirstsOk, FollowsOk, ExactOn, Usable, LeftBelow, Heads, Trim, NonEmpty, Sound;
      if owner.Some? {
        n := Follow(k, owner.value);
      } else {
        if ranked {
          RankedBelow(g, rank, top, tail);
        }
        n := FirstSeq(k, tail, if whole > k then top else bound);
        if ranked {
          DerivesIsYields(g, tail);
          ContinuationNonEmpty(g, tail, k, n);
        }
      }
    }

    /** The follow set of `x` has been asked for. */
    ghost predicate Asked(memo: Memo, x: nat, ret: StringSet)
      requires x < |g|
      reads this
    {
      Now() == FollowRun(g, start, order, memo, x) && Syms(ret) == Now()[x]
    }

    /** `h_follow`. */
    method Follow(k: nat, x: nat) returns (ret: StringSet)
      requires Valid() && k <= kmax && x < |g| && x in nts && open == {}
      modifies this`first, this`follow, this`open
      ensures Valid() && open == {} && Agrees(old(first), first) && Agrees(old(follow), follow)
      ensures (k == 0 ==> follow == old(follow)) && (Tracks() && k == 1 ==> Asked(old(Now()), x, ret))
      ensures Sound(ret, k, Follows(g, start, Nt(x)))
      ensures k == 1 && (k, x) !in old(follow) ==>
        (x == start ==> In(ret, [], true)) && (ranked ==> forall a :: a in nts ==> FollowsIn(g, x, a, ret))
      decreases UnFollow(), UnFirst(), 4, 0, 0, Empty
    {
      hide Derives, Ranked, Follows, FirstsOk, FollowsOk, ExactOn, Usable, Sound, Keeps, FollowsIn, FollowRun, OverAll, OverProds, Syms, Update;
      OccursIn(g, start, nts, x);
      if k == 0 {
        SingletonSound(0, Follows(g, start, Nt(x)));
        return SingletonEpsilon;
      }
      if (k, x) in follow {
        FollowsGet(g, start, kmax, follow, k, x);
        EntryKnown(x);
        EntryFound(g, start, order, Now(), x);
        return follow[(k, x)];
      }
      ghost var begun;
      ret := FollowBegin(k, x);
      begun := ret;
      ret := FollowFill(k, x, ret);
      if k == 1 {
        EndKept(begun, ret);
      }
    }

    /** Make the entry. */
    method FollowBegin(k: nat, x: nat) returns (ret: StringSet)
      requires Valid() && 0 < k <= kmax && x < |g| && (k, x) !in follow
      modifies this`follow
      ensures Valid() && follow == old(follow)[(k, x) := ret] && UnFollow() < old(UnFollow())
      ensures Sound(ret, k, Follows(g, start, Nt(x))) && (x == start ==> In(ret, [], true))
      ensures Tracks() && k == 1 ==> FollowRun(g, start, order, old(Now()), x) == OverAll(g, start, order, Now(), x, order[0..])
    {
      hide Derives, Ranked, Follows, FirstsOk, FollowsOk, ExactOn, Usable, Sound, FollowRun, OverAll, Syms;
      ghost var memo := Now();
      ret := Empty;
      SetEmpty(k, Follows(g, start, Nt(x)));
      if x == start {
        // the end token follows the start symbol
        ret := PutEnd(ret);
        EndSound(g, start, k);
      }
      MemoPut(g, follow, x, ret);
      PublishFollow(k, x, ret);
      if Tracks() && k == 1 {
        BegunSyms(memo, x, ret);
      }
      FewerUnseen(g, kmax, old(follow), k, x, ret);
    }

    /** Walk over all nonterminals. */
    method FollowFill(k: nat, x: nat, ret0: StringSet) returns (ret: StringSet)
      requires Valid() && 0 < k <= kmax && x < |g| && x in nts && open == {} && (k, x) in follow
      requires follow[(k, x)] == ret0 && Sound(ret0, k, Follows(g, start, Nt(x)))
      modifies this`first, this`follow, this`open
      ensures Valid() && open == {} && Agrees(old(first), first) && AgreesBut(old(follow), follow, (k, x))
      ensures (k, x) in follow && follow[(k, x)] == ret && Sound(ret, k, Follows(g, start, Nt(x)))
      ensures k == 1 ==> Keeps(ret0, ret) && (ranked ==> forall a :: a in nts ==> FollowsIn(g, x, a, ret))
      ensures Tracks() && k == 1 ==> x in old(Now()) && Now() == OverAll(g, start, order, old(Now()), x, order[0..]) && x in Now() && Syms(ret) == Now()[x]
      decreases UnFollow(), UnFirst(), 9, 0, 0, Empty
    {
      hide Derives, Ranked, Follows, FirstsOk, FollowsOk, ExactOn, Usable, Sound, Keeps, FollowsIn, OverAll, OverProds, Syms;
      ret := ret0;
      KeepsItself(ret0);
      EntryKnown(x);
      ghost var memo := Now();
      for n := 0 to |order|
        invariant Valid() && open == {} && Agrees(old(first), first)
        invariant AgreesBut(old(follow), follow, (k, x))
        invariant (k, x) in follow && follow[(k, x)] == ret && Sound(ret, k, Follows(g, start, Nt(x))) && UnFollow() <= old(UnFollow())
        invariant k == 1 ==> Keeps(ret0, ret) && (ranked ==> AllFollowIn(g, x, order[..n], ret))
        invariant Tracks() && k == 1 ==> x in Now() && OverAll(g, start, order, memo, x, order[0..]) == OverAll(g, start, order, Now(), x, order[n..])
      {
        var a := order[n];
        ghost var before, now := ret, Now();
        ret := FollowIn(k, x, a, ret);
        if Tracks() && k == 1 {
          AllStep(g, start, order, now, x, n);
        }
        assert order[..n + 1] == order[..n] + [a];
        if k == 1 {
          KeepsTwice(ret0, before, ret);
          AllFollowsKept(g, x, order[..n], before, ret);
        }
      }
      if Tracks() && k == 1 {
        AllDone(g, start, order, Now(), x);
        EntryKnown(x);
      }
      assert order[..|order|] == order;
    }

    /** Consider all occurrences of the nonterminal in the productions of `a`. */
    method FollowIn(k: nat, x: nat, a: nat, ret0: StringSet) returns (ret: StringSet)
      requires Valid() && 0 < k <= kmax && x < |g| && x in nts && a in nts && open == {} && (k, x) in follow
      requires follow[(k, x)] == ret0 && Sound(ret0, k, Follows(g, start, Nt(x)))
      modifies this`first, this`follow, this`open
      ensures Valid() && open == {} && Agrees(old(first), first) && AgreesBut(old(follow), follow, (k, x))
      ensures (k, x) in follow && follow[(k, x)] == ret && Sound(ret, k, Follows(g, start, Nt(x))) && UnFollow() <= old(UnFollow())
      ensures k == 1 ==> Keeps(ret0, ret) && (ranked ==> FollowsIn(g, x, a, ret))
      ensures Tracks() && k == 1 ==> IsChoice(g, a) && x in old(Now()) && Now() == OverProds(g, start, order, old(Now()), x, a, g[a].prods)
      decreases UnFollow(), UnFirst(), 8, 0, 0, Empty
    {
      hide Derives, Ranked, Follows, FirstsOk, FollowsOk, ExactOn, Usable, Sound, Keeps, FollowsAfter, OverProds, OverSyms, Syms, MemoOf;
      ret := ret0;
      KeepsItself(ret0);
      OccursIn(g, start, nts, a);
      var prods := g[a].prods;
      EntryKnown(x);
      ProdsStart(g, start, order, Now(), x, a, prods);
      ghost var memo := Now();
      for i := 0 to |prods|
        invariant Valid() && open == {} && Agrees(old(first), first)
        invariant AgreesBut(old(follow), follow, (k, x))
        invariant (k, x) in follow && follow[(k, x)] == ret && Sound(ret, k, Follows(g, start, Nt(x))) && UnFollow() <= old(UnFollow())
        invariant Tracks() && k == 1 ==> x in Now() && OverProds(g, start, order, memo, x, a, prods) == OverProds(g, start, order, Now(), x, a, prods[i..])
        invariant k == 1 ==> Keeps(ret0, ret) && (ranked ==> forall i' :: 0 <= i' < i ==> FollowsAfter(g, x, prods[i'], |prods[i']|, ret))
      {
        assert IsProduction(g, a, prods[i]);
        if Tracks() && k == 1 {
          ProdStep(g, start, order, Now(), x, a, prods, i);
        }
        ghost var before := ret;
        ret := FollowInProd(k, x, a, prods[i], ret);
        if k == 1 {
          KeepsTwice(ret0, before, ret);
          FollowsKept(g, x, before, ret);
        }
      }
      if Tracks() && k == 1 {
        ProdsDone(g, start, order, Now(), x, a, prods);
      }
    }

    method FollowInProd(k: nat, x: nat, a: nat, rhs: seq<Symbol>, ret0: StringSet) returns (ret: StringSet)
      requires Valid() && 0 < k <= kmax && x < |g| && x in nts && a in nts && open == {} && (k, x) in follow && IsProduction(g, a, rhs)
      requires follow[(k, x)] == ret0 && Sound(ret0, k, Follows(g, start, Nt(x)))
      modifies this`first, this`follow, this`open
      ensures Valid() && open == {} && Agrees(old(first), first) && AgreesBut(old(follow), follow, (k, x))
      ensures (k, x) in follow && follow[(k, x)] == ret && Sound(ret, k, Follows(g, start, Nt(x))) && UnFollow() <= old(UnFollow())
      ensures k == 1 ==> Keeps(ret0, ret) && (ranked ==> FollowsAfter(g, x, rhs, |rhs|, ret))
      ensures Tracks() && k == 1 ==> x in old(Now()) && Now() == OverSyms(g, start, order, old(Now()), x, a, rhs[0..])
      decreases UnFollow(), UnFirst(), 7, 0, 0, Empty
    {
      hide Derives, Ranked, Follows, FirstsOk, FollowsOk, ExactOn, Usable, Sound, Keeps, BeginsWith, OverSyms, Occurrence, Syms, MemoOf;
      ret := ret0;
      KeepsItself(ret0);
      EntryKnown(x);
      ghost var memo := Now();
      for j := 0 to |rhs|
        invariant Valid() && open == {} && Agrees(old(first), first)
        invariant AgreesBut(old(follow), follow, (k, x))
        invariant (k, x) in follow && follow[(k, x)] == ret && Sound(ret, k, Follows(g, start, Nt(x))) && UnFollow() <= old(UnFollow())
        invariant Tracks() && k == 1 ==> x in Now() && OverSyms(g, start, order, memo, x, a, rhs[0..]) == OverSyms(g, start, order, Now(), x, a, rhs[j..])
        invariant k == 1 ==> Keeps(ret0, ret) && (ranked ==> FollowsAfter(g, x, rhs, j, ret))
      {
        if Tracks() && k == 1 {
          SymStep(g, start, order, Now(), x, a, rhs, j);
        }
        if rhs[j] == Nt(x) { // occurrence found
          ghost var before := ret;
          ret := FollowAt(k, x, a, rhs, j, ret);
          MemoPut(g, follow, x, ret);
          PublishFollow(k, x, ret);
          if k == 1 {
            KeepsTwice(ret0, before, ret);
            FollowsKept(g, x, before, ret);
          }
        }
      }
      if Tracks() && k == 1 {
        SymsDone(g, start, order, Now(), x, a, rhs);
      }
    }

    /** Extend the elements of first_k(tail) up to length k from follow(A). */
    method FollowAt(k: nat, x: nat, a: nat, rhs: seq<Symbol>, j: nat, ret0: StringSet) returns (ret: StringSet)
      requires Valid() && 0 < k <= kmax && x < |g| && x in nts && a in nts && open == {}
      requires j < |rhs| && IsProduction(g, a, rhs) && rhs[j] == Nt(x) && Sound(ret0, k, Follows(g, start, Nt(x)))
      requires (k, x) in follow && follow[(k, x)] == ret0
      modifies this`first, this`follow, this`open
      ensures Valid() && open == {} && Agrees(old(first), first) && Agrees(old(follow), follow) && Sound(ret, k, Follows(g, start, Nt(x)))
      ensures k == 1 ==> Keeps(ret0, ret) && (ranked ==> BeginsWith(g, rhs[j + 1..], ret))
      ensures Tracks() && k == 1 ==> x in old(Now()) && x in Now() && Now()[x := Syms(ret)] == Occurrence(g, start, order, old(Now()), x, a, rhs[j + 1..])
      decreases UnFollow(), UnFirst(), 6, 0, 0, Empty
    {
      hide Derives, Ranked, Follows, FirstsOk, FollowsOk, ExactOn, Usable, Has, Shaped, Keeps, CarriesOwn, Complete1, BeginsWith;
      UsableFacts(g, start, nts);
      OccursIn(g, start, nts, a);
      var tail := rhs[j + 1..];
      TailKnown(g, a, rhs, j);
      if ranked {
        RankedBelow(g, rank, top, tail);
      }
      EntryKnown(x);
      ghost var memo := Now();
      var firstTail := FirstSeq(k, tail, top);
      ghost var y := SomeDerived(g, tail);
      FirstBegins(firstTail, k, Derives(g, tail));
      ret := Extend(ret0, k, firstTail, [], Some(a), top, k, [], Derives(g, tail), Follows(g, start, Nt(a)));
      if ranked && k == 1 {
        OwnBeginnings(g, tail, firstTail, ret);
        FirstSyms(g, tail, firstTail);
      }
      FollowsThroughProduction(g, start, a, rhs, j);
      ExtendedMore(ret0, ret, k, Cat(Derives(g, tail), Follows(g, start, Nt(a))), Follows(g, start, Nt(x)));
    }

    /** `h_predict`: the lookahead strings that indicate a production, all of them `k` symbols long. */
    method Predict(k: nat, a: nat, rhs: seq<Symbol>) returns (ret: StringSet)
      requires Valid() && 0 < k <= kmax && a < |g| && a in nts && open == {} && IsProduction(g, a, rhs)
      modifies this`first, this`follow, this`open, this`predicted
      ensures Valid() && open == {} && Agrees(old(first), first) && Agrees(old(follow), follow)
      ensures Sound(ret, k, Cat(Derives(g, rhs), Follows(g, start, Nt(a))))
      ensures forall w, end :: In(ret, w, end) ==> end || |w| == k
      ensures ranked && k == 1 ==> BeginsWith(g, rhs, ret)
      ensures predicted == old(predicted) + {(k, a, rhs, ret)}
      ensures Tracks() && k == 1 ==> Now() == (if Vanishes(g, rhs) then FollowRun(g, start, order, old(Now()), a) else old(Now()))
      ensures Tracks() && k == 1 ==> Syms(ret) == PredictOf(g, Now(), a, rhs)
    {
      hide Derives, Ranked, Follows, FirstsOk, FollowsOk, ExactOn, Usable, Has, Shaped, Cat, RemoveAllShorter, CarriesOwn, Complete1;
      UsableFacts(g, start, nts);
      OccursIn(g, start, nts, a);
      AllOfKnown(g, a, rhs);
      if ranked {
        RankedBelow(g, rank, top, rhs);
      }
      var firstRhs := FirstSeq(k, rhs, top);
      ghost var y := SomeDerived(g, rhs);
      FirstBegins(firstRhs, k, Derives(g, rhs));
      var all := ExtendTop(k, firstRhs, [], Some(a), top, Derives(g, rhs), Follows(g, start, Nt(a)));
      ret := RemoveAllShorter(k, all);
      ShorterGone(k, all, Cat(Derives(g, rhs), Follows(g, start, Nt(a))));
      if ranked && k == 1 {
        OwnPredicted(g, rhs, firstRhs, all);
        FirstSyms(g, rhs, firstRhs);
        ShorterSyms(all);
        EmptySyms();
      }
      predicted := predicted + {(k, a, rhs, ret)};
    }

    lemma EntryKnown(x: nat)
      requires Valid() && x < |g|
      ensures (1, x) in follow ==> x in Now() && Now()[x] == Syms(follow[(1, x)])
    {
    }

    /** The entry of `x` has been made. */
    lemma BegunSyms(memo: Memo, x: nat, ret: StringSet)
      requires x < |g| && x !in memo && ret == (if x == start then PutEnd(Empty) else Empty) && Now() == memo[x := Syms(ret)]
      ensures FollowRun(g, start, order, memo, x) == OverAll(g, start, order, Now(), x, order[0..])
    {
      EmptySyms();
      EndSyms(Empty);
      assert order[0..] == order;
      assert iset{} + iset{End} == iset{End};
    }

    method PublishFollow(k: nat, x: nat, m: StringSet)
      requires Valid() && 0 < k <= kmax && x < |g| && Sound(m, k, Follows(g, start, Nt(x)))
      modifies this`follow
      ensures Valid() && follow == old(follow)[(k, x) := m]
    {
      hide Derives, Sound, Ranked, Follows, FirstsOk, ExactOn, Usable;
      follow := follow[(k, x) := m];
    }
  }

  lemma FewerUnseen(g: Grammar, kmax: nat, t: FollowTable, k: nat, x: nat, m: StringSet)
    requires (k, x) !in t && k <= kmax && x < |g|
    ensures FollowKeys(g, kmax) - t[(k, x) := m].Keys < FollowKeys(g, kmax) - t.Keys
  {
    assert (k, x) in FollowKeys(g, kmax) - t.Keys;
  }

  lemma EntryFound(g: Grammar, start: nat, order: seq<nat>, memo: Memo, x: nat)
    requires x < |g|
    ensures x in memo ==> FollowRun(g, start, order, memo, x) == memo
  {
    hide OverAll;
  }

  lemma MemoPut(g: Grammar, t: FollowTable, x: nat, m: StringSet)
    requires x < |g|
    ensures MemoOf(g, t[(1, x) := m]) == MemoOf(g, t)[x := Syms(m)]
  {
  }

  lemma AllStep(g: Grammar, start: nat, order: seq<nat>, memo: Memo, x: nat, n: nat)
    requires x in memo && n < |order| && IsChoice(g, order[n])
    ensures OverAll(g, start, order, memo, x, order[n..]) ==
      OverAll(g, start, order, OverProds(g, start, order, memo, x, order[n], g[order[n]].prods), x, order[n + 1..])
  {
    assert order[n..][1..] == order[n + 1..];
  }

  lemma AllDone(g: Grammar, start: nat, order: seq<nat>, memo: Memo, x: nat)
    requires x in memo
    ensures OverAll(g, start, order, memo, x, order[|order|..]) == memo
  {
  }

  lemma ProdsStart(g: Grammar, start: nat, order: seq<nat>, memo: Memo, x: nat, a: nat, prods: seq<seq<Symbol>>)
    requires a < |g|
    ensures x in memo ==> OverProds(g, start, order, memo, x, a, prods) == OverProds(g, start, order, memo, x, a, prods[0..])
  {
    assert prods[0..] == prods;
  }

  lemma ProdStep(g: Grammar, start: nat, order: seq<nat>, memo: Memo, x: nat, a: nat, prods: seq<seq<Symbol>>, i: nat)
    requires x in memo && a < |g| && i < |prods|
    ensures OverProds(g, start, order, memo, x, a, prods[i..]) ==
      OverProds(g, start, order, OverSyms(g, start, order, memo, x, a, prods[i][0..]), x, a, prods[i + 1..])
  {
    hide OverSyms;
    assert prods[i..][1..] == prods[i + 1..] && prods[i][0..] == prods[i];
  }

  lemma ProdsDone(g: Grammar, start: nat, order: seq<nat>, memo: Memo, x: nat, a: nat, prods: seq<seq<Symbol>>)
    requires x in memo && a < |g|
    ensures OverProds(g, start, order, memo, x, a, prods[|prods|..]) == memo
  {
  }

  lemma SymStep(g: Grammar, start: nat, order: seq<nat>, memo: Memo, x: nat, a: nat, s: seq<Symbol>, j: nat)
    requires x in memo && a < |g| && j < |s|
    ensures OverSyms(g, start, order, memo, x, a, s[j..]) ==
      OverSyms(g, start, order, if s[j] == Nt(x) then Occurrence(g, start, order, memo, x, a, s[j + 1..]) else memo, x, a, s[j + 1..])
  {
    hide Occurrence;
    assert s[j..][1..] == s[j + 1..];
  }

  lemma SymsDone(g: Grammar, start: nat, order: seq<nat>, memo: Memo, x: nat, a: nat, s: seq<Symbol>)
    requires x in memo && a < |g|
    ensures OverSyms(g, start, order, memo, x, a, s[|s|..]) == memo
  {
  }

  lemma TailKnown(g: Grammar, a: nat, rhs: seq<Symbol>, j: nat)
    requires Complete(g) && IsProduction(g, a, rhs) && j < |rhs|
    ensures AllKnown(g, rhs[j + 1..])
  {
  }

  lemma AllOfKnown(g: Grammar, a: nat, rhs: seq<Symbol>)
    requires Complete(g) && IsProduction(g, a, rhs)
    ensures AllKnown(g, rhs)
  {
  }

  lemma ExtendedMore(ret: StringSet, r: StringSet, k: nat, ab: Language, l: Language)
    requires k > 0 && Extended(ret, r, k, k, [], ab) && Sound(ret, k, l) && ab <= l
    ensures Sound(r, k, l)
  {
    hide Shows;
    forall w, end | In(r, w, end) ensures Has(k, l, w, end) {
      assert [] + w == w;
    }
  }

  lemma {:induction false} RemovedShaped(k: nat, depth: nat, m: StringSet)
    requires Shaped(m, depth) && 0 < k <= depth
    ensures Shaped(RemoveAllShorter(k, m), depth)
    decreases k
  {
    if k > 1 {
      var r := RemoveAllShorter(k, m);
      forall c | c in r.branches ensures Shaped(r.branches[c], depth - 1) {
        RemovedShaped(k - 1, depth - 1, m.branches[c]);
      }
    }
  }

  lemma ShorterGone(k: nat, m: StringSet, l: Language)
    requires k > 0 && Sound(m, k, l)
    ensures Sound(RemoveAllShorter(k, m), k, l)
    ensures forall w, end :: In(RemoveAllShorter(k, m), w, end) ==> end || |w| == k
  {
    RemovedShaped(k, k, m);
    forall w, end | In(RemoveAllShorter(k, m), w, end) ensures Has(k, l, w, end) && (end || |w| == k) {
      RemovesShorter(k, m, w, end);
    }
  }

  /** Everything that the symbols derive begins with a string of the set, unless it is empty. */
  ghost predicate BeginsWith(g: Grammar, s: seq<Symbol>, m: StringSet) {
    forall w, end :: Has(1, YieldsOf(g, s), w, end) && (end || w != []) ==> In(m, w, end)
  }

  /** What comes behind an occurrence of `x` among the first `n` symbols of the production. */
  ghost predicate FollowsAfter(g: Grammar, x: nat, rhs: seq<Symbol>, n: nat, m: StringSet) {
    forall j :: 0 <= j < n <= |rhs| && rhs[j] == Nt(x) ==> BeginsWith(g, rhs[j + 1..], m)
  }

  ghost predicate FollowsIn(g: Grammar, x: nat, a: nat, m: StringSet)
  {
    IsChoice(g, a) && forall i :: 0 <= i < |g[a].prods| ==> FollowsAfter(g, x, g[a].prods[i], |g[a].prods[i]|, m)
  }

  lemma OwnBeginnings(g: Grammar, s: seq<Symbol>, part: StringSet, all: StringSet)
    requires Complete1(part, YieldsOf(g, s)) && CarriesOwn(part, all)
    ensures BeginsWith(g, s, all)
  {
    hide YieldsOf, Has;
    forall w, end | Has(1, YieldsOf(g, s), w, end) && (end || w != []) ensures In(all, w, end) {
      HasOneSymbol(YieldsOf(g, s), w, end);
      assert In(part, w, end);
      assert w != [] ==> w == [w[0]] && w[1..] == [];
    }
  }

  lemma BeginsKept(g: Grammar, s: seq<Symbol>, m: StringSet, r: StringSet)
    requires BeginsWith(g, s, m) && Keeps(m, r)
    ensures BeginsWith(g, s, r)
  {
    hide YieldsOf, Has, In;
    forall w, end | Has(1, YieldsOf(g, s), w, end) && (end || w != []) ensures In(r, w, end) {
      HasOneSymbol(YieldsOf(g, s), w, end);
    }
  }

  lemma FollowsKept(g: Grammar, x: nat, m: StringSet, r: StringSet)
    requires Keeps(m, r)
    ensures forall rhs, n :: FollowsAfter(g, x, rhs, n, m) ==> FollowsAfter(g, x, rhs, n, r)
  {
    hide BeginsWith, Keeps;
    forall rhs, n: nat, j | FollowsAfter(g, x, rhs, n, m) && 0 <= j < n <= |rhs| && rhs[j] == Nt(x) ensures BeginsWith(g, rhs[j + 1..], r) {
      BeginsKept(g, rhs[j + 1..], m, r);
    }
  }

  lemma FollowsInKept(g: Grammar, x: nat, a: nat, m: StringSet, r: StringSet)
    requires FollowsIn(g, x, a, m) && Keeps(m, r)
    ensures FollowsIn(g, x, a, r)
  {
    hide FollowsAfter, Keeps;
    FollowsKept(g, x, m, r);
  }

  ghost predicate AllFollowIn(g: Grammar, x: nat, nts: seq<nat>, m: StringSet) {
    forall a :: a in nts ==> FollowsIn(g, x, a, m)
  }

  lemma AllFollowsKept(g: Grammar, x: nat, nts: seq<nat>, m: StringSet, r: StringSet)
    requires Keeps(m, r)
    ensures AllFollowIn(g, x, nts, m) ==> AllFollowIn(g, x, nts, r)
  {
    hide FollowsIn, Keeps;
    if AllFollowIn(g, x, nts, m) {
      forall a | a in nts ensures FollowsIn(g, x, a, r) {
        FollowsInKept(g, x, a, m, r);
      }
    }
  }

  lemma EndKept(m: StringSet, r: StringSet)
    requires Keeps(m, r)
    ensures In(m, [], true) ==> In(r, [], true)
  {
  }

  lemma KeepsItself(m: StringSet)
    ensures Keeps(m, m)
  {
  }

  lemma KeepsTwice(m: StringSet, n: StringSet, r: StringSet)
    requires Keeps(m, n) && Keeps(n, r)
    ensures Keeps(m, r)
  {
    hide In;
  }

  /** What the production itself begins with indicates it. */
  lemma OwnPredicted(g: Grammar, rhs: seq<Symbol>, part: StringSet, all: StringSet)
    requires Complete1(part, YieldsOf(g, rhs)) && CarriesOwn(part, all)
    ensures BeginsWith(g, rhs, RemoveAllShorter(1, all))
  {
    hide RemoveAllShorter, Has, YieldsOf;
    OwnBeginnings(g, rhs, part, all);
    forall w, end | Has(1, YieldsOf(g, rhs), w, end) && (end || w != []) ensures In(RemoveAllShorter(1, all), w, end) {
      RemovesShorter(1, all, w, end);
    }
  }

  lemma FollowsGet(g: Grammar, start: nat, kmax: nat, t: FollowTable, k: nat, x: nat)
    requires FollowsOk(g, start, kmax, t) && (k, x) in t
    ensures Sound(t[(k, x)], k, Follows(g, start, Nt(x)))
  {
    hide Follows, Sound;
    assert FollowOk(g, start, kmax, (k, x), t[(k, x)]);
  }

  lemma OccursIn(g: Grammar, start: nat, nts: set<nat>, a: nat)
    requires Usable(g, start, nts) && a in nts
    ensures IsChoice(g, a) && exists r :: r in Follows(g, start, Nt(a))
  {
    hide Follows;
    assert Occurs(g, start, a);
  }

  lemma EndSound(g: Grammar, start: nat, k: nat)
    requires k > 0
    ensures Sound(PutEnd(Empty), k, Follows(g, start, Nt(start)))
  {
    hide Rests;
    EndFollowsStart(g, start);
    var m := PutEnd(Empty);
    forall w, end | In(m, w, end) ensures Has(k, Follows(g, start, Nt(start)), w, end) {
      if w != [] {
        InStep(m, w, end);
      } else {
        assert [End] in Follows(g, start, Nt(start)) && Shows(k, [], true, [End]);
      }
    }
  }

  lemma NothingDerived(g: Grammar)
    ensures [] in Derives(g, [])
  {
    NothingYields(g);
  }

  lemma DerivesIsYields(g: Grammar, s: seq<Symbol>)
    requires Productive(g)
    ensures Derives(g, s) == YieldsOf(g, s)
  {
  }

  lemma DerivesCons(g: Grammar, s: seq<Symbol>)
    requires s != []
    ensures Cat(Derives(g, [s[0]]), Derives(g, s[1..])) <= Derives(g, s)
  {
    hide YieldsOf, Cat, Productive;
    YieldsOfCons(g, s);
  }

  lemma FollowsThroughProduction(g: Grammar, start: nat, a: nat, rhs: seq<Symbol>, i: nat)
    requires i < |rhs| && IsProduction(g, a, rhs)
    ensures Cat(Derives(g, rhs[i + 1..]), Follows(g, start, Nt(a))) <= Follows(g, start, rhs[i])
  {
    hide YieldsOf, Cat, Rests, Productive;
    RestsThroughProduction(g, start, a, rhs, i);
  }

  lemma RankedBelow(g: Grammar, rank: nat -> nat, top: nat, s: seq<Symbol>)
    requires Ranked(g, rank, top) && AllKnown(g, s)
    ensures LeftBelow(g, rank, s, top)
  {
    hide Derives, NoLeftRecursion;
  }

  lemma NothingNew(m: StringSet, k: nat, whole: nat, pre: seq<byte>, ab: Language)
    ensures (k > 0 || m != Empty) ==> Extended(m, m, k, whole, pre, ab)
  {
  }

  lemma ShortPart(part: StringSet, k: nat, whole: nat, pre: seq<byte>, a: Language)
    requires Beginnings(part, k, whole, pre, a)
    ensures k <= whole && (k == 0 ==> part.epsilon.Some? && part.end == None && part.branches == map[])
  {
  }

  lemma StringsKept(m: StringSet, r: StringSet)
    requires Keeps(m, r)
    ensures forall c :: In(m, [c], false) ==> In(r, [c], false)
  {
  }

  lemma ExtendedSound(r: StringSet, k: nat, l: Language)
    requires Extended(Empty, r, k, k, [], l)
    ensures Sound(r, k, l)
  {
    hide Has;
    forall w, end | In(r, w, end) ensures Has(k, l, w, end) {
      NotInEmpty(w, end);
      assert [] + w == w;
    }
  }

  lemma KnownParts(g: Grammar, s: seq<Symbol>)
    requires AllKnown(g, s) && s != []
    ensures Known(g, s[0]) && AllKnown(g, s[1..])
  {
  }

  lemma FirstBegins(m: StringSet, k: nat, l: Language)
    requires Sound(m, k, l)
    ensures Beginnings(m, k, k, [], l)
  {
    forall w, end | In(m, w, end) ensures Has(k, l, [] + w, end) {
      assert [] + w == w;
    }
  }

  lemma UsableFacts(g: Grammar, start: nat, nts: set<nat>)
    requires Usable(g, start, nts)
    ensures Complete(g)
  {
  }

  lemma RankedFacts(g: Grammar, rank: nat -> nat, top: nat, ranked: bool)
    requires ranked ==> Ranked(g, rank, top)
    ensures ranked ==> NoLeftRecursion(g, rank)
  {
  }

  lemma ProductionFacts(g: Grammar, a: nat, rhs: seq<Symbol>, rank: nat -> nat, ranked: bool)
    requires Complete(g) && IsProduction(g, a, rhs)
    ensures AllKnown(g, rhs) && Derives(g, rhs) <= Derives(g, [Nt(a)])
    ensures ranked && NoLeftRecursion(g, rank) ==> LeftBelow(g, rank, rhs, rank(a))
  {
    hide YieldsOf, LeftBelow, Productive;
    ProductionYields(g, a, rhs);
  }
}
