/** FIRST, FOLLOW and the predict sets, memoised the way the grammar analysis does it: an entry is published while it is
    still being filled, so a left-recursive nonterminal may be used with what is known of it so far. */
module FirstFollow {
  import opened Basics
  import opened Grammar
  import opened Languages
  import opened Nullable
  import opened StringMap
  import opened StringSet

  // ----- the grammars considered

  ghost predicate Known(g: Grammar, x: Symbol) {
    x.Nt? ==> x.id < |g|
  }

  ghost predicate AllKnown(g: Grammar, s: seq<Symbol>) {
    forall k :: 0 <= k < |s| ==> Known(g, s[k])
  }

  /** The start symbol of a grammar derives what the desugared parser's symbol derives, wrapped or not. */
  lemma WrappedYields(g: Grammar, symbol: Symbol)
    requires symbol.Nt? ==> symbol.id < |g|
    ensures var (g', start) := Wrapped(g, symbol); YieldsOf(g', [Nt(start)]) == YieldsOf(g, [symbol])
  {
    hide YieldsOf;
    var (g', start) := Wrapped(g, symbol);
    if start == |g| {
      assert forall rhs :: IsProduction(g', start, rhs) <==> rhs == [symbol];
      if symbol.Nt? {
        CharsetYields(g, symbol.id);
        CharsetYields(g', symbol.id);
      } else {
        TerminalYields(g, symbol);
        TerminalYields(g', symbol);
      }
      ProductionYields(g', start, [symbol]);
      forall y | y in YieldsOf(g', [Nt(start)]) ensures y in YieldsOf(g', [symbol]) {
        var rhs := ProductionOf(g', start, y);
      }
    }
  }

  ghost const Anything: Language := iset y: seq<Symbol> | true

  /** What the symbols derive, if all nonterminals of the grammar are productive.  Otherwise nothing is claimed of the
      strings in a set but their length, which is what a set of beginnings of anything amounts to. */
  ghost function Derives(g: Grammar, s: seq<Symbol>): Language {
    if Productive(g) then YieldsOf(g, s) else Anything
  }

  /** The same for what may follow a symbol. */
  ghost function Follows(g: Grammar, start: nat, x: Symbol): Language {
    if Productive(g) then Rests(g, start, x) else Anything
  }

  lemma MoreSound(m: StringSet, k: nat, l: Language, l': Language)
    requires Sound(m, k, l) && l <= l'
    ensures Sound(m, k, l')
  {
    forall w, end | In(m, w, end) ensures Has(k, l', w, end) {
      var y :| y in l && Shows(k, w, end, y);
      assert y in l';
    }
  }

  lemma SomeDerived(g: Grammar, s: seq<Symbol>) returns (y: seq<Symbol>)
    requires AllKnown(g, s)
    ensures y in Derives(g, s)
  {
    if Productive(g) {
      y := SomeYield(g, s);
    } else {
      y := [];
    }
  }

  /** Every collected nonterminal occurs in a sentence. */
  ghost predicate Usable(g: Grammar, start: nat, nts: set<nat>) {
    Complete(g) && forall a :: a in nts ==> IsChoice(g, a) && Occurs(g, start, a)
  }

  ghost predicate Occurs(g: Grammar, start: nat, a: nat) {
    exists r :: r in Follows(g, start, Nt(a))
  }

  /** Nonterminals collected from the start symbol occur in sentences. */
  lemma CollectedOccur(g: Grammar, start: nat, nts: set<nat>)
    requires Complete(g) && forall a :: a in nts ==> IsChoice(g, a)
    requires ClosedUnder(g, nts) && start in nts
    requires forall s: set<nat> :: ClosedUnder(g, s) && Covered(g, s, Nt(start)) ==> nts <= s
    ensures Usable(g, start, nts)
  {
    if Productive(g) {
      ProductiveOccur(g, start, nts);
    } else {
      forall a | a in nts ensures Occurs(g, start, a) {
        var none: seq<Symbol> := [];
        assert none in Follows(g, start, Nt(a));
      }
    }
  }

  lemma ProductiveOccur(g: Grammar, start: nat, nts: set<nat>)
    requires Complete(g) && Productive(g) && forall a :: a in nts ==> IsChoice(g, a)
    requires ClosedUnder(g, nts) && start in nts
    requires forall s: set<nat> :: ClosedUnder(g, s) && Covered(g, s, Nt(start)) ==> nts <= s
    ensures Usable(g, start, nts)
  {
    hide YieldsOf, Rests, Productive;
    var s := set a | a in nts && Occurs(g, start, a);
    EndFollowsStart(g, start);
    assert [End] in Follows(g, start, Nt(start));
    assert start in s;
    forall a: nat, rhs: seq<Symbol>, k: nat | a in s && IsProduction(g, a, rhs) && k < |rhs| ensures Covered(g, s, rhs[k]) {
      assert Covered(g, nts, rhs[k]);
      if rhs[k].Nt? && IsChoice(g, rhs[k].id) {
        var y := SomeYield(g, rhs[k + 1..]);
        var r :| r in Follows(g, start, Nt(a));
        RestsThroughProduction(g, start, a, rhs, k);
        assert y + r in Cat(YieldsOf(g, rhs[k + 1..]), Rests(g, start, Nt(a)));
        assert y + r in Follows(g, start, rhs[k]);
        assert Occurs(g, start, rhs[k].id);
      }
    }
    assert ClosedUnder(g, s) && Covered(g, s, Nt(start));
    assert nts <= s;
  }

  // ----- left recursion

  /** What may stand first in a production, behind symbols that vanish, has a smaller rank: there is no left recursion. */
  ghost predicate NoLeftRecursion(g: Grammar, rank: nat -> nat) {
    forall a: nat, rhs: seq<Symbol> :: IsProduction(g, a, rhs) ==> LeftBelow(g, rank, rhs, rank(a))
  }

  ghost predicate LeftBelow(g: Grammar, rank: nat -> nat, s: seq<Symbol>, bound: nat) {
    forall i :: 0 <= i < |s| && s[i].Nt? && [] in YieldsOf(g, s[..i]) ==> rank(s[i].id) < bound
  }

  lemma LeftBelowTail(g: Grammar, rank: nat -> nat, s: seq<Symbol>, bound: nat)
    requires LeftBelow(g, rank, s, bound) && s != []
    ensures s[0].Nt? ==> rank(s[0].id) < bound
    ensures [] in YieldsOf(g, [s[0]]) ==> LeftBelow(g, rank, s[1..], bound)
  {
    hide YieldsOf;
    NothingYields(g);
    assert s[..0] == [];
    if [] in YieldsOf(g, [s[0]]) {
      var tail := s[1..];
      forall i | 0 <= i < |tail| && tail[i].Nt? && [] in YieldsOf(g, tail[..i]) ensures rank(tail[i].id) < bound {
        YieldsOfCons(g, s[..i + 1]);
        assert s[..i + 1][1..] == tail[..i] && s[..i + 1][0] == s[0];
        var none: seq<Symbol> := [];
        assert none + none == none;
        assert none in Cat(YieldsOf(g, [s[0]]), YieldsOf(g, tail[..i]));
        assert tail[i] == s[i + 1];
      }
    }
  }

  // ----- one byte of lookahead

  lemma EpsilonMeansNullable(g: Grammar, x: Symbol, m: StringSet, k: nat)
    requires k > 0 && Productive(g) && Sound(m, k, Derives(g, [x])) && m.epsilon.Some?
    ensures [] in YieldsOf(g, [x])
  {
    hide YieldsOf;
    assert In(m, [], false);
    var y :| y in YieldsOf(g, [x]) && Shows(k, [], false, y);
    assert y == [];
  }

  lemma SingletonSound(k: nat, l: Language)
    requires if k == 0 then exists y :: y in l else [] in l
    ensures Sound(SingletonEpsilon, k, l)
  {
    if k == 0 {
      var y :| y in l;
      assert Shows(0, [], false, y);
    } else {
      assert Shows(k, [], false, []);
    }
    forall w, end | In(SingletonEpsilon, w, end) ensures Has(k, l, w, end) {
      assert w == [] && !end;
    }
  }

  lemma UpdateSound(m: StringSet, n: StringSet, k: nat, l: Language, ln: Language)
    requires (Sound(m, k, l) || m == Empty) && Sound(n, k, ln) && ln <= l
    ensures Sound(Update(m, n), k, l)
  {
    hide Update, Shows;
    UpdateShaped(m, n, k);
    forall w, end | In(Update(m, n), w, end) ensures Has(k, l, w, end) {
      InUpdate(m, n, w, end);
      if In(n, w, end) {
        var y :| y in ln && Shows(k, w, end, y);
      } else if w != [] && m == Empty {
        InStep(m, w, end);
      }
    }
  }

  ghost function Symbols(g: Grammar): (r: set<Symbol>)
    ensures forall x :: x in r <==> Known(g, x)
  {
    var nts := set id: nat | id < |g| :: Nt(id);
    var chars := set c: byte | 0 <= c < 256 :: Char(c);
    forall x | Known(g, x) ensures x in {End} + nts + chars {
      if x.Nt? {
        assert x.id < |g|;
      }
    }
    {End} + nts + chars
  }

  // ----- extending strings

  /** The strings of `part`, behind `pre`, are genuine beginnings of `a`. */
  ghost predicate Beginnings(part: StringSet, k: nat, whole: nat, pre: seq<byte>, a: Language) {
    |pre| + k == whole && Shaped(part, k) && forall w, end :: In(part, w, end) ==> Has(whole, a, pre + w, end)
  }

  /** What is new in `r`, behind `pre`, is genuine for `ab`. */
  ghost predicate Extended(ret: StringSet, r: StringSet, k: nat, whole: nat, pre: seq<byte>, ab: Language) {
    && (Shaped(ret, k) || ret == Empty ==> Shaped(r, k) || (r == ret == Empty && k > 0))
    && forall w, end :: In(r, w, end) ==> In(ret, w, end) || Has(whole, ab, pre + w, end)
  }

  lemma ExtendEpsilon(ret: StringSet, part: StringSet, n: StringSet, k: nat, whole: nat, pre: seq<byte>, a: Language, b: Language)
    requires Beginnings(part, k, whole, pre, a) && part.epsilon.Some? && Sound(n, k, b)
    ensures Extended(ret, Update(ret, n), k, whole, pre, Cat(a, b))
    ensures Keeps(ret, Update(ret, n)) && Keeps(n, Update(ret, n))
    ensures k == 0 ==> Update(ret, n).epsilon.Some?
  {
    hide Update, Cat, Shows;
    if Shaped(ret, k) || ret == Empty {
      UpdateShaped(ret, n, k);
    }
    assert pre + [] == pre && In(part, [], false);
    forall w, end ensures In(Update(ret, n), w, end) <==> In(ret, w, end) || In(n, w, end) {
      InUpdate(ret, n, w, end);
    }
    forall w, end | In(n, w, end) ensures Has(whole, Cat(a, b), pre + w, end) {
      HasCat(whole, a, b, pre, w, end);
    }
    if k == 0 {
      assert In(n, [], false);
      assert In(Update(ret, n), [], false);
    }
  }

  lemma ExtendEnd(ret: StringSet, part: StringSet, k: nat, whole: nat, pre: seq<byte>, a: Language, b: Language)
    requires Beginnings(part, k, whole, pre, a) && part.end.Some? && exists y :: y in b
    ensures k > 0 && Extended(ret, PutEnd(ret), k, whole, pre, Cat(a, b)) && Keeps(ret, PutEnd(ret)) && In(PutEnd(ret), [], true)
  {
    hide Cat, Shows;
    assert pre + [] == pre && In(part, [], true);
    HasCatEnd(whole, a, b, pre);
    var r := PutEnd(ret);
    forall w, end | In(r, w, end) ensures In(ret, w, end) || Has(whole, Cat(a, b), pre + w, end) {
      if w != [] {
        InStep(ret, w, end);
        InStep(r, w, end);
      }
    }
    forall w, end | OneSymbol(w, end) && In(ret, w, end) ensures In(r, w, end) {
      if w != [] {
        InStep(ret, w, end);
        InStep(r, w, end);
      }
    }
  }

  lemma Deeper(part: StringSet, c: byte, k: nat, whole: nat, pre: seq<byte>, a: Language)
    requires Beginnings(part, k, whole, pre, a) && c in part.branches
    ensures k > 0 && Beginnings(part.branches[c], k - 1, whole, pre + [c], a)
  {
    hide Shows;
    forall w, end | In(part.branches[c], w, end) ensures Has(whole, a, pre + [c] + w, end) {
      InStep(part, [c] + w, end);
      assert ([c] + w)[1..] == w;
      assert pre + ([c] + w) == pre + [c] + w;
    }
  }

  lemma ExtendAfter(ret: StringSet, c: byte, node: StringSet, k: nat, whole: nat, pre: seq<byte>, ab: Language)
    requires k > 0 && Extended(Empty, node, k - 1, whole, pre + [c], ab) && (k == 1 ==> node.epsilon.Some?)
    ensures Extended(ret, PutAfter(ret, c, node), k, whole, pre, ab)
    ensures k == 1 ==> Keeps(ret, PutAfter(ret, c, node)) && In(PutAfter(ret, c, node), [c], false)
  {
    hide Shows;
    var r := PutAfter(ret, c, node);
    assert k > 1 ==> Shaped(Empty, k - 1);
    assert Shaped(node, k - 1);
    if Shaped(ret, k) || ret == Empty {
      forall d | d in r.branches ensures Shaped(r.branches[d], k - 1) {
        if d != c {
          assert r.branches[d] == ret.branches[d];
        }
      }
      assert Shaped(r, k);
    }
    forall w, end | In(r, w, end) ensures In(ret, w, end) || Has(whole, ab, pre + w, end) {
      if w != [] {
        InStep(r, w, end);
        InStep(ret, w, end);
        if w[0] == c {
          InStep(Empty, [c] + w[1..], end);
          NotInEmpty(w[1..], end);
          assert pre + [c] + w[1..] == pre + w;
        }
      }
    }
    if k == 1 {
      assert In(node, [], false);
      forall w, end | OneSymbol(w, end) && In(ret, w, end) ensures In(r, w, end) {
        if w != [] {
          InStep(r, w, end);
          InStep(ret, w, end);
          assert w[1..] == [];
        }
      }
      InStep(r, [c], false);
      assert [c][1..] == [];
    }
  }

  lemma NotInEmpty(w: seq<byte>, end: bool)
    ensures !In(Empty, w, end)
  {
    if w != [] {
      InStep(Empty, w, end);
    }
  }

  lemma ExtendedTwice(ret: StringSet, mid: StringSet, r: StringSet, k: nat, whole: nat, pre: seq<byte>, ab: Language)
    requires Extended(ret, mid, k, whole, pre, ab) && Extended(mid, r, k, whole, pre, ab)
    ensures Extended(ret, r, k, whole, pre, ab)
  {
  }

  /** The strings of at most one symbol are still there. */
  ghost predicate Keeps(m: StringSet, r: StringSet) {
    forall w, end :: OneSymbol(w, end) && In(m, w, end) ==> In(r, w, end)
  }

  predicate OneSymbol(w: seq<byte>, end: bool) {
    w == [] || (|w| == 1 && !end)
  }

  // ----- exactness for one byte

  lemma HasOneSymbol(l: Language, w: seq<byte>, end: bool)
    requires Has(1, l, w, end)
    ensures OneSymbol(w, end)
  {
  }

  /** Strings that need no continuation are taken over. */
  ghost predicate CarriesOwn(part: StringSet, r: StringSet) {
    (part.end.Some? ==> In(r, [], true)) && forall c :: c in part.branches ==> In(r, [c], false)
  }

  // ----- what the strings of a set begin with

  ghost predicate NonEmpty(m: StringSet) {
    exists w, end :: In(m, w, end)
  }

  /** No branch is without strings. */
  ghost predicate Trim(m: StringSet)
    decreases m
  {
    forall c :: c in m.branches ==> NonEmpty(m.branches[c]) && Trim(m.branches[c])
  }

  /** Some string of the set begins like the sentence. */
  ghost predicate Headed(m: StringSet, y: seq<Symbol>) {
    if y == [] then m.epsilon.Some?
    else
      match y[0]
      case End => m.end.Some?
      case Char(c) => c in m.branches && NonEmpty(m.branches[c])
      case Nt(_) => true
  }

  ghost predicate Heads(m: StringSet, l: Language) {
    forall y :: y in l ==> Headed(m, y)
  }

  /** What the part indicates, begun or continued, is in the extended set. */
  ghost predicate Carries(part: StringSet, b: Language, r: StringSet) {
    && (part.epsilon.Some? ==> Heads(r, b)) && (part.end.Some? ==> r.end.Some?)
    && BranchesIn(part.branches.Keys, r)
  }

  ghost predicate BranchesIn(bytes: set<byte>, r: StringSet) {
    forall c :: c in bytes ==> c in r.branches && NonEmpty(r.branches[c])
  }

  /** With one symbol this is all there is. */
  lemma HeadsComplete(m: StringSet, k: nat, l: Language, l': Language)
    requires Heads(m, l) && Sound(m, k, l')
    ensures k == 1 ==> Complete1(m, l)
  {
    if k == 1 {
      forall w, end | Has(1, l, w, end) ensures In(m, w, end) {
        var y :| y in l && Shows(1, w, end, y);
        assert Headed(m, y);
        if w != [] {
          assert Chars(w)[0] == y[0];
          assert Shaped(m.branches[w[0]], 0) && w == [w[0]] && w[1..] == [];
        } else if end {
          assert (Chars(w) + [End])[0] == y[0];
        }
      }
    }
  }

  lemma NonEmptyBranch(m: StringSet, c: byte)
    requires c in m.branches && NonEmpty(m.branches[c])
    ensures NonEmpty(m)
  {
    var w, end :| In(m.branches[c], w, end);
    assert ([c] + w)[1..] == w;
    InStep(m, [c] + w, end);
  }

  lemma NonEmptyHere(m: StringSet)
    ensures m.epsilon.Some? || m.end.Some? ==> NonEmpty(m)
    ensures NonEmpty(m) <==> m.epsilon.Some? || m.end.Some? || exists c :: c in m.branches && NonEmpty(m.branches[c])
  {
    if m.epsilon.Some? {
      assert In(m, [], false);
    }
    if m.end.Some? {
      assert In(m, [], true);
    }
    if w, end :| In(m, w, end) {
      if w != [] {
        InStep(m, w, end);
      }
    }
    if c :| c in m.branches && NonEmpty(m.branches[c]) {
      NonEmptyBranch(m, c);
    }
  }

  lemma NonEmptyUpdate(m: StringSet, n: StringSet)
    ensures NonEmpty(Update(m, n)) <==> NonEmpty(m) || NonEmpty(n)
  {
    hide In, Update;
    if w, end :| In(Update(m, n), w, end) {
      InUpdate(m, n, w, end);
    }
    if w, end :| In(m, w, end) {
      InUpdate(m, n, w, end);
    }
    if w, end :| In(n, w, end) {
      InUpdate(m, n, w, end);
    }
  }

  lemma {:induction false} TrimUpdate(m: StringSet, n: StringSet)
    requires Trim(m) && Trim(n)
    ensures Trim(Update(m, n))
    decreases n
  {
    hide NonEmpty;
    var r := Update(m, n);
    forall c | c in r.branches ensures NonEmpty(r.branches[c]) && Trim(r.branches[c]) {
      if c in n.branches {
        NonEmptyUpdate(Branch(m, c), n.branches[c]);
        TrimUpdate(Branch(m, c), n.branches[c]);
      }
    }
  }

  lemma HeadedUpdate(m: StringSet, n: StringSet, y: seq<Symbol>)
    requires Headed(m, y) || Headed(n, y)
    ensures Headed(Update(m, n), y)
  {
    hide NonEmpty;
    if y != [] && y[0].Char? {
      var c := y[0].c;
      if c in n.branches {
        NonEmptyUpdate(Branch(m, c), n.branches[c]);
      }
    }
  }

  lemma HeadsUpdate(m: StringSet, n: StringSet, l: Language)
    ensures Heads(m, l) || Heads(n, l) ==> Heads(Update(m, n), l)
  {
    hide Headed, Update;
    if Heads(m, l) || Heads(n, l) {
      forall y | y in l ensures Headed(Update(m, n), y) {
        HeadedUpdate(m, n, y);
      }
    }
  }

  lemma HeadsNonEmpty(g: Grammar, s: seq<Symbol>, m: StringSet)
    requires Heads(m, YieldsOf(g, s)) && exists z :: z in YieldsOf(g, s)
    ensures NonEmpty(m)
  {
    hide YieldsOf, NonEmpty;
    var z: seq<Symbol> :| z in YieldsOf(g, s);
    assert Headed(m, z);
    NoNonterminal(g, s, z);
    NonEmptyHere(m);
    if z != [] && z[0].Char? {
      NonEmptyBranch(m, z[0].c);
    }
  }

  /** `h_first_seq`, when the sets of the first symbol and of the tail have a string for every sentence. */
  lemma SeqHeads(g: Grammar, s: seq<Symbol>, k: nat, first: StringSet, r: StringSet)
    requires s != [] && k > 0 && Heads(first, YieldsOf(g, [s[0]]))
    requires || (IsSingletonEpsilon(first) && Heads(r, YieldsOf(g, s[1..])))
             || (!AnyStringShorter(k, first) && r == first)
             || Carries(first, YieldsOf(g, s[1..]), r)
    ensures Heads(r, YieldsOf(g, s))
  {
    hide YieldsOf, NonEmpty;
    var a, b := YieldsOf(g, [s[0]]), YieldsOf(g, s[1..]);
    YieldsOfCons(g, s);
    forall y | y in YieldsOf(g, s) ensures Headed(r, y) {
      var u, v :| u in a && v in b && u + v == y;
      assert Headed(first, u);
      if u == [] {
        assert y == v;
      } else {
        assert y[0] == u[0];
      }
    }
  }
}
