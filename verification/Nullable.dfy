/** Collecting the nonterminals of a grammar, and those that derive the empty string. */
module Nullable {
  import opened Basics
  import opened Grammar

  // ----- the nonterminals reachable from a symbol

  ghost predicate IsChoice(g: Grammar, id: nat) {
    id < |g| && g[id].ChoiceRule?
  }

  /** Choices in productions of members are members. */
  ghost predicate ClosedUnder(g: Grammar, nts: set<nat>) {
    forall a: nat, rhs: seq<Symbol>, k: nat :: a in nts && IsProduction(g, a, rhs) && k < |rhs| ==> Covered(g, nts, rhs[k])
  }

  ghost predicate Covered(g: Grammar, nts: set<nat>, x: Symbol) {
    x.Nt? && IsChoice(g, x.id) ==> x.id in nts
  }

  /** `collect_nts`: sets of bytes are considered terminal, too. */
  method CollectNts(g: Grammar, symbol: Symbol, nts0: set<nat>) returns (nts: set<nat>)
    requires Complete(g) && (symbol.Nt? ==> symbol.id < |g|) && forall a :: a in nts0 ==> IsChoice(g, a)
    ensures nts0 <= nts && Covered(g, nts, symbol) && forall a :: a in nts ==> IsChoice(g, a)
    ensures forall a: nat, rhs: seq<Symbol>, k: nat :: a in nts - nts0 && IsProduction(g, a, rhs) && k < |rhs| ==> Covered(g, nts, rhs[k])
    ensures forall s: set<nat> :: ClosedUnder(g, s) && Covered(g, s, symbol) && nts0 <= s ==> nts <= s
    decreases Choices(g) - nts0
  {
    nts := nts0;
    if !symbol.Nt? || symbol.id in nts || g[symbol.id].CharsetRule? {
      return; // already visited, or a terminal
    }
    var id := symbol.id;
    nts := nts + {id};
    // collect the symbols of all productions
    var prods := g[id].prods;
    for i := 0 to |prods|
      invariant nts0 + {id} <= nts && forall a :: a in nts ==> IsChoice(g, a)
      invariant forall i', k: nat :: 0 <= i' < i && k < |prods[i']| ==> Covered(g, nts, prods[i'][k])
      invariant forall a: nat, rhs: seq<Symbol>, k: nat :: a in nts - nts0 - {id} && IsProduction(g, a, rhs) && k < |rhs| ==> Covered(g, nts, rhs[k])
      invariant forall s: set<nat> :: ClosedUnder(g, s) && Covered(g, s, symbol) && nts0 <= s ==> nts <= s
    {
      var rhs := prods[i];
      assert IsProduction(g, id, rhs);
      for k := 0 to |rhs|
        invariant nts0 + {id} <= nts && forall a :: a in nts ==> IsChoice(g, a)
        invariant forall i', k: nat :: 0 <= i' < i && k < |prods[i']| ==> Covered(g, nts, prods[i'][k])
        invariant forall k': nat :: k' < k ==> Covered(g, nts, rhs[k'])
        invariant forall a: nat, rhs: seq<Symbol>, k: nat :: a in nts - nts0 - {id} && IsProduction(g, a, rhs) && k < |rhs| ==> Covered(g, nts, rhs[k])
        invariant forall s: set<nat> :: ClosedUnder(g, s) && Covered(g, s, symbol) && nts0 <= s ==> nts <= s
      {
        ghost var before := nts;
        nts := CollectNts(g, rhs[k], nts);
      }
    }
  }

  ghost function Choices(g: Grammar): set<nat> {
    set a: nat | a < |g| && g[a].ChoiceRule?
  }

  // ----- deriving the empty string

  ghost predicate EmptyTree(g: Grammar, t: Tree, x: Symbol) {
    IsDerivation(g, t) && Root(t) == x && Yield(t) == []
  }

  ghost predicate DerivesEmpty(g: Grammar, x: Symbol) {
    exists t :: EmptyTree(g, t, x)
  }

  /** `h_derives_epsilon`: the end of the input does not count as empty. */
  predicate DerivesEpsilon(geneps: set<nat>, x: Symbol) {
    x.Nt? && x.id in geneps
  }

  predicate AllDeriveEpsilon(geneps: set<nat>, rhs: seq<Symbol>) {
    forall k :: 0 <= k < |rhs| ==> DerivesEpsilon(geneps, rhs[k])
  }

  /** The grammar of a desugared parser, and its start symbol: a terminal is wrapped in a choice of its own. */
  function Wrapped(g: Grammar, symbol: Symbol): (Grammar, nat) {
    if symbol.Nt? && symbol.id < |g| && g[symbol.id].ChoiceRule? then (g, symbol.id) else (g + [ChoiceRule([[symbol]])], |g|)
  }

  /** `h_cfgrammar_`: the nonterminals are the fewest that hold the start symbol and what its productions lead to. */
  method CfGrammar(g: Grammar, symbol: Symbol) returns (g': Grammar, start: nat, nts: set<nat>)
    requires Complete(g) && (symbol.Nt? ==> symbol.id < |g|)
    ensures (g', start) == Wrapped(g, symbol) && Complete(g') && IsChoice(g', start)
    ensures ClosedUnder(g', nts) && start in nts && forall a :: a in nts ==> IsChoice(g', a)
    ensures forall s: set<nat> :: ClosedUnder(g', s) && Covered(g', s, Nt(start)) ==> nts <= s
  {
    nts := CollectNts(g, symbol, {});
    assert nts == {} <==> !(symbol.Nt? && IsChoice(g, symbol.id)) by {
      var none: set<nat> := {};
      assert ClosedUnder(g, none) && (Covered(g, none, symbol) ==> nts <= none);
    }
    if nts == {} {
      g', start := g + [ChoiceRule([[symbol]])], |g|;
      nts := {start};
      WrappedFacts(g, symbol);
    } else {
      g', start := g, symbol.id;
    }
  }

  lemma WrappedFacts(g: Grammar, symbol: Symbol)
    requires Complete(g) && (symbol.Nt? ==> symbol.id < |g| && !g[symbol.id].ChoiceRule?)
    ensures var g' := Wrapped(g, symbol).0; Complete(g') && ClosedUnder(g', {|g|}) && IsChoice(g', |g|)
  {
    var g' := Wrapped(g, symbol).0;
    forall lhs: nat, rhs: seq<Symbol>, k | IsProduction(g', lhs, rhs) && 0 <= k < |rhs| && rhs[k].Nt? ensures rhs[k].id < |g'| {
      if lhs < |g| {
        assert IsProduction(g, lhs, rhs);
      } else {
        assert rhs == [symbol];
      }
    }
  }

  /** `h_derives_epsilon_seq`. */
  method DerivesEpsilonSeq(geneps: set<nat>, rhs: seq<Symbol>) returns (r: bool)
    ensures r <==> AllDeriveEpsilon(geneps, rhs)
  {
    for k := 0 to |rhs|
      invariant forall j :: 0 <= j < k ==> DerivesEpsilon(geneps, rhs[j])
    {
      if !DerivesEpsilon(geneps, rhs[k]) {
        return false;
      }
    }
    r := true;
  }

  /** A production whose symbols all are known to be nullable. */
  ghost predicate Justified(g: Grammar, geneps: set<nat>, a: nat) {
    exists rhs :: IsProduction(g, a, rhs) && AllDeriveEpsilon(geneps, rhs)
  }

  /** `collect_geneps`, for any order in which the set of nonterminals is walked. */
  method CollectGeneps(g: Grammar, nts: set<nat>) returns (geneps: set<nat>)
    requires ClosedUnder(g, nts) && forall a :: a in nts ==> IsChoice(g, a)
    ensures geneps == set a | a in nts && DerivesEmpty(g, Nt(a))
  {
    hide DerivesEmpty;
    geneps := {};
    var changed := true;
    while changed
      invariant geneps <= nts && forall a :: a in geneps ==> DerivesEmpty(g, Nt(a))
      invariant !changed ==> forall a :: a in nts - geneps ==> !Justified(g, geneps, a)
      decreases nts - geneps, changed
    {
      var prev := geneps;
      var rest := nts;
      while rest != {}
        invariant rest <= nts && prev <= geneps <= nts && forall a :: a in geneps ==> DerivesEmpty(g, Nt(a))
        invariant geneps == prev ==> forall a :: a in nts - rest - geneps ==> !Justified(g, geneps, a)
        decreases rest
      {
        var a :| a in rest;
        rest := rest - {a};
        var found := AnyProduction(g, geneps, a);
        if found {
          JustifiedDerives(g, geneps, a);
          geneps := geneps + {a};
        }
      }
      changed := geneps != prev;
    }
    forall a | a in nts && DerivesEmpty(g, Nt(a)) ensures a in geneps {
      var t := WitnessTree(g, Nt(a));
      NullableCollected(g, nts, geneps, t);
    }
  }

  lemma WitnessTree(g: Grammar, x: Symbol) returns (t: Tree)
    requires DerivesEmpty(g, x)
    ensures EmptyTree(g, t, x)
  {
    t :| EmptyTree(g, t, x);
  }

  /** A nonterminal derives the empty string if any one of its productions does. */
  method AnyProduction(g: Grammar, geneps: set<nat>, a: nat) returns (found: bool)
    requires IsChoice(g, a)
    ensures found <==> Justified(g, geneps, a)
  {
    var prods := g[a].prods;
    for i := 0 to |prods|
      invariant forall j :: 0 <= j < i ==> !AllDeriveEpsilon(geneps, prods[j])
    {
      var eps := DerivesEpsilonSeq(geneps, prods[i]);
      if eps {
        return true;
      }
    }
    found := false;
  }

  lemma JustifiedDerives(g: Grammar, geneps: set<nat>, a: nat)
    requires Justified(g, geneps, a) && forall b :: b in geneps ==> DerivesEmpty(g, Nt(b))
    ensures DerivesEmpty(g, Nt(a))
  {
    hide DerivesEmpty;
    var rhs :| IsProduction(g, a, rhs) && AllDeriveEpsilon(geneps, rhs);
    var kids := EmptyTrees(g, geneps, rhs);
    assert Roots(kids) == rhs;
    EmptyNode(g, a, kids);
  }

  lemma EmptyNode(g: Grammar, a: nat, kids: seq<Tree>)
    requires IsProduction(g, a, Roots(kids)) && Yields(kids) == [] && forall k :: 0 <= k < |kids| ==> IsDerivation(g, kids[k])
    ensures DerivesEmpty(g, Nt(a))
  {
    var t := Node(a, kids);
    assert EmptyTree(g, t, Nt(a));
  }

  lemma {:induction false} EmptyTrees(g: Grammar, geneps: set<nat>, rhs: seq<Symbol>) returns (ts: seq<Tree>)
    requires forall b :: b in geneps ==> DerivesEmpty(g, Nt(b))
    requires AllDeriveEpsilon(geneps, rhs)
    ensures |ts| == |rhs| && Yields(ts) == [] && forall k :: 0 <= k < |ts| ==> IsDerivation(g, ts[k]) && Root(ts[k]) == rhs[k]
    decreases |rhs|
  {
    hide DerivesEmpty;
    ts := [];
    if rhs != [] {
      var init := rhs[..|rhs| - 1];
      var last := rhs[|rhs| - 1];
      var us := EmptyTrees(g, geneps, init);
      assert DerivesEpsilon(geneps, last);
      var t := WitnessTree(g, last);
      ts := us + [t];
      assert ts[..|ts| - 1] == us;
      assert [] + Yield(t) == [];
    }
  }

  /** Once nothing is added any more, the root of every empty derivation has been collected. */
  lemma {:induction false} NullableCollected(g: Grammar, nts: set<nat>, geneps: set<nat>, t: Tree)
    requires ClosedUnder(g, nts) && (forall a :: a in nts - geneps ==> !Justified(g, geneps, a)) && forall a :: a in nts ==> IsChoice(g, a)
    requires IsDerivation(g, t) && Yield(t) == [] && Root(t).Nt? && Root(t).id in nts
    ensures Root(t).id in geneps
    decreases t
  {
    var rhs := Roots(t.kids);
    forall k | 0 <= k < |rhs| ensures DerivesEpsilon(geneps, rhs[k]) {
      EmptyKid(t.kids, k);
      var kid := t.kids[k];
      assert IsDerivation(g, kid) && Covered(g, nts, rhs[k]);
      NotBytes(g, kid);
      NullableCollected(g, nts, geneps, kid);
    }
    assert Justified(g, geneps, t.nt);
  }

  /** Parts of an empty yield are empty. */
  lemma {:induction false} EmptyKid(ts: seq<Tree>, k: nat)
    requires Yields(ts) == [] && k < |ts|
    ensures Yield(ts[k]) == []
    decreases |ts|
  {
    hide Yield;
    assert |Yields(ts)| == |Yields(ts[..|ts| - 1])| + |Yield(ts[|ts| - 1])|;
    if k < |ts| - 1 {
      EmptyKid(ts[..|ts| - 1], k);
    }
  }

  /** An empty derivation does not begin with a terminal or a set of bytes. */
  lemma NotBytes(g: Grammar, t: Tree)
    requires IsDerivation(g, t) && Yield(t) == []
    ensures t.Node? && IsChoice(g, t.nt)
  {
    if t.Node? && g[t.nt].CharsetRule? {
      ByteYield(g, t);
    }
  }

  lemma ByteYield(g: Grammar, t: Tree)
    requires IsDerivation(g, t) && t.Node? && g[t.nt].CharsetRule?
    ensures Yield(t) != []
  {
    var kid := t.kids[0];
    assert IsDerivation(g, kid) && Root(kid) == Roots(t.kids)[0];
    assert t.kids == [] + [kid] && t.kids[..0] == [];
    assert Yield(kid) == [kid.sym];
  }
}
