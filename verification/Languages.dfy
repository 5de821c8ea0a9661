/** The sentences of sequences of symbols, and what may follow a nonterminal. */
module Languages {
  import opened Basics
  import opened Grammar
  import opened StringSet

  ghost predicate Derivations(g: Grammar, s: seq<Symbol>, ts: seq<Tree>) {
    Roots(ts) == s && forall k :: 0 <= k < |ts| ==> IsDerivation(g, ts[k])
  }

  /** What a sequence of symbols derives. */
  ghost function YieldsOf(g: Grammar, s: seq<Symbol>): Language {
    iset ts | Derivations(g, s, ts) :: Yields(ts)
  }

  ghost predicate Productive(g: Grammar) {
    forall x: Symbol :: (x.Nt? ==> x.id < |g|) ==> exists y :: y in YieldsOf(g, [x])
  }

  lemma NothingYields(g: Grammar)
    ensures YieldsOf(g, []) == iset{[]}
  {
    forall ts | Derivations(g, [], ts) ensures Yields(ts) == [] {
      assert |Roots(ts)| == 0;
    }
    assert Roots([]) == [] && Derivations(g, [], []);
    assert Yields([]) in YieldsOf(g, []);
  }

  lemma {:induction false} YieldsFront(ts: seq<Tree>)
    requires ts != []
    ensures Yields(ts) == Yields([ts[0]]) + Yields(ts[1..])
  {
    assert [ts[0]] + ts[1..] == ts;
    YieldsConcat([ts[0]], ts[1..]);
  }

  /** A sequence derives what its first symbol and the others derive. */
  lemma YieldsOfCons(g: Grammar, s: seq<Symbol>)
    requires s != []
    ensures YieldsOf(g, s) == Cat(YieldsOf(g, [s[0]]), YieldsOf(g, s[1..]))
  {
    hide Yields, IsDerivation;
    var a, b := YieldsOf(g, [s[0]]), YieldsOf(g, s[1..]);
    forall y | y in YieldsOf(g, s) ensures y in Cat(a, b) {
      var ts :| Derivations(g, s, ts) && Yields(ts) == y;
      assert |ts| == |Roots(ts)|;
      YieldsFront(ts);
      assert Roots([ts[0]]) == [s[0]] && Roots(ts[1..]) == s[1..];
      assert Derivations(g, [s[0]], [ts[0]]) && Derivations(g, s[1..], ts[1..]);
      assert Yields([ts[0]]) in a && Yields(ts[1..]) in b;
    }
    forall y | y in Cat(a, b) ensures y in YieldsOf(g, s) {
      var u, v :| u in a && v in b && u + v == y;
      var us :| Derivations(g, [s[0]], us) && Yields(us) == u;
      var vs :| Derivations(g, s[1..], vs) && Yields(vs) == v;
      assert Roots(us + vs) == s by {
        assert Roots(us + vs) == Roots(us) + Roots(vs);
      }
      YieldsConcat(us, vs);
      assert Derivations(g, s, us + vs);
    }
  }

  /** A sequence of productive symbols derives something. */
  lemma {:induction false} SomeYield(g: Grammar, s: seq<Symbol>) returns (y: seq<Symbol>)
    requires Productive(g) && forall k :: 0 <= k < |s| && s[k].Nt? ==> s[k].id < |g|
    ensures y in YieldsOf(g, s)
    decreases |s|
  {
    hide YieldsOf;
    if s == [] {
      NothingYields(g);
      y := [];
    } else {
      YieldsOfCons(g, s);
      assert s[0].Nt? ==> s[0].id < |g|;
      var u :| u in YieldsOf(g, [s[0]]);
      var v := SomeYield(g, s[1..]);
      y := u + v;
    }
  }

  lemma YieldsOfOne(t: Tree)
    ensures Yields([t]) == Yield(t)
  {
    assert [t][..0] == [] && [] + Yield(t) == Yield(t);
  }

  lemma OneTree(g: Grammar, x: Symbol, y: seq<Symbol>) returns (t: Tree)
    requires y in YieldsOf(g, [x])
    ensures IsDerivation(g, t) && Root(t) == x && Yield(t) == y
  {
    var ts :| Derivations(g, [x], ts) && Yields(ts) == y;
    assert |Roots(ts)| == 1;
    t := ts[0];
    assert ts == [t] && Roots(ts)[0] == x;
    YieldsOfOne(t);
  }

  lemma TreeYields(g: Grammar, t: Tree)
    requires IsDerivation(g, t)
    ensures Yield(t) in YieldsOf(g, [Root(t)])
  {
    YieldsOfOne(t);
    assert Roots([t]) == [Root(t)];
    assert Derivations(g, [Root(t)], [t]);
  }

  /** There are only terminals in a sentence. */
  lemma {:induction false} TreeTerminals(g: Grammar, t: Tree)
    requires IsDerivation(g, t)
    ensures forall x :: x in Yield(t) ==> !x.Nt?
    decreases t, 0
  {
    if t.Node? {
      Terminals(g, t.kids);
    }
  }

  lemma {:induction false} Terminals(g: Grammar, ts: seq<Tree>)
    requires forall k :: 0 <= k < |ts| ==> IsDerivation(g, ts[k])
    ensures forall x :: x in Yields(ts) ==> !x.Nt?
    decreases ts, 1, |ts|
  {
    hide Yield, IsDerivation;
    if ts != [] {
      Terminals(g, ts[..|ts| - 1]);
      TreeTerminals(g, ts[|ts| - 1]);
    }
  }

  lemma NoNonterminal(g: Grammar, s: seq<Symbol>, y: seq<Symbol>)
    requires y in YieldsOf(g, s)
    ensures forall x :: x in y ==> !x.Nt?
  {
    hide Yields, IsDerivation;
    var ts :| Derivations(g, s, ts) && Yields(ts) == y;
    Terminals(g, ts);
  }

  /** A terminal derives itself. */
  lemma TerminalYields(g: Grammar, x: Symbol)
    requires !x.Nt?
    ensures YieldsOf(g, [x]) == iset{[x]}
  {
    forall y | y in YieldsOf(g, [x]) ensures y == [x] {
      var t := OneTree(g, x, y);
    }
    TreeYields(g, Leaf(x));
  }

  /** A nonterminal derives what its productions derive. */
  lemma ProductionYields(g: Grammar, a: nat, rhs: seq<Symbol>)
    requires IsProduction(g, a, rhs)
    ensures YieldsOf(g, rhs) <= YieldsOf(g, [Nt(a)])
  {
    forall y | y in YieldsOf(g, rhs) ensures y in YieldsOf(g, [Nt(a)]) {
      var ts :| Derivations(g, rhs, ts) && Yields(ts) == y;
      TreeYields(g, Node(a, ts));
    }
  }

  lemma ProductionOf(g: Grammar, a: nat, y: seq<Symbol>) returns (rhs: seq<Symbol>)
    requires y in YieldsOf(g, [Nt(a)])
    ensures IsProduction(g, a, rhs) && y in YieldsOf(g, rhs)
  {
    var t := OneTree(g, Nt(a), y);
    rhs := Roots(t.kids);
    assert Derivations(g, rhs, t.kids);
  }

  /** A set of bytes derives its members. */
  lemma CharsetYields(g: Grammar, a: nat)
    requires a < |g| && g[a].CharsetRule?
    ensures forall y: seq<Symbol> :: y in YieldsOf(g, [Nt(a)]) <==> |y| == 1 && y[0].Char? && y[0].c in g[a].chars
  {
    forall y: seq<Symbol> ensures y in YieldsOf(g, [Nt(a)]) <==> |y| == 1 && y[0].Char? && y[0].c in g[a].chars {
      if y in YieldsOf(g, [Nt(a)]) {
        var rhs := ProductionOf(g, a, y);
        TerminalYields(g, rhs[0]);
        assert rhs == [rhs[0]];
      } else if |y| == 1 && y[0].Char? && y[0].c in g[a].chars {
        assert y == [y[0]];
        TerminalYields(g, y[0]);
        ProductionYields(g, a, y);
      }
    }
  }

  // ----- what may follow

  /** `r` may stand behind `x` in a sentence that is followed by the end of the input, by at most `n` nested productions. */
  ghost predicate RestIn(g: Grammar, start: nat, n: nat, x: Symbol, r: seq<Symbol>) {
    n > 0 && (
      || (x == Nt(start) && r == [End])
      || exists a, rhs, i, ys, rs ::
           && 0 <= i < |rhs| && IsProduction(g, a, rhs) && rhs[i] == x
           && ys in YieldsOf(g, rhs[i + 1..]) && RestIn(g, start, n - 1, Nt(a), rs) && r == ys + rs)
  }

  lemma RestBehind(g: Grammar, start: nat, n: nat, x: Symbol, r: seq<Symbol>)
    returns (a: nat, rhs: seq<Symbol>, i: nat, ys: seq<Symbol>, rs: seq<Symbol>)
    requires RestIn(g, start, n, x, r) && !(x == Nt(start) && r == [End])
    ensures n > 0 && i < |rhs| && IsProduction(g, a, rhs) && rhs[i] == x && ys in YieldsOf(g, rhs[i + 1..])
    ensures RestIn(g, start, n - 1, Nt(a), rs) && r == ys + rs
  {
    hide YieldsOf;
    a, rhs, i, ys, rs :|
      0 <= i < |rhs| && IsProduction(g, a, rhs) && rhs[i] == x && ys in YieldsOf(g, rhs[i + 1..]) && RestIn(g, start, n - 1, Nt(a), rs) && r == ys + rs;
  }

  ghost function Rests(g: Grammar, start: nat, x: Symbol): Language {
    iset n, r | RestIn(g, start, n, x, r) :: r
  }

  lemma EndFollowsStart(g: Grammar, start: nat)
    ensures [End] in Rests(g, start, Nt(start))
  {
    assert RestIn(g, start, 1, Nt(start), [End]);
  }

  lemma RestsThroughProduction(g: Grammar, start: nat, a: nat, rhs: seq<Symbol>, i: nat)
    requires i < |rhs| && IsProduction(g, a, rhs)
    ensures Cat(YieldsOf(g, rhs[i + 1..]), Rests(g, start, Nt(a))) <= Rests(g, start, rhs[i])
  {
    forall r | r in Cat(YieldsOf(g, rhs[i + 1..]), Rests(g, start, Nt(a))) ensures r in Rests(g, start, rhs[i]) {
      var ys, rs :| ys in YieldsOf(g, rhs[i + 1..]) && rs in Rests(g, start, Nt(a)) && ys + rs == r;
      var m :| RestIn(g, start, m, Nt(a), rs);
      var n := m + 1;
      assert RestIn(g, start, n - 1, Nt(a), rs);
      assert RestIn(g, start, n, rhs[i], r);
    }
  }
}
