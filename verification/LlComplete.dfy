/** Which sentences the predictive parser accepts with one symbol of lookahead: all of them, exactly when every symbol
    that can come next in a text where a production stands is in the computed predict set of the production. */
module LlComplete {
  import opened Basics
  import opened ByteStream
  import opened Grammar
  import opened Languages
  import opened LlDriver
  import opened LlParse
  import opened LlRows
  import opened LlSentences
  import opened LlTable
  import opened Nullable
  import opened StringMap
  import opened Texts
  import StringSet

  // ----- where a symbol stands in a sentence

  /** `pre` and `rest` stand around `x` in a sentence, by at most `n` nested productions. */
  ghost predicate ContextIn(g: Grammar, start: nat, n: nat, x: Symbol, pre: seq<Symbol>, rest: seq<Symbol>) {
    n > 0 && (
      || (x == Nt(start) && pre == rest == [])
      || exists a: nat, rhs, i: nat, us, ys, ps, rs ::
           && Inside(g, a, rhs, i, x, us, ys) && ContextIn(g, start, n - 1, Nt(a), ps, rs) && pre == ps + us && rest == ys + rs)
  }

  /** `us` and `ys` are derived by what stands around `x` in the production. */
  ghost predicate Inside(g: Grammar, a: nat, rhs: seq<Symbol>, i: nat, x: Symbol, us: seq<Symbol>, ys: seq<Symbol>) {
    IsProduction(g, a, rhs) && i < |rhs| && rhs[i] == x && us in YieldsOf(g, rhs[..i]) && ys in YieldsOf(g, rhs[i + 1..])
  }

  ghost predicate Context(g: Grammar, start: nat, x: Symbol, pre: seq<Symbol>, rest: seq<Symbol>) {
    exists n: nat :: ContextIn(g, start, n, x, pre, rest)
  }

  lemma StartContext(g: Grammar, start: nat)
    ensures Context(g, start, Nt(start), [], [])
  {
    assert ContextIn(g, start, 1, Nt(start), [], []);
  }

  /** The kids of a node stand between each other's sentences. */
  lemma KidContext(g: Grammar, start: nat, a: nat, kids: seq<Tree>, i: nat, pre: seq<Symbol>, rest: seq<Symbol>)
    requires Context(g, start, Nt(a), pre, rest) && IsProduction(g, a, Roots(kids)) && i < |kids|
    requires forall k :: 0 <= k < |kids| ==> IsDerivation(g, kids[k])
    ensures Context(g, start, Root(kids[i]), pre + Yields(kids[..i]), Yields(kids[i + 1..]) + rest)
  {
    hide Yields, IsDerivation, IsProduction;
    var m: nat :| ContextIn(g, start, m, Nt(a), pre, rest);
    var rhs := Roots(kids);
    assert Roots(kids[..i]) == rhs[..i] && Roots(kids[i + 1..]) == rhs[i + 1..];
    assert Derivations(g, rhs[..i], kids[..i]) && Derivations(g, rhs[i + 1..], kids[i + 1..]);
    assert Inside(g, a, rhs, i, Root(kids[i]), Yields(kids[..i]), Yields(kids[i + 1..]));
    var n := m + 1;
    assert ContextIn(g, start, n - 1, Nt(a), pre, rest);
    assert ContextIn(g, start, n, Root(kids[i]), pre + Yields(kids[..i]), Yields(kids[i + 1..]) + rest);
  }

  /** In some text the `i`-th production of `a` stands with `x` as the next symbol. */
  ghost predicate ComesNext(g: Grammar, start: nat, a: nat, i: nat, x: Symbol) {
    && IsChoice(g, a) && i < |g[a].prods|
    && exists pre, ys, rest ::
         && Context(g, start, Nt(a), pre, rest) && ys in YieldsOf(g, g[a].prods[i])
         && IsText(pre + ys + rest) && x == NextOf(ys + rest)
  }

  /** Every symbol that comes next where a production stands is in the predict set of the production. */
  ghost predicate TellsAll(g: Grammar, start: nat, preds: map<nat, Preds>) {
    forall a: nat, i: nat, x :: ComesNext(g, start, a, i, x) ==> a in preds && Indicates(preds[a], i, x)
  }

  /** No other production's predict set has such a symbol. */
  ghost predicate TellsOne(g: Grammar, start: nat, preds: map<nat, Preds>) {
    forall a: nat, i: nat, j: nat, x :: ComesNext(g, start, a, i, x) && a in preds && Indicates(preds[a], j, x) ==> i == j
  }

  /** The table holds the predict sets. */
  ghost predicate Tabled(g: Grammar, start: nat, tab: Table, preds: map<nat, Preds>) {
    && Fits(g, start, tab)
    && forall a: nat :: a in tab ==> IsChoice(g, a) && a in preds && forall ahead: seq<byte> :: Selects(g[a].prods, preds[a], tab[a], ahead)
  }

  // ----- lookups

  lemma SuffixNext(pre: seq<Symbol>, y: seq<Symbol>)
    requires IsText(pre + y)
    ensures NextSymbol(BytesOf(y)) == NextOf(y) && !NextOf(y).Nt?
  {
    var text, ends: nat :| pre + y == Chars(text) + Ends(ends);
    if y != [] {
      assert (pre + y)[|pre|] == y[0];
    }
  }

  /** Where a production stands, the lookup finds it, or nothing if the next symbol is not in its predict set. */
  lemma NodeLookup(g: Grammar, start: nat, tab: Table, preds: map<nat, Preds>, a: nat, i: nat, pre: seq<Symbol>, ys: seq<Symbol>, rest: seq<Symbol>)
    requires Tabled(g, start, tab, preds) && a in tab && i < |g[a].prods|
    requires Context(g, start, Nt(a), pre, rest) && ys in YieldsOf(g, g[a].prods[i]) && IsText(pre + ys + rest)
    ensures var x, r := NextOf(ys + rest), Lookahead(tab[a], BytesOf(ys + rest), true);
      && ComesNext(g, start, a, i, x) && a in preds
      && (Indicates(preds[a], i, x) ==> r == Found(Some(g[a].prods[i])))
      && (!Indicates(preds[a], i, x) && TellsOne(g, start, preds) ==> r == Found(None))
  {
    hide YieldsOf, Context, Fits, Lookahead, Indicates;
    var x, ahead := NextOf(ys + rest), BytesOf(ys + rest);
    assert pre + ys + rest == pre + (ys + rest);
    SuffixNext(pre, ys + rest);
    assert Selects(g[a].prods, preds[a], tab[a], ahead);
    assert ComesNext(g, start, a, i, x);
  }

  // ----- no sentence goes astray

  ghost predicate AllDerived(g: Grammar, kids: seq<Tree>) {
    forall k :: 0 <= k < |kids| ==> IsDerivation(g, kids[k])
  }

  /** Where every production is told by the next symbol, a tree is passed unless its value is missing; and where no other
      production is, it is passed or rejected. */
  lemma {:induction false} TreeFate(g: Grammar, start: nat, tab: Table, preds: map<nat, Preds>, h: Hooks, t: Tree, pre: seq<Symbol>, rest: seq<Symbol>, at: nat)
    requires Tabled(g, start, tab, preds) && (TellsAll(g, start, preds) || TellsOne(g, start, preds))
    requires IsDerivation(g, t) && Covered(g, tab.Keys, Root(t)) && Context(g, start, Root(t), pre, rest) && IsText(pre + Yield(t) + rest)
    ensures var f := FateOf(g, tab, h, t, rest, at);
      f != Strays && (f == Passes ==> Value(g, h, t, at).Some?) && (TellsAll(g, start, preds) && f == Fails ==> Value(g, h, t, at) == None)
    decreases t, 0
  {
    hide Tabled, TellsAll, TellsOne, Context, Lookahead, Yield, FateAll, IsText, Value, Indicates;
    if t.Node? && g[t.nt].ChoiceRule? {
      TabledRow(g, start, tab, preds, t.nt);
      var i :| 0 <= i < |g[t.nt].prods| && g[t.nt].prods[i] == Roots(t.kids);
      NodeYield(t.nt, t.kids);
      KidsYield(g, t.kids);
      NodeLookup(g, start, tab, preds, t.nt, i, pre, Yield(t), rest);
      if TellsAll(g, start, preds) {
        Told(g, start, preds, t.nt, i, NextOf(Yield(t) + rest));
      }
      NoKids(t.kids, pre, rest);
      KidsFate(g, start, tab, preds, h, t.nt, t.kids, 0, pre, rest, at);
      NodeValue(g, h, t, at);
    } else {
      ByteValue(g, h, t, at);
    }
  }

  lemma Told(g: Grammar, start: nat, preds: map<nat, Preds>, a: nat, i: nat, x: Symbol)
    requires TellsAll(g, start, preds) && ComesNext(g, start, a, i, x)
    ensures a in preds && Indicates(preds[a], i, x)
  {
    hide ComesNext, Indicates;
  }

  lemma TabledRow(g: Grammar, start: nat, tab: Table, preds: map<nat, Preds>, a: nat)
    requires Tabled(g, start, tab, preds) && Covered(g, tab.Keys, Nt(a)) && IsChoice(g, a)
    ensures a in tab && a in preds
    ensures forall rhs: seq<Symbol>, k: nat :: IsProduction(g, a, rhs) && k < |rhs| ==> Covered(g, tab.Keys, rhs[k])
  {
    hide Selects;
  }

  lemma KidsYield(g: Grammar, kids: seq<Tree>)
    requires AllDerived(g, kids)
    ensures Yields(kids) in YieldsOf(g, Roots(kids))
  {
    hide IsDerivation, Yields;
    assert Derivations(g, Roots(kids), kids);
  }

  lemma NoKids(kids: seq<Tree>, pre: seq<Symbol>, rest: seq<Symbol>)
    ensures kids[0..] == kids && Yields(kids[..0]) == [] && pre + [] == pre
  {
  }

  lemma NodeValue(g: Grammar, h: Hooks, t: Tree, at: nat)
    requires t.Node? && !(t.nt < |g| && g[t.nt].CharsetRule?)
    ensures AllValues(g, h, t.kids, at) == None ==> Value(g, h, t, at) == None
  {
  }

  lemma ByteValue(g: Grammar, h: Hooks, t: Tree, at: nat)
    ensures t.Leaf? ==> Value(g, h, t, at).Some?
  {
  }

  lemma {:induction false} KidsFate(g: Grammar, start: nat, tab: Table, preds: map<nat, Preds>, h: Hooks, a: nat, kids: seq<Tree>, i: nat,
                                    pre: seq<Symbol>, rest: seq<Symbol>, at: nat)
    requires Tabled(g, start, tab, preds) && (TellsAll(g, start, preds) || TellsOne(g, start, preds))
    requires i <= |kids| && AllDerived(g, kids) && IsProduction(g, a, Roots(kids)) && IsChoice(g, a) && Covered(g, tab.Keys, Nt(a))
    requires Context(g, start, Nt(a), pre, rest) && IsText(pre + Yields(kids) + rest)
    ensures var f := FateAll(g, tab, h, kids, i, rest, at);
      && f != Strays && (f == Passes && AllValues(g, h, kids[..i], at).Some? ==> AllValues(g, h, kids, at).Some?)
      && (TellsAll(g, start, preds) && f == Fails ==> AllValues(g, h, kids, at) == None)
    decreases kids, 1, |kids| - i
  {
    hide Tabled, TellsAll, TellsOne, Context, IsText, Value, AllValues, Yield, Yields, Width, FateOf, IsDerivation;
    if i == |kids| {
      assert kids[..i] == kids;
    } else {
      var t := kids[i];
      KidContext(g, start, a, kids, i, pre, rest);
      TabledRow(g, start, tab, preds, a);
      assert Covered(g, tab.Keys, Roots(kids)[i]);
      SplitYields(kids, i);
      assert pre + Yields(kids) + rest == (pre + Yields(kids[..i])) + Yield(t) + (Yields(kids[i + 1..]) + rest);
      TreeFate(g, start, tab, preds, h, t, pre + Yields(kids[..i]), Yields(kids[i + 1..]) + rest, at + Width(Yields(kids[..i])));
      KidsFate(g, start, tab, preds, h, a, kids, i + 1, pre, rest, at);
      assert kids[..i + 1] == kids[..i] + [t];
      AllValuesSnoc(g, h, kids[..i], t, at);
      MissingKid(g, h, kids, i, at);
    }
  }

  /** Without the value of a kid there is none of them all. */
  lemma {:induction false} MissingKid(g: Grammar, h: Hooks, kids: seq<Tree>, i: nat, at: nat)
    requires i < |kids|
    ensures Value(g, h, kids[i], at + Width(Yields(kids[..i]))) == None ==> AllValues(g, h, kids, at) == None
    decreases |kids|
  {
    hide Value, Width;
    var init := kids[..|kids| - 1];
    if i < |init| {
      assert init[..i] == kids[..i];
      MissingKid(g, h, init, i, at);
    }
  }

  // ----- the sentences accepted

  /** The outcome of the parse of a whole text. */
  ghost predicate Returns(g: Grammar, start: nat, tab: Table, h: Hooks, text: seq<byte>, r: Option<Result>) {
    exists n: nat ::
      var (c, status) := Rounds(g, tab, h, n, WholeInput(start, text));
      !status.Continue? && r == LlResult(PointOf(c, status))
  }

  /** With complete predict sets every sentence is parsed: the result is the value of its tree, unless a validation fails. */
  lemma SentencesAccepted(g: Grammar, start: nat, tab: Table, preds: map<nat, Preds>, h: Hooks, t: Tree, text: seq<byte>)
    requires Tabled(g, start, tab, preds) && TellsAll(g, start, preds) && IsSentence(g, start, t, text)
    ensures Returns(g, start, tab, h, text,
      var v := Value(g, h, t, 0); if v.Some? then Some(Result(v.value, 8 * |text|)) else None)
  {
    hide Tabled, TellsAll, TellsOne, IsDerivation, Yield, Value, FateOf, Rounds;
    var ends: nat :| Yield(t) == Chars(text) + Ends(ends);
    StartContext(g, start);
    assert [] + Yield(t) + [] == Yield(t);
    StartCovered(g, start, tab, preds);
    TreeFate(g, start, tab, preds, h, t, [], [], 0);
    var n := SentenceParsed(g, start, tab, h, t, text, ends);
  }

  lemma StartCovered(g: Grammar, start: nat, tab: Table, preds: map<nat, Preds>)
    requires Tabled(g, start, tab, preds)
    ensures Covered(g, tab.Keys, Nt(start))
  {
  }

  /** The tree is not passed in front of `rest`, wherever it begins. */
  ghost predicate Stuck(g: Grammar, tab: Table, h: Hooks, u: Tree, rest: seq<Symbol>) {
    forall at: nat :: FateOf(g, tab, h, u, rest, at) != Passes
  }

  /** A tree in its place in a sentence. */
  lemma {:induction false} Embed(g: Grammar, start: nat, tab: Table, h: Hooks, n: nat, u: Tree, pre: seq<Symbol>, rest: seq<Symbol>) returns (t: Tree)
    requires ContextIn(g, start, n, Root(u), pre, rest) && IsDerivation(g, u) && Stuck(g, tab, h, u, rest)
    ensures IsDerivation(g, t) && Root(t) == Nt(start) && Yield(t) == pre + Yield(u) + rest && Stuck(g, tab, h, t, [])
    decreases n
  {
    hide YieldsOf, Yield, FateOf, Inside;
    if Root(u) == Nt(start) && pre == rest == [] {
      t := u;
      assert [] + Yield(u) + [] == Yield(u);
    } else {
      var a: nat, rhs, i: nat, us, ys, ps, rs :|
        Inside(g, a, rhs, i, Root(u), us, ys) && ContextIn(g, start, n - 1, Nt(a), ps, rs) && pre == ps + us && rest == ys + rs;
      var v := Around(g, tab, h, a, rhs, i, u, us, ys, rs);
      t := Embed(g, start, tab, h, n - 1, v, ps, rs);
      Regrouped(ps, us, Yield(u), ys, rs);
    }
  }

  lemma Regrouped(ps: seq<Symbol>, us: seq<Symbol>, y: seq<Symbol>, ys: seq<Symbol>, rs: seq<Symbol>)
    ensures ps + (us + y + ys) + rs == (ps + us) + y + (ys + rs)
  {
  }

  lemma Around(g: Grammar, tab: Table, h: Hooks, a: nat, rhs: seq<Symbol>, i: nat, u: Tree, us: seq<Symbol>, ys: seq<Symbol>, rs: seq<Symbol>) returns (v: Tree)
    requires Inside(g, a, rhs, i, Root(u), us, ys) && IsDerivation(g, u) && Stuck(g, tab, h, u, ys + rs)
    ensures IsDerivation(g, v) && Root(v) == Nt(a) && Yield(v) == us + Yield(u) + ys && Stuck(g, tab, h, v, rs)
  {
    hide Yield, Yields, Width, IsDerivation, FateOf, Derivations;
    var front: seq<Tree> :| Derivations(g, rhs[..i], front) && Yields(front) == us;
    var back: seq<Tree> :| Derivations(g, rhs[i + 1..], back) && Yields(back) == ys;
    var kids := front + [u] + back;
    PutTogether(g, rhs, i, front, u, back);
    v := Node(a, kids);
    SplitYields(kids, i);
    NodeYield(a, kids);
    Assembled(g, a, kids);
    forall at: nat ensures FateOf(g, tab, h, v, rs, at) != Passes {
      StuckKid(g, tab, h, kids, i, rs, at, 0);
      StuckNode(g, tab, h, a, kids, rs, at);
    }
  }

  lemma PutTogether(g: Grammar, rhs: seq<Symbol>, i: nat, front: seq<Tree>, u: Tree, back: seq<Tree>)
    requires i < |rhs| && rhs[i] == Root(u) && IsDerivation(g, u)
    requires Derivations(g, rhs[..i], front) && Derivations(g, rhs[i + 1..], back)
    ensures var kids := front + [u] + back;
      && |front| == i && kids[i] == u && kids[..i] == front && kids[i + 1..] == back
      && Roots(kids) == rhs && AllDerived(g, kids)
  {
    hide IsDerivation;
    var kids := front + [u] + back;
    assert |Roots(front)| == i && |Roots(back)| == |rhs| - i - 1;
    assert kids[i] == u && kids[..i] == front && kids[i + 1..] == back;
    assert Roots(kids) == Roots(front) + [Root(u)] + Roots(back);
    assert rhs == rhs[..i] + [rhs[i]] + rhs[i + 1..];
  }

  lemma Assembled(g: Grammar, a: nat, kids: seq<Tree>)
    requires IsProduction(g, a, Roots(kids)) && AllDerived(g, kids)
    ensures IsDerivation(g, Node(a, kids))
  {
  }

  lemma StuckNode(g: Grammar, tab: Table, h: Hooks, a: nat, kids: seq<Tree>, rest: seq<Symbol>, at: nat)
    requires FateAll(g, tab, h, kids, 0, rest, at) != Passes && IsProduction(g, a, Roots(kids)) && (exists k :: 0 <= k < |kids| && kids[k].Node?)
    ensures FateOf(g, tab, h, Node(a, kids), rest, at) != Passes
  {
    hide FateAll, Lookahead, Value;
    var k :| 0 <= k < |kids| && kids[k].Node?;
    assert Roots(kids)[k].Nt?;
  }

  lemma {:induction false} StuckKid(g: Grammar, tab: Table, h: Hooks, kids: seq<Tree>, i: nat, rest: seq<Symbol>, at: nat, from: nat)
    requires from <= i < |kids| && Stuck(g, tab, h, kids[i], Yields(kids[i + 1..]) + rest)
    ensures FateAll(g, tab, h, kids, from, rest, at) != Passes && kids[i].Node?
    decreases i - from
  {
    hide FateOf, Yields, Width;
    LeafPasses(g, tab, h, kids[i], Yields(kids[i + 1..]) + rest, 0);
    if from < i {
      StuckKid(g, tab, h, kids, i, rest, at, from + 1);
    }
  }

  lemma LeafPasses(g: Grammar, tab: Table, h: Hooks, t: Tree, rest: seq<Symbol>, at: nat)
    ensures t.Leaf? ==> FateOf(g, tab, h, t, rest, at) == Passes
  {
  }

  /** Where the symbol that comes next is missing from the predict set, the sentence is rejected, whatever the hooks. */
  lemma RejectedAt(g: Grammar, start: nat, tab: Table, preds: map<nat, Preds>, h: Hooks, a: nat, i: nat,
                   pre: seq<Symbol>, ys: seq<Symbol>, rest: seq<Symbol>, text: seq<byte>, ends: nat) returns (t: Tree)
    requires Tabled(g, start, tab, preds) && TellsOne(g, start, preds) && a in tab && i < |g[a].prods|
    requires Context(g, start, Nt(a), pre, rest) && ys in YieldsOf(g, g[a].prods[i]) && pre + ys + rest == Chars(text) + Ends(ends)
    requires a in preds && !Indicates(preds[a], i, NextOf(ys + rest))
    ensures IsSentence(g, start, t, text) && Returns(g, start, tab, h, text, None)
  {
    hide Tabled, TellsAll, TellsOne, IsDerivation, Yield, Yields, YieldsOf, Value, FateOf, Rounds, Context, Lookahead, Indicates;
    TabledChoice(g, start, tab, preds, a);
    assert IsText(pre + ys + rest);
    NodeLookup(g, start, tab, preds, a, i, pre, ys, rest);
    var u := Misplaced(g, tab, h, a, i, ys, rest);
    var n := ContextBound(g, start, Nt(a), pre, rest);
    t := Embed(g, start, tab, h, n, u, pre, rest);
    StartContext(g, start);
    assert [] + Yield(t) + [] == Yield(t);
    StartCovered(g, start, tab, preds);
    TreeFate(g, start, tab, preds, h, t, [], [], 0);
    var m := SentenceParsed(g, start, tab, h, t, text, ends);
  }

  lemma TabledChoice(g: Grammar, start: nat, tab: Table, preds: map<nat, Preds>, a: nat)
    requires Tabled(g, start, tab, preds) && a in tab
    ensures IsChoice(g, a)
  {
    hide Selects;
  }

  /** So a symbol that is missing costs some sentence. */
  lemma SentenceRejected(g: Grammar, start: nat, tab: Table, preds: map<nat, Preds>, h: Hooks, a: nat, i: nat, x: Symbol) returns (t: Tree, text: seq<byte>)
    requires Tabled(g, start, tab, preds) && TellsOne(g, start, preds) && ComesNext(g, start, a, i, x)
    requires a in tab && a in preds && !Indicates(preds[a], i, x)
    ensures IsSentence(g, start, t, text) && Returns(g, start, tab, h, text, None)
  {
    hide Tabled, TellsOne, YieldsOf, Returns, IsSentence, Context, Indicates;
    var pre, ys, rest :| Context(g, start, Nt(a), pre, rest) && ys in YieldsOf(g, g[a].prods[i]) && IsText(pre + ys + rest) && x == NextOf(ys + rest);
    var s: seq<byte>, ends: nat :| pre + ys + rest == Chars(s) + Ends(ends);
    text := s;
    t := RejectedAt(g, start, tab, preds, h, a, i, pre, ys, rest, text, ends);
  }

  lemma ContextBound(g: Grammar, start: nat, x: Symbol, pre: seq<Symbol>, rest: seq<Symbol>) returns (n: nat)
    requires Context(g, start, x, pre, rest)
    ensures ContextIn(g, start, n, x, pre, rest)
  {
    hide ContextIn;
    n :| ContextIn(g, start, n, x, pre, rest);
  }

  /** A production that the lookup does not find. */
  lemma Misplaced(g: Grammar, tab: Table, h: Hooks, a: nat, i: nat, ys: seq<Symbol>, rest: seq<Symbol>) returns (u: Tree)
    requires IsChoice(g, a) && i < |g[a].prods| && ys in YieldsOf(g, g[a].prods[i])
    requires a in tab && Lookahead(tab[a], BytesOf(ys + rest), true) == Found(None)
    ensures IsDerivation(g, u) && Root(u) == Nt(a) && Yield(u) == ys && Stuck(g, tab, h, u, rest)
  {
    hide Lookahead, Yields, FateAll, Value;
    var kids: seq<Tree> :| Derivations(g, g[a].prods[i], kids) && Yields(kids) == ys;
    u := Node(a, kids);
  }

  // ----- all sentences

  /** No validation ever fails. */
  ghost predicate NeverRejects(h: Hooks) {
    forall nt: nat, v :: nt in h.pred ==> h.pred[nt](v)
  }

  lemma {:induction false} ValueExists(g: Grammar, h: Hooks, t: Tree, at: nat)
    requires NeverRejects(h) && IsDerivation(g, t)
    ensures Value(g, h, t, at).Some?
    decreases t, 1
  {
    hide AllValues;
    if t.Node? {
      if g[t.nt].CharsetRule? {
        assert Roots(t.kids)[0] == Root(t.kids[0]) && |Roots(t.kids)| == |t.kids|;
      } else {
        ValuesExist(g, h, t.kids, at);
      }
    }
  }

  lemma {:induction false} ValuesExist(g: Grammar, h: Hooks, kids: seq<Tree>, at: nat)
    requires NeverRejects(h) && AllDerived(g, kids)
    ensures AllValues(g, h, kids, at).Some?
    decreases kids, 0
  {
    hide Value, Width;
    if kids != [] {
      var init := kids[..|kids| - 1];
      ValuesExist(g, h, init, at);
      ValueExists(g, h, kids[|kids| - 1], at + Width(Yields(init)));
    }
  }

  ghost predicate Accepts(g: Grammar, start: nat, tab: Table, h: Hooks, text: seq<byte>) {
    exists ast :: Returns(g, start, tab, h, text, Some(Result(ast, 8 * |text|)))
  }

  lemma ReturnsOnce(g: Grammar, start: nat, tab: Table, h: Hooks, text: seq<byte>, r: Option<Result>, r': Option<Result>)
    requires Returns(g, start, tab, h, text, r) && Returns(g, start, tab, h, text, r')
    ensures r == r'
  {
    hide Rounds, LlResult;
    var c0 := WholeInput(start, text);
    var m: nat :| !Rounds(g, tab, h, m, c0).1.Continue? && r == LlResult(PointOf(Rounds(g, tab, h, m, c0).0, Rounds(g, tab, h, m, c0).1));
    var n: nat :| !Rounds(g, tab, h, n, c0).1.Continue? && r' == LlResult(PointOf(Rounds(g, tab, h, n, c0).0, Rounds(g, tab, h, n, c0).1));
    if m <= n {
      MoreRounds(g, tab, h, m, n, c0);
    } else {
      MoreRounds(g, tab, h, n, m, c0);
    }
  }

  /** Whatever stands in a sentence has been collected. */
  lemma {:induction false} ContextCovered(g: Grammar, start: nat, nts: set<nat>, n: nat, x: Symbol, pre: seq<Symbol>, rest: seq<Symbol>)
    requires ClosedUnder(g, nts) && Covered(g, nts, Nt(start)) && ContextIn(g, start, n, x, pre, rest)
    ensures Covered(g, nts, x)
    decreases n
  {
    hide YieldsOf;
    if !(x == Nt(start) && pre == rest == []) {
      var a: nat, rhs, i: nat, us, ys, ps, rs :|
        Inside(g, a, rhs, i, x, us, ys) && ContextIn(g, start, n - 1, Nt(a), ps, rs) && pre == ps + us && rest == ys + rs;
      ContextCovered(g, start, nts, n - 1, Nt(a), ps, rs);
      if g[a].ChoiceRule? {
        assert a in nts;
        assert Covered(g, nts, rhs[i]);
      }
    }
  }

  lemma NextCovered(g: Grammar, start: nat, nts: set<nat>, a: nat, i: nat, x: Symbol)
    requires ClosedUnder(g, nts) && Covered(g, nts, Nt(start)) && ComesNext(g, start, a, i, x)
    ensures a in nts
  {
    hide YieldsOf, IsText, Context, ClosedUnder;
    var pre, ys, rest :| Context(g, start, Nt(a), pre, rest) && ys in YieldsOf(g, g[a].prods[i]) && IsText(pre + ys + rest) && x == NextOf(ys + rest);
    var n := ContextBound(g, start, Nt(a), pre, rest);
    ContextCovered(g, start, nts, n, Nt(a), pre, rest);
  }

  /** Without rejecting validations, the parser accepts every sentence exactly when the predict sets are complete. */
  lemma AcceptsExactly(g: Grammar, start: nat, tab: Table, preds: map<nat, Preds>, h: Hooks)
    requires Tabled(g, start, tab, preds) && TellsOne(g, start, preds) && NeverRejects(h)
    ensures (forall t, text :: IsSentence(g, start, t, text) ==> Accepts(g, start, tab, h, text)) <==> TellsAll(g, start, preds)
  {
    hide Tabled, TellsOne, NeverRejects, Value, Returns, ComesNext, Indicates, IsSentence;
    if TellsAll(g, start, preds) {
      forall t, text | IsSentence(g, start, t, text) ensures Accepts(g, start, tab, h, text) {
        SentencesAccepted(g, start, tab, preds, h, t, text);
        SentenceDerived(g, start, t, text);
        ValueExists(g, h, t, 0);
      }
    } else {
      var a: nat, i: nat, x :| ComesNext(g, start, a, i, x) && !(a in preds && Indicates(preds[a], i, x));
      NextTabled(g, start, tab, preds, a, i, x);
      var t, text := SentenceRejected(g, start, tab, preds, h, a, i, x);
      if Accepts(g, start, tab, h, text) {
        var ast :| Returns(g, start, tab, h, text, Some(Result(ast, 8 * |text|)));
        ReturnsOnce(g, start, tab, h, text, None, Some(Result(ast, 8 * |text|)));
      }
    }
  }

  lemma SentenceDerived(g: Grammar, start: nat, t: Tree, text: seq<byte>)
    requires IsSentence(g, start, t, text)
    ensures IsDerivation(g, t)
  {
  }

  lemma NextTabled(g: Grammar, start: nat, tab: Table, preds: map<nat, Preds>, a: nat, i: nat, x: Symbol)
    requires Tabled(g, start, tab, preds) && ComesNext(g, start, a, i, x)
    ensures a in tab && a in preds
  {
    hide ComesNext, Selects;
    NextCovered(g, start, tab.Keys, a, i, x);
  }

  // ----- computed predict sets

  /** The sentences around a nonterminal, followed by the end of the input, are what may follow it. */
  lemma {:induction false} ContextRest(g: Grammar, start: nat, n: nat, x: Symbol, pre: seq<Symbol>, rest: seq<Symbol>)
    requires ContextIn(g, start, n, x, pre, rest)
    ensures rest + [End] in Rests(g, start, x)
    decreases n
  {
    hide YieldsOf, Rests;
    if x == Nt(start) && pre == rest == [] {
      EndFollowsStart(g, start);
      assert rest + [End] == [End];
    } else {
      var a: nat, rhs, i: nat, us, ys, ps, rs :|
        Inside(g, a, rhs, i, x, us, ys) && ContextIn(g, start, n - 1, Nt(a), ps, rs) && pre == ps + us && rest == ys + rs;
      ContextRest(g, start, n - 1, Nt(a), ps, rs);
      RestsThroughProduction(g, start, a, rhs, i);
      assert rest + [End] == ys + (rs + [End]);
    }
  }

  /** The lookahead string of one symbol. */
  function StringOf(x: Symbol): seq<byte> {
    if x.Char? then [x.c] else []
  }

  lemma NextComes(g: Grammar, start: nat, a: nat, i: nat, x: Symbol)
    requires ComesNext(g, start, a, i, x)
    ensures !x.Nt? && Comes(g, start, 1, a, i, StringOf(x), x.End?)
    ensures forall nts: set<nat> :: ClosedUnder(g, nts) && Covered(g, nts, Nt(start)) ==> a in nts
  {
    hide YieldsOf, Rests, Context, ClosedUnder, Covered, StringSet.Cat;
    var pre, ys, rest :| Context(g, start, Nt(a), pre, rest) && ys in YieldsOf(g, g[a].prods[i]) && IsText(pre + ys + rest) && x == NextOf(ys + rest);
    var n := ContextBound(g, start, Nt(a), pre, rest);
    ContextRest(g, start, n, Nt(a), pre, rest);
    assert pre + ys + rest == pre + (ys + rest);
    SuffixNext(pre, ys + rest);
    var y := ys + (rest + [End]);
    InCat(YieldsOf(g, g[a].prods[i]), Rests(g, start, Nt(a)), ys, rest + [End]);
    assert y == ys + rest + [End];
    assert y[0] == x;
    if x.Char? {
      assert Chars([x.c]) == [Char(x.c)];
    } else {
      assert Chars([]) + [End] == [End];
    }
    assert StringSet.Shows(1, StringOf(x), x.End?, y);
    forall nts: set<nat> | ClosedUnder(g, nts) && Covered(g, nts, Nt(start)) ensures a in nts {
      NextCovered(g, start, nts, a, i, x);
    }
  }

  lemma InCat(a: StringSet.Language, b: StringSet.Language, y: seq<Symbol>, z: seq<Symbol>)
    requires y in a && z in b
    ensures y + z in StringSet.Cat(a, b)
  {
  }

  /** In a productive strong LL(1) grammar no other production's computed predict set has the symbol that comes next. */
  lemma DisjointTells(g: Grammar, start: nat, ranked: bool, log: Log, rounds: map<nat, seq<Preds>>)
    requires Productive(g) && GenuinelyDisjoint(g, start, 1)
    requires forall a :: a in rounds ==> RoundsOf(g, start, ranked, log, a, rounds[a]) && rounds[a] != []
    ensures TellsOne(g, start, FirstRounds(rounds))
  {
    hide Productive, RoundsOf, Comes, ComesNext, Indicates;
    var preds := FirstRounds(rounds);
    forall a: nat, i: nat, j: nat, x | ComesNext(g, start, a, i, x) && a in preds && Indicates(preds[a], j, x) ensures i == j {
      NextComes(g, start, a, i, x);
      IndicatedComes(g, start, ranked, log, a, rounds[a], j, x);
      assert Reached(g, start, a) by { ComesNextChoice(g, start, a, i, x); }
    }
  }

  lemma ComesNextChoice(g: Grammar, start: nat, a: nat, i: nat, x: Symbol)
    requires ComesNext(g, start, a, i, x)
    ensures IsChoice(g, a)
  {
  }

  ghost function FirstRounds(rounds: map<nat, seq<Preds>>): (r: map<nat, Preds>)
    requires forall a :: a in rounds ==> rounds[a] != []
  {
    map a | a in rounds :: rounds[a][0]
  }

  lemma IndicatedComes(g: Grammar, start: nat, ranked: bool, log: Log, a: nat, rounds: seq<Preds>, j: nat, x: Symbol)
    requires Productive(g) && RoundsOf(g, start, ranked, log, a, rounds) && rounds != [] && Indicates(rounds[0], j, x)
    ensures Comes(g, start, 1, a, j, StringOf(x), x.End?)
  {
    hide Productive, YieldsOf, Rests, StringSet.Cat, Contested, StringSet.Has;
    assert Recorded(g, start, ranked, log, 1, a, rounds[0]);
  }
}
