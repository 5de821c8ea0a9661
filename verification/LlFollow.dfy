/** What a table for one symbol of lookahead is worth: which sentences are parsed depends on the FOLLOW sets the analysis
    has found, and these on the order in which it has walked the nonterminals. */
module LlFollow {
  import opened Basics
  import opened ByteStream
  import opened FirstFollow
  import opened FollowSets
  import opened Grammar
  import opened GrammarAnalysis
  import opened Languages
  import opened LlComplete
  import opened LlDriver
  import opened LlParse
  import opened LlRows
  import opened LlSentences
  import opened LlTable
  import opened Nullable
  import opened StringSet
  import opened Texts
  import Cfg = Grammar

  /** In some text the symbol comes next where the nonterminal has vanished. */
  ghost predicate ComesBehind(g: Grammar, start: nat, a: nat, x: Symbol) {
    exists pre, rest :: Context(g, start, Nt(a), pre, rest) && IsText(pre + rest) && x == NextOf(rest)
  }

  /** The predict set of every production that vanishes has every symbol that can come behind its nonterminal. */
  ghost predicate FollowsComplete(g: Grammar, start: nat, memo: Memo) {
    forall a: nat, i: nat, x ::
      IsChoice(g, a) && i < |g[a].prods| && Vanishes(g, g[a].prods[i]) && ComesBehind(g, start, a, x) ==> x in PredictOf(g, memo, a, g[a].prods[i])
  }

  /** The first rounds hold the predict sets that the follow sets make, for every nonterminal of the grammar. */
  ghost predicate Exact(g: Grammar, start: nat, memo: Memo, preds: map<nat, Preds>) {
    forall a: nat :: Reached(g, start, a) ==> a in preds && RowExact(g, memo, a, preds[a]) && forall i: nat :: i in preds[a] <==> i < |g[a].prods|
  }

  lemma ExactIndicates(g: Grammar, memo: Memo, a: nat, preds: Preds, i: nat, x: Symbol)
    requires RowExact(g, memo, a, preds) && IsChoice(g, a) && i < |g[a].prods| && i in preds
    ensures Indicates(preds, i, x) <==> x in PredictOf(g, memo, a, g[a].prods[i])
  {
    hide PredictOf, In;
    assert Shown(preds[i], x) <==> x in GrammarAnalysis.Syms(preds[i]);
  }

  /** A symbol that comes next is one the production begins with, or one behind the nonterminal. */
  lemma NextOrBehind(g: Grammar, start: nat, a: nat, i: nat, x: Symbol)
    requires ComesNext(g, start, a, i, x)
    ensures BeginsSome(g, g[a].prods[i], x) || (Vanishes(g, g[a].prods[i]) && ComesBehind(g, start, a, x))
  {
    hide YieldsOf, Context, IsText;
    var pre, ys, rest :| Context(g, start, Nt(a), pre, rest) && ys in YieldsOf(g, g[a].prods[i]) && IsText(pre + ys + rest) && x == NextOf(ys + rest);
    if ys == [] {
      assert pre + ys + rest == pre + rest && ys + rest == rest;
    } else {
      assert (ys + rest)[0] == ys[0];
    }
  }

  lemma BehindIsNext(g: Grammar, start: nat, a: nat, i: nat, x: Symbol)
    requires IsChoice(g, a) && i < |g[a].prods| && Vanishes(g, g[a].prods[i]) && ComesBehind(g, start, a, x)
    ensures ComesNext(g, start, a, i, x)
  {
    hide YieldsOf, Context, IsText;
    var pre, rest :| Context(g, start, Nt(a), pre, rest) && IsText(pre + rest) && x == NextOf(rest);
    var ys: seq<Symbol> := [];
    assert pre + ys + rest == pre + rest && ys + rest == rest;
  }

  /** The predict sets are complete exactly when the follow sets are, where they matter. */
  lemma TellsAllExactly(g: Grammar, start: nat, memo: Memo, preds: map<nat, Preds>)
    requires Exact(g, start, memo, preds)
    ensures TellsAll(g, start, preds) <==> FollowsComplete(g, start, memo)
  {
    hide ComesNext, ComesBehind, Vanishes, Indicates, PredictOf, RowExact, BeginsSome, Reached;
    forall a: nat, i: nat, x | ComesNext(g, start, a, i, x)
      ensures a in preds && IsChoice(g, a) && i < |g[a].prods| && (Indicates(preds[a], i, x) <==> x in PredictOf(g, memo, a, g[a].prods[i]))
    {
      NextReached(g, start, a, i, x);
      ExactIndicates(g, memo, a, preds[a], i, x);
    }
    if FollowsComplete(g, start, memo) {
      forall a: nat, i: nat, x | ComesNext(g, start, a, i, x) ensures Indicates(preds[a], i, x) {
        NextOrBehind(g, start, a, i, x);
        BegunPredicted(g, memo, a, g[a].prods[i], x);
      }
    }
    if TellsAll(g, start, preds) {
      forall a: nat, i: nat, x | IsChoice(g, a) && i < |g[a].prods| && Vanishes(g, g[a].prods[i]) && ComesBehind(g, start, a, x)
        ensures x in PredictOf(g, memo, a, g[a].prods[i])
      {
        BehindIsNext(g, start, a, i, x);
      }
    }
  }

  lemma BegunPredicted(g: Grammar, memo: Memo, a: nat, rhs: seq<Symbol>, x: Symbol)
    ensures BeginsSome(g, rhs, x) ==> x in PredictOf(g, memo, a, rhs)
  {
    hide BeginsSome;
  }

  lemma NextReached(g: Grammar, start: nat, a: nat, i: nat, x: Symbol)
    requires ComesNext(g, start, a, i, x)
    ensures Reached(g, start, a) && IsChoice(g, a) && i < |g[a].prods|
  {
    hide Context, YieldsOf, IsText;
    NextComes(g, start, a, i, x);
  }

  // ----- the table

  /** What the compilation returns for one symbol of lookahead. */
  ghost predicate Compiled(g: Grammar, start: nat, log: Log, table: Table, rounds: map<nat, seq<Preds>>, order: seq<nat>) {
    && Fits(g, start, table)
    && (forall a: nat :: a in table <==> Reached(g, start, a))
    && (forall a: nat :: a in table ==> a in rounds && RowWorks(g, 1, a, rounds[a], table[a]))
    && (forall a :: a in rounds ==> RoundsOf(g, start, true, log, a, rounds[a]) && rounds[a] != [])
    && (forall a: nat :: a in table ==> RowExact(g, FollowMemo(g, start, order), a, rounds[a][0]))
    && (forall a: nat :: a in order <==> Reached(g, start, a))
  }

  lemma CompiledTabled(g: Grammar, start: nat, log: Log, table: Table, rounds: map<nat, seq<Preds>>, order: seq<nat>)
    requires Compiled(g, start, log, table, rounds, order)
    ensures Tabled(g, start, table, FirstRounds(rounds)) && Exact(g, start, FollowMemo(g, start, order), FirstRounds(rounds))
  {
    hide Fits, Reached, RowExact, RoundsOf, Selects, Resolves, Open, FollowMemo;
    var preds := FirstRounds(rounds);
    forall a: nat | a in table ensures IsChoice(g, a) && a in preds && forall ahead: seq<byte> :: Selects(g[a].prods, preds[a], table[a], ahead) {
      assert RowWorks(g, 1, a, rounds[a], table[a]);
    }
    forall a: nat | Reached(g, start, a)
      ensures a in preds && RowExact(g, FollowMemo(g, start, order), a, preds[a]) && forall i: nat :: i in preds[a] <==> i < |g[a].prods|
    {
      FirstRoundWhole(g, start, log, a, rounds[a]);
    }
  }

  lemma FirstRoundWhole(g: Grammar, start: nat, log: Log, a: nat, rounds: seq<Preds>)
    requires RoundsOf(g, start, true, log, a, rounds) && rounds != []
    ensures IsChoice(g, a) && forall i: nat :: i in rounds[0] <==> i < |g[a].prods|
  {
    hide Contested, Recorded, AllSized;
  }

  /** For a productive strong LL(1) grammar: every sentence is parsed exactly when the follow sets are complete. */
  lemma SentencesExactly(g: Grammar, start: nat, log: Log, table: Table, rounds: map<nat, seq<Preds>>, order: seq<nat>, h: Hooks)
    requires Compiled(g, start, log, table, rounds, order) && Productive(g) && GenuinelyDisjoint(g, start, 1) && NeverRejects(h)
    ensures (forall t, text :: IsSentence(g, start, t, text) ==> Accepts(g, start, table, h, text)) <==> FollowsComplete(g, start, FollowMemo(g, start, order))
  {
    hide Compiled, Productive, GenuinelyDisjoint, NeverRejects, IsSentence, Accepts, TellsAll, TellsOne, FollowsComplete, Tabled, Exact, FollowMemo;
    CompiledTabled(g, start, log, table, rounds, order);
    CompiledRounds(g, start, log, table, rounds, order);
    DisjointTells(g, start, true, log, rounds);
    TellsAllExactly(g, start, FollowMemo(g, start, order), FirstRounds(rounds));
    AcceptsExactly(g, start, table, FirstRounds(rounds), h);
  }

  lemma CompiledRounds(g: Grammar, start: nat, log: Log, table: Table, rounds: map<nat, seq<Preds>>, order: seq<nat>)
    requires Compiled(g, start, log, table, rounds, order)
    ensures forall a :: a in rounds ==> RoundsOf(g, start, true, log, a, rounds[a]) && rounds[a] != []
  {
    hide Fits, Reached, RowExact, RoundsOf, RowWorks, FollowMemo;
  }

  // ----- when the follow sets are complete

  /** Closed follow sets are complete. */
  lemma ClosedComplete(g: Grammar, start: nat, order: seq<nat>)
    requires Lists(g, start, order) && FollowClosed(g, start, order, FollowMemo(g, start, order))
    ensures FollowsComplete(g, start, FollowMemo(g, start, order))
  {
    hide Lists, FollowClosed, FollowMemo, Vanishes, ComesBehind;
    var memo := FollowMemo(g, start, order);
    forall a: nat, i: nat, x | IsChoice(g, a) && i < |g[a].prods| && Vanishes(g, g[a].prods[i]) && ComesBehind(g, start, a, x)
      ensures x in PredictOf(g, memo, a, g[a].prods[i])
    {
      BehindHeld(g, start, order, memo, a, i, x);
    }
  }

  lemma BehindHeld(g: Grammar, start: nat, order: seq<nat>, memo: Memo, a: nat, i: nat, x: Symbol)
    requires Lists(g, start, order) && memo == FollowMemo(g, start, order) && FollowClosed(g, start, order, memo)
    requires IsChoice(g, a) && i < |g[a].prods| && Vanishes(g, g[a].prods[i]) && ComesBehind(g, start, a, x)
    ensures a in memo && x in memo[a]
  {
    hide Lists, FollowClosed, TableRun, Vanishes, Context, IsText, RestIn;
    var pre, rest :| Context(g, start, Nt(a), pre, rest) && IsText(pre + rest) && x == NextOf(rest);
    var n := ContextBound(g, start, Nt(a), pre, rest);
    ContextRest(g, start, n, Nt(a), pre, rest);
    var m: nat :| RestIn(g, start, m, Nt(a), rest + [End]);
    RestListed(g, start, order, m, a, rest + [End]);
    assert SomeVanishes(g, a);
    AskedFor(g, start, order, map[], order, a);
    ClosedHolds(g, start, order, memo, m, a, rest + [End]);
  }

  lemma CompiledLists(g: Grammar, start: nat, log: Log, table: Table, rounds: map<nat, seq<Preds>>, order: seq<nat>)
    requires Compiled(g, start, log, table, rounds, order) && IsChoice(g, start)
    ensures Lists(g, start, order)
  {
    hide Reached, RowExact, RoundsOf, RowWorks, FollowMemo;
    assert forall a: nat :: a in order <==> a in table;
    assert Covered(g, table.Keys, Nt(start));
    forall a: nat, rhs: seq<Symbol>, j: nat | a in order && IsProduction(g, a, rhs) && j < |rhs| && rhs[j].Nt? && IsChoice(g, rhs[j].id) ensures rhs[j].id in order {
      assert Covered(g, table.Keys, rhs[j]);
    }
  }

  /** Where no nonterminal's follow set depends on itself by way of others, every sentence is parsed, with the value of its
      tree, in whatever order the nonterminals are walked. */
  lemma RankedAccepts(g: Grammar, start: nat, log: Log, table: Table, rounds: map<nat, seq<Preds>>, order: seq<nat>, rank: nat -> nat, h: Hooks, t: Tree, text: seq<byte>)
    requires Compiled(g, start, log, table, rounds, order) && IsChoice(g, start) && FollowRanked(g, order, rank) && IsSentence(g, start, t, text)
    ensures Returns(g, start, table, h, text, var v := Value(g, h, t, 0); if v.Some? then Some(Result(v.value, 8 * |text|)) else None)
  {
    hide Compiled, IsSentence, TellsAll, FollowsComplete, Tabled, Exact, FollowMemo, Returns, Value, FollowRanked, Lists, FollowClosed;
    CompiledTabled(g, start, log, table, rounds, order);
    CompiledRounds(g, start, log, table, rounds, order);
    CompiledLists(g, start, log, table, rounds, order);
    RankedCloses(g, start, order, rank);
    ClosedComplete(g, start, order);
    TellsAllExactly(g, start, FollowMemo(g, start, order), FirstRounds(rounds));
    SentencesAccepted(g, start, table, FirstRounds(rounds), h, t, text);
  }

  /** `h_llk_compile` with one symbol of lookahead, for a productive grammar without left recursion.  A strong LL(1) grammar
      gets a table; with it every sentence is parsed exactly when the follow sets are complete, which they are where none
      depends on itself by way of others. */
  method CompileOne(g0: Grammar, symbol: Symbol, ghost rank: nat -> nat, ghost top: nat, ghost frank: nat -> nat)
    returns (code: int, g: Grammar, start: nat, table: Table, ghost log: Log, ghost rounds: map<nat, seq<Preds>>, ghost order: seq<nat>)
    requires Cfg.Complete(g0) && (symbol.Nt? ==> symbol.id < |g0|)
    requires Productive(Wrapped(g0, symbol).0) && Ranked(Wrapped(g0, symbol).0, rank, top)
    ensures (g, start) == Wrapped(g0, symbol) && (GenuinelyDisjoint(g, start, 1) ==> code == 0)
    ensures code == 0 ==> Compiled(g, start, log, table, rounds, order)
    ensures code == 0 && GenuinelyDisjoint(g, start, 1) ==> forall h :: NeverRejects(h) ==>
      ((forall t, text :: IsSentence(g, start, t, text) ==> Accepts(g, start, table, h, text)) <==> FollowsComplete(g, start, FollowMemo(g, start, order)))
    ensures code == 0 && FollowRanked(g, order, frank) ==> forall h, t, text :: IsSentence(g, start, t, text) ==>
      Returns(g, start, table, h, text, var v := Value(g, h, t, 0); if v.Some? then Some(Result(v.value, 8 * |text|)) else None)
  {
    hide Productive, Ranked, Fits, RowWorks, RoundsOf, RowExact, FollowMemo, GenuinelyDisjoint, NeverRejects, IsSentence, Accepts, Returns;
    hide FollowsComplete, FollowRanked, Reached, Open, OpenBefore, Ambiguous, Wrapped;
    code, g, start, table, rounds, log, order := Compile(g0, symbol, 1, rank, true, top);
    if code == 0 {
      StartIsChoice(g0, symbol);
      if GenuinelyDisjoint(g, start, 1) {
        forall h | NeverRejects(h)
          ensures (forall t, text :: IsSentence(g, start, t, text) ==> Accepts(g, start, table, h, text)) <==> FollowsComplete(g, start, FollowMemo(g, start, order))
        {
          SentencesExactly(g, start, log, table, rounds, order, h);
        }
      }
      if FollowRanked(g, order, frank) {
        forall h, t, text | IsSentence(g, start, t, text)
          ensures Returns(g, start, table, h, text, var v := Value(g, h, t, 0); if v.Some? then Some(Result(v.value, 8 * |text|)) else None)
        {
          RankedAccepts(g, start, log, table, rounds, order, frank, h, t, text);
        }
      }
    }
  }

  lemma StartIsChoice(g0: Grammar, symbol: Symbol)
    requires symbol.Nt? ==> symbol.id < |g0|
    ensures IsChoice(Wrapped(g0, symbol).0, Wrapped(g0, symbol).1)
  {
  }

  /** `h_llk_parse` of a whole text: it ends with the outcome that its rounds lead to. */
  method ParseText(g: Grammar, tab: Table, hooks: Hooks, start: nat, input: seq<byte>, ghost out: Option<Result>) returns (r: Option<Result>)
    requires Fits(g, start, tab) && Returns(g, start, tab, hooks, input, out)
    ensures r == out
  {
    hide Rounds, LlResult, Fits, ParsesPrefix;
    ghost var n: nat :| !Rounds(g, tab, hooks, n, WholeInput(start, input)).1.Continue?
      && out == LlResult(PointOf(Rounds(g, tab, hooks, n, WholeInput(start, input)).0, Rounds(g, tab, hooks, n, WholeInput(start, input)).1));
    r := LlParse.Parse(g, tab, hooks, start, input, n);
  }
}
