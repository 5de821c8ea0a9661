/** When the predictive parser stops: without left recursion its loop ends on every input, and so do its chunks. */
module LlHalting {
  import opened Basics
  import opened ByteStream
  import opened Chunking
  import opened Grammar
  import opened StringMap
  import opened LlDriver
  import opened LlParse

  // ----- grammars without left recursion

  /** The symbols in `vanish` can be matched without consuming a byte; so can end markers. */
  ghost predicate Idle(vanish: iset<nat>, x: Symbol) {
    x == End || (x.Nt? && x.id in vanish)
  }

  ghost predicate AllIdle(vanish: iset<nat>, s: seq<Symbol>) {
    forall k :: 0 <= k < |s| ==> Idle(vanish, s[k])
  }

  /** What may be expanded before a byte has been consumed. */
  ghost predicate LeftBelow(vanish: iset<nat>, rank: nat -> nat, s: seq<Symbol>, bound: nat) {
    forall k :: 0 <= k < |s| && s[k].Nt? && AllIdle(vanish, s[..k]) ==> rank(s[k].id) < bound
  }

  /** `vanish` holds every nonterminal that can be matched without a byte, and no nonterminal leads back to itself
      before a byte has been consumed.  An end marker consumes none: it may be matched again and again. */
  ghost predicate NoIdleLoop(g: Grammar, vanish: iset<nat>, rank: nat -> nat) {
    forall a: nat, rhs: seq<Symbol> :: IsProduction(g, a, rhs) && g[a].ChoiceRule?
      ==> LeftBelow(vanish, rank, rhs, rank(a)) && (AllIdle(vanish, rhs) ==> a in vanish)
  }

  // ----- how many rounds can pass before a byte is consumed

  /** Rounds for a nonterminal: expand it, match its production, close the frame. */
  ghost function Weight(g: Grammar, vanish: iset<nat>, rank: nat -> nat, a: nat): (w: nat)
    ensures w > 0
    decreases rank(a), 1, 0
  {
    if a < |g| && g[a].ChoiceRule? then 2 + Heaviest(g, vanish, rank, rank(a), g[a].prods) else 1
  }

  ghost function Heaviest(g: Grammar, vanish: iset<nat>, rank: nat -> nat, bound: nat, prods: seq<seq<Symbol>>): nat
    decreases bound, 0, |prods|, 1
  {
    if prods == [] then 0
    else Heaviest(g, vanish, rank, bound, prods[1..]) + Load(g, vanish, rank, bound, prods[0])
  }

  /** Rounds for a production, as far as no byte is consumed. */
  ghost function Load(g: Grammar, vanish: iset<nat>, rank: nat -> nat, bound: nat, s: seq<Symbol>): nat
    decreases bound, 0, 0, |s|
  {
    if s == [] then 0
    else
      (if s[0].Nt? && rank(s[0].id) < bound then Weight(g, vanish, rank, s[0].id) else 1)
      + if Idle(vanish, s[0]) then Load(g, vanish, rank, bound, s[1..]) else 0
  }

  /** Rounds for the stack; below a mark stand the nonterminal and the values of its frame. */
  ghost function Height(g: Grammar, vanish: iset<nat>, rank: nat -> nat, stack: seq<Entry>): nat
    decreases |stack|
  {
    if stack == [] then 0
    else
      match stack[0]
      case Sym(x) =>
        (if x.Nt? then Weight(g, vanish, rank, x.id) else 1) + if Idle(vanish, x) then Height(g, vanish, rank, stack[1..]) else 0
      case Mark => if |stack| < 3 then 0 else 1 + Height(g, vanish, rank, stack[3..])
      case Saved(_) => 0
  }

  lemma {:induction false} HeaviestIsMore(g: Grammar, vanish: iset<nat>, rank: nat -> nat, bound: nat, prods: seq<seq<Symbol>>, s: seq<Symbol>)
    requires s in prods
    ensures Load(g, vanish, rank, bound, s) <= Heaviest(g, vanish, rank, bound, prods)
    decreases |prods|
  {
    hide Load;
    if s != prods[0] {
      assert s in prods[1..];
      HeaviestIsMore(g, vanish, rank, bound, prods[1..], s);
    }
  }

  /** A production pushed on the stack. */
  lemma {:induction false} PushedHeight(g: Grammar, vanish: iset<nat>, rank: nat -> nat, bound: nat, s: seq<Symbol>, rest: seq<Entry>)
    requires LeftBelow(vanish, rank, s, bound)
    ensures Height(g, vanish, rank, Syms(s) + rest) ==
      Load(g, vanish, rank, bound, s) + if AllIdle(vanish, s) then Height(g, vanish, rank, rest) else 0
    decreases |s|
  {
    hide Weight;
    if s == [] {
      assert Syms(s) + rest == rest;
    } else {
      var tail := s[1..];
      assert s[..0] == [];
      assert (Syms(s) + rest)[1..] == Syms(tail) + rest;
      if Idle(vanish, s[0]) {
        forall k | 0 <= k < |tail| && tail[k].Nt? && AllIdle(vanish, tail[..k]) ensures rank(tail[k].id) < bound {
          assert s[..k + 1] == [s[0]] + tail[..k];
          assert AllIdle(vanish, s[..k + 1]) && s[k + 1] == tail[k];
        }
        PushedHeight(g, vanish, rank, bound, tail, rest);
        assert s == [s[0]] + tail;
      }
    }
  }

  // ----- every round consumes a byte or lowers the stack

  function Remaining(input: Stream): int {
    |input.input| - input.index
  }

  lemma PredictLowers(g: Grammar, start: nat, vanish: iset<nat>, rank: nat -> nat, tab: Table, id: nat, c: LlConfig)
    requires Fits(g, start, tab) && NoIdleLoop(g, vanish, rank) && ValidStream(c.input)
    requires c.stack != [] && c.stack[0] == Sym(Nt(id)) && id < |g| && g[id].ChoiceRule?
    requires Predict(tab, id, c, c.(stack := c.stack[1..])).1.Continue?
    ensures var c' := Predict(tab, id, c, c.(stack := c.stack[1..])).0;
      c'.input == c.input && Height(g, vanish, rank, c'.stack) < Height(g, vanish, rank, c.stack)
  {
    hide Load, Heaviest, LeftBelow, AllIdle;
    var ahead := c.input.input[c.input.index..];
    var p := Lookahead(tab[id], ahead, c.input.lastChunk).value.value;
    var k := LookaheadFinds(tab[id], ahead, c.input.lastChunk);
    assert IsProduction(g, id, p);
    var rest := [Mark, Sym(Nt(id)), Saved(c.vals)] + c.stack[1..];
    assert Syms(p) + [Mark, Sym(Nt(id)), Saved(c.vals)] + c.stack[1..] == Syms(p) + rest;
    assert rest[3..] == c.stack[1..];
    PushedHeight(g, vanish, rank, rank(id), p, rest);
    HeaviestIsMore(g, vanish, rank, rank(id), g[id].prods, p);
  }

  lemma RoundLowers(g: Grammar, start: nat, vanish: iset<nat>, rank: nat -> nat, tab: Table, h: Hooks, c: LlConfig)
    requires Fits(g, start, tab) && NoIdleLoop(g, vanish, rank) && ValidStream(c.input) && Round(g, tab, h, c).1.Continue?
    ensures var c' := Round(g, tab, h, c).0;
      && ValidStream(c'.input) && Remaining(c'.input) <= Remaining(c.input)
      && (Remaining(c'.input) == Remaining(c.input) ==> Height(g, vanish, rank, c'.stack) < Height(g, vanish, rank, c.stack))
  {
    hide Fits, NoIdleLoop, Weight, Finish, Matches, Predict;
    if c.stack[0].Sym? && c.stack[0].x.Nt? && c.stack[0].x.id < |g| && g[c.stack[0].x.id].ChoiceRule? {
      PredictLowers(g, start, vanish, rank, tab, c.stack[0].x.id, c);
    } else if c.stack[0].Mark? {
      assert c.stack[1..][2..] == c.stack[3..];
    }
  }

  /** Without left recursion the loop ends, whatever the table and the input. */
  lemma {:induction false} RoundsEnd(g: Grammar, start: nat, vanish: iset<nat>, rank: nat -> nat, tab: Table, h: Hooks, c: LlConfig)
    returns (n: nat)
    requires Fits(g, start, tab) && NoIdleLoop(g, vanish, rank) && ValidStream(c.input)
    ensures !Rounds(g, tab, h, n, c).1.Continue?
    decreases Remaining(c.input), Height(g, vanish, rank, c.stack)
  {
    hide Fits, NoIdleLoop, Round, Height;
    var (c', status) := Round(g, tab, h, c);
    if status.Continue? {
      RoundLowers(g, start, vanish, rank, tab, h, c);
      var m := RoundsEnd(g, start, vanish, rank, tab, h, c');
      n := m + 1;
    } else {
      n := 1;
    }
  }

  /** So the parse of a whole input halts, and with it every parse of the input in chunks. */
  lemma LlHalts(g: Grammar, start: nat, vanish: iset<nat>, rank: nat -> nat, tab: Table, h: Hooks, text: seq<byte>) returns (n: nat)
    requires Fits(g, start, tab) && NoIdleLoop(g, vanish, rank) && OneByte(tab)
    ensures Halts(LlMachine(g, tab, h), text, true, n, LlStart(start))
  {
    hide Fits, NoIdleLoop, Round, Rounds, OneByte;
    var c := WholeInput(start, text);
    n := RoundsEnd(g, start, vanish, rank, tab, h, c);
    RoundsAreRun(g, tab, h, n, c, text);
  }

  /** `h_llk_parse` on such a grammar, for any lookahead: it ends, with the result of all its rounds. */
  method Parse(g: Grammar, tab: Table, hooks: Hooks, start: nat, input: seq<byte>, ghost vanish: iset<nat>, ghost rank: nat -> nat)
    returns (r: Option<Result>, ghost n: nat)
    requires Fits(g, start, tab) && NoIdleLoop(g, vanish, rank)
    ensures forall m: nat :: m >= n ==>
      var (c, status) := Rounds(g, tab, hooks, m, WholeInput(start, input));
      !status.Continue? && r == LlResult(PointOf(c, status))
    ensures r.Some? ==> ParsesPrefix(g, start, hooks, input, r.value)
  {
    hide Fits, NoIdleLoop, Round, Rounds, LlResult, ParsesPrefix;
    n := RoundsEnd(g, start, vanish, rank, tab, hooks, WholeInput(start, input));
    r := LlParse.Parse(g, tab, hooks, start, input, n);
    forall m: nat | m >= n ensures Rounds(g, tab, hooks, m, WholeInput(start, input)) == Rounds(g, tab, hooks, n, WholeInput(start, input)) {
      MoreRounds(g, tab, hooks, n, m, WholeInput(start, input));
    }
  }
}
