/** The shift/reduce engine.  On any table whose reductions are among those the LR(0) automaton allows,
    the stack always holds the values of derivation trees whose yields are the input consumed so far. */
module LrEngine {
  import opened Basics
  import opened ByteStream
  import opened Grammar
  import opened LrItems
  import opened LrAutomaton
  import opened LrPaths
  import opened LrTable

  // ----- the value of a derivation tree

  /** The semantic value of a tree whose first byte is at position `start`; the outer None is a failed validation. */
  function Eval(h: Hooks, t: Tree, start: nat): Option<Option<Token>>
    decreases t, 1
  {
    match t
    case Leaf(Char(c)) => Some(Some(Token(TtUint(c), start)))
    case Leaf(_) => Some(None)
    case Node(nt, kids) =>
      var vals := EvalAll(h, kids, start);
      if vals == None then None
      else
        // the position of the left-most value, or of the end of the match when that value is missing
        var first := vals.value != [] && vals.value[0].Some?;
        var index := if first then vals.value[0].value.index else start + Width(Yields(kids));
        Finish(h, nt, Token(TtSequence(vals.value), index))
  }

  function EvalAll(h: Hooks, ts: seq<Tree>, start: nat): (r: Option<seq<Option<Token>>>)
    ensures r.Some? ==> |r.value| == |ts|
    decreases ts, 0
  {
    if ts == [] then Some([])
    else
      var init := ts[..|ts| - 1];
      var vals := EvalAll(h, init, start);
      var last := Eval(h, ts[|ts| - 1], start + Width(Yields(init)));
      if vals == None || last == None then None else Some(vals.value + [last.value])
  }

  /** Evaluating a list of trees from some point on. */
  lemma {:induction false} EvalAllSuffix(h: Hooks, ts: seq<Tree>, k: nat, start: nat)
    requires k <= |ts| && EvalAll(h, ts, start).Some?
    ensures EvalAll(h, ts[..k], start) == Some(EvalAll(h, ts, start).value[..k])
    ensures EvalAll(h, ts[k..], start + Width(Yields(ts[..k]))) == Some(EvalAll(h, ts, start).value[k..])
    decreases |ts|
  {
    hide Eval, EvalAll, Yields, Width;
    var all := EvalAll(h, ts, start).value;
    if k == |ts| {
      EvalNothing(h, start + Width(Yields(ts[..k])));
      assert ts[..k] == ts && ts[k..] == [];
      assert all[..k] == all && all[k..] == [];
    } else {
      var init, last := ts[..|ts| - 1], ts[|ts| - 1];
      assert ts == init + [last];
      EvalAllSnoc(h, init, last, start);
      var vals := EvalAll(h, init, start).value;
      EvalAllSuffix(h, init, k, start);
      assert init[..k] == ts[..k] && all[..k] == vals[..k];
      WidthSplit(init, k);
      assert ts[k..] == init[k..] + [last] && all[k..] == vals[k..] + [all[|ts| - 1]];
      EvalAllSnoc(h, init[k..], last, start + Width(Yields(ts[..k])));
    }
  }

  lemma EvalNothing(h: Hooks, start: nat)
    ensures EvalAll(h, [], start) == Some([])
  {
  }

  lemma WidthSplit(ts: seq<Tree>, k: nat)
    requires k <= |ts|
    ensures Width(Yields(ts)) == Width(Yields(ts[..k])) + Width(Yields(ts[k..]))
  {
    hide Yields, Width;
    assert ts[..k] + ts[k..] == ts;
    YieldsConcat(ts[..k], ts[k..]);
    WidthConcat(Yields(ts[..k]), Yields(ts[k..]));
  }

  lemma EvalAllSnoc(h: Hooks, ts: seq<Tree>, t: Tree, start: nat)
    ensures EvalAll(h, ts + [t], start) ==
      var vals := EvalAll(h, ts, start);
      var last := Eval(h, t, start + Width(Yields(ts)));
      if vals == None || last == None then None else Some(vals.value + [last.value])
  {
    hide Eval, Yields, Width;
    var all := ts + [t];
    assert all[..|all| - 1] == ts && all[|all| - 1] == t;
  }

  // ----- configurations

  datatype Frame = Frame(saved: Target, value: Option<Token>)

  datatype Config = Config(state: Target, stack: seq<Frame>, input: Stream)

  /** What the table says: more input is needed to tell, or the action to take (None: no parse). */
  datatype Verdict = NeedInput | Found(action: Option<Action>)

  function Get<K, V>(m: map<K, V>, k: K): Option<V> {
    if k in m then Some(m[k]) else None
  }

  /** The lookahead is read from a copy of the stream. */
  function TerminalLookup(rows: Rows, n: nat, input: Stream): Verdict
    requires n < |rows.forAll| && n < |rows.tmap|
  {
    if rows.forAll[n].Some? then Found(rows.forAll[n])
    else
      var (c, ahead) := ReadByte(input);
      if ahead.overrun then
        if ahead.lastChunk then Found(Get(rows.tmap[n], End)) else NeedInput
      else Found(Get(rows.tmap[n], Char(c)))
  }

  /** The token of the byte consumed, or NULL at the end of the input. */
  function ConsumeInput(input: Stream): (Option<Token>, Stream) {
    var (c, after) := ReadByte(input);
    (if after.overrun then None else Some(Token(TtUint(c), Position(after) - 1)), after)
  }

  function Values(stack: seq<Frame>): (r: seq<Option<Token>>)
    ensures |r| == |stack| && forall k :: 0 <= k < |stack| ==> r[k] == stack[k].value
  {
    seq(|stack|, k requires 0 <= k < |stack| => stack[k].value)
  }

  // ----- the invariant

  /** The states below each value and the current one. */
  function Trail(c: Config): seq<Target> {
    seq(|c.stack| + 1, k requires 0 <= k <= |c.stack| => if k < |c.stack| then c.stack[k].saved else c.state)
  }

  function Numbers(ts: seq<Target>): (r: seq<nat>)
    requires forall k :: 0 <= k < |ts| ==> ts[k].State?
    ensures |r| == |ts| && forall k :: 0 <= k < |ts| ==> r[k] == ts[k].n
  {
    seq(|ts|, k requires 0 <= k < |ts| => ts[k].n)
  }

  /** The history of a run: the trees behind the values on the stack, the bytes consumed, and the
      number of end markers shifted. */
  datatype History = History(trees: seq<Tree>, text: seq<byte>, ends: nat)

  ghost predicate TreesOk(g: Grammar, h: Hooks, stack: seq<Frame>, hist: History) {
    && |hist.trees| == |stack|
    && (forall k :: 0 <= k < |hist.trees| ==> IsDerivation(g, hist.trees[k]))
    && EvalAll(h, hist.trees, 0) == Some(Values(stack))
    && Yields(hist.trees) == Chars(hist.text) + Ends(hist.ends)
  }

  ghost predicate InputOk(input: Stream, hist: History) {
    Reading(input, hist.text, hist.ends) && (input.overrun ==> input.lastChunk)
  }

  /** Either the engine is on a path of the automaton, or it has accepted. */
  ghost predicate TrailOk(dfa: Dfa, start: nat, c: Config, hist: History) {
    if c.state.Success? then |hist.trees| == 1 && Root(hist.trees[0]) == Nt(start)
    else
      && (forall k :: 0 <= k < |c.stack| ==> c.stack[k].saved.State?)
      && Path(dfa, Numbers(Trail(c)), Roots(hist.trees))
  }

  ghost predicate Sound(g: Grammar, start: nat, dfa: Dfa, h: Hooks, c: Config, hist: History) {
    TreesOk(g, h, c.stack, hist) && InputOk(c.input, hist) && TrailOk(dfa, start, c, hist)
  }

  ghost predicate Setting(g: Grammar, start: nat, dfa: Dfa, rows: Rows) {
    Augmented(g, start) && IsDfa(g, start, dfa) && TableOk(start, dfa, rows)
  }

  // ----- one step

  lemma WidthOfText(hist: History)
    requires Yields(hist.trees) == Chars(hist.text) + Ends(hist.ends)
    ensures Width(Yields(hist.trees)) == |hist.text|
  {
    hide Yields;
    WidthConcat(Chars(hist.text), Ends(hist.ends));
    WidthOfChars(hist.text);
    WidthOfEnds(hist.ends);
  }

  /** The state on top is a state of the automaton. */
  lemma StateInRange(g: Grammar, start: nat, dfa: Dfa, h: Hooks, c: Config, hist: History)
    requires Augmented(g, start) && IsDfa(g, start, dfa) && Sound(g, start, dfa, h, c, hist) && c.state.State?
    ensures c.state.n < |dfa.states|
  {
    hide IsDfa, TreesOk, InputOk;
    PathStates(g, start, dfa, Numbers(Trail(c)), Roots(hist.trees), |c.stack|);
  }

  function ShiftSpec(c: Config, next: Target): Config {
    var (value, after) := ConsumeInput(c.input);
    Config(next, c.stack + [Frame(c.state, value)], after)
  }

  lemma {:induction false} ShiftKeeps(g: Grammar, start: nat, dfa: Dfa, rows: Rows, h: Hooks, c: Config, hist: History, next: nat)
    returns (hist': History)
    requires Setting(g, start, dfa, rows) && Sound(g, start, dfa, h, c, hist) && c.state.State?
    requires c.state.n < |rows.forAll| && c.state.n < |rows.tmap|
    requires TerminalLookup(rows, c.state.n, c.input) == Found(Some(Shift(State(next))))
    ensures Sound(g, start, dfa, h, ShiftSpec(c, State(next)), hist') && hist.text <= hist'.text
  {
    hide IsDfa;
    StateInRange(g, start, dfa, h, c, hist);
    var (b, after) := ReadByte(c.input);
    var sym := if after.overrun then End else Char(b);
    assert RowOk(start, dfa, rows, c.state.n);
    assert HasTransition(dfa.transitions, c.state.n, sym, next);
    var c' := ShiftSpec(c, State(next));
    var leaf := Leaf(sym);
    hist' := if after.overrun then History(hist.trees + [leaf], hist.text, hist.ends + 1)
             else History(hist.trees + [leaf], hist.text + [b], 0);
    ShiftTrail(dfa, start, c, hist.trees, next, sym, c');
    ShiftTrees(g, h, c, hist, hist', sym, c');
  }

  lemma ShiftTrail(dfa: Dfa, start: nat, c: Config, trees: seq<Tree>, next: nat, sym: Symbol, c': Config)
    requires |trees| == |c.stack| && c.state.State? && forall k :: 0 <= k < |c.stack| ==> c.stack[k].saved.State?
    requires Path(dfa, Numbers(Trail(c)), Roots(trees)) && HasTransition(dfa.transitions, c.state.n, sym, next)
    requires c'.state == State(next) && |c'.stack| == |c.stack| + 1 && c'.stack[..|c.stack|] == c.stack && c'.stack[|c.stack|].saved == c.state
    ensures forall k :: 0 <= k < |c'.stack| ==> c'.stack[k].saved.State?
    ensures forall t :: Root(t) == sym ==> Path(dfa, Numbers(Trail(c')), Roots(trees + [t]))
  {
    assert forall k :: 0 <= k < |c.stack| ==> c'.stack[k] == c'.stack[..|c.stack|][k];
    var sts, sts' := Numbers(Trail(c)), Numbers(Trail(c'));
    assert forall k :: 0 <= k < |sts| ==> sts'[k] == sts[k];
    forall t | Root(t) == sym ensures Path(dfa, sts', Roots(trees + [t])) {
      var syms, syms' := Roots(trees), Roots(trees + [t]);
      forall k | 0 <= k < |syms'| ensures Transition(sts'[k], syms'[k], sts'[k + 1]) in dfa.transitions {
        assert k < |syms| ==> Transition(sts[k], syms[k], sts[k + 1]) in dfa.transitions;
      }
    }
  }

  lemma {:induction false} ShiftTrees(g: Grammar, h: Hooks, c: Config, hist: History, hist': History, sym: Symbol, c': Config)
    requires TreesOk(g, h, c.stack, hist) && InputOk(c.input, hist)
    requires var (b, after) := ReadByte(c.input);
      && sym == (if after.overrun then End else Char(b)) && (after.overrun ==> after.lastChunk)
      && hist' == (if after.overrun then History(hist.trees + [Leaf(sym)], hist.text, hist.ends + 1)
                   else History(hist.trees + [Leaf(sym)], hist.text + [b], 0))
      && c'.input == after && c'.stack == c.stack + [Frame(c.state, ConsumeInput(c.input).0)]
    ensures TreesOk(g, h, c'.stack, hist') && InputOk(c'.input, hist')
  {
    var (b, after) := ReadByte(c.input);
    ReadingOn(c.input, hist.text, hist.ends);
    WidthOfText(hist);
    var trees' := hist.trees + [Leaf(sym)];
    assert trees'[..|trees'| - 1] == hist.trees;
    assert Eval(h, Leaf(sym), |hist.text|) == Some(ConsumeInput(c.input).0);
    assert Values(c'.stack) == Values(c.stack) + [ConsumeInput(c.input).0];
    assert Yields(trees') == Yields(hist.trees) + [sym];
    if after.overrun {
      assert Ends(hist.ends + 1) == Ends(hist.ends) + [End];
    } else {
      assert hist.ends == 0 && Ends(0) == [];
      assert Chars(hist.text + [b]) == Chars(hist.text) + [Char(b)];
    }
  }

  /** What a reduction pops: the state below, the stack below, and the value built from the popped ones. */
  function Popped(c: Config, len: nat): Config
    requires len <= |c.stack|
  {
    var k := |c.stack| - len;
    Config(if len == 0 then c.state else c.stack[k].saved, c.stack[..k], c.input)
  }

  function Handle(c: Config, len: nat): Token
    requires len <= |c.stack|
  {
    var vals := Values(c.stack[|c.stack| - len..]);
    var first := vals != [] && vals[0].Some?;
    Token(TtSequence(vals), if first then vals[0].value.index else Position(c.input))
  }

  function Pushed(c: Config, next: Target, value: Option<Token>): Config {
    Config(next, c.stack + [Frame(c.state, value)], c.input)
  }

  /** The history after a reduction to `lhs`. */
  function Reduced(hist: History, lhs: nat, len: nat): History
    requires len <= |hist.trees|
  {
    var k := |hist.trees| - len;
    hist.(trees := hist.trees[..k] + [Node(lhs, hist.trees[k..])])
  }

  /** A reduction the automaton allows finds its right-hand side on the stack and a goto below it. */
  lemma ReduceFinds(g: Grammar, start: nat, dfa: Dfa, rows: Rows, h: Hooks, c: Config, hist: History, lhs: nat, rhs: seq<Symbol>)
    requires Setting(g, start, dfa, rows) && Sound(g, start, dfa, h, c, hist) && c.state.State?
    requires c.state.n < |dfa.states| && IsReduction(dfa.states[c.state.n], Reduce(lhs, rhs))
    ensures |rhs| <= |c.stack| && rhs == Roots(hist.trees[|c.stack| - |rhs|..]) && IsProduction(g, lhs, rhs)
    ensures var base := Popped(c, |rhs|).state;
      && base.State? && base.n < |dfa.states| && rows.forAll[base.n] == None
      && lhs in rows.ntmap[base.n] && rows.ntmap[base.n][lhs].Shift?
      && (rows.ntmap[base.n][lhs].next.Success? <==> lhs == start)
      && (lhs == start ==> |rhs| == |c.stack|)
      && (lhs != start ==> HasTransition(dfa.transitions, base.n, Nt(lhs), rows.ntmap[base.n][lhs].next.n))
  {
    hide TreesOk, InputOk, Reads, IsDfa, TableOk;
    var it := Item(lhs, rhs, |rhs|);
    var sts, syms := Numbers(Trail(c)), Roots(hist.trees);
    HistoryLength(g, h, c, hist);
    ItemInState(g, start, dfa, c.state.n, it);
    ReductionFits(g, start, dfa, sts, syms, it);
    var k := |c.stack| - |rhs|;
    var base := Popped(c, |rhs|).state;
    assert base == State(sts[k]);
    assert Roots(hist.trees[k..]) == syms[k..];
    GotoEntry(start, dfa, rows, g, sts[k], lhs);
    if lhs == start {
      assert sts[0] == 0 && k == 0;
    } else {
      var j := ServedTransition(g, start, dfa, sts[k], Nt(lhs));
    }
  }

  lemma HistoryLength(g: Grammar, h: Hooks, c: Config, hist: History)
    requires TreesOk(g, h, c.stack, hist)
    ensures |hist.trees| == |c.stack|
  {
  }

  lemma ServedTransition(g: Grammar, start: nat, dfa: Dfa, i: nat, x: Symbol) returns (j: nat)
    requires Augmented(g, start) && IsDfa(g, start, dfa) && i < |dfa.states| && Reads(dfa.states[i], x)
    ensures HasTransition(dfa.transitions, i, x, j)
  {
    hide Consistent, Reads;
    assert Finished(dfa, i);
    assert Served(dfa, i, x);
    var k :| 0 <= k < |dfa.transitions| && dfa.transitions[k].from == i && dfa.transitions[k].symbol == x;
    j := dfa.transitions[k].to;
  }

  /** Rows with an entry for a nonterminal have no reduction for any lookahead; the entry is its transition. */
  lemma GotoEntry(start: nat, dfa: Dfa, rows: Rows, g: Grammar, i: nat, lhs: nat)
    requires Setting(g, start, dfa, rows) && i < |dfa.states|
    ensures lhs in rows.ntmap[i] ==> rows.forAll[i] == None
    ensures i == 0 && lhs == start ==> lhs in rows.ntmap[i] && rows.ntmap[i][lhs] == Shift(Success)
    ensures lhs != start && lhs in rows.ntmap[i] ==> IsShift(dfa.transitions, i, Nt(lhs), rows.ntmap[i][lhs])
    ensures forall j: nat :: HasTransition(dfa.transitions, i, Nt(lhs), j) ==> lhs in rows.ntmap[i] && rows.ntmap[i][lhs] == Shift(State(j))
  {
    hide IsDfa;
    assert RowOk(start, dfa, rows, i);
    forall j: nat | HasTransition(dfa.transitions, i, Nt(lhs), j) ensures lhs in rows.ntmap[i] && rows.ntmap[i][lhs] == Shift(State(j)) {
      assert ShiftCell(rows.ntmap[i], lhs, j);
    }
  }

  /** The value of the popped frames is the value of the tree that replaces theirs. */
  lemma HandleIsEval(g: Grammar, h: Hooks, c: Config, hist: History, lhs: nat, len: nat)
    requires TreesOk(g, h, c.stack, hist) && InputOk(c.input, hist) && len <= |c.stack|
    ensures var k := |c.stack| - len;
      && EvalAll(h, hist.trees[..k], 0) == Some(Values(c.stack[..k]))
      && Eval(h, Node(lhs, hist.trees[k..]), Width(Yields(hist.trees[..k]))) == Finish(h, lhs, Handle(c, len))
  {
    hide Finish, Yields, Width, IsDerivation, EvalAll;
    var k := |c.stack| - len;
    var before, kids := hist.trees[..k], hist.trees[k..];
    EvalAllSuffix(h, hist.trees, k, 0);
    assert Values(c.stack)[..k] == Values(c.stack[..k]) && Values(c.stack)[k..] == Values(c.stack[k..]);
    assert before + kids == hist.trees;
    YieldsConcat(before, kids);
    WidthConcat(Yields(before), Yields(kids));
    WidthOfText(hist);
  }

  lemma Regroup(before: seq<Tree>, lhs: nat, kids: seq<Tree>)
    ensures Yields(before + [Node(lhs, kids)]) == Yields(before + kids)
  {
    var node := Node(lhs, kids);
    assert (before + [node])[..|before|] == before;
    YieldsConcat(before, kids);
  }

  lemma ReduceTrees(g: Grammar, h: Hooks, c: Config, hist: History, lhs: nat, rhs: seq<Symbol>, value: Option<Token>, next: Target)
    requires TreesOk(g, h, c.stack, hist) && InputOk(c.input, hist)
    requires |rhs| <= |c.stack| && rhs == Roots(hist.trees[|c.stack| - |rhs|..]) && IsProduction(g, lhs, rhs)
    requires Finish(h, lhs, Handle(c, |rhs|)) == Some(value)
    ensures var c' := Pushed(Popped(c, |rhs|), next, value);
      TreesOk(g, h, c'.stack, Reduced(hist, lhs, |rhs|)) && InputOk(c'.input, Reduced(hist, lhs, |rhs|))
  {
    hide Finish, Width, Yields, Yield, Eval, EvalAll, IsProduction;
    var k := |c.stack| - |rhs|;
    var before, kids := hist.trees[..k], hist.trees[k..];
    HandleIsEval(g, h, c, hist, lhs, |rhs|);
    EvalAllSnoc(h, before, Node(lhs, kids), 0);
    var c' := Pushed(Popped(c, |rhs|), next, value);
    assert Values(c'.stack) == Values(c.stack[..k]) + [value];
    assert before + kids == hist.trees;
    Regroup(before, lhs, kids);
  }

  lemma ReduceKeeps(g: Grammar, start: nat, dfa: Dfa, rows: Rows, h: Hooks, c: Config, hist: History, lhs: nat, rhs: seq<Symbol>,
                    value: Option<Token>, next: Target)
    requires Setting(g, start, dfa, rows) && Sound(g, start, dfa, h, c, hist) && c.state.State?
    requires c.state.n < |dfa.states| && IsReduction(dfa.states[c.state.n], Reduce(lhs, rhs)) && |rhs| <= |c.stack|
    requires Finish(h, lhs, Handle(c, |rhs|)) == Some(value)
    requires var base := Popped(c, |rhs|).state;
      base.State? && base.n < |rows.ntmap| && lhs in rows.ntmap[base.n] && rows.ntmap[base.n][lhs] == Shift(next)
    ensures Sound(g, start, dfa, h, Pushed(Popped(c, |rhs|), next, value), Reduced(hist, lhs, |rhs|))
  {
    hide Setting, TreesOk, InputOk, Finish;
    HistoryLength(g, h, c, hist);
    ReduceFinds(g, start, dfa, rows, h, c, hist, lhs, rhs);
    ReduceTrees(g, h, c, hist, lhs, rhs, value, next);
    var k := |c.stack| - |rhs|;
    var low := Popped(c, |rhs|);
    var c' := Pushed(low, next, value);
    if next.State? {
      PrefixPath(dfa, c, hist.trees, |rhs|);
      ShiftTrail(dfa, start, low, hist.trees[..k], next.n, Nt(lhs), c');
    }
  }

  /** Popping goes back along the path. */
  lemma PrefixPath(dfa: Dfa, c: Config, trees: seq<Tree>, len: nat)
    requires |trees| == |c.stack| && len <= |c.stack| && c.state.State? && forall k :: 0 <= k < |c.stack| ==> c.stack[k].saved.State?
    requires Path(dfa, Numbers(Trail(c)), Roots(trees))
    ensures Popped(c, len).state.State? && Path(dfa, Numbers(Trail(Popped(c, len))), Roots(trees[..|c.stack| - len]))
  {
    var low := Popped(c, len);
    assert Numbers(Trail(low)) == Numbers(Trail(c))[..|c.stack| - len + 1];
    assert Roots(trees[..|c.stack| - len]) == Roots(trees)[..|c.stack| - len];
  }

  function ReduceSpec(rows: Rows, h: Hooks, c: Config, lhs: nat, rhs: seq<Symbol>): (Config, bool) {
    if |rhs| > |c.stack| then (c, false)
    else
      var low := Popped(c, |rhs|);
      var value := Finish(h, lhs, Handle(c, |rhs|));
      if value == None then (low, false)
      else if low.state.State? && low.state.n < |rows.ntmap| && lhs in rows.ntmap[low.state.n] && rows.ntmap[low.state.n][lhs].Shift? then
        var next := rows.ntmap[low.state.n][lhs].next;
        (Pushed(low, next, value.value), next != Success)
      else (low, false)
  }

  /** One round of the engine, as a function of its configuration. */
  function StepSpec(rows: Rows, h: Hooks, c: Config, action: Option<Action>): (Config, bool) {
    match action
    case None => (c, false)
    case Some(Shift(next)) => (ShiftSpec(c, next), true)
    case Some(Reduce(lhs, rhs)) => ReduceSpec(rows, h, c, lhs, rhs)
    case Some(Conflict(_)) => (c, false)
  }

  lemma InRange(g: Grammar, start: nat, dfa: Dfa, rows: Rows, h: Hooks, c: Config, hist: History)
    requires Setting(g, start, dfa, rows) && Sound(g, start, dfa, h, c, hist) && c.state.State?
    ensures c.state.n < |dfa.states|
  {
    hide Sound, IsDfa, TableOk;
    StateInRange(g, start, dfa, h, c, hist);
  }

  lemma RowsMatch(g: Grammar, start: nat, dfa: Dfa, rows: Rows)
    requires Setting(g, start, dfa, rows)
    ensures SameSize(rows, |dfa.states|)
  {
    hide IsDfa;
  }

  lemma SoundInput(g: Grammar, start: nat, dfa: Dfa, h: Hooks, c: Config, hist: History)
    requires Sound(g, start, dfa, h, c, hist)
    ensures InputOk(c.input, hist)
  {
    hide TreesOk, TrailOk, InputOk;
  }

  lemma SoundLength(g: Grammar, start: nat, dfa: Dfa, h: Hooks, c: Config, hist: History)
    requires Sound(g, start, dfa, h, c, hist)
    ensures |hist.trees| == |c.stack|
  {
    hide TrailOk, InputOk;
  }

  /** The engine never meets a conflict, and only shifts to states of the automaton under lookahead. */
  lemma ActionKind(g: Grammar, start: nat, dfa: Dfa, rows: Rows, c: Config, action: Option<Action>)
    requires Setting(g, start, dfa, rows) && c.state.State? && c.state.n < |dfa.states| && SameSize(rows, |dfa.states|)
    requires TerminalLookup(rows, c.state.n, c.input) == Found(action)
    ensures action.Some? ==>
      || IsReduction(dfa.states[c.state.n], action.value)
      || (action.value.Shift? && action.value.next.State?)
  {
    hide IsDfa, ShiftsOk;
    assert RowOk(start, dfa, rows, c.state.n);
  }

  // ----- the engine

  /** `r` is the value of a derivation of a prefix of the input; end markers are derived at its very end only. */
  ghost predicate IsParse(g: Grammar, start: nat, h: Hooks, consumed: seq<byte>, atEnd: bool, r: Result) {
    exists t, ends ::
      && IsDerivation(g, t) && Root(t) == Nt(start)
      && Yield(t) == Chars(consumed) + Ends(ends)
      && (ends > 0 ==> atEnd)
      && Eval(h, t, 0) == Some(r.ast)
      && r.bitLength == |consumed| * 8
  }

  class Engine {
    const rows: Rows
    const hooks: Hooks
    var state: Target
    var stack: seq<Frame>
    var input: Stream
    ghost const g: Grammar
    ghost const start: nat
    ghost const dfa: Dfa
    ghost var hist: History
    ghost var rejected: bool

    ghost function Now(): Config
      reads this
    {
      Config(state, stack, input)
    }

    /** Unless a validation failed, the stack tells how the input so far is derived. */
    ghost predicate Valid()
      reads this
    {
      && Setting(g, start, dfa, rows)
      && InputOk(input, hist)
      && (rejected ==> state.State?)
      && (!rejected ==> Sound(g, start, dfa, hooks, Now(), hist))
    }

    constructor (rows: Rows, hooks: Hooks, input: Stream, ghost g: Grammar, ghost start: nat, ghost dfa: Dfa)
      requires Setting(g, start, dfa, rows) && input.pos == input.index == 0 && !input.overrun
      ensures Valid() && !rejected && state == State(0) && stack == [] && this.input == input
      ensures this.rows == rows && this.hooks == hooks && this.g == g && this.start == start && this.dfa == dfa
      ensures hist == History([], [], 0)
    {
      this.rows, this.hooks, this.input := rows, hooks, input;
      this.g, this.start, this.dfa := g, start, dfa;
      state, stack := State(0), [];
      hist, rejected := History([], [], 0), false;
      new;
      assert Values([]) == [] && Chars([]) + Ends(0) == [];
      assert Numbers(Trail(Now())) == [0] && Roots([]) == [];
    }

    method Lookup() returns (look: Verdict)
      requires Valid() && !rejected && state.State?
      ensures state.n < |rows.forAll| == |rows.tmap| && look == TerminalLookup(rows, state.n, input)
    {
      hide Sound, Setting;
      InRange(g, start, dfa, rows, hooks, Now(), hist);
      RowsMatch(g, start, dfa, rows);
      look := TerminalLookup(rows, state.n, input);
    }

    /** One round.  The result is false when the engine has finished. */
    method Step(action: Option<Action>) returns (run: bool)
      requires Valid() && !rejected && state.State? && state.n < |rows.forAll| == |rows.tmap|
      requires TerminalLookup(rows, state.n, input) == Found(action)
      modifies this
      ensures Valid() && old(hist.text) <= hist.text
      ensures input.pos == old(input).pos && input.input == old(input).input && input.lastChunk == old(input).lastChunk
      ensures run ==> state.State? && !rejected
      ensures !run && state.State? ==> action == None || rejected
      ensures action == None ==> Now() == old(Now()) && !run && !rejected
      ensures Now() == StepSpec(rows, hooks, old(Now()), action).0 && run == StepSpec(rows, hooks, old(Now()), action).1
    {
      hide Sound, Setting;
      InRange(g, start, dfa, rows, hooks, Now(), hist);
      RowsMatch(g, start, dfa, rows);
      ActionKind(g, start, dfa, rows, Now(), action);
      if action == None {
        return false;
      }
      match action.value
      case Reduce(lhs, rhs) => run := DoReduce(lhs, rhs);
      case Shift(next) =>
        ghost var before := Now();
        var (value, after) := ConsumeInput(input);
        ghost var hist' := ShiftKeeps(g, start, dfa, rows, hooks, before, hist, next.n);
        stack := stack + [Frame(state, value)];
        state, input := next, after;
        hist := hist';
        SoundInput(g, start, dfa, hooks, Now(), hist);
        run := true;
    }

    /** Pull values off the stack, rewinding the state accordingly. */
    method PopFrames(len: nat) returns (vals: seq<Option<Token>>)
      requires len <= |stack|
      modifies this`stack, this`state
      ensures Now() == Popped(old(Now()), len)
      ensures vals == Values(old(stack)[|old(stack)| - len..])
    {
      vals := [];
      for i := 0 to len
        invariant |stack| == |old(stack)| - i && stack == old(stack)[..|stack|]
        invariant vals == Values(old(stack)[|stack|..])
        invariant state == Popped(old(Now()), i).state
      {
        var top := stack[|stack| - 1];
        stack, state := stack[..|stack| - 1], top.saved;
        vals := [top.value] + vals;
      }
    }

    method DoReduce(lhs: nat, rhs: seq<Symbol>) returns (run: bool)
      requires Valid() && !rejected && state.State? && state.n < |dfa.states|
      requires IsReduction(dfa.states[state.n], Reduce(lhs, rhs))
      modifies this
      ensures Valid() && hist.text == old(hist).text && input == old(input)
      ensures run ==> state.State? && !rejected
      ensures !run && state.State? ==> rejected
      ensures (Now(), run) == ReduceSpec(rows, hooks, old(Now()), lhs, rhs)
    {
      hide Sound, Setting, Finish;
      ghost var before, hist0 := Now(), hist;
      ReduceFinds(g, start, dfa, rows, hooks, before, hist, lhs, rhs);
      RowsMatch(g, start, dfa, rows);
      SoundLength(g, start, dfa, hooks, before, hist);
      var len := |rhs|;
      var vals := PopFrames(len);
      var index := if vals != [] && vals[0].Some? then vals[0].value.index else Position(input);
      var value := Finish(hooks, lhs, Token(TtSequence(vals), index));
      if value == None {
        rejected := true; // validation failed -> no parse
        return false;
      }
      var next := rows.ntmap[state.n][lhs].next;
      ReduceKeeps(g, start, dfa, rows, hooks, before, hist, lhs, rhs, value.value, next);
      hist := Reduced(hist, lhs, len);
      stack := stack + [Frame(state, value.value)];
      state := next;
      SoundInput(g, start, dfa, hooks, Now(), hist);
      run := state != Success;
    }

    /** The semantic value of the start symbol, once the end state is reached. */
    method GetResult() returns (r: Option<Result>)
      requires Valid()
      ensures r.Some? <==> state == Success
      ensures r.Some? ==> IsParse(g, start, hooks, hist.text, input.overrun && input.lastChunk, r.value)
      ensures r.Some? ==> stack != [] && r.value == Result(stack[|stack| - 1].value, Position(input) * 8)
    {
      if state != Success {
        return None;
      }
      var top := stack[|stack| - 1];
      assert hist.trees == [hist.trees[0]];
      SingleTree(hooks, hist.trees[0]);
      r := Some(Result(top.value, Position(input) * 8));
    }
  }

  lemma SingleTree(h: Hooks, t: Tree)
    ensures EvalAll(h, [t], 0) == (var v := Eval(h, t, 0); if v == None then None else Some([v.value]))
    ensures Yields([t]) == Yield(t)
  {
    assert Yields([]) == [] && Width([]) == 0 && EvalAll(h, [], 0) == Some([]);
    EvalAllSnoc(h, [], t, 0);
    assert [] + [t] == [t];
    assert [t][..0] == [];
    var v := Eval(h, t, 0);
    assert v.Some? ==> [] + [v.value] == [v.value];
  }
}
