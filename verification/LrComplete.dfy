/** What the shift/reduce parser does with a sentence: where every ambiguous state has the lookahead it needs, it builds the
    derivation tree of the sentence from the bottom up, and returns its value. */
module LrComplete {
  import opened Basics
  import opened ByteStream
  import opened Chunking
  import opened Grammar
  import opened Languages
  import opened LrAutomaton
  import opened LrCompile
  import opened LrEngine
  import opened LrItems
  import opened LrParse
  import opened LrTable
  import opened Texts

  // ----- states along a tree

  /** Reading `syms` leads from one state to the other. */
  ghost predicate Goes(dfa: Dfa, from: nat, syms: seq<Symbol>, to: nat)
    decreases |syms|
  {
    if syms == [] then to == from
    else
      var init, last := syms[..|syms| - 1], syms[|syms| - 1];
      exists mid: nat :: Goes(dfa, from, init, mid) && HasTransition(dfa.transitions, mid, last, to)
  }

  lemma GoesOn(dfa: Dfa, from: nat, syms: seq<Symbol>, mid: nat, x: Symbol, to: nat)
    requires Goes(dfa, from, syms, mid) && HasTransition(dfa.transitions, mid, x, to)
    ensures Goes(dfa, from, syms + [x], to)
  {
    var all := syms + [x];
    assert all[..|all| - 1] == syms;
  }

  /** In a sentence `x` stands where the parser is in state `st` and `rest` is still to come behind it, by at most `n`
      nested productions: the state is the one that all that stands before `x` leads to. */
  ghost predicate StandsIn(g: Grammar, start: nat, dfa: Dfa, n: nat, x: Symbol, st: nat, rest: seq<Symbol>) {
    n > 0 && (
      || (x == Nt(start) && st == 0 && rest == [])
      || exists a: nat, rhs, j: nat, st0: nat, ys, rs ::
           && InProduction(g, dfa, a, rhs, j, x, st0, st, ys) && StandsIn(g, start, dfa, n - 1, Nt(a), st0, rs) && rest == ys + rs)
  }

  /** `x` stands in a production that begins in state `st0`; `ys` is derived by what is behind it. */
  ghost predicate InProduction(g: Grammar, dfa: Dfa, a: nat, rhs: seq<Symbol>, j: nat, x: Symbol, st0: nat, st: nat, ys: seq<Symbol>) {
    IsProduction(g, a, rhs) && j < |rhs| && rhs[j] == x && Goes(dfa, st0, rhs[..j], st) && ys in YieldsOf(g, rhs[j + 1..])
  }

  ghost predicate Stands(g: Grammar, start: nat, dfa: Dfa, x: Symbol, st: nat, rest: seq<Symbol>) {
    exists n: nat :: StandsIn(g, start, dfa, n, x, st, rest)
  }

  /** The symbol can come next where the production has been read and the parser is in state `i`. */
  ghost predicate CanFollow(g: Grammar, start: nat, dfa: Dfa, i: nat, lhs: nat, rhs: seq<Symbol>, x: Symbol) {
    exists st: nat, rest :: Stands(g, start, dfa, Nt(lhs), st, rest) && Goes(dfa, st, rhs, i) && IsText(rest) && x == NextOf(rest)
  }

  /** The lookahead sets have every symbol that can come next where an ambiguous state has read a production. */
  ghost predicate LooksAhead(g: Grammar, start: nat, dfa: Dfa, look: (nat, Item) -> seq<set<Symbol>>) {
    forall i: nat, it, x :: i < |dfa.states| && Ambiguous(dfa, i) && it in Completed(dfa.states[i]) && CanFollow(g, start, dfa, i, it.lhs, it.rhs, x) ==>
      Listed(look(i, it), x)
  }

  ghost predicate Listed(sets: seq<set<Symbol>>, x: Symbol) {
    exists k :: 0 <= k < |sets| && x in sets[k]
  }

  // ----- the items of these states

  lemma StateClosed(g: Grammar, start: nat, dfa: Dfa, i: nat)
    requires Augmented(g, start) && IsDfa(g, start, dfa) && i < |dfa.states|
    ensures Closed(g, dfa.states[i])
  {
    hide Closure, Closed;
    if i == 0 {
      ClosureProperties(g, StartItems(g, start));
    } else {
      assert Discovered(dfa.transitions, i);
      var k :| 0 <= k < |dfa.transitions| && dfa.transitions[k].to == i && dfa.transitions[k].from < i;
      var t := dfa.transitions[k];
      assert GoodTransition(g, dfa.states, t);
      ClosureProperties(g, Advance(dfa.states[t.from], t.symbol));
    }
  }

  lemma StepForward(g: Grammar, start: nat, dfa: Dfa, from: nat, x: Symbol, to: nat, it: Item)
    requires Augmented(g, start) && IsDfa(g, start, dfa) && HasTransition(dfa.transitions, from, x, to)
    requires from < |dfa.states| && it in dfa.states[from] && AfterMark(it) == Some(x)
    ensures to < |dfa.states| && it.(mark := it.mark + 1) in dfa.states[to]
  {
    hide Closure, IsDfa;
    LrPaths.TransitionFacts(g, start, dfa, Transition(from, x, to));
    ClosureProperties(g, Advance(dfa.states[from], x));
  }

  /** What has been read of a production moves the mark of its item. */
  lemma {:induction false} ItemAfter(g: Grammar, start: nat, dfa: Dfa, st: nat, a: nat, rhs: seq<Symbol>, j: nat, to: nat)
    requires Augmented(g, start) && IsDfa(g, start, dfa) && st < |dfa.states| && j <= |rhs|
    requires Item(a, rhs, 0) in dfa.states[st] && Goes(dfa, st, rhs[..j], to)
    ensures to < |dfa.states| && Item(a, rhs, j) in dfa.states[to]
    decreases j
  {
    hide IsDfa;
    if j > 0 {
      assert rhs[..j][..j - 1] == rhs[..j - 1] && rhs[..j][j - 1] == rhs[j - 1];
      var mid: nat :| Goes(dfa, st, rhs[..j - 1], mid) && HasTransition(dfa.transitions, mid, rhs[j - 1], to);
      ItemAfter(g, start, dfa, st, a, rhs, j - 1, mid);
      StepForward(g, start, dfa, mid, rhs[j - 1], to, Item(a, rhs, j - 1));
    }
  }

  /** Where a nonterminal stands, all its productions begin. */
  lemma {:induction false} Begins(g: Grammar, start: nat, dfa: Dfa, n: nat, a: nat, st: nat, rest: seq<Symbol>, rhs: seq<Symbol>)
    requires Augmented(g, start) && IsDfa(g, start, dfa) && StandsIn(g, start, dfa, n, Nt(a), st, rest) && IsProduction(g, a, rhs)
    ensures st < |dfa.states| && Item(a, rhs, 0) in dfa.states[st]
    decreases n
  {
    hide IsDfa, YieldsOf, Goes;
    if Nt(a) == Nt(start) && st == 0 && rest == [] {
      StartBegins(g, start, dfa, rhs);
    } else {
      var b: nat, s, j: nat, st0: nat, ys, rs :|
        InProduction(g, dfa, b, s, j, Nt(a), st0, st, ys) && StandsIn(g, start, dfa, n - 1, Nt(b), st0, rs) && rest == ys + rs;
      Begins(g, start, dfa, n - 1, b, st0, rs, s);
      ItemAfter(g, start, dfa, st0, b, s, j, st);
      StateClosed(g, start, dfa, st);
      assert Expanded(g, dfa.states[st], Item(b, s, j));
    }
  }

  lemma StartBegins(g: Grammar, start: nat, dfa: Dfa, rhs: seq<Symbol>)
    requires Augmented(g, start) && IsDfa(g, start, dfa) && IsProduction(g, start, rhs)
    ensures 0 < |dfa.states| && Item(start, rhs, 0) in dfa.states[0]
  {
    hide Closure;
    ClosureProperties(g, StartItems(g, start));
  }

  /** A state that is about to read a symbol has a transition for it. */
  lemma Transits(g: Grammar, start: nat, dfa: Dfa, i: nat, it: Item, x: Symbol) returns (to: nat)
    requires Augmented(g, start) && IsDfa(g, start, dfa) && i < |dfa.states| && it in dfa.states[i] && AfterMark(it) == Some(x)
    ensures HasTransition(dfa.transitions, i, x, to)
  {
    hide IsDfa;
    assert Reads(dfa.states[i], x);
    to := ServedTransition(g, start, dfa, i, x);
  }

  // ----- one round

  /** The symbol in front of what is left of the text. */
  lemma LookNext(text: seq<byte>, at: nat, rest: seq<Symbol>)
    requires Left(text, at, rest)
    ensures LookAt(text, at, true) == if NextOf(rest).Char? then Byte(NextOf(rest).c) else EndOfInput
    ensures at <= |text| && !NextOf(rest).Nt? && IsText(rest)
  {
    var ends: nat :| rest == Chars(text[at..]) + Ends(ends);
    if rest != [] {
      assert rest[0] == if at < |text| then Char(text[at]) else End;
    }
  }

  /** A state that reads a terminal shifts it. */
  lemma ShiftsByte(g: Grammar, start: nat, dfa: Dfa, rows: Rows, h: Hooks, st: nat, x: Symbol, to: nat, stack: seq<Frame>, text: seq<byte>, at: nat, rest: seq<Symbol>)
    requires Setting(g, start, dfa, rows) && st < |dfa.states| && HasTransition(dfa.transitions, st, x, to)
    requires Left(text, at, [x] + rest)
    ensures var value := if x.Char? then Some(Token(TtUint(x.c), at)) else None;
      LrReaction(rows, h, Control(State(st), stack), at, LookAt(text, at, true)) ==
        React(Control(State(to), stack + [Frame(State(st), value)]), x.Char?, true)
    ensures !x.Nt?
  {
    hide IsDfa, ReduceSpec, Left;
    LookNext(text, at, [x] + rest);
    assert RowOk(start, dfa, rows, st);
    assert ShiftCell(rows.tmap[st], x, to);
  }

  /** A state that has read a production reduces by it. */
  lemma ReducesHere(g: Grammar, start: nat, dfa: Dfa, look: (nat, Item) -> seq<set<Symbol>>, rows: Rows, h: Hooks, i: nat, it: Item, stack: seq<Frame>,
                    text: seq<byte>, at: nat, rest: seq<Symbol>)
    requires Setting(g, start, dfa, rows) && Resolved(dfa, look, rows) && LooksAhead(g, start, dfa, look)
    requires i < |dfa.states| && it in Completed(dfa.states[i]) && Left(text, at, rest) && CanFollow(g, start, dfa, i, it.lhs, it.rhs, NextOf(rest))
    ensures var c := Control(State(i), stack);
      LrReaction(rows, h, c, at, LookAt(text, at, true)) == Execute(rows, h, c, at, LookAt(text, at, true), Some(ReduceBy(it)))
  {
    hide IsDfa, Execute, Left, Setting, CanFollow, Ambiguous;
    RowsMatch(g, start, dfa, rows);
    LookNext(text, at, rest);
    assert Resolves(dfa, look, rows, i);
    if Ambiguous(dfa, i) {
      assert Listed(look(i, it), NextOf(rest));
      var k :| 0 <= k < |look(i, it)| && NextOf(rest) in look(i, it)[k];
      assert Covered(rows.tmap[i], look(i, it), |look(i, it)|, ReduceBy(it));
    }
  }

  // ----- the walk

  /** The machine at work on a text. */
  function Going(rows: Rows, h: Hooks, text: seq<byte>, n: nat, p: Point<Control>): Point<Control> {
    Run(LrMachine(rows, h), text, true, n, p)
  }

  function At(st: nat, stack: seq<Frame>, at: nat): Point<Control> {
    Point(Control(State(st), stack), at, true)
  }

  /** What becomes of a tree that begins in state `st`: it is replaced by its value, or its validation stops the machine. */
  ghost predicate Walked(start: nat, dfa: Dfa, rows: Rows, h: Hooks, t: Tree, st: nat, stack: seq<Frame>, text: seq<byte>, at: nat, n: nat) {
    var q := Going(rows, h, text, n, At(st, stack, at));
    match Eval(h, t, at)
    case None => Stopped(q)
    case Some(v) =>
      if Root(t) == Nt(start) then
        q == Point(Control(Success, [Frame(State(0), v)]), at + Width(Yield(t)), false)
      else
        exists to: nat :: HasTransition(dfa.transitions, st, Root(t), to) && q == At(to, stack + [Frame(State(st), v)], at + Width(Yield(t)))
  }

  ghost predicate Stopped(q: Point<Control>) {
    !q.running && q.ctrl.state.State?
  }

  /** The frames of the kids from state `st` on. */
  ghost predicate Framed(dfa: Dfa, h: Hooks, kids: seq<Tree>, st: nat, frames: seq<Frame>, at: nat) {
    && |frames| == |kids| && EvalAll(h, kids, at) == Some(Values(frames)) && (frames != [] ==> frames[0].saved == State(st))
  }

  ghost predicate WalkedAll(dfa: Dfa, rows: Rows, h: Hooks, kids: seq<Tree>, st: nat, to: nat, stack: seq<Frame>, frames: seq<Frame>,
                            text: seq<byte>, at: nat, p: Point<Control>, n: nat) {
    var q := Going(rows, h, text, n, p);
    if EvalAll(h, kids, at) == None then Stopped(q)
    else Goes(dfa, st, Roots(kids), to) && Framed(dfa, h, kids, st, frames, at) && q == At(to, stack + frames, at + Width(Yields(kids)))
  }

  lemma OneRound(rows: Rows, h: Hooks, text: seq<byte>, p: Point<Control>, r: Reaction<Control>)
    requires p.running && r == LrReaction(rows, h, p.ctrl, p.at, LookAt(text, p.at, true)) && r.React?
    ensures Going(rows, h, text, 1, p) == Moved(p, r)
  {
    hide LrReaction;
    OneMore(LrMachine(rows, h), text, true, 0, p);
  }

  lemma WalkLeaf(g: Grammar, start: nat, dfa: Dfa, rows: Rows, h: Hooks, x: Symbol, st: nat, it: Item, stack: seq<Frame>, text: seq<byte>, at: nat, rest: seq<Symbol>)
    requires Setting(g, start, dfa, rows) && st < |dfa.states| && it in dfa.states[st] && AfterMark(it) == Some(x)
    requires !x.Nt? && Left(text, at, [x] + rest)
    ensures Walked(start, dfa, rows, h, Leaf(x), st, stack, text, at, 1)
  {
    hide IsDfa, Left, LrReaction, Run, TableOk;
    var to := Transits(g, start, dfa, st, it, x);
    ShiftsByte(g, start, dfa, rows, h, st, x, to, stack, text, at, rest);
    OneWidth(x);
    OneRound(rows, h, text, At(st, stack, at), LrReaction(rows, h, Control(State(st), stack), at, LookAt(text, at, true)));
  }

  /** The whole input can be read where `t` is an instance of a symbol that some item reads, or of the start symbol. */
  ghost predicate Placed(g: Grammar, start: nat, dfa: Dfa, x: Symbol, st: nat, rest: seq<Symbol>) {
    Stands(g, start, dfa, x, st, rest) && ((x == Nt(start) && st == 0 && rest == []) || exists it :: st < |dfa.states| && it in dfa.states[st] && AfterMark(it) == Some(x))
  }

  lemma {:induction false} WalkTree(g: Grammar, start: nat, dfa: Dfa, look: (nat, Item) -> seq<set<Symbol>>, rows: Rows, h: Hooks, t: Tree,
                                    st: nat, stack: seq<Frame>, text: seq<byte>, at: nat, rest: seq<Symbol>) returns (n: nat)
    requires Setting(g, start, dfa, rows) && Resolved(dfa, look, rows) && LooksAhead(g, start, dfa, look)
    requires IsDerivation(g, t) && Placed(g, start, dfa, Root(t), st, rest) && Left(text, at, Yield(t) + rest)
    requires Root(t) == Nt(start) ==> stack == []
    ensures Walked(start, dfa, rows, h, t, st, stack, text, at, n)
    decreases t, 0, 0
  {
    hide IsDfa, Left, LrReaction, Run, TableOk, Walked, WalkedAll, Yield, Yields, Width, Eval, EvalAll, StandsIn, Resolved, LooksAhead;
    if t.Leaf? {
      var it :| st < |dfa.states| && it in dfa.states[st] && AfterMark(it) == Some(t.sym);
      LeafYield(t.sym);
      WalkLeaf(g, start, dfa, rows, h, t.sym, st, it, stack, text, at, rest);
      n := 1;
    } else {
      var rhs := Roots(t.kids);
      NodeYield(t.nt, t.kids);
      var bound := StandsBound(g, start, dfa, Nt(t.nt), st, rest);
      Begins(g, start, dfa, bound, t.nt, st, rest, rhs);
      FirstKid(dfa, h, t.kids, st, at);
      assert stack + [] == stack;
      var to, frames, m := WalkAll(g, start, dfa, look, rows, h, t.nt, t.kids, 0, st, st, stack, [], text, at, rest);
      n := WalkUp(g, start, dfa, look, rows, h, t, st, to, stack, frames, text, at, rest, m);
    }
  }

  lemma StandsBound(g: Grammar, start: nat, dfa: Dfa, x: Symbol, st: nat, rest: seq<Symbol>) returns (n: nat)
    requires Stands(g, start, dfa, x, st, rest)
    ensures StandsIn(g, start, dfa, n, x, st, rest)
  {
    hide StandsIn;
    n :| StandsIn(g, start, dfa, n, x, st, rest);
  }

  lemma FirstKid(dfa: Dfa, h: Hooks, kids: seq<Tree>, st: nat, at: nat)
    ensures kids[0..] == kids && Yields(kids[..0]) == [] && Width([]) == 0 && Framed(dfa, h, kids[..0], st, [], at)
    ensures Roots(kids[..0]) == [] && Goes(dfa, st, [], st)
  {
    assert kids[..0] == [];
    assert Values([]) == [];
  }

  /** The kid of a node stands where its siblings before it lead. */
  lemma KidStands(g: Grammar, start: nat, dfa: Dfa, a: nat, kids: seq<Tree>, i: nat, st: nat, sti: nat, rest: seq<Symbol>)
    requires Augmented(g, start) && IsDfa(g, start, dfa) && Stands(g, start, dfa, Nt(a), st, rest) && IsProduction(g, a, Roots(kids)) && i < |kids|
    requires Goes(dfa, st, Roots(kids[..i]), sti) && forall k :: 0 <= k < |kids| ==> IsDerivation(g, kids[k])
    requires st < |dfa.states| && Item(a, Roots(kids), 0) in dfa.states[st]
    ensures Placed(g, start, dfa, Root(kids[i]), sti, Yields(kids[i + 1..]) + rest)
  {
    hide IsDfa, Yields, IsDerivation, Goes;
    var rhs := Roots(kids);
    assert Roots(kids[..i]) == rhs[..i] && Roots(kids[i + 1..]) == rhs[i + 1..];
    assert Derivations(g, rhs[i + 1..], kids[i + 1..]);
    var m: nat :| StandsIn(g, start, dfa, m, Nt(a), st, rest);
    var n := m + 1;
    assert InProduction(g, dfa, a, rhs, i, Root(kids[i]), st, sti, Yields(kids[i + 1..]));
    assert StandsIn(g, start, dfa, n - 1, Nt(a), st, rest);
    assert StandsIn(g, start, dfa, n, Root(kids[i]), sti, Yields(kids[i + 1..]) + rest);
    ItemAfter(g, start, dfa, st, a, rhs, i, sti);
    assert AfterMark(Item(a, rhs, i)) == Some(Root(kids[i]));
  }

  /** The start symbol occurs in no production. */
  lemma KidIsInside(g: Grammar, start: nat, a: nat, kids: seq<Tree>, i: nat)
    requires Augmented(g, start) && IsProduction(g, a, Roots(kids)) && i < |kids|
    ensures Root(kids[i]) != Nt(start)
  {
    assert Roots(kids)[i] in Roots(kids);
  }

  lemma {:induction false} WalkAll(g: Grammar, start: nat, dfa: Dfa, look: (nat, Item) -> seq<set<Symbol>>, rows: Rows, h: Hooks, a: nat, kids: seq<Tree>,
                                   i: nat, st: nat, sti: nat, stack: seq<Frame>, frames: seq<Frame>, text: seq<byte>, at: nat, rest: seq<Symbol>)
    returns (to: nat, all: seq<Frame>, n: nat)
    requires Setting(g, start, dfa, rows) && Resolved(dfa, look, rows) && LooksAhead(g, start, dfa, look)
    requires i <= |kids| && IsProduction(g, a, Roots(kids)) && (forall k :: 0 <= k < |kids| ==> IsDerivation(g, kids[k]))
    requires Stands(g, start, dfa, Nt(a), st, rest) && st < |dfa.states| && Item(a, Roots(kids), 0) in dfa.states[st]
    requires Goes(dfa, st, Roots(kids[..i]), sti) && Framed(dfa, h, kids[..i], st, frames, at)
    requires Left(text, at + Width(Yields(kids[..i])), Yields(kids[i..]) + rest)
    ensures WalkedAll(dfa, rows, h, kids, st, to, stack, all, text, at, At(sti, stack + frames, at + Width(Yields(kids[..i]))), n)
    decreases kids, 1, |kids| - i
  {
    hide IsDfa, Left, LrReaction, Run, TableOk, Walked, Yield, Yields, Width, Eval, EvalAll, Stands, Resolved, LooksAhead, Goes, IsDerivation, IsProduction;
    var at' := at + Width(Yields(kids[..i]));
    if i == |kids| {
      assert kids[..i] == kids;
      to, all, n := sti, frames, 0;
      NoRound(rows, h, text, At(sti, stack + frames, at'));
    } else {
      var t := kids[i];
      NextKid(kids, i, rest);
      KidStands(g, start, dfa, a, kids, i, st, sti, rest);
      KidIsInside(g, start, a, kids, i);
      var m := WalkTree(g, start, dfa, look, rows, h, t, sti, stack + frames, text, at', Yields(kids[i + 1..]) + rest);
      var v := Eval(h, t, at');
      if v == None {
        WalkedOff(start, dfa, rows, h, t, sti, stack + frames, text, at', m);
        MissingKid(h, kids, i, at);
        to, all, n := sti, frames, m;
      } else {
        var next, frames' := WalkedOn(start, dfa, rows, h, kids, i, st, sti, stack, frames, text, at, m);
        LeftAfter(text, at', Yield(t), Yields(kids[i + 1..]) + rest);
        var k;
        to, all, k := WalkAll(g, start, dfa, look, rows, h, a, kids, i + 1, st, next, stack, frames', text, at, rest);
        n := m + k;
        RunOn(LrMachine(rows, h), text, true, m, k, At(sti, stack + frames, at'));
      }
    }
  }

  lemma NoRound(rows: Rows, h: Hooks, text: seq<byte>, p: Point<Control>)
    ensures Going(rows, h, text, 0, p) == p
  {
  }

  lemma WalkedOff(start: nat, dfa: Dfa, rows: Rows, h: Hooks, t: Tree, st: nat, stack: seq<Frame>, text: seq<byte>, at: nat, n: nat)
    requires Walked(start, dfa, rows, h, t, st, stack, text, at, n) && Eval(h, t, at) == None
    ensures Stopped(Going(rows, h, text, n, At(st, stack, at)))
  {
    hide Run, Eval;
  }

  lemma WalkedOn(start: nat, dfa: Dfa, rows: Rows, h: Hooks, kids: seq<Tree>, i: nat, st: nat, sti: nat, stack: seq<Frame>, frames: seq<Frame>,
                 text: seq<byte>, at: nat, n: nat) returns (next: nat, frames': seq<Frame>)
    requires i < |kids| && Root(kids[i]) != Nt(start) && Goes(dfa, st, Roots(kids[..i]), sti) && Framed(dfa, h, kids[..i], st, frames, at)
    requires var at' := at + Width(Yields(kids[..i]));
      Walked(start, dfa, rows, h, kids[i], sti, stack + frames, text, at', n) && Eval(h, kids[i], at').Some?
    ensures Goes(dfa, st, Roots(kids[..i + 1]), next) && Framed(dfa, h, kids[..i + 1], st, frames', at)
    ensures Going(rows, h, text, n, At(sti, stack + frames, at + Width(Yields(kids[..i])))) == At(next, stack + frames', at + Width(Yields(kids[..i + 1])))
  {
    hide Run, Eval, EvalAll, Yield, Yields, Width;
    var t, at' := kids[i], at + Width(Yields(kids[..i]));
    var v := Eval(h, t, at').value;
    var q := Going(rows, h, text, n, At(sti, stack + frames, at'));
    next :| HasTransition(dfa.transitions, sti, Root(t), next) && q == At(next, stack + frames + [Frame(State(sti), v)], at' + Width(Yield(t)));
    frames' := frames + [Frame(State(sti), v)];
    NextKid(kids, i, []);
    GoesOn(dfa, st, Roots(kids[..i]), sti, Root(t), next);
    EvalAllSnoc(h, kids[..i], t, at);
    assert Values(frames') == Values(frames) + [v];
    assert stack + frames + [Frame(State(sti), v)] == stack + frames';
    FirstState(dfa, st, Roots(kids[..i]), sti);
  }

  lemma FirstState(dfa: Dfa, st: nat, syms: seq<Symbol>, to: nat)
    requires Goes(dfa, st, syms, to)
    ensures syms == [] ==> to == st
  {
  }

  /** Without the value of a kid there is none of them all. */
  lemma {:induction false} MissingKid(h: Hooks, kids: seq<Tree>, i: nat, at: nat)
    requires i < |kids|
    ensures Eval(h, kids[i], at + Width(Yields(kids[..i]))) == None ==> EvalAll(h, kids, at) == None
    decreases |kids|
  {
    hide Eval, Width;
    var init := kids[..|kids| - 1];
    if i < |init| {
      assert init[..i] == kids[..i];
      MissingKid(h, init, i, at);
    }
  }

  /** Behind the kids the production is reduced. */
  lemma WalkUp(g: Grammar, start: nat, dfa: Dfa, look: (nat, Item) -> seq<set<Symbol>>, rows: Rows, h: Hooks, t: Tree, st: nat, to: nat,
               stack: seq<Frame>, frames: seq<Frame>, text: seq<byte>, at: nat, rest: seq<Symbol>, m: nat) returns (n: nat)
    requires Setting(g, start, dfa, rows) && Resolved(dfa, look, rows) && LooksAhead(g, start, dfa, look)
    requires t.Node? && IsProduction(g, t.nt, Roots(t.kids)) && Placed(g, start, dfa, Nt(t.nt), st, rest) && Left(text, at, Yields(t.kids) + rest)
    requires st < |dfa.states| && Item(t.nt, Roots(t.kids), 0) in dfa.states[st] && (t.nt == start ==> stack == [])
    requires WalkedAll(dfa, rows, h, t.kids, st, to, stack, frames, text, at, At(st, stack, at), m)
    ensures Walked(start, dfa, rows, h, t, st, stack, text, at, n)
  {
    hide IsDfa, Left, LrReaction, Run, TableOk, Yields, Width, EvalAll, Stands, Resolved, LooksAhead, Goes, Finish, Execute, IsProduction;
    var p := At(st, stack, at);
    if EvalAll(h, t.kids, at) == None {
      n := m;
    } else {
      var rhs, at' := Roots(t.kids), at + Width(Yields(t.kids));
      assert rhs[..|rhs|] == rhs;
      ItemAfter(g, start, dfa, st, t.nt, rhs, |rhs|, to);
      LeftAfter(text, at, Yields(t.kids), rest);
      LookNext(text, at', rest);
      assert CanFollow(g, start, dfa, to, t.nt, rhs, NextOf(rest));
      ReducesHere(g, start, dfa, look, rows, h, to, Item(t.nt, rhs, |rhs|), stack + frames, text, at', rest);
      RunOn(LrMachine(rows, h), text, true, m, 1, p);
      var q := Going(rows, h, text, m, p);
      OneRound(rows, h, text, q, LrReaction(rows, h, q.ctrl, at', LookAt(text, at', true)));
      n := m + 1;
      ReducedTo(g, start, dfa, rows, h, t, st, to, stack, frames, text, at, rest);
    }
  }

  lemma ReadInside(g: Grammar, start: nat, dfa: Dfa, st: nat, it: Item, x: Symbol)
    requires Augmented(g, start) && IsDfa(g, start, dfa) && st < |dfa.states| && it in dfa.states[st] && AfterMark(it) == Some(x)
    ensures IsProduction(g, it.lhs, it.rhs) && x in it.rhs
  {
    hide IsDfa;
    LrPaths.ItemInState(g, start, dfa, st, it);
  }

  /** No item reads the start symbol. */
  lemma StartInFront(g: Grammar, start: nat, dfa: Dfa, st: nat, rest: seq<Symbol>)
    requires Augmented(g, start) && IsDfa(g, start, dfa) && Placed(g, start, dfa, Nt(start), st, rest)
    ensures st == 0 && rest == []
  {
    hide IsDfa, Stands;
    if it :| st < |dfa.states| && it in dfa.states[st] && AfterMark(it) == Some(Nt(start)) {
      ReadInside(g, start, dfa, st, it, Nt(start));
    }
  }

  /** The row below the kids: the start symbol is accepted, and any other nonterminal shifted. */
  lemma GotoBelow(g: Grammar, start: nat, dfa: Dfa, rows: Rows, a: nat, st: nat, rest: seq<Symbol>) returns (next: Target)
    requires Setting(g, start, dfa, rows) && Placed(g, start, dfa, Nt(a), st, rest) && st < |dfa.states|
    ensures st < |rows.ntmap| && a in rows.ntmap[st] && rows.ntmap[st][a] == Shift(next)
    ensures if a == start then next == Success && st == 0 else next.State? && HasTransition(dfa.transitions, st, Nt(a), next.n)
  {
    hide IsDfa, TableOk, Stands;
    RowsMatch(g, start, dfa, rows);
    GotoEntry(start, dfa, rows, g, st, a);
    if a == start {
      StartInFront(g, start, dfa, st, rest);
      next := Success;
    } else {
      var it :| it in dfa.states[st] && AfterMark(it) == Some(Nt(a));
      var to := Transits(g, start, dfa, st, it, Nt(a));
      next := State(to);
    }
  }

  /** What the frames of the kids are reduced to. */
  lemma FramesReduced(dfa: Dfa, rows: Rows, h: Hooks, t: Tree, st: nat, to: nat, stack: seq<Frame>, frames: seq<Frame>, at: nat, next: Target)
    requires t.Node? && Framed(dfa, h, t.kids, st, frames, at) && (frames == [] ==> to == st)
    requires st < |rows.ntmap| && t.nt in rows.ntmap[st] && rows.ntmap[st][t.nt] == Shift(next)
    ensures var c := Config(State(to), stack + frames, Stream([], at + Width(Yields(t.kids)), 0, false, true));
      ReduceSpec(rows, h, c, t.nt, Roots(t.kids)) ==
        match Eval(h, t, at)
        case None => (Config(State(st), stack, c.input), false)
        case Some(v) => (Config(next, stack + [Frame(State(st), v)], c.input), next != Success)
  {
    hide Yields, Width, EvalAll, Finish;
    var len := |t.kids|;
    var c := Config(State(to), stack + frames, Stream([], at + Width(Yields(t.kids)), 0, false, true));
    assert (stack + frames)[|stack|..] == frames && (stack + frames)[..|stack|] == stack;
    assert Popped(c, len) == Config(State(st), stack, c.input);
    assert Eval(h, t, at) == Finish(h, t.nt, Handle(c, len));
  }

  /** The reduction leaves the value of the tree where the tree began. */
  lemma ReducedTo(g: Grammar, start: nat, dfa: Dfa, rows: Rows, h: Hooks, t: Tree, st: nat, to: nat, stack: seq<Frame>, frames: seq<Frame>,
                  text: seq<byte>, at: nat, rest: seq<Symbol>)
    requires Setting(g, start, dfa, rows) && t.Node? && Placed(g, start, dfa, Nt(t.nt), st, rest) && st < |dfa.states|
    requires Framed(dfa, h, t.kids, st, frames, at) && Goes(dfa, st, Roots(t.kids), to) && (t.nt == start ==> stack == [])
    ensures var at' := at + Width(Yields(t.kids));
      var r := Execute(rows, h, Control(State(to), stack + frames), at', LookAt(text, at', true), Some(Reduce(t.nt, Roots(t.kids))));
      match Eval(h, t, at)
      case None => !r.run && r.next.state.State?
      case Some(v) =>
        if t.nt == start then r == React(Control(Success, [Frame(State(0), v)]), false, false)
        else exists next: nat :: HasTransition(dfa.transitions, st, Nt(t.nt), next) && r == React(Control(State(next), stack + [Frame(State(st), v)]), false, true)
  {
    hide IsDfa, TableOk, Yields, Width, EvalAll, Stands, Finish, ReduceSpec, Eval;
    FirstState(dfa, st, Roots(t.kids), to);
    var next := GotoBelow(g, start, dfa, rows, t.nt, st, rest);
    FramesReduced(dfa, rows, h, t, st, to, stack, frames, at, next);
    if Eval(h, t, at).Some? {
      assert [] + [Frame(State(0), Eval(h, t, at).value)] == [Frame(State(0), Eval(h, t, at).value)];
    }
  }

  // ----- whole sentences

  /** Every sentence is parsed: the run ends, and its result is the value of the tree, unless a validation fails. */
  lemma SentenceParsed(g: Grammar, start: nat, dfa: Dfa, look: (nat, Item) -> seq<set<Symbol>>, rows: Rows, h: Hooks, t: Tree, text: seq<byte>)
    returns (n: nat)
    requires Setting(g, start, dfa, rows) && Resolved(dfa, look, rows) && LooksAhead(g, start, dfa, look) && IsSentence(g, start, t, text)
    ensures Halts(LrMachine(rows, h), text, true, n, LrStart())
    ensures LrResult(Run(LrMachine(rows, h), text, true, n, LrStart())) ==
      match Eval(h, t, 0) case None => None case Some(v) => Some(Result(v, 8 * |text|))
  {
    hide IsDfa, TableOk, Resolved, LooksAhead, Yield, Eval, Run, LrReaction;
    var ends: nat :| Yield(t) == Chars(text) + Ends(ends);
    assert StandsIn(g, start, dfa, 1, Nt(start), 0, []);
    assert text[0..] == text && Yield(t) + [] == Yield(t);
    assert Left(text, 0, Yield(t) + []);
    n := WalkTree(g, start, dfa, look, rows, h, t, 0, [], text, 0, []);
    TextWidthOf(text, ends);
    assert At(0, [], 0) == LrStart();
  }

  /** So a grammar with such a table is unambiguous, up to values. */
  lemma OneValue(g: Grammar, start: nat, dfa: Dfa, look: (nat, Item) -> seq<set<Symbol>>, rows: Rows, h: Hooks, t: Tree, t': Tree, text: seq<byte>)
    requires Setting(g, start, dfa, rows) && Resolved(dfa, look, rows) && LooksAhead(g, start, dfa, look)
    requires IsSentence(g, start, t, text) && IsSentence(g, start, t', text)
    ensures Eval(h, t, 0) == Eval(h, t', 0)
  {
    hide Setting, Resolved, LooksAhead, IsSentence, Eval, Run, LrReaction;
    var m := SentenceParsed(g, start, dfa, look, rows, h, t, text);
    var n := SentenceParsed(g, start, dfa, look, rows, h, t', text);
    if m <= n {
      EnoughRounds(LrMachine(rows, h), text, true, m, n, LrStart());
    } else {
      EnoughRounds(LrMachine(rows, h), text, true, n, m, LrStart());
    }
  }

  /** `h_lr_parse` of a sentence. */
  method ParseSentence(rows: Rows, hooks: Hooks, input: seq<byte>, ghost g: Grammar, ghost start: nat, ghost dfa: Dfa,
                       ghost look: (nat, Item) -> seq<set<Symbol>>, ghost t: Tree) returns (r: Option<Result>)
    requires Setting(g, start, dfa, rows) && Resolved(dfa, look, rows) && LooksAhead(g, start, dfa, look) && IsSentence(g, start, t, input)
    ensures r == match Eval(hooks, t, 0) case None => None case Some(v) => Some(Result(v, 8 * |input|))
  {
    hide Setting, Resolved, LooksAhead, IsSentence, Eval, Run, LrReaction, ParsesPrefix;
    ghost var n := SentenceParsed(g, start, dfa, look, rows, hooks, t, input);
    r := LrParse.Parse(rows, hooks, input, g, start, dfa, n);
  }
}
