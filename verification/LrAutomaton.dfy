/** The characteristic automaton: its states are closed item sets, and a state has exactly one
    transition for every symbol one of its items is about to read. */
module LrAutomaton {
  import opened Basics
  import opened Grammar
  import opened LrItems

  datatype Transition = Transition(from: nat, symbol: Symbol, to: nat)

  datatype Dfa = Dfa(states: seq<set<Item>>, transitions: seq<Transition>)

  ghost predicate Reads(s: set<Item>, x: Symbol) {
    exists it :: it in s && AfterMark(it) == Some(x)
  }

  ghost function Advance(s: set<Item>, x: Symbol): set<Item> {
    set it | it in s && AfterMark(it) == Some(x) :: it.(mark := it.mark + 1)
  }

  ghost function Goto(g: Grammar, s: set<Item>, x: Symbol): set<Item> {
    Closure(g, Advance(s, x))
  }

  ghost function StartItems(g: Grammar, start: nat): set<Item>
    requires start < |g| && g[start].ChoiceRule?
  {
    set rhs | rhs in g[start].prods :: Item(start, rhs, 0)
  }

  ghost predicate HasTransition(ts: seq<Transition>, from: nat, x: Symbol, to: nat) {
    Transition(from, x, to) in ts
  }

  // ----- what the construction promises

  /** Everything but completeness: transitions lead to the closure of the advanced items, states are
      pairwise different, no state has two transitions for a symbol, and every state is reachable. */
  ghost predicate Consistent(g: Grammar, start: nat, dfa: Dfa)
    requires start < |g| && g[start].ChoiceRule?
  {
    && |dfa.states| > 0 && dfa.states[0] == Closure(g, StartItems(g, start))
    && (forall i, j :: 0 <= i < j < |dfa.states| ==> dfa.states[i] != dfa.states[j])
    && (forall k :: 0 <= k < |dfa.transitions| ==> GoodTransition(g, dfa.states, dfa.transitions[k]))
    && (forall k, l :: 0 <= k < l < |dfa.transitions| ==> !SameEdge(dfa.transitions[k], dfa.transitions[l]))
    && (forall j: nat :: 0 < j < |dfa.states| ==> Discovered(dfa.transitions, j))
  }

  ghost predicate GoodTransition(g: Grammar, states: seq<set<Item>>, t: Transition) {
    && t.from < |states| && t.to < |states|
    && Reads(states[t.from], t.symbol)
    && states[t.to] == Goto(g, states[t.from], t.symbol)
  }

  ghost predicate SameEdge(t: Transition, u: Transition) {
    t.from == u.from && t.symbol == u.symbol
  }

  /** State `j` was found from a state with a smaller number. */
  ghost predicate Discovered(ts: seq<Transition>, j: nat) {
    exists k :: 0 <= k < |ts| && ts[k].to == j && ts[k].from < j
  }

  /** State `i` has a transition for each symbol in `xs` it reads. */
  ghost predicate Served(dfa: Dfa, i: nat, x: Symbol) {
    exists k :: 0 <= k < |dfa.transitions| && dfa.transitions[k].from == i && dfa.transitions[k].symbol == x
  }

  ghost predicate Finished(dfa: Dfa, i: nat)
    requires i < |dfa.states|
  {
    forall x :: Reads(dfa.states[i], x) ==> Served(dfa, i, x)
  }

  ghost predicate IsDfa(g: Grammar, start: nat, dfa: Dfa)
    requires start < |g| && g[start].ChoiceRule?
  {
    Consistent(g, start, dfa) && forall i :: 0 <= i < |dfa.states| ==> Finished(dfa, i) && Items(g, dfa.states[i])
  }

  // ----- the construction

  ghost predicate Items(g: Grammar, s: set<Item>) {
    forall it :: it in s ==> IsItem(g, it)
  }

  /** The items that follow each symbol, before closure. */
  method Neighbors(state: set<Item>) returns (neighbors: map<Symbol, set<Item>>)
    ensures forall x :: x in neighbors <==> Reads(state, x)
    ensures forall x :: x in neighbors ==> neighbors[x] == Advance(state, x)
  {
    neighbors := map[];
    var rest := state;
    while rest != {}
      invariant rest <= state
      invariant forall x :: x in neighbors <==> Reads(state - rest, x)
      invariant forall x :: x in neighbors ==> neighbors[x] == Advance(state - rest, x)
      decreases rest
    {
      var item :| item in rest;
      ghost var before := state - rest;
      rest := rest - {item};
      NewItem(before, item);
      assert state - rest == before + {item};
      var sym := AfterMark(item);
      if sym.Some? {
        var neighbor := if sym.value in neighbors then neighbors[sym.value] else {};
        neighbors := neighbors[sym.value := neighbor + {item.(mark := item.mark + 1)}];
      }
    }
    assert state - rest == state;
  }

  lemma NewItem(s: set<Item>, item: Item)
    ensures forall x :: Reads(s + {item}, x) <==> Reads(s, x) || AfterMark(item) == Some(x)
    ensures forall x :: Advance(s + {item}, x) == Advance(s, x) + (if AfterMark(item) == Some(x) then {item.(mark := item.mark + 1)} else {})
  {
    forall x ensures Reads(s + {item}, x) <==> Reads(s, x) || AfterMark(item) == Some(x) {
      assert item in s + {item};
      assert Reads(s, x) ==> exists it :: it in s + {item} && AfterMark(it) == Some(x);
    }
  }

  ghost function Subsets(u: set<Item>): set<set<Item>> {
    set s | s <= u
  }

  ghost predicate Indexed(states: seq<set<Item>>, index: map<set<Item>, nat>) {
    && (forall s :: s in index ==> index[s] < |states| && states[index[s]] == s)
    && (forall i :: 0 <= i < |states| ==> states[i] in index && index[states[i]] == i)
  }

  /** No transition leaves `i` yet. */
  ghost predicate Untouched(ts: seq<Transition>, i: nat) {
    forall k :: 0 <= k < |ts| ==> ts[k].from != i
  }

  /** The variables of the construction: the states in the order of their numbers, the table that
      numbers them, the transitions, and the numbers of the states still to be processed. */
  datatype Builder = Builder(states: seq<set<Item>>, index: map<set<Item>, nat>, transitions: seq<Transition>, work: seq<nat>)
  {
    ghost function View(): Dfa {
      Dfa(states, transitions)
    }
  }

  /** The invariant of the construction while state `current` is being processed. */
  ghost predicate Building(g: Grammar, start: nat, b: Builder, current: Option<nat>)
    requires start < |g| && g[start].ChoiceRule?
  {
    && Consistent(g, start, b.View()) && Indexed(b.states, b.index)
    && (forall i :: 0 <= i < |b.states| ==> Items(g, b.states[i]))
    && (forall k :: 0 <= k < |b.work| ==> b.work[k] < |b.states| && Untouched(b.transitions, b.work[k]))
    && (forall k, l :: 0 <= k < l < |b.work| ==> b.work[k] != b.work[l])
    && (forall i :: 0 <= i < |b.states| ==> i in b.work || current == Some(i) || Finished(b.View(), i))
  }

  /** Nothing is forgotten: `c` extends `b`, and any new state is on the worklist. */
  ghost predicate Extends(g: Grammar, b: Builder, c: Builder) {
    && b.states <= c.states && b.index.Keys <= c.index.Keys <= Subsets(Universe(g))
    && (|c.states| == |b.states| ==> c.index == b.index && c.work == b.work)
    && (|c.states| > |b.states| ==> c.index.Keys > b.index.Keys)
  }

  method Lr0Dfa(g: Grammar, start: nat) returns (dfa: Dfa)
    requires Complete(g) && start < |g| && g[start].ChoiceRule?
    ensures IsDfa(g, start, dfa)
  {
    hide Universe, Closure;
    var kernel: set<Item> := set rhs | rhs in g[start].prods :: Item(start, rhs, 0);
    assert Items(g, kernel);
    var first := ExpandToClosure(g, kernel);
    ClosureItems(g, kernel);
    var b := Builder([first], map[first := 0], [], [0]);
    while b.work != []
      invariant Building(g, start, b, None)
      decreases Subsets(Universe(g)) - b.index.Keys, |b.work|
    {
      b := ProcessState(g, start, b);
    }
    dfa := Dfa(b.states, b.transitions);
  }

  lemma ClosureItems(g: Grammar, s: set<Item>)
    requires Items(g, s)
    ensures Items(g, Closure(g, s)) && Closure(g, s) in Subsets(Universe(g))
  {
    hide Universe, Closure;
    ClosureProperties(g, s);
    assert s <= Universe(g);
  }

  /** Take one state off the worklist and give it its transitions. */
  method ProcessState(g: Grammar, start: nat, b0: Builder) returns (b: Builder)
    requires Complete(g) && start < |g| && g[start].ChoiceRule? && b0.work != []
    requires Building(g, start, b0, None)
    ensures Building(g, start, b, None)
    ensures b0.index.Keys < b.index.Keys <= Subsets(Universe(g)) || (b.index == b0.index && |b.work| < |b0.work|)
  {
    hide Universe, Closure, Consistent, Reads, Served;
    var idx := b0.work[0];
    var state := b0.states[idx];
    b := b0.(work := b0.work[1..]);
    assert forall i :: i in b0.work <==> i == idx || i in b.work;
    ghost var b1 := b;
    var neighbors := Neighbors(state);
    NoEdges(b, idx);
    var syms := neighbors.Keys;
    while syms != {}
      invariant syms <= neighbors.Keys && Building(g, start, b, Some(idx)) && idx !in b.work
      invariant Extends(g, b1, b) || b == b1
      invariant forall x :: Served(b.View(), idx, x) <==> x in neighbors.Keys - syms
      decreases syms
    {
      var x :| x in syms;
      syms := syms - {x};
      ItemsAdvance(g, state, x);
      b := AddNeighbor(g, start, b, idx, x, neighbors[x]);
    }
    assert Finished(b.View(), idx);
  }

  lemma NoEdges(b: Builder, idx: nat)
    requires Untouched(b.transitions, idx)
    ensures forall x :: !Served(b.View(), idx, x)
  {
  }

  lemma ItemsAdvance(g: Grammar, s: set<Item>, x: Symbol)
    requires Items(g, s)
    ensures Items(g, Advance(s, x))
  {
  }

  /** Close a kernel, number it unless it is a known state, and add the transition to it. */
  method AddNeighbor(g: Grammar, start: nat, b: Builder, idx: nat, x: Symbol, kernel: set<Item>) returns (c: Builder)
    requires Complete(g) && start < |g| && g[start].ChoiceRule? && Items(g, kernel)
    requires idx < |b.states| && idx !in b.work && Building(g, start, b, Some(idx))
    requires Reads(b.states[idx], x) && kernel == Advance(b.states[idx], x) && !Served(b.View(), idx, x)
    ensures Building(g, start, c, Some(idx)) && idx !in c.work && Extends(g, b, c)
    ensures forall y :: Served(c.View(), idx, y) <==> y == x || Served(b.View(), idx, y)
  {
    hide Universe, Closure, Reads, Advance, Consistent, Served;
    var neighbor := ExpandToClosure(g, kernel);
    ClosureItems(g, kernel);
    var to;
    if neighbor !in b.index {
      to := |b.states|;
      c := Builder(b.states + [neighbor], b.index[neighbor := to], b.transitions, [to] + b.work);
    } else {
      to := b.index[neighbor];
      c := b;
    }
    ServedStep(c.states, b.transitions, Transition(idx, x, to));
    ServedHere(b, c);
    EdgeAdded(g, start, b, c, Transition(idx, x, to));
    c := c.(transitions := [Transition(idx, x, to)] + b.transitions);
    assert forall i :: i in b.work ==> i in c.work;
    forall i | 0 <= i < |c.states| ensures i in c.work || Some(idx) == Some(i) || Finished(c.View(), i) {
      if i == |b.states| {
        assert c.work[0] == i;
      } else if i !in b.work && i != idx {
        assert Finished(b.View(), i);
      }
    }
    forall k | 0 <= k < |c.work| ensures c.work[k] < |c.states| && Untouched(c.transitions, c.work[k]) {
      assert c.work[k] == |b.states| || Untouched(b.transitions, c.work[k]);
    }
  }

  /** Which symbols are served depends on the transitions only. */
  lemma ServedHere(b: Builder, c: Builder)
    requires b.transitions == c.transitions
    ensures forall i, y :: Served(b.View(), i, y) == Served(c.View(), i, y)
  {
  }

  lemma ServedStep(states: seq<set<Item>>, ts: seq<Transition>, t: Transition)
    ensures forall i, y :: Served(Dfa(states, [t] + ts), i, y) <==> (i == t.from && y == t.symbol) || Served(Dfa(states, ts), i, y)
  {
    forall i: nat, y
      ensures Served(Dfa(states, [t] + ts), i, y) <==> (i == t.from && y == t.symbol) || Served(Dfa(states, ts), i, y)
    {
      if Served(Dfa(states, ts), i, y) {
        var k :| 0 <= k < |ts| && ts[k].from == i && ts[k].symbol == y;
        assert ([t] + ts)[k + 1] == ts[k];
      }
      assert ([t] + ts)[0] == t;
    }
  }

  /** One more transition, possibly to a new state, keeps the automaton consistent. */
  lemma EdgeAdded(g: Grammar, start: nat, b: Builder, c: Builder, t: Transition)
    requires start < |g| && g[start].ChoiceRule? && Consistent(g, start, b.View())
    requires c.transitions == b.transitions && b.states <= c.states && |c.states| <= |b.states| + 1
    requires t.from < |b.states| && t.to < |c.states| && (|c.states| > |b.states| ==> t.to == |b.states|)
    requires |c.states| > |b.states| ==> forall i :: 0 <= i < |b.states| ==> b.states[i] != c.states[|b.states|]
    requires Reads(b.states[t.from], t.symbol) && c.states[t.to] == Goto(g, b.states[t.from], t.symbol)
    requires !Served(b.View(), t.from, t.symbol)
    ensures Consistent(g, start, Dfa(c.states, [t] + b.transitions))
    ensures Untouched([t] + b.transitions, |b.states|)
  {
    hide Closure, Reads;
    var ts := [t] + b.transitions;
    forall k | 0 <= k < |ts| ensures GoodTransition(g, c.states, ts[k]) {
      if k > 0 {
        assert GoodTransition(g, b.states, b.transitions[k - 1]);
      }
    }
    forall k | 0 <= k < |ts| ensures ts[k].from != |b.states| {
      if k > 0 {
        assert GoodTransition(g, b.states, b.transitions[k - 1]);
      }
    }
    forall j: nat | 0 < j < |c.states| ensures Discovered(ts, j) {
      if j < |b.states| {
        assert Discovered(b.transitions, j);
        var k :| 0 <= k < |b.transitions| && b.transitions[k].to == j && b.transitions[k].from < j;
        assert ts[k + 1] == b.transitions[k];
      } else {
        assert ts[0] == t;
      }
    }
    forall k, l | 0 <= k < l < |ts| ensures !SameEdge(ts[k], ts[l]) {
      assert ts[l] == b.transitions[l - 1];
      if k > 0 {
        assert !SameEdge(b.transitions[k - 1], b.transitions[l - 1]);
      }
    }
  }
}
