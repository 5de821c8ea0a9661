/** Paths through the automaton: what a path into a state says about the items of that state. */
module LrPaths {
  import opened Basics
  import opened Grammar
  import opened LrItems
  import opened LrAutomaton

  /** The states `sts` are connected by the symbols `syms`, from the initial state on. */
  ghost predicate Path(dfa: Dfa, sts: seq<nat>, syms: seq<Symbol>) {
    && |sts| == |syms| + 1 && sts[0] == 0
    && forall k :: 0 <= k < |syms| ==> Transition(sts[k], syms[k], sts[k + 1]) in dfa.transitions
  }

  lemma TransitionFacts(g: Grammar, start: nat, dfa: Dfa, t: Transition)
    requires start < |g| && g[start].ChoiceRule? && IsDfa(g, start, dfa) && t in dfa.transitions
    ensures GoodTransition(g, dfa.states, t)
  {
    hide Closure, Reads;
    var k :| 0 <= k < |dfa.transitions| && dfa.transitions[k] == t;
  }

  lemma PathStates(g: Grammar, start: nat, dfa: Dfa, sts: seq<nat>, syms: seq<Symbol>, k: nat)
    requires start < |g| && g[start].ChoiceRule? && IsDfa(g, start, dfa) && Path(dfa, sts, syms) && k < |sts|
    ensures sts[k] < |dfa.states|
  {
    hide Closure, Reads;
    if k > 0 {
      TransitionFacts(g, start, dfa, Transition(sts[k - 1], syms[k - 1], sts[k]));
    }
  }

  /** The initial state has items with the mark in front only, so no transition leads back to it. */
  lemma InitialItems(g: Grammar, start: nat, dfa: Dfa, it: Item)
    requires start < |g| && g[start].ChoiceRule? && IsDfa(g, start, dfa) && it in dfa.states[0]
    ensures it.mark == 0
  {
    hide Closure;
    var kernel := StartItems(g, start);
    if it !in kernel {
      var from := ClosureOrigin(g, kernel, it);
    }
  }

  lemma NoReturn(g: Grammar, start: nat, dfa: Dfa, t: Transition)
    requires start < |g| && g[start].ChoiceRule? && IsDfa(g, start, dfa) && t in dfa.transitions
    ensures t.to != 0
  {
    hide Closure;
    TransitionFacts(g, start, dfa, t);
    if t.to == 0 {
      var it :| it in dfa.states[t.from] && AfterMark(it) == Some(t.symbol);
      ClosureProperties(g, Advance(dfa.states[t.from], t.symbol));
      InitialItems(g, start, dfa, it.(mark := it.mark + 1));
    }
  }

  /** An item with its mark moved stems from the same item one symbol earlier. */
  lemma StepBack(g: Grammar, start: nat, dfa: Dfa, t: Transition, it: Item)
    requires start < |g| && g[start].ChoiceRule? && IsDfa(g, start, dfa) && t in dfa.transitions
    requires t.to < |dfa.states| && t.from < |dfa.states| && it in dfa.states[t.to] && it.mark > 0
    ensures it.(mark := it.mark - 1) in dfa.states[t.from] && AfterMark(it.(mark := it.mark - 1)) == Some(t.symbol)
  {
    hide Closure;
    TransitionFacts(g, start, dfa, t);
    var kernel := Advance(dfa.states[t.from], t.symbol);
    if it !in kernel {
      var from := ClosureOrigin(g, kernel, it);
    }
  }

  /** The symbols an item has read are the last ones of every path into its state, and the state where
      they begin holds the item with its mark in front. */
  lemma {:induction false} PathSpellsItem(g: Grammar, start: nat, dfa: Dfa, sts: seq<nat>, syms: seq<Symbol>, it: Item)
    requires start < |g| && g[start].ChoiceRule? && IsDfa(g, start, dfa) && Path(dfa, sts, syms)
    requires sts[|syms|] < |dfa.states| && it in dfa.states[sts[|syms|]]
    ensures it.mark <= |syms| && it.mark <= |it.rhs| && it.rhs[..it.mark] == syms[|syms| - it.mark..]
    ensures sts[|syms| - it.mark] < |dfa.states| && it.(mark := 0) in dfa.states[sts[|syms| - it.mark]]
    decreases it.mark
  {
    hide IsDfa;
    var n := |syms|;
    ItemInState(g, start, dfa, sts[n], it);
    if it.mark > 0 {
      if n == 0 {
        InitialItems(g, start, dfa, it);
      } else {
        var t := Transition(sts[n - 1], syms[n - 1], sts[n]);
        PathStates(g, start, dfa, sts, syms, n - 1);
        StepBack(g, start, dfa, t, it);
        var before := it.(mark := it.mark - 1);
        PathSpellsItem(g, start, dfa, sts[..n], syms[..n - 1], before);
        assert syms[n - it.mark..] == syms[..n - 1][n - it.mark..] + [syms[n - 1]];
        assert it.rhs[..it.mark] == it.rhs[..it.mark - 1] + [it.rhs[it.mark - 1]];
        assert before.(mark := 0) == it.(mark := 0);
      }
    } else {
      assert it.(mark := 0) == it;
    }
  }

  lemma ItemInState(g: Grammar, start: nat, dfa: Dfa, i: nat, it: Item)
    requires start < |g| && g[start].ChoiceRule? && IsDfa(g, start, dfa)
    requires i < |dfa.states| && it in dfa.states[i]
    ensures IsItem(g, it)
  {
    hide Consistent;
    assert Items(g, dfa.states[i]);
  }

  /** Where an item begins, its left-hand side can be shifted; for the start symbol that is the initial state only. */
  lemma ItemBegins(g: Grammar, start: nat, dfa: Dfa, i: nat, it: Item)
    requires Augmented(g, start) && IsDfa(g, start, dfa)
    requires i < |dfa.states| && it in dfa.states[i] && it.mark == 0
    ensures if it.lhs == start then i == 0 else Reads(dfa.states[i], Nt(it.lhs))
  {
    hide Closure;
    var kernel;
    if i == 0 {
      kernel := StartItems(g, start);
    } else {
      assert Discovered(dfa.transitions, i);
      var k :| 0 <= k < |dfa.transitions| && dfa.transitions[k].to == i && dfa.transitions[k].from < i;
      var t := dfa.transitions[k];
      assert GoodTransition(g, dfa.states, t);
      kernel := Advance(dfa.states[t.from], t.symbol);
    }
    if it !in kernel {
      var from := ClosureOrigin(g, kernel, it);
      assert Items(g, dfa.states[i]);
      assert IsItem(g, from);
    }
  }

  /** Reducing by a completed item never runs out of stack, removes exactly the right-hand side, and
      uncovers a state from which the left-hand side can be shifted. */
  lemma ReductionFits(g: Grammar, start: nat, dfa: Dfa, sts: seq<nat>, syms: seq<Symbol>, it: Item)
    requires Augmented(g, start) && IsDfa(g, start, dfa) && Path(dfa, sts, syms)
    requires sts[|syms|] < |dfa.states| && it in dfa.states[sts[|syms|]] && it.mark == |it.rhs|
    ensures |it.rhs| <= |syms| && it.rhs == syms[|syms| - |it.rhs|..] && sts[|syms| - |it.rhs|] < |dfa.states|
    ensures if it.lhs == start then |it.rhs| == |syms|
            else Reads(dfa.states[sts[|syms| - |it.rhs|]], Nt(it.lhs))
  {
    hide IsDfa, Reads;
    PathSpellsItem(g, start, dfa, sts, syms, it);
    assert it.rhs[..it.mark] == it.rhs;
    var k := |syms| - |it.rhs|;
    ItemBegins(g, start, dfa, sts[k], it.(mark := 0));
    if it.lhs == start && k > 0 {
      NoReturn(g, start, dfa, Transition(sts[k - 1], syms[k - 1], sts[k]));
    }
  }
}
