/** Compiling a grammar to a table for the shift/reduce engine. */
module LrCompile {
  import opened Basics
  import opened Grammar
  import opened LrItems
  import opened LrAutomaton
  import opened LrTable
  import LrEngine

  /** `h_lalr_compile`, with any source of lookahead sets: the result is 0 when no conflict is left, and then the table can
      drive the engine, whatever the lookahead sets were. */
  method Compile(g: Grammar, start: nat, look: (nat, Item) -> seq<set<Symbol>>) returns (code: int, rows: Rows, ghost dfa: Dfa)
    requires Complete(g) && Augmented(g, start)
    requires forall i, item, k, x :: 0 <= k < |look(i, item)| && x in look(i, item)[k] ==> !x.Nt?
    ensures code == 0 || code == -1
    ensures IsDfa(g, start, dfa) && (code == 0 ==> LrEngine.Setting(g, start, dfa, rows))
    ensures code == 0 <==> forall i :: 0 <= i < |dfa.states| && Ambiguous(dfa, i) ==> !Clash(dfa, look, i)
    ensures code == 0 ==> Resolved(dfa, look, rows)
  {
    hide IsDfa, TableOk, Refined, Clash, Lr0Row, Inadequate, Resolves;
    var automaton := Lr0Dfa(g, start);
    dfa := automaton;
    var table := new LrTable(|automaton.states|, start);
    table.FillLr0(g, automaton);
    forall i | 0 <= i < |automaton.states| ensures Inadequate(automaton, table.View(), i) <==> Ambiguous(automaton, i) {
      AmbiguousRow(start, automaton, table.View(), i);
    }
    ghost var all, lr0 := table.inadeq, table.View();
    assert forall i :: 0 <= i < |dfa.states| ==> (i in all <==> Ambiguous(dfa, i));
    assert forall k :: 0 <= k < |all| ==> all[k] in all && all[k] < |dfa.states|;
    if table.inadeq != [] { // if necessary, resolve conflicts under lookahead
      table.ReplaceForAll(g, automaton, look);
    } else {
      AdequateTable(start, automaton, table.View());
    }
    assert table.inadeq != [] ==> table.inadeq[0] in table.inadeq;
    code := if table.inadeq == [] then 0 else -1;
    rows := Rows(table.ntmap, table.tmap, table.forAll);
    if code == 0 {
      assert SameSize(rows, |dfa.states|) by { FitSize(start, dfa, rows); }
      forall i: nat | i < |dfa.states| ensures Resolves(dfa, look, rows, i) {
        if i in all {
          RefinedResolves(dfa, look, rows, i, lr0.tmap[i]);
        } else {
          AdequateResolves(start, dfa, look, lr0, rows, i);
        }
      }
    }
  }

  /** An ambiguous state has its reductions under their lookahead, any other its only one for any lookahead. */
  ghost predicate Resolves(dfa: Dfa, look: (nat, Item) -> seq<set<Symbol>>, rows: Rows, i: nat)
    requires SameSize(rows, |dfa.states|) && i < |dfa.states|
  {
    if Ambiguous(dfa, i) then
      rows.forAll[i] == None && forall it :: it in Completed(dfa.states[i]) ==> Covered(rows.tmap[i], look(i, it), |look(i, it)|, ReduceBy(it))
    else
      forall it :: it in Completed(dfa.states[i]) ==> rows.forAll[i] == Some(ReduceBy(it))
  }

  ghost predicate Resolved(dfa: Dfa, look: (nat, Item) -> seq<set<Symbol>>, rows: Rows) {
    SameSize(rows, |dfa.states|) && forall i: nat :: i < |dfa.states| ==> Resolves(dfa, look, rows, i)
  }

  lemma FitSize(start: nat, dfa: Dfa, rows: Rows)
    requires TableOk(start, dfa, rows)
    ensures SameSize(rows, |dfa.states|)
  {
    hide RowOk;
  }

  lemma RefinedResolves(dfa: Dfa, look: (nat, Item) -> seq<set<Symbol>>, rows: Rows, i: nat, row: map<Symbol, Action>)
    requires SameSize(rows, |dfa.states|) && i < |dfa.states| && Ambiguous(dfa, i) && rows.forAll[i] == None
    requires Refined(dfa, look, i, row, rows.tmap[i])
    ensures Resolves(dfa, look, rows, i)
  {
    hide Ambiguous, RowGrown, Covered;
  }

  lemma AdequateResolves(start: nat, dfa: Dfa, look: (nat, Item) -> seq<set<Symbol>>, lr0: Rows, rows: Rows, i: nat)
    requires SameSize(rows, |dfa.states|) && SameSize(lr0, |dfa.states|) && i < |dfa.states| && !Ambiguous(dfa, i)
    requires Lr0Row(start, dfa, lr0, i) && rows.forAll[i] == lr0.forAll[i]
    ensures Resolves(dfa, look, rows, i)
  {
    hide ShiftsOk;
    var all := Completed(dfa.states[i]);
    forall it | it in all ensures rows.forAll[i] == Some(ReduceBy(it)) {
      assert |all - {it}| == |all| - 1;
      assert all == {it};
    }
  }

  /** Without lookahead there is a choice in state `i`: between reductions, or between a reduction and a shift. */
  ghost predicate Ambiguous(dfa: Dfa, i: nat)
    requires i < |dfa.states|
  {
    |Completed(dfa.states[i])| > 1
    || (Completed(dfa.states[i]) != {} && (i == 0 || exists x, j: nat :: HasTransition(dfa.transitions, i, x, j)))
  }

  lemma AmbiguousRow(start: nat, dfa: Dfa, rows: Rows, i: nat)
    requires SameSize(rows, |dfa.states|) && i < |dfa.states| && Lr0Row(start, dfa, rows, i)
    ensures Inadequate(dfa, rows, i) <==> Ambiguous(dfa, i)
  {
  }

  /** An LR(0) table without inadequate states needs no lookahead. */
  lemma AdequateTable(start: nat, dfa: Dfa, rows: Rows)
    requires IsLr0(start, dfa, rows, [])
    ensures TableOk(start, dfa, rows)
  {
    hide Lr0Row, RowOk, Inadequate;
    forall i | 0 <= i < |dfa.states| ensures RowOk(start, dfa, rows, i) {
      AdequateRowOk(start, dfa, rows, i);
    }
  }
}
