/** LR(0) tables, and the replacement of whole-row reductions by reductions under lookahead. */
module LrTable {
  import opened Basics
  import opened Grammar
  import opened LrItems
  import opened LrAutomaton

  datatype Target = State(n: nat) | Success

  datatype Action =
    | Shift(next: Target)
    | Reduce(lhs: nat, rhs: seq<Symbol>)
    | Conflict(branches: seq<Action>)

  /** The rows of a table: actions for nonterminals, for lookahead symbols, and for any lookahead. */
  datatype Rows = Rows(ntmap: seq<map<nat, Action>>, tmap: seq<map<Symbol, Action>>, forAll: seq<Option<Action>>)

  ghost predicate SameSize(rows: Rows, n: nat) {
    |rows.ntmap| == n && |rows.tmap| == n && |rows.forAll| == n
  }

  ghost function Completed(s: set<Item>): set<Item> {
    set it | it in s && it.mark == |it.rhs|
  }

  function ReduceBy(it: Item): Action {
    Reduce(it.lhs, it.rhs)
  }

  ghost predicate IsReduction(s: set<Item>, a: Action) {
    a.Reduce? && Item(a.lhs, a.rhs, |a.rhs|) in s
  }

  /** The row's shifts are the state's transitions, plus the acceptance of the start symbol. */
  ghost predicate ShiftsOk(start: nat, ts: seq<Transition>, i: nat, nt: map<nat, Action>, tm: map<Symbol, Action>) {
    && (forall b: nat, j: nat :: HasTransition(ts, i, Nt(b), j) ==> ShiftCell(nt, b, j))
    && (forall b: nat :: b in nt ==> (i == 0 && b == start && nt[b] == Shift(Success)) || IsShift(ts, i, Nt(b), nt[b]))
    && (i == 0 ==> start in nt && nt[start] == Shift(Success))
    && (forall x: Symbol, j: nat :: HasTransition(ts, i, x, j) && !x.Nt? ==> ShiftCell(tm, x, j))
    && (forall x :: x in tm ==> !x.Nt?)
  }

  ghost predicate ShiftCell<K>(row: map<K, Action>, key: K, j: nat) {
    key in row && row[key] == Shift(State(j))
  }

  ghost predicate IsShift(ts: seq<Transition>, i: nat, x: Symbol, a: Action) {
    a.Shift? && a.next.State? && HasTransition(ts, i, x, a.next.n)
  }

  ghost predicate RowEmpty(rows: Rows, i: nat)
    requires i < |rows.ntmap| && i < |rows.tmap|
  {
    rows.ntmap[i] == map[] && rows.tmap[i] == map[]
  }

  /** The LR(0) table of an automaton. */
  ghost predicate IsLr0(start: nat, dfa: Dfa, rows: Rows, inadeq: seq<nat>) {
    && SameSize(rows, |dfa.states|)
    && (forall i :: 0 <= i < |dfa.states| ==> Lr0Row(start, dfa, rows, i))
    && (forall i :: 0 <= i < |dfa.states| ==> (i in inadeq <==> Inadequate(dfa, rows, i)))
    && (forall k :: 0 <= k < |inadeq| ==> inadeq[k] < |dfa.states|)
    && (forall k, l :: 0 <= k < l < |inadeq| ==> inadeq[k] != inadeq[l])
  }

  ghost predicate Lr0Row(start: nat, dfa: Dfa, rows: Rows, i: nat)
    requires SameSize(rows, |dfa.states|) && i < |dfa.states|
  {
    && ShiftsOk(start, dfa.transitions, i, rows.ntmap[i], rows.tmap[i])
    && (forall x :: x in rows.tmap[i] ==> IsShift(dfa.transitions, i, x, rows.tmap[i][x]))
    && (rows.forAll[i] == None <==> Completed(dfa.states[i]) == {})
    && (forall it :: Completed(dfa.states[i]) == {it} ==> rows.forAll[i] == Some(ReduceBy(it)))
  }

  /** Two reductions, or a reduction next to a shift. */
  ghost predicate Inadequate(dfa: Dfa, rows: Rows, i: nat)
    requires SameSize(rows, |dfa.states|) && i < |dfa.states|
  {
    |Completed(dfa.states[i])| > 1 || (Completed(dfa.states[i]) != {} && !RowEmpty(rows, i))
  }

  /** What the engine relies on: shifts are the transitions, reductions are some of those the LR(0)
      automaton allows, and a row with a reduction for any lookahead has nothing else. */
  ghost predicate TableOk(start: nat, dfa: Dfa, rows: Rows) {
    SameSize(rows, |dfa.states|) && forall i :: 0 <= i < |dfa.states| ==> RowOk(start, dfa, rows, i)
  }

  ghost predicate RowOk(start: nat, dfa: Dfa, rows: Rows, i: nat)
    requires SameSize(rows, |dfa.states|) && i < |dfa.states|
  {
    && ShiftsOk(start, dfa.transitions, i, rows.ntmap[i], rows.tmap[i])
    && (forall x :: x in rows.tmap[i] ==> IsShift(dfa.transitions, i, x, rows.tmap[i][x]) || IsReduction(dfa.states[i], rows.tmap[i][x]))
    && (rows.forAll[i].Some? ==> IsReduction(dfa.states[i], rows.forAll[i].value) && RowEmpty(rows, i))
  }

  /** `h_lr_conflict`: collect the branches, each once. */
  function Conflicting(action: Action, other: Action): Action {
    if !action.Conflict? then Conflict([other, action])
    else if other in action.branches then action
    else Conflict([other] + action.branches)
  }

  function PutEntry<K>(m: map<K, Action>, key: K, a: Action): map<K, Action> {
    m[key := a]
  }

  class LrTable {
    var ntmap: seq<map<nat, Action>>
    var tmap: seq<map<Symbol, Action>>
    var forAll: seq<Option<Action>>
    var inadeq: seq<nat>
    const start: nat

    constructor (nrows: nat, start: nat)
      ensures ntmap == seq(nrows, _ => map[]) && tmap == seq(nrows, _ => map[]) && forAll == seq(nrows, _ => None)
      ensures inadeq == [] && this.start == start
    {
      ntmap, tmap, forAll := seq(nrows, _ => map[]), seq(nrows, _ => map[]), seq(nrows, _ => None);
      inadeq := [];
      this.start := start;
    }

    ghost function View(): Rows
      reads this
    {
      Rows(ntmap, tmap, forAll)
    }

    method PutShift(state: nat, symbol: Symbol, next: Target)
      requires state < |ntmap| && state < |tmap|
      modifies this`ntmap, this`tmap
      ensures if symbol.Nt? then
                ntmap == old(ntmap)[state := PutEntry(old(ntmap)[state], symbol.id, Shift(next))] && tmap == old(tmap)
              else
                tmap == old(tmap)[state := old(tmap)[state][symbol := Shift(next)]] && ntmap == old(ntmap)
    {
      match symbol
      case Nt(id) => ntmap := ntmap[state := PutEntry(ntmap[state], id, Shift(next))];
      case _ => tmap := tmap[state := tmap[state][symbol := Shift(next)]];
    }

    function RowIsEmpty(i: nat): (r: bool)
      requires i < |ntmap| && i < |tmap|
      reads this
      ensures r <==> ntmap[i] == map[] && tmap[i] == map[]
    {
      |ntmap[i]| == 0 && |tmap[i]| == 0
    }

    /** Fill the table from the automaton; afterwards `inadeq` lists the states with a conflict. */
    method FillLr0(g: Grammar, dfa: Dfa)
      requires Augmented(g, start) && IsDfa(g, start, dfa)
      requires SameSize(View(), |dfa.states|) && inadeq == []
      requires forall i :: 0 <= i < |dfa.states| ==> ntmap[i] == map[] && tmap[i] == map[] && forAll[i] == None
      modifies this
      ensures IsLr0(start, dfa, View(), inadeq)
    {
      hide IsDfa;
      PutShifts(g, dfa);
      ghost var nt, tm := ntmap, tmap;
      for i := 0 to |dfa.states|
        invariant ntmap == nt && tmap == tm && |forAll| == |dfa.states|
        invariant forall k :: 0 <= k < i ==> Lr0Row(start, dfa, View(), k) && (k in inadeq <==> Inadequate(dfa, View(), k))
        invariant forall k :: i <= k < |dfa.states| ==> forAll[k] == None
        invariant forall k :: 0 <= k < |inadeq| ==> inadeq[k] < i
        invariant forall k, l :: 0 <= k < l < |inadeq| ==> inadeq[k] != inadeq[l]
      {
        ghost var before, inadeq0 := View(), inadeq;
        var conflict := PutReductions(dfa, i);
        if conflict {
          inadeq := [i] + inadeq;
        }
        forall k | 0 <= k < i + 1 ensures Lr0Row(start, dfa, View(), k) && (k in inadeq <==> Inadequate(dfa, View(), k)) {
          if k < i {
            assert Lr0Row(start, dfa, before, k) && (k in inadeq0 <==> Inadequate(dfa, before, k));
          }
        }
      }
    }

    /** Shift entries, first the acceptance of the start symbol, then one for each transition. */
    method PutShifts(g: Grammar, dfa: Dfa)
      requires Augmented(g, start) && IsDfa(g, start, dfa)
      requires SameSize(View(), |dfa.states|)
      requires forall i :: 0 <= i < |dfa.states| ==> ntmap[i] == map[] && tmap[i] == map[]
      modifies this`ntmap, this`tmap
      ensures SameSize(View(), |dfa.states|)
      ensures forall i :: 0 <= i < |dfa.states| ==>
        ShiftsOk(start, dfa.transitions, i, ntmap[i], tmap[i]) && forall x :: x in tmap[i] ==> IsShift(dfa.transitions, i, x, tmap[i][x])
    {
      hide ShiftRow, IsDfa;
      var ts := dfa.transitions;
      InitialState(g, start, dfa);
      PutShift(0, Nt(start), Success);
      forall i | 0 <= i < |dfa.states| ensures ShiftRow(start, ts[..0], i, ntmap[i], tmap[i]) {
        FirstShiftRow(start, i);
      }
      for k := 0 to |ts|
        invariant SameSize(View(), |dfa.states|)
        invariant forall i :: 0 <= i < |dfa.states| ==> ShiftRow(start, ts[..k], i, ntmap[i], tmap[i])
      {
        var t := ts[k];
        EdgeIsNew(g, start, dfa, k);
        assert ts[..k + 1] == ts[..k] + [t];
        ghost var nt, tm := ntmap, tmap;
        PutShift(t.from, t.symbol, State(t.to));
        forall i | 0 <= i < |dfa.states| ensures ShiftRow(start, ts[..k + 1], i, ntmap[i], tmap[i]) {
          ShiftRowStep(start, ts[..k], t, i, nt[i], tm[i], ntmap[i], tmap[i]);
        }
      }
      assert ts[..|ts|] == ts;
      forall i | 0 <= i < |dfa.states|
        ensures ShiftsOk(start, ts, i, ntmap[i], tmap[i]) && forall x :: x in tmap[i] ==> IsShift(ts, i, x, tmap[i][x])
      {
        ShiftRowMeans(start, ts, i, ntmap[i], tmap[i]);
      }
    }

    /** The reductions of one state, over its items in any order; the result tells whether there is a conflict. */
    method PutReductions(dfa: Dfa, i: nat) returns (conflict: bool)
      requires SameSize(View(), |dfa.states|) && i < |dfa.states| && forAll[i] == None
      modifies this`forAll
      ensures |forAll| == |old(forAll)| && forall k :: 0 <= k < |forAll| && k != i ==> forAll[k] == old(forAll)[k]
      ensures forAll[i] == None <==> Completed(dfa.states[i]) == {}
      ensures forall it :: Completed(dfa.states[i]) == {it} ==> forAll[i] == Some(ReduceBy(it))
      ensures conflict <==> Inadequate(dfa, View(), i)
    {
      conflict := false;
      var rest := dfa.states[i];
      ghost var completed: set<Item> := {};
      while rest != {}
        invariant rest <= dfa.states[i] && completed == Completed(dfa.states[i] - rest)
        invariant |forAll| == |old(forAll)| && forall k :: 0 <= k < |forAll| && k != i ==> forAll[k] == old(forAll)[k]
        invariant forAll[i] == None <==> completed == {}
        invariant forall it :: completed == {it} ==> forAll[i] == Some(ReduceBy(it))
        invariant conflict <==> |completed| > 1 || (completed != {} && !RowEmpty(View(), i))
        decreases rest
      {
        var item :| item in rest;
        rest := rest - {item};
        assert Completed(dfa.states[i] - rest) == completed + (if item.mark == |item.rhs| then {item} else {});
        if item.mark == |item.rhs| {
          assert item !in completed;
          ghost var earlier := completed;
          completed := completed + {item};
          assert |completed| == |earlier| + 1;
          var reduce := ReduceBy(item);
          if forAll[i].Some? {
            assert |earlier| > 0;
            reduce := Conflicting(forAll[i].value, reduce);
            conflict := true;
          }
          forAll := forAll[i := Some(reduce)];
          if !RowIsEmpty(i) {
            conflict := true;
          }
        }
      }
      assert dfa.states[i] - rest == dfa.states[i];
    }

    /** Enter `action` for every lookahead symbol in `fs`; the result tells whether a cell was taken. */
    method TerminalsPut(i: nat, fs: set<Symbol>, action: Action) returns (conflict: bool)
      requires i < |tmap|
      modifies this`tmap
      ensures |tmap| == |old(tmap)| && forall k :: 0 <= k < |tmap| && k != i ==> tmap[k] == old(tmap)[k]
      ensures !conflict ==> tmap[i].Keys == old(tmap)[i].Keys + fs
      ensures !conflict ==> forall x :: x in tmap[i] ==>
        if x in old(tmap)[i] then tmap[i][x] == old(tmap)[i][x] && (x in fs ==> tmap[i][x] == action) else tmap[i][x] == action
      ensures conflict <==> exists x :: x in fs && x in old(tmap)[i] && old(tmap)[i][x] != action
    {
      conflict := false;
      var row := tmap[i];
      var rest := fs;
      while rest != {}
        invariant rest <= fs
        invariant |tmap| == |old(tmap)| && tmap[i].Keys == row.Keys + (fs - rest)
        invariant forall x :: x in tmap[i] ==> x in rest || x !in fs ==> x in row && tmap[i][x] == row[x]
        invariant !conflict ==> forall x :: x in fs - rest ==> tmap[i][x] == action && (x in row ==> row[x] == action)
        invariant conflict ==> exists x :: x in fs && x in row && row[x] != action
        invariant forall k :: 0 <= k < |tmap| && k != i ==> tmap[k] == old(tmap)[k]
        decreases rest
      {
        var x :| x in rest;
        rest := rest - {x};
        if x in tmap[i] && tmap[i][x] != action {
          tmap := tmap[i := tmap[i][x := Conflicting(tmap[i][x], action)]];
          conflict := true;
        } else {
          tmap := tmap[i := tmap[i][x := action]];
        }
      }
    }

    /** Give every inadequate state its reductions under lookahead instead of the ones for any lookahead.
        `look(i, item)` lists the follow sets that contribute to the lookahead of `item` in state `i`; nothing is
        assumed about them.  If no state is inadequate afterwards, the table can drive the engine. */
    method ReplaceForAll(g: Grammar, dfa: Dfa, look: (nat, Item) -> seq<set<Symbol>>)
      requires Augmented(g, start) && IsDfa(g, start, dfa)
      requires IsLr0(start, dfa, View(), inadeq)
      requires forall i, item, k, x :: 0 <= k < |look(i, item)| && x in look(i, item)[k] ==> !x.Nt?
      modifies this
      ensures forall i :: i in inadeq <==> i in old(inadeq) && i < |dfa.states| && Clash(dfa, look, i)
      ensures inadeq == [] ==> TableOk(start, dfa, View())
      ensures inadeq == [] ==> forall i :: i in old(inadeq) ==>
        i < |dfa.states| && forAll[i] == None && Refined(dfa, look, i, old(tmap)[i], tmap[i])
      ensures |forAll| == |old(forAll)| && forall i :: 0 <= i < |forAll| && i !in old(inadeq) ==> forAll[i] == old(forAll)[i]
    {
      hide Lr0Row, RowOk, Consistent, Refined, Inadequate, Clash;
      var todo: seq<nat> := inadeq;
      inadeq := [];
      ghost var done: set<nat> := {};
      forall i | 0 <= i < |dfa.states| && i !in todo ensures RowOk(start, dfa, View(), i) {
        AdequateRowOk(start, dfa, View(), i);
      }
      while todo != []
        invariant Replacing(start, dfa, look, View(), inadeq, todo, old(inadeq), old(tmap))
        invariant forall i :: i in old(inadeq) <==> i in todo || i in done
        invariant |forAll| == |old(forAll)| && forall i :: 0 <= i < |forAll| && i !in old(inadeq) ==> forAll[i] == old(forAll)[i]
        invariant forall i :: i in done ==> i < |dfa.states|
        invariant forall i :: i in inadeq <==> i in done && Clash(dfa, look, i)
        decreases |todo|
      {
        var state := todo[0];
        ghost var before, inadeq0 := View(), inadeq;
        assert Items(g, dfa.states[state]);
        var conflict := Refine(dfa, state, look);
        if conflict {
          inadeq := [state] + inadeq;
        }
        ReplacedOne(start, dfa, look, before, View(), inadeq0, inadeq, todo, old(inadeq), old(tmap));
        assert forall i :: i in todo <==> i == state || i in todo[1..];
        todo, done := todo[1..], done + {state};
      }
    }

    /** One inadequate state: drop the reduction for any lookahead, enter the ones under lookahead. */
    method Refine(dfa: Dfa, i: nat, look: (nat, Item) -> seq<set<Symbol>>) returns (conflict: bool)
      requires SameSize(View(), |dfa.states|) && i < |dfa.states| && Lr0Row(start, dfa, View(), i)
      requires forall it :: it in dfa.states[i] ==> it.mark <= |it.rhs|
      requires forall i, item, k, x :: 0 <= k < |look(i, item)| && x in look(i, item)[k] ==> !x.Nt?
      modifies this`tmap, this`forAll
      ensures SameSize(View(), |dfa.states|)
      ensures forall k :: 0 <= k < |dfa.states| && k != i ==> tmap[k] == old(tmap)[k] && forAll[k] == old(forAll)[k]
      ensures !conflict ==> RowOk(start, dfa, View(), i)
      ensures conflict <==> Clash(dfa, look, i)
      ensures forAll[i] == None && (!conflict ==> Refined(dfa, look, i, old(tmap)[i], tmap[i]))
    {
      hide ShiftsOk, Lr0Row, Clash;
      LooseRow(start, dfa, View(), i);
      OnlyShifts(start, dfa, View(), i);
      ghost var before := View();
      conflict := false;
      forAll := forAll[i := None];
      var rest := dfa.states[i];
      while rest != {}
        invariant rest <= dfa.states[i] && SameSize(View(), |dfa.states|) && forAll == old(forAll)[i := None]
        invariant forall k :: 0 <= k < |dfa.states| && k != i ==> tmap[k] == old(tmap)[k]
        invariant !conflict ==> RowOk(start, dfa, View(), i) && RowGrown(dfa, look, i, old(tmap)[i], tmap[i])
        invariant !conflict ==> forall it :: it in Completed(dfa.states[i]) - rest ==>
          Covered(tmap[i], look(i, it), |look(i, it)|, ReduceBy(it))
        invariant conflict ==> Clash(dfa, look, i)
        decreases rest
      {
        var item :| item in rest;
        rest := rest - {item};
        if item.mark >= |item.rhs| && !conflict {
          ghost var row := tmap[i];
          conflict := EnterReductions(dfa, i, item, look, old(tmap)[i]);
          if !conflict {
            forall it | it in Completed(dfa.states[i]) - rest ensures Covered(tmap[i], look(i, it), |look(i, it)|, ReduceBy(it)) {
              assert it != item ==> Covered(row, look(i, it), |look(i, it)|, ReduceBy(it));
            }
          }
        } else if item.mark >= |item.rhs| {
          EnterMore(i, item, look);
        }
      }
      if !conflict {
        RefinedNoClash(start, dfa, look, i, before, tmap[i]);
      }
    }

    /** The reduction by one item, for every lookahead symbol that indicates it. */
    method EnterReductions(dfa: Dfa, i: nat, item: Item, look: (nat, Item) -> seq<set<Symbol>>, ghost row0: map<Symbol, Action>)
      returns (conflict: bool)
      requires SameSize(View(), |dfa.states|) && i < |dfa.states| && item in Completed(dfa.states[i])
      requires RowOk(start, dfa, View(), i) && forAll[i] == None && RowGrown(dfa, look, i, row0, tmap[i])
      requires forall x :: x in row0 ==> IsShift(dfa.transitions, i, x, row0[x])
      requires forall k, x :: 0 <= k < |look(i, item)| && x in look(i, item)[k] ==> !x.Nt?
      modifies this`tmap
      ensures |tmap| == |old(tmap)| && forall k :: 0 <= k < |tmap| && k != i ==> tmap[k] == old(tmap)[k]
      ensures !conflict ==> RowOk(start, dfa, View(), i) && RowGrown(dfa, look, i, row0, tmap[i])
      ensures conflict ==> Clash(dfa, look, i)
      ensures !conflict ==> Covered(tmap[i], look(i, item), |look(i, item)|, ReduceBy(item))
      ensures !conflict ==> forall x :: x in old(tmap)[i] ==> x in tmap[i] && tmap[i][x] == old(tmap)[i][x]
    {
      hide ShiftsOk, RowGrown, Clash, FromLook, IsShift;
      assert Item(item.lhs, item.rhs, |item.rhs|) == item;
      conflict := false;
      var fss := look(i, item);
      for k := 0 to |fss|
        invariant |tmap| == |old(tmap)| && forall k :: 0 <= k < |tmap| && k != i ==> tmap[k] == old(tmap)[k]
        invariant !conflict ==> RowOk(start, dfa, View(), i) && RowGrown(dfa, look, i, row0, tmap[i])
        invariant !conflict ==> Covered(tmap[i], fss, k, ReduceBy(item))
        invariant conflict ==> Clash(dfa, look, i)
        invariant !conflict ==> forall x :: x in old(tmap)[i] ==> x in tmap[i] && tmap[i][x] == old(tmap)[i][x]
      {
        ghost var row := tmap[i];
        var taken := TerminalsPut(i, fss[k], ReduceBy(item));
        if taken {
          if !conflict {
            TakenClashes(dfa, look, i, row0, row, item, k);
          }
          conflict := true;
        }
        if !conflict {
          assert forall x :: x in tmap[i] ==> x in row || x in look(i, item)[k];
          GrowMore(dfa, look, i, row0, row, tmap[i], item, k);
          ShiftsKept(start, dfa.transitions, i, ntmap[i], row, tmap[i]);
        }
      }
    }

    /** After a conflict the remaining cells are entered all the same. */
    method EnterMore(i: nat, item: Item, look: (nat, Item) -> seq<set<Symbol>>)
      requires i < |tmap|
      modifies this`tmap
      ensures |tmap| == |old(tmap)| && forall k :: 0 <= k < |tmap| && k != i ==> tmap[k] == old(tmap)[k]
    {
      var fss := look(i, item);
      for k := 0 to |fss|
        invariant |tmap| == |old(tmap)| && forall k :: 0 <= k < |tmap| && k != i ==> tmap[k] == old(tmap)[k]
      {
        var _ := TerminalsPut(i, fss[k], ReduceBy(item));
      }
    }
  }

  /** The invariant of the replacement: the states in `todo` are as the LR(0) table left them, and unless a
      conflict turned up, every other row is fit for the engine. */
  ghost predicate Replacing(start: nat, dfa: Dfa, look: (nat, Item) -> seq<set<Symbol>>, rows: Rows, inadeq: seq<nat>, todo: seq<nat>,
                            all: seq<nat>, tmap0: seq<map<Symbol, Action>>) {
    && SameSize(rows, |dfa.states|) && |tmap0| == |dfa.states|
    && (forall k :: 0 <= k < |todo| ==> todo[k] < |dfa.states| && todo[k] in all)
    && (forall k :: 0 <= k < |todo| ==> Lr0Row(start, dfa, rows, todo[k]) && rows.tmap[todo[k]] == tmap0[todo[k]])
    && (forall k, l :: 0 <= k < l < |todo| ==> todo[k] != todo[l])
    && (inadeq == [] ==> forall i :: 0 <= i < |dfa.states| && i !in todo ==> RowOk(start, dfa, rows, i))
    && (inadeq == [] ==> forall i :: i in all && i !in todo ==>
          i < |dfa.states| && rows.forAll[i] == None && Refined(dfa, look, i, tmap0[i], rows.tmap[i]))
  }

  lemma OnlyShifts(start: nat, dfa: Dfa, rows: Rows, i: nat)
    requires SameSize(rows, |dfa.states|) && i < |dfa.states| && Lr0Row(start, dfa, rows, i)
    ensures forall x :: x in rows.tmap[i] ==> IsShift(dfa.transitions, i, x, rows.tmap[i][x])
  {
    hide ShiftsOk, IsShift;
  }

  /** A cell that is taken is taken by a shift or by a reduction under lookahead. */
  lemma TakenClashes(dfa: Dfa, look: (nat, Item) -> seq<set<Symbol>>, i: nat, row0: map<Symbol, Action>, row: map<Symbol, Action>,
                     it: Item, k: nat)
    requires i < |dfa.states| && RowGrown(dfa, look, i, row0, row) && forall x :: x in row0 ==> IsShift(dfa.transitions, i, x, row0[x])
    requires it in Completed(dfa.states[i]) && k < |look(i, it)|
    requires exists x :: x in look(i, it)[k] && x in row && row[x] != ReduceBy(it)
    ensures Clash(dfa, look, i)
  {
    hide IsShift;
    var x :| x in look(i, it)[k] && x in row && row[x] != ReduceBy(it);
    var a, b := ReduceBy(it), row[x];
    assert FromLook(dfa, look, i, x, a);
    assert FromLook(dfa, look, i, x, b) || IsShift(dfa.transitions, i, x, b);
  }

  /** Where all reductions are entered beside all shifts, no two actions compete. */
  lemma RefinedNoClash(start: nat, dfa: Dfa, look: (nat, Item) -> seq<set<Symbol>>, i: nat, rows: Rows, row': map<Symbol, Action>)
    requires SameSize(rows, |dfa.states|) && i < |dfa.states| && Lr0Row(start, dfa, rows, i)
    requires forall item, k, x :: 0 <= k < |look(i, item)| && x in look(i, item)[k] ==> !x.Nt?
    requires Refined(dfa, look, i, rows.tmap[i], row')
    ensures !Clash(dfa, look, i)
  {
    forall x, a, b | FromLook(dfa, look, i, x, a) && (FromLook(dfa, look, i, x, b) || IsShift(dfa.transitions, i, x, b)) ensures a == b {
      EnteredAt(dfa, look, i, rows.tmap[i], row', x, a);
      if FromLook(dfa, look, i, x, b) {
        EnteredAt(dfa, look, i, rows.tmap[i], row', x, b);
      } else {
        assert false;
      }
    }
  }

  lemma EnteredAt(dfa: Dfa, look: (nat, Item) -> seq<set<Symbol>>, i: nat, row: map<Symbol, Action>, row': map<Symbol, Action>, x: Symbol, a: Action)
    requires i < |dfa.states| && Refined(dfa, look, i, row, row') && FromLook(dfa, look, i, x, a)
    requires forall item, k, x :: 0 <= k < |look(i, item)| && x in look(i, item)[k] ==> !x.Nt?
    ensures x in row' && row'[x] == a && !x.Nt?
  {
    hide RowGrown;
    var it, k :| it in Completed(dfa.states[i]) && 0 <= k < |look(i, it)| && x in look(i, it)[k] && a == ReduceBy(it);
    assert Covered(row', look(i, it), |look(i, it)|, ReduceBy(it));
  }

  lemma ReplacedOne(start: nat, dfa: Dfa, look: (nat, Item) -> seq<set<Symbol>>, rows: Rows, rows': Rows, inadeq: seq<nat>, inadeq': seq<nat>,
                    todo: seq<nat>, all: seq<nat>, tmap0: seq<map<Symbol, Action>>)
    requires todo != [] && Replacing(start, dfa, look, rows, inadeq, todo, all, tmap0)
    requires SameSize(rows', |dfa.states|) && rows'.ntmap == rows.ntmap
    requires forall k :: 0 <= k < |dfa.states| && k != todo[0] ==> rows'.tmap[k] == rows.tmap[k] && rows'.forAll[k] == rows.forAll[k]
    requires inadeq' == inadeq || inadeq' == [todo[0]] + inadeq
    requires inadeq' == inadeq ==> RowOk(start, dfa, rows', todo[0]) && rows'.forAll[todo[0]] == None
    requires inadeq' == inadeq ==> Refined(dfa, look, todo[0], rows.tmap[todo[0]], rows'.tmap[todo[0]])
    ensures Replacing(start, dfa, look, rows', inadeq', todo[1..], all, tmap0)
  {
    hide ShiftsOk, Completed, IsReduction, IsShift, Refined;
    var rest := todo[1..];
    assert forall i :: i in todo <==> i == todo[0] || i in rest;
    forall k | 0 <= k < |rest| ensures Lr0Row(start, dfa, rows', rest[k]) && rows'.tmap[rest[k]] == tmap0[rest[k]] {
      assert rest[k] == todo[k + 1];
      assert Lr0Row(start, dfa, rows, todo[k + 1]);
    }
    if inadeq' == [] {
      forall i | 0 <= i < |dfa.states| && i !in rest ensures RowOk(start, dfa, rows', i) {
        assert i != todo[0] ==> RowOk(start, dfa, rows, i);
      }
    }
  }

  /** Without its reduction for any lookahead, an LR(0) row is harmless. */
  lemma LooseRow(start: nat, dfa: Dfa, rows: Rows, i: nat)
    requires SameSize(rows, |dfa.states|) && i < |dfa.states| && Lr0Row(start, dfa, rows, i)
    ensures RowOk(start, dfa, rows.(forAll := rows.forAll[i := None]), i)
  {
    hide ShiftsOk;
  }

  /** The first `k` follow sets have their cells. */
  ghost predicate Covered(row: map<Symbol, Action>, fss: seq<set<Symbol>>, k: nat, a: Action)
    requires k <= |fss|
  {
    forall m, x :: 0 <= m < k && x in fss[m] ==> x in row && row[x] == a
  }

  ghost predicate FromLook(dfa: Dfa, look: (nat, Item) -> seq<set<Symbol>>, i: nat, x: Symbol, a: Action)
    requires i < |dfa.states|
  {
    exists it, k :: it in Completed(dfa.states[i]) && 0 <= k < |look(i, it)| && x in look(i, it)[k] && a == ReduceBy(it)
  }

  /** Two actions compete for the same lookahead symbol in state `i`: a reduction, and a shift or another reduction. */
  ghost predicate Clash(dfa: Dfa, look: (nat, Item) -> seq<set<Symbol>>, i: nat)
    requires i < |dfa.states|
  {
    exists x, a, b :: FromLook(dfa, look, i, x, a) && a != b && (FromLook(dfa, look, i, x, b) || IsShift(dfa.transitions, i, x, b))
  }

  /** The old cells are there, and every new one is a reduction under its lookahead. */
  ghost predicate RowGrown(dfa: Dfa, look: (nat, Item) -> seq<set<Symbol>>, i: nat, row: map<Symbol, Action>, row': map<Symbol, Action>)
    requires i < |dfa.states|
  {
    && (forall x :: x in row ==> x in row' && row'[x] == row[x])
    && (forall x :: x in row' && x !in row ==> FromLook(dfa, look, i, x, row'[x]))
  }

  /** The row has its old cells and exactly the reductions the lookahead indicates. */
  ghost predicate Refined(dfa: Dfa, look: (nat, Item) -> seq<set<Symbol>>, i: nat, row: map<Symbol, Action>, row': map<Symbol, Action>)
    requires i < |dfa.states|
  {
    && RowGrown(dfa, look, i, row, row')
    && forall it :: it in Completed(dfa.states[i]) ==> Covered(row', look(i, it), |look(i, it)|, ReduceBy(it))
  }

  /** Rows while the shifts are being entered. */
  ghost predicate ShiftRow(start: nat, ts: seq<Transition>, i: nat, nt: map<nat, Action>, tm: map<Symbol, Action>) {
    ShiftsOk(start, ts, i, nt, tm) && forall x :: x in tm ==> IsShift(ts, i, x, tm[x])
  }

  lemma ShiftRowStep(start: nat, ts: seq<Transition>, t: Transition, i: nat, nt: map<nat, Action>, tm: map<Symbol, Action>,
                     nt': map<nat, Action>, tm': map<Symbol, Action>)
    requires ShiftRow(start, ts, i, nt, tm)
    requires forall u :: u in ts ==> u.from != t.from || u.symbol != t.symbol
    requires !(t.from == 0 && t.symbol == Nt(start))
    requires nt' == if i == t.from && t.symbol.Nt? then PutEntry(nt, t.symbol.id, Shift(State(t.to))) else nt
    requires tm' == if i == t.from && !t.symbol.Nt? then tm[t.symbol := Shift(State(t.to))] else tm
    ensures ShiftRow(start, ts + [t], i, nt', tm')
  {
    forall b: nat, j: nat | HasTransition(ts + [t], i, Nt(b), j) ensures ShiftCell(nt', b, j) {
      assert HasTransition(ts, i, Nt(b), j) || Transition(i, Nt(b), j) == t;
    }
    forall x: Symbol, j: nat | HasTransition(ts + [t], i, x, j) && !x.Nt? ensures ShiftCell(tm', x, j) {
      assert HasTransition(ts, i, x, j) || Transition(i, x, j) == t;
    }
  }

  lemma ShiftRowMeans(start: nat, ts: seq<Transition>, i: nat, nt: map<nat, Action>, tm: map<Symbol, Action>)
    requires ShiftRow(start, ts, i, nt, tm)
    ensures ShiftsOk(start, ts, i, nt, tm) && forall x :: x in tm ==> IsShift(ts, i, x, tm[x])
  {
  }

  lemma InitialState(g: Grammar, start: nat, dfa: Dfa)
    requires Augmented(g, start) && IsDfa(g, start, dfa)
    ensures |dfa.states| > 0
  {
  }

  lemma FirstShiftRow(start: nat, i: nat)
    ensures ShiftRow(start, [], i, if i == 0 then PutEntry(map[], start, Shift(Success)) else map[], map[])
  {
  }

  /** The transitions before the `k`-th have other edges, and none reads the start symbol. */
  lemma EdgeIsNew(g: Grammar, start: nat, dfa: Dfa, k: nat)
    requires Augmented(g, start) && IsDfa(g, start, dfa) && k < |dfa.transitions|
    ensures dfa.transitions[k].from < |dfa.states| && dfa.transitions[k].symbol != Nt(start)
    ensures forall u :: u in dfa.transitions[..k] ==> u.from != dfa.transitions[k].from || u.symbol != dfa.transitions[k].symbol
  {
    hide Closure;
    var t := dfa.transitions[k];
    assert GoodTransition(g, dfa.states, t);
    var it :| it in dfa.states[t.from] && AfterMark(it) == Some(t.symbol);
    assert Items(g, dfa.states[t.from]) && IsItem(g, it);
    assert it.rhs[it.mark] in it.rhs;
    forall u | u in dfa.transitions[..k] ensures u.from != t.from || u.symbol != t.symbol {
      var l :| 0 <= l < k && dfa.transitions[l] == u;
      assert !SameEdge(dfa.transitions[l], dfa.transitions[k]);
    }
  }

  lemma AdequateRowOk(start: nat, dfa: Dfa, rows: Rows, i: nat)
    requires SameSize(rows, |dfa.states|) && i < |dfa.states|
    requires Lr0Row(start, dfa, rows, i) && !Inadequate(dfa, rows, i)
    ensures RowOk(start, dfa, rows, i)
  {
    hide ShiftsOk;
    var c := Completed(dfa.states[i]);
    if c != {} {
      var it :| it in c;
      assert |c - {it}| == |c| - 1;
      assert c == {it};
    }
  }

  lemma GrowMore(dfa: Dfa, look: (nat, Item) -> seq<set<Symbol>>, i: nat, row0: map<Symbol, Action>, row: map<Symbol, Action>,
                 row': map<Symbol, Action>, it: Item, k: nat)
    requires i < |dfa.states| && RowGrown(dfa, look, i, row0, row)
    requires it in Completed(dfa.states[i]) && k < |look(i, it)| && row'.Keys == row.Keys + look(i, it)[k]
    requires forall x :: x in row' ==> row'[x] == if x in row then row[x] else ReduceBy(it)
    ensures RowGrown(dfa, look, i, row0, row')
  {
    forall x | x in row' && x !in row0 ensures FromLook(dfa, look, i, x, row'[x]) {
      if x in row {
        assert FromLook(dfa, look, i, x, row[x]);
      }
    }
  }

  /** Adding cells for lookahead symbols that were free leaves the shifts alone. */
  lemma ShiftsKept(start: nat, ts: seq<Transition>, i: nat, nt: map<nat, Action>, tm: map<Symbol, Action>, tm': map<Symbol, Action>)
    requires ShiftsOk(start, ts, i, nt, tm)
    requires tm.Keys <= tm'.Keys && (forall x :: x in tm ==> tm'[x] == tm[x]) && forall x :: x in tm' ==> x in tm || !x.Nt?
    ensures ShiftsOk(start, ts, i, nt, tm')
  {
  }
}
