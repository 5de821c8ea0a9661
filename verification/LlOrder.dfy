/** The FOLLOW sets may depend on the order in which the nonterminals are walked: S -> A '!' | B '?', A -> 'x' B | "",
    B -> 'y' A | "".  The grammar is strong LL(1), productive and without left recursion, but if A is walked before S,
    what follows B is entered while the set of A is still empty, and "x!" is rejected. */
module LlOrder {
  import opened Basics
  import opened ByteStream
  import opened FirstFollow
  import opened FollowSets
  import opened Grammar
  import opened GrammarAnalysis
  import opened Languages
  import opened LlComplete
  import opened LlDriver
  import opened LlFollow
  import opened LlParse
  import opened LlRows
  import opened LlSentences
  import opened LlTable
  import opened Nullable
  import opened StringSet
  import opened Texts

  const X: byte := 120
  const Y: byte := 121
  const BANG: byte := 33
  const QUERY: byte := 63

  const CROSSED: Grammar := [
    ChoiceRule([[Char(X), Nt(1)], []]),
    ChoiceRule([[Char(Y), Nt(0)], []]),
    ChoiceRule([[Nt(0), Char(BANG)], [Nt(1), Char(QUERY)]])]

  /** A, B and S; and S, A and B. */
  const LATE: seq<nat> := [0, 1, 2]
  const EARLY: seq<nat> := [2, 0, 1]

  lemma Productions(a: nat, rhs: seq<Symbol>)
    ensures IsProduction(CROSSED, a, rhs) <==>
      || (a == 0 && (rhs == [Char(X), Nt(1)] || rhs == []))
      || (a == 1 && (rhs == [Char(Y), Nt(0)] || rhs == []))
      || (a == 2 && (rhs == [Nt(0), Char(BANG)] || rhs == [Nt(1), Char(QUERY)]))
  {
  }

  // ----- what the tails begin with

  lemma EmptyTail(g: Grammar)
    ensures Begins(g, []) == iset{} && Vanishes(g, [])
  {
    NothingYields(g);
    assert forall x :: !BeginsSome(g, [], x);
  }

  lemma ByteTail(g: Grammar, c: byte)
    ensures Begins(g, [Char(c)]) == iset{Char(c)} && !Vanishes(g, [Char(c)])
  {
    TerminalYields(g, Char(c));
    assert [Char(c)] in YieldsOf(g, [Char(c)]);
    assert BeginsSome(g, [Char(c)], Char(c));
    assert forall x :: BeginsSome(g, [Char(c)], x) ==> x == Char(c);
  }

  /** A production with a byte in it does not vanish. */
  lemma ByteStays(g: Grammar, s: seq<Symbol>, k: nat)
    requires k < |s| && s[k].Char?
    ensures !Vanishes(g, s)
    decreases k
  {
    hide Yields;
    YieldsOfCons(g, s);
    if k == 0 {
      TerminalYields(g, s[0]);
    } else {
      ByteStays(g, s[1..], k - 1);
    }
  }

  lemma {:induction false} NoOccurrence(g: Grammar, start: nat, order: seq<nat>, memo: Memo, x: nat, a: nat, s: seq<Symbol>)
    requires x in memo && a < |g| && Nt(x) !in s
    ensures OverSyms(g, start, order, memo, x, a, s) == memo
    decreases |s|
  {
    if s != [] {
      NoOccurrence(g, start, order, memo, x, a, s[1..]);
    }
  }

  // ----- the sets, step by step

  /** The productions of one nonterminal, walked for `x`: what the tails add. */
  lemma WalkProds(order: seq<nat>, memo: Memo, x: nat, a: nat)
    requires x in memo && x < 2 && a < 3
    ensures OverProds(CROSSED, 2, order, memo, x, a, CROSSED[a].prods) ==
      if a == 2 then memo[x := memo[x] + iset{Char(if x == 0 then BANG else QUERY)}]
      else if a == x then memo
      else var mid := FollowRun(CROSSED, 2, order, memo, a); mid[x := mid[x] + mid[a]]
  {
    hide FollowRun;
    var p, q := CROSSED[a].prods[0], CROSSED[a].prods[1];
    EmptyTail(CROSSED);
    ByteTail(CROSSED, BANG);
    ByteTail(CROSSED, QUERY);
    var mid := OverSyms(CROSSED, 2, order, memo, x, a, p);
    assert CROSSED[a].prods == [p, q] && [p, q][1..] == [q] && [q][1..] == [];
    assert OverProds(CROSSED, 2, order, memo, x, a, [p, q]) == OverProds(CROSSED, 2, order, mid, x, a, [q]);
    var end := OverSyms(CROSSED, 2, order, mid, x, a, q);
    assert OverProds(CROSSED, 2, order, mid, x, a, [q]) == end by {
      assert OverProds(CROSSED, 2, order, end, x, a, []) == end;
    }
    WalkSyms(order, memo, x, a, 0);
    WalkSyms(order, mid, x, a, 1);
  }

  lemma WalkSyms(order: seq<nat>, memo: Memo, x: nat, a: nat, i: nat)
    requires x in memo && x < 2 && a < 3 && i < 2
    ensures OverSyms(CROSSED, 2, order, memo, x, a, CROSSED[a].prods[i]) ==
      if a == 2 then if i == x then memo[x := memo[x] + iset{Char(if x == 0 then BANG else QUERY)}] else memo
      else if i == 1 || a == x then memo
      else var mid := FollowRun(CROSSED, 2, order, memo, a); mid[x := mid[x] + mid[a]]
  {
    hide FollowRun;
    var s := CROSSED[a].prods[i];
    EmptyTail(CROSSED);
    ByteTail(CROSSED, BANG);
    ByteTail(CROSSED, QUERY);
    if Nt(x) !in s {
      NoOccurrence(CROSSED, 2, order, memo, x, a, s);
    } else if a == 2 {
      var looks := iset{Char(if x == 0 then BANG else QUERY)};
      assert s[1..] == [Char(if x == 0 then BANG else QUERY)];
      assert memo[x] + looks + iset{} == memo[x] + looks;
      NoOccurrence(CROSSED, 2, order, Occurrence(CROSSED, 2, order, memo, x, a, s[1..]), x, a, s[1..]);
    } else {
      assert s[1..] == [Nt(x)] && s[1..][1..] == [];
      var r := Occurrence(CROSSED, 2, order, memo, x, a, []);
      assert OverSyms(CROSSED, 2, order, memo, x, a, s) == OverSyms(CROSSED, 2, order, memo, x, a, [Nt(x)]);
      assert OverSyms(CROSSED, 2, order, memo, x, a, [Nt(x)]) == OverSyms(CROSSED, 2, order, r, x, a, []);
      var mid := FollowRun(CROSSED, 2, order, memo, a);
      assert mid[x] + iset{} + mid[a] == mid[x] + mid[a];
    }
  }

  /** One nonterminal of the order. */
  lemma Walk(order: seq<nat>, memo: Memo, x: nat, rest: seq<nat>)
    requires x in memo && x < 2 && rest != [] && rest[0] < 3
    ensures OverAll(CROSSED, 2, order, memo, x, rest) ==
      var a := rest[0];
      var mid := if a == 2 || a == x then memo else FollowRun(CROSSED, 2, order, memo, a);
      var looks := if a == 2 then iset{Char(if x == 0 then BANG else QUERY)} else if a == x then iset{} else mid[a];
      OverAll(CROSSED, 2, order, if a == x then memo else mid[x := mid[x] + looks], x, rest[1..])
  {
    hide FollowRun, OverProds;
    WalkProds(order, memo, x, rest[0]);
  }

  lemma Ask(order: seq<nat>, memo: Memo, x: nat)
    requires x < 2
    ensures FollowRun(CROSSED, 2, order, memo, x) == if x in memo then memo else OverAll(CROSSED, 2, order, memo[x := iset{}], x, order)
  {
    hide OverAll;
  }

  lemma Stop(order: seq<nat>, memo: Memo, x: nat)
    requires x in memo
    ensures OverAll(CROSSED, 2, order, memo, x, []) == memo
  {
  }

  /** The set of B is asked for while that of A is being filled. */
  lemma AskInside(order: seq<nat>, first: Looks)
    requires order == LATE || order == EARLY
    ensures FollowRun(CROSSED, 2, order, map[0 := first], 1) == map[0 := first, 1 := first + iset{Char(QUERY)}]
  {
    hide FollowRun, OverAll;
    var begun: Memo := map[0 := first, 1 := iset{}];
    Ask(order, map[0 := first], 1);
    assert map[0 := first][1 := iset{}] == begun;
    if order == LATE {
      assert LATE[1..] == [1, 2] && [1, 2][1..] == [2] && [2][1..] == [];
      Walk(order, begun, 1, LATE);
      Ask(order, begun, 0);
      var m1 := begun[1 := iset{} + first];
      Walk(order, m1, 1, [1, 2]);
      Walk(order, m1, 1, [2]);
      Stop(order, m1[1 := m1[1] + iset{Char(QUERY)}], 1);
      assert iset{} + first + iset{Char(QUERY)} == first + iset{Char(QUERY)};
    } else {
      assert EARLY[1..] == [0, 1] && [0, 1][1..] == [1] && [1][1..] == [];
      Walk(order, begun, 1, EARLY);
      var m1 := begun[1 := iset{} + iset{Char(QUERY)}];
      Walk(order, m1, 1, [0, 1]);
      Ask(order, m1, 0);
      var m2 := m1[1 := m1[1] + first];
      Walk(order, m2, 1, [1]);
      Stop(order, m2, 1);
      assert iset{} + iset{Char(QUERY)} + first == first + iset{Char(QUERY)};
    }
  }

  lemma AskLate()
    ensures FollowRun(CROSSED, 2, LATE, map[], 0) == map[0 := iset{Char(BANG), Char(QUERY)}, 1 := iset{Char(QUERY)}]
  {
    hide FollowRun, OverAll;
    var begun: Memo := map[0 := iset{}];
    Ask(LATE, map[], 0);
    assert map[][0 := iset{}] == begun;
    assert LATE[1..] == [1, 2] && [1, 2][1..] == [2] && [2][1..] == [];
    Walk(LATE, begun, 0, LATE);
    AskInside(LATE, iset{});
    assert iset{} + iset{Char(QUERY)} == iset{Char(QUERY)};
    Walk(LATE, begun, 0, [1, 2]);
    var mid: Memo := map[0 := iset{}, 1 := iset{} + iset{Char(QUERY)}];
    var m1: Memo := map[0 := iset{Char(QUERY)}, 1 := iset{Char(QUERY)}];
    assert mid[0 := mid[0] + mid[1]] == m1;
    Walk(LATE, m1, 0, [2]);
    Stop(LATE, m1[0 := m1[0] + iset{Char(BANG)}], 0);
    assert iset{Char(QUERY)} + iset{Char(BANG)} == iset{Char(BANG), Char(QUERY)};
  }

  lemma AskEarly()
    ensures FollowRun(CROSSED, 2, EARLY, map[], 0) == map[0 := iset{Char(BANG), Char(QUERY)}, 1 := iset{Char(BANG), Char(QUERY)}]
  {
    hide FollowRun, OverAll;
    var begun: Memo := map[0 := iset{}];
    Ask(EARLY, map[], 0);
    assert map[][0 := iset{}] == begun;
    assert EARLY[1..] == [0, 1] && [0, 1][1..] == [1] && [1][1..] == [];
    Walk(EARLY, begun, 0, EARLY);
    var m1: Memo := map[0 := iset{Char(BANG)}];
    assert iset{} + iset{Char(BANG)} == iset{Char(BANG)};
    assert begun[0 := begun[0] + iset{Char(BANG)}] == m1;
    Walk(EARLY, m1, 0, [0, 1]);
    AskInside(EARLY, m1[0]);
    Walk(EARLY, m1, 0, [1]);
    assert iset{Char(BANG)} + iset{Char(QUERY)} == iset{Char(BANG), Char(QUERY)};
    var mid: Memo := map[0 := iset{Char(BANG)}, 1 := iset{Char(BANG), Char(QUERY)}];
    var m2: Memo := map[0 := iset{Char(BANG), Char(QUERY)}, 1 := iset{Char(BANG), Char(QUERY)}];
    assert mid[0] + mid[1] == m2[0];
    assert mid[0 := mid[0] + mid[1]] == m2;
    Stop(EARLY, m2, 0);
  }

  lemma Vanishing()
    ensures SomeVanishes(CROSSED, 0) && SomeVanishes(CROSSED, 1) && !SomeVanishes(CROSSED, 2)
  {
    hide Vanishes;
    EmptyTail(CROSSED);
    assert Vanishes(CROSSED, CROSSED[0].prods[1]) && Vanishes(CROSSED, CROSSED[1].prods[1]);
    ByteStays(CROSSED, CROSSED[2].prods[0], 1);
    ByteStays(CROSSED, CROSSED[2].prods[1], 1);
  }

  /** The follow sets in the end. */
  lemma Memos()
    ensures FollowMemo(CROSSED, 2, LATE) == map[0 := iset{Char(BANG), Char(QUERY)}, 1 := iset{Char(QUERY)}]
    ensures FollowMemo(CROSSED, 2, EARLY) == map[0 := iset{Char(BANG), Char(QUERY)}, 1 := iset{Char(BANG), Char(QUERY)}]
  {
    hide FollowRun, SomeVanishes;
    Vanishing();
    AskLate();
    AskEarly();
    var late, early := FollowRun(CROSSED, 2, LATE, map[], 0), FollowRun(CROSSED, 2, EARLY, map[], 0);
    Ask(LATE, late, 1);
    Ask(EARLY, early, 1);
    assert LATE[1..] == [1, 2] && [1, 2][1..] == [2] && [2][1..] == [];
    assert EARLY[1..] == [0, 1] && [0, 1][1..] == [1] && [1][1..] == [];
    assert TableRun(CROSSED, 2, LATE, late, [2]) == TableRun(CROSSED, 2, LATE, late, []);
    assert TableRun(CROSSED, 2, LATE, late, [1, 2]) == TableRun(CROSSED, 2, LATE, late, [2]);
    assert TableRun(CROSSED, 2, EARLY, early, [1]) == TableRun(CROSSED, 2, EARLY, early, []);
    assert TableRun(CROSSED, 2, EARLY, map[], [0, 1]) == TableRun(CROSSED, 2, EARLY, early, [1]);
  }

  // ----- the grammar is a good one

  lemma Sentences(a: nat) returns (y: seq<Symbol>)
    requires a < 3
    ensures y in YieldsOf(CROSSED, [Nt(a)])
  {
    hide YieldsOf;
    NothingYields(CROSSED);
    if a < 2 {
      assert IsProduction(CROSSED, a, []);
      ProductionYields(CROSSED, a, []);
      y := [];
    } else {
      var v := Sentences(0);
      var s := [Nt(0), Char(BANG)];
      assert s[1..] == [Char(BANG)] && IsProduction(CROSSED, 2, s);
      TerminalYields(CROSSED, Char(BANG));
      YieldsOfCons(CROSSED, s);
      ProductionYields(CROSSED, 2, s);
      y := v + [Char(BANG)];
    }
  }

  lemma CrossedProductive()
    ensures Productive(CROSSED)
  {
    hide YieldsOf;
    forall x: Symbol | x.Nt? ==> x.id < |CROSSED| ensures exists y :: y in YieldsOf(CROSSED, [x]) {
      if x.Nt? {
        var y := Sentences(x.id);
      } else {
        TerminalYields(CROSSED, x);
        assert [x] in YieldsOf(CROSSED, [x]);
      }
    }
  }

  function Rank(a: nat): nat {
    if a == 2 then 1 else 0
  }

  lemma CrossedRanked()
    ensures Ranked(CROSSED, Rank, 2)
  {
    hide YieldsOf;
    forall a: nat, rhs: seq<Symbol> | IsProduction(CROSSED, a, rhs) ensures LeftBelow(CROSSED, Rank, rhs, Rank(a)) {
      Productions(a, rhs);
      if a < 2 && rhs != [] {
        ByteStays(CROSSED, rhs[..1], 0);
      }
    }
  }

  /** What a sentence of A or B begins with. */
  lemma Starts(a: nat, y: seq<Symbol>)
    requires a < 2 && y in YieldsOf(CROSSED, [Nt(a)])
    ensures y == [] || y[0] == Char(if a == 0 then X else Y)
  {
    hide YieldsOf;
    var rhs := ProductionOf(CROSSED, a, y);
    Productions(a, rhs);
    NothingYields(CROSSED);
    if rhs != [] {
      YieldsOfCons(CROSSED, rhs);
      TerminalYields(CROSSED, rhs[0]);
      assert [rhs[0]] == [Char(if a == 0 then X else Y)];
    }
  }

  /** What can stand behind A or B. */
  lemma {:induction false} RestStarts(n: nat, a: nat, r: seq<Symbol>)
    requires a < 2 && RestIn(CROSSED, 2, n, Nt(a), r)
    ensures r != [] && (r[0] == Char(BANG) || r[0] == Char(QUERY))
    decreases n
  {
    hide YieldsOf, RestIn;
    var b, rhs, i, ys, rs := RestBehind(CROSSED, 2, n, Nt(a), r);
    Productions(b, rhs);
    NothingYields(CROSSED);
    if b < 2 {
      assert i == 1 && rhs[2..] == [];
      assert r == rs;
      RestStarts(n - 1, b, rs);
    } else {
      assert i == 0 && rhs[1..] == [rhs[1]];
      TerminalYields(CROSSED, rhs[1]);
      assert ys == [rhs[1]];
    }
  }

  ghost predicate Possible(a: nat, i: nat, x: Symbol) {
    if a < 2 then if i == 0 then x == Char(if a == 0 then X else Y) else x == Char(BANG) || x == Char(QUERY)
    else if i == 0 then x == Char(X) || x == Char(BANG)
    else x == Char(Y) || x == Char(QUERY)
  }

  /** The symbols that can come where a production stands. */
  lemma CanCome(a: nat, i: nat, w: seq<byte>, end: bool)
    requires Comes(CROSSED, 2, 1, a, i, w, end)
    ensures a < 3 && i < 2 && Possible(a, i, if end then End else Char(w[0]))
  {
    hide YieldsOf, Rests, Cat;
    var rhs := CROSSED[a].prods[i];
    var y, z := FirstShown(YieldsOf(CROSSED, rhs), Rests(CROSSED, 2, Nt(a)), w, end);
    NothingYields(CROSSED);
    if rhs == [] {
      assert y == [];
      RestStartsOf(a, z);
    } else {
      YieldsOfCons(CROSSED, rhs);
      var u, v :| u in YieldsOf(CROSSED, [rhs[0]]) && v in YieldsOf(CROSSED, rhs[1..]) && y == u + v by {
        InCatOf(YieldsOf(CROSSED, [rhs[0]]), YieldsOf(CROSSED, rhs[1..]), y);
      }
      if a < 2 {
        TerminalYields(CROSSED, rhs[0]);
      } else {
        assert rhs[1..] == [rhs[1]];
        TerminalYields(CROSSED, rhs[1]);
        Starts(rhs[0].id, u);
      }
    }
  }

  lemma InCatOf(a: Language, b: Language, y: seq<Symbol>)
    requires y in Cat(a, b)
    ensures exists u, v :: u in a && v in b && y == u + v
  {
  }

  lemma RestStartsOf(a: nat, z: seq<Symbol>)
    requires a < 2 && z in Rests(CROSSED, 2, Nt(a))
    ensures z != [] && (z[0] == Char(BANG) || z[0] == Char(QUERY))
  {
    hide RestIn;
    var n :| RestIn(CROSSED, 2, n, Nt(a), z);
    RestStarts(n, a, z);
  }

  lemma FirstShown(a: Language, b: Language, w: seq<byte>, end: bool) returns (y: seq<Symbol>, z: seq<Symbol>)
    requires Has(1, Cat(a, b), w, end) && (end || |w| == 1)
    ensures y in a && z in b && y + z != [] && (y + z)[0] == if end then End else Char(w[0])
  {
    var x :| x in Cat(a, b) && Shows(1, w, end, x);
    y, z :| y in a && z in b && y + z == x;
    assert end ==> Chars(w) + [End] == [End];
    assert !end ==> Chars(w)[0] == Char(w[0]);
  }

  lemma CrossedDisjoint()
    ensures GenuinelyDisjoint(CROSSED, 2, 1)
  {
    hide Comes, Reached;
    forall a: nat, i: nat, j: nat, w, end | Comes(CROSSED, 2, 1, a, i, w, end) && Comes(CROSSED, 2, 1, a, j, w, end) ensures i == j {
      CanCome(a, i, w, end);
      CanCome(a, j, w, end);
    }
  }

  // ----- "x!"

  /** B stands between 'x' and '!' in a sentence. */
  lemma BetweenXAndBang()
    ensures Context(CROSSED, 2, Nt(1), [Char(X)], [Char(BANG)])
  {
    hide YieldsOf;
    NothingYields(CROSSED);
    TerminalYields(CROSSED, Char(X));
    TerminalYields(CROSSED, Char(BANG));
    var s, p := [Nt(0), Char(BANG)], [Char(X), Nt(1)];
    assert s[..0] == [] && s[1..] == [Char(BANG)] && p[..1] == [Char(X)] && p[2..] == [];
    var n1: nat, n2: nat, n3: nat := 1, 2, 3;
    var none: seq<Symbol> := [];
    assert ContextIn(CROSSED, 2, n2 - 1, Nt(2), none, none);
    assert Inside(CROSSED, 2, s, 0, Nt(0), none, [Char(BANG)]);
    assert none == none + none && [Char(BANG)] == [Char(BANG)] + none;
    assert ContextIn(CROSSED, 2, n2, Nt(0), none, [Char(BANG)]);
    assert ContextIn(CROSSED, 2, n3 - 1, Nt(0), none, [Char(BANG)]);
    assert Inside(CROSSED, 0, p, 1, Nt(1), [Char(X)], none);
    assert [Char(X)] == none + [Char(X)] && [Char(BANG)] == none + [Char(BANG)];
    assert ContextIn(CROSSED, 2, n3, Nt(1), [Char(X)], [Char(BANG)]);
  }

  /** With A walked before S, the table is built, and "x!" is a sentence that it rejects, with any hooks. */
  lemma LateRejects(log: Log, table: Table, rounds: map<nat, seq<Preds>>, h: Hooks) returns (t: Tree)
    requires Compiled(CROSSED, 2, log, table, rounds, LATE)
    ensures Productive(CROSSED) && Ranked(CROSSED, Rank, 2) && GenuinelyDisjoint(CROSSED, 2, 1)
    ensures IsSentence(CROSSED, 2, t, [X, BANG]) && Returns(CROSSED, 2, table, h, [X, BANG], None)
  {
    hide Productive, Ranked, GenuinelyDisjoint, Fits, RowExact, RoundsOf, RowWorks, FollowMemo, Context, YieldsOf, Returns, IsSentence, TellsOne, Tabled, Exact;
    CrossedProductive();
    CrossedRanked();
    CrossedDisjoint();
    CompiledTabled(CROSSED, 2, log, table, rounds, LATE);
    CompiledRounds(CROSSED, 2, log, table, rounds, LATE);
    DisjointTells(CROSSED, 2, true, log, rounds);
    BetweenXAndBang();
    NothingYields(CROSSED);
    var preds := FirstRounds(rounds);
    NotInSet(log, table, rounds);
    var none: seq<Symbol> := [];
    assert [Char(X)] + none + [Char(BANG)] == Chars([X, BANG]) + Ends(0);
    assert none + [Char(BANG)] == [Char(BANG)];
    t := RejectedAt(CROSSED, 2, table, preds, h, 1, 1, [Char(X)], none, [Char(BANG)], [X, BANG], 0);
  }

  lemma NotInSet(log: Log, table: Table, rounds: map<nat, seq<Preds>>)
    requires Compiled(CROSSED, 2, log, table, rounds, LATE)
    ensures 1 in table && 1 in rounds && rounds[1] != [] && !Indicates(rounds[1][0], 1, Char(BANG))
  {
    hide Fits, RoundsOf, RowWorks, FollowMemo, Indicates, Reached;
    assert 1 in LATE;
    CompiledRounds(CROSSED, 2, log, table, rounds, LATE);
    FirstRoundWhole(CROSSED, 2, log, 1, rounds[1]);
    Memos();
    EmptyTail(CROSSED);
    ExactIndicates(CROSSED, FollowMemo(CROSSED, 2, LATE), 1, rounds[1][0], 1, Char(BANG));
  }

  /** With S walked before A, the follow sets are complete. */
  lemma EarlyCompletes()
    ensures FollowsComplete(CROSSED, 2, FollowMemo(CROSSED, 2, EARLY)) && !FollowsComplete(CROSSED, 2, FollowMemo(CROSSED, 2, LATE))
  {
    hide FollowMemo, Vanishes, Context, RestIn, IsText;
    Memos();
    var memo := FollowMemo(CROSSED, 2, EARLY);
    Vanishing();
    forall a: nat, i: nat, x | IsChoice(CROSSED, a) && i < |CROSSED[a].prods| && Vanishes(CROSSED, CROSSED[a].prods[i]) && ComesBehind(CROSSED, 2, a, x)
      ensures x in PredictOf(CROSSED, memo, a, CROSSED[a].prods[i])
    {
      assert SomeVanishes(CROSSED, a);
      var pre, rest :| Context(CROSSED, 2, Nt(a), pre, rest) && IsText(pre + rest) && x == NextOf(rest);
      var n := ContextBound(CROSSED, 2, Nt(a), pre, rest);
      ContextRest(CROSSED, 2, n, Nt(a), pre, rest);
      RestStartsOf(a, rest + [End]);
    }
    BetweenXAndBang();
    assert [Char(X)] + [Char(BANG)] == Chars([X, BANG]) + Ends(0);
    assert IsText([Char(X)] + [Char(BANG)]) by { IsTextOf([X, BANG], 0, [Char(X)] + [Char(BANG)]); }
    assert ComesBehind(CROSSED, 2, 1, Char(BANG));
    EmptyTail(CROSSED);
    assert Char(BANG) !in PredictOf(CROSSED, FollowMemo(CROSSED, 2, LATE), 1, CROSSED[1].prods[1]);
  }

  lemma IsTextOf(text: seq<byte>, ends: nat, y: seq<Symbol>)
    requires y == Chars(text) + Ends(ends)
    ensures IsText(y)
  {
  }
}
