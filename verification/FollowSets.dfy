/** What the memoised computation of the FOLLOW sets finds with one symbol of lookahead, as a function of the order in
    which the nonterminals are walked. */
module FollowSets {
  import opened Basics
  import opened Grammar
  import opened Languages
  import opened Nullable

  type Looks = iset<Symbol>

  /** The sets entered so far, by nonterminal. */
  type Memo = map<nat, Looks>

  /** The symbols that sentences of `s` begin with. */
  ghost function Begins(g: Grammar, s: seq<Symbol>): Looks {
    iset x | BeginsSome(g, s, x)
  }

  ghost predicate BeginsSome(g: Grammar, s: seq<Symbol>, x: Symbol) {
    exists y :: y in YieldsOf(g, s) && y != [] && y[0] == x
  }

  ghost predicate Vanishes(g: Grammar, s: seq<Symbol>) {
    [] in YieldsOf(g, s)
  }

  ghost function Unseen(g: Grammar, memo: Memo): set<nat> {
    set a: nat | a < |g| && a !in memo
  }

  /** All entries are still there, except perhaps that of `x`. */
  ghost predicate GrownBut(memo: Memo, r: Memo, x: nat) {
    memo.Keys <= r.Keys && forall b :: b in memo && b != x ==> r[b] == memo[b]
  }

  ghost predicate Grown(memo: Memo, r: Memo) {
    memo.Keys <= r.Keys && forall b :: b in memo ==> r[b] == memo[b]
  }

  /** `h_follow`: the entry is made before it is filled, so what needs it meanwhile finds what is known of it so far. */
  ghost function FollowRun(g: Grammar, start: nat, order: seq<nat>, memo: Memo, x: nat): (r: Memo)
    requires x < |g|
    ensures Grown(memo, r) && x in r && Unseen(g, r) <= Unseen(g, memo)
    decreases Unseen(g, memo), 0, 0
  {
    if x in memo then memo
    else
      var begun := memo[x := if x == start then iset{End} else iset{}];
      assert x in Unseen(g, memo) && x !in Unseen(g, begun);
      OverAll(g, start, order, begun, x, order)
  }

  /** All occurrences of `x` in productions of the nonterminals `rest`. */
  ghost function OverAll(g: Grammar, start: nat, order: seq<nat>, memo: Memo, x: nat, rest: seq<nat>): (r: Memo)
    requires x in memo
    ensures GrownBut(memo, r, x) && Unseen(g, r) <= Unseen(g, memo)
    decreases Unseen(g, memo), 4, |rest|
  {
    if rest == [] then memo
    else
      var a := rest[0];
      var mid := if IsChoice(g, a) then OverProds(g, start, order, memo, x, a, g[a].prods) else memo;
      OverAll(g, start, order, mid, x, rest[1..])
  }

  ghost function OverProds(g: Grammar, start: nat, order: seq<nat>, memo: Memo, x: nat, a: nat, prods: seq<seq<Symbol>>): (r: Memo)
    requires x in memo && a < |g|
    ensures GrownBut(memo, r, x) && Unseen(g, r) <= Unseen(g, memo)
    decreases Unseen(g, memo), 3, |prods|
  {
    if prods == [] then memo
    else OverProds(g, start, order, OverSyms(g, start, order, memo, x, a, prods[0]), x, a, prods[1..])
  }

  ghost function OverSyms(g: Grammar, start: nat, order: seq<nat>, memo: Memo, x: nat, a: nat, s: seq<Symbol>): (r: Memo)
    requires x in memo && a < |g|
    ensures GrownBut(memo, r, x) && Unseen(g, r) <= Unseen(g, memo)
    decreases Unseen(g, memo), 2, |s|
  {
    if s == [] then memo
    else OverSyms(g, start, order, if s[0] == Nt(x) then Occurrence(g, start, order, memo, x, a, s[1..]) else memo, x, a, s[1..])
  }

  /** What begins the tail, and what follows `a` where the tail vanishes. */
  ghost function Occurrence(g: Grammar, start: nat, order: seq<nat>, memo: Memo, x: nat, a: nat, tail: seq<Symbol>): (r: Memo)
    requires x in memo && a < |g|
    ensures GrownBut(memo, r, x) && Unseen(g, r) <= Unseen(g, memo)
    decreases Unseen(g, memo), 1, 0
  {
    var mid := if Vanishes(g, tail) then FollowRun(g, start, order, memo, a) else memo;
    mid[x := mid[x] + Begins(g, tail) + if Vanishes(g, tail) then mid[a] else iset{}]
  }

  /** The predict set of a production: what it begins with, and what follows its nonterminal if it vanishes. */
  ghost function PredictOf(g: Grammar, memo: Memo, a: nat, rhs: seq<Symbol>): Looks {
    Begins(g, rhs) + if Vanishes(g, rhs) && a in memo then memo[a] else iset{}
  }

  /** The rows are filled in the same order; a follow set is asked for where a production vanishes. */
  ghost function TableRun(g: Grammar, start: nat, order: seq<nat>, memo: Memo, rest: seq<nat>): (r: Memo)
    ensures Grown(memo, r)
    decreases |rest|
  {
    if rest == [] then memo else TableRun(g, start, order, RowRun(g, start, order, memo, rest[0]), rest[1..])
  }

  ghost function RowRun(g: Grammar, start: nat, order: seq<nat>, memo: Memo, a: nat): (r: Memo)
    ensures Grown(memo, r)
  {
    if SomeVanishes(g, a) then FollowRun(g, start, order, memo, a) else memo
  }

  ghost predicate SomeVanishes(g: Grammar, a: nat) {
    IsChoice(g, a) && exists i :: 0 <= i < |g[a].prods| && Vanishes(g, g[a].prods[i])
  }

  /** The follow sets behind the finished table. */
  ghost function FollowMemo(g: Grammar, start: nat, order: seq<nat>): Memo {
    TableRun(g, start, order, map[], order)
  }

  // ----- closed follow sets

  /** The entry has the end of the input behind the start symbol, what begins a tail behind the nonterminal, and all that
      is entered for the owner of a tail that vanishes. */
  ghost predicate ClosedAt(g: Grammar, start: nat, order: seq<nat>, memo: Memo, x: nat)
    requires x in memo
  {
    && (x == start ==> End in memo[x])
    && forall a: nat, rhs: seq<Symbol>, j: nat :: OccursAt(g, order, a, rhs, j, x) ==> Served(g, memo, x, a, rhs[j + 1..])
  }

  ghost predicate OccursAt(g: Grammar, order: seq<nat>, a: nat, rhs: seq<Symbol>, j: nat, x: nat) {
    a in order && IsChoice(g, a) && IsProduction(g, a, rhs) && j < |rhs| && rhs[j] == Nt(x)
  }

  ghost predicate Served(g: Grammar, memo: Memo, x: nat, a: nat, tail: seq<Symbol>)
    requires x in memo
  {
    Begins(g, tail) <= memo[x] && (Vanishes(g, tail) ==> a in memo && memo[a] <= memo[x])
  }

  ghost predicate FollowClosed(g: Grammar, start: nat, order: seq<nat>, memo: Memo) {
    forall x :: x in memo ==> ClosedAt(g, start, order, memo, x)
  }

  /** The order lists the start symbol and, for every nonterminal in it, the choices in its productions. */
  ghost predicate Lists(g: Grammar, start: nat, order: seq<nat>) {
    start in order && forall a: nat, rhs: seq<Symbol>, j: nat :: a in order && IsProduction(g, a, rhs) && j < |rhs| && rhs[j].Nt? && IsChoice(g, rhs[j].id) ==> rhs[j].id in order
  }

  /** What stands in a sentence is listed. */
  lemma {:induction false} RestListed(g: Grammar, start: nat, order: seq<nat>, n: nat, a: nat, r: seq<Symbol>)
    requires Lists(g, start, order) && IsChoice(g, a) && RestIn(g, start, n, Nt(a), r)
    ensures a in order
    decreases n
  {
    hide YieldsOf, RestIn;
    if !(Nt(a) == Nt(start) && r == [End]) {
      var b, rhs, i, ys, rs := RestBehind(g, start, n, Nt(a), r);
      RestListed(g, start, order, n - 1, b, rs);
    }
  }

  /** Closed sets hold every symbol that can follow. */
  lemma {:induction false} ClosedHolds(g: Grammar, start: nat, order: seq<nat>, memo: Memo, n: nat, x: nat, r: seq<Symbol>)
    requires Lists(g, start, order) && FollowClosed(g, start, order, memo) && x in memo && RestIn(g, start, n, Nt(x), r)
    ensures r != [] && r[0] in memo[x]
    decreases n
  {
    hide YieldsOf, Lists, RestIn;
    assert ClosedAt(g, start, order, memo, x);
    if !(Nt(x) == Nt(start) && r == [End]) {
      var a, rhs, j, ys, rs := RestBehind(g, start, n, Nt(x), r);
      RestListed(g, start, order, n - 1, a, rs);
      assert OccursAt(g, order, a, rhs, j, x);
      if ys == [] {
        assert r == rs;
        ClosedHolds(g, start, order, memo, n - 1, a, rs);
      } else {
        assert BeginsSome(g, rhs[j + 1..], ys[0]);
      }
    }
  }

  // ----- when the sets are closed

  /** What follows a nonterminal does not depend on itself by way of other nonterminals: where the tail behind `x` vanishes,
      the owner of the production has a smaller rank, unless it is `x`. */
  ghost predicate FollowRanked(g: Grammar, order: seq<nat>, rank: nat -> nat) {
    forall a: nat, rhs: seq<Symbol>, j: nat, x: nat :: OccursAt(g, order, a, rhs, j, x) && Vanishes(g, rhs[j + 1..]) && a != x ==> rank(a) < rank(x)
  }

  /** All entries are closed, but for those that are being filled. */
  ghost predicate ClosedBut(g: Grammar, start: nat, order: seq<nat>, memo: Memo, open: set<nat>) {
    open <= memo.Keys && forall x :: x in memo && x !in open ==> ClosedAt(g, start, order, memo, x) && Independent(g, order, open, x)
  }

  /** What is entered does not rest on an entry that is being filled. */
  ghost predicate Independent(g: Grammar, order: seq<nat>, open: set<nat>, x: nat) {
    forall a: nat, rhs: seq<Symbol>, j: nat :: OccursAt(g, order, a, rhs, j, x) && Vanishes(g, rhs[j + 1..]) ==> a !in open
  }

  ghost predicate Above(rank: nat -> nat, open: set<nat>, x: nat) {
    forall p :: p in open ==> rank(p) > rank(x)
  }

  /** One occurrence stays served while other entries are filled. */
  lemma ServedLater(g: Grammar, memo: Memo, memo': Memo, x: nat, a: nat, tail: seq<Symbol>)
    requires x in memo && GrownBut(memo, memo', x) && memo[x] <= memo'[x] && Served(g, memo, x, a, tail)
    ensures Served(g, memo', x, a, tail)
  {
    hide Begins, Vanishes;
  }

  lemma BeginsOpen(g: Grammar, start: nat, order: seq<nat>, memo: Memo, open: set<nat>, x: nat, looks: Looks)
    requires ClosedBut(g, start, order, memo, open) && x !in memo
    ensures ClosedBut(g, start, order, memo[x := looks], open + {x})
  {
    hide Begins, Vanishes, IsProduction;
    var memo' := memo[x := looks];
    forall y | y in memo' && y !in open + {x} ensures ClosedAt(g, start, order, memo', y) && Independent(g, order, open + {x}, y) {
      assert ClosedAt(g, start, order, memo, y) && Independent(g, order, open, y);
      forall a: nat, rhs: seq<Symbol>, j: nat | OccursAt(g, order, a, rhs, j, y) ensures Served(g, memo', y, a, rhs[j + 1..]) {
        assert Served(g, memo, y, a, rhs[j + 1..]);
      }
      forall a: nat, rhs: seq<Symbol>, j: nat | OccursAt(g, order, a, rhs, j, y) && Vanishes(g, rhs[j + 1..]) ensures a !in open + {x} {
        assert Served(g, memo, y, a, rhs[j + 1..]);
      }
    }
  }

  /** Only an entry that is being filled has changed. */
  lemma OpenChanges(g: Grammar, start: nat, order: seq<nat>, memo: Memo, open: set<nat>, x: nat, looks: Looks)
    requires ClosedBut(g, start, order, memo, open) && x in open
    ensures ClosedBut(g, start, order, memo[x := looks], open)
  {
    hide Begins, Vanishes, IsProduction;
    var memo' := memo[x := looks];
    forall y | y in memo' && y !in open ensures ClosedAt(g, start, order, memo', y) && Independent(g, order, open, y) {
      assert ClosedAt(g, start, order, memo, y) && Independent(g, order, open, y);
      forall a: nat, rhs: seq<Symbol>, j: nat | OccursAt(g, order, a, rhs, j, y) ensures Served(g, memo', y, a, rhs[j + 1..]) {
        assert Served(g, memo, y, a, rhs[j + 1..]);
      }
    }
  }

  lemma FilledCloses(g: Grammar, start: nat, order: seq<nat>, memo: Memo, open: set<nat>, x: nat, rank: nat -> nat)
    requires ClosedBut(g, start, order, memo, open + {x}) && x !in open && x in memo && ClosedAt(g, start, order, memo, x)
    requires FollowRanked(g, order, rank) && Above(rank, open, x)
    ensures ClosedBut(g, start, order, memo, open)
  {
    hide Begins, Vanishes, OccursAt, Served;
    forall y | y in memo && y !in open ensures ClosedAt(g, start, order, memo, y) && Independent(g, order, open, y) {
      if y != x {
        assert Independent(g, order, open + {x}, y);
      }
    }
  }

  /** Then every call leaves closed entries behind. */
  lemma {:induction false} RunCloses(g: Grammar, start: nat, order: seq<nat>, memo: Memo, x: nat, open: set<nat>, rank: nat -> nat)
    requires x < |g| && ClosedBut(g, start, order, memo, open) && x !in open && Above(rank, open, x) && FollowRanked(g, order, rank)
    ensures ClosedBut(g, start, order, FollowRun(g, start, order, memo, x), open)
    decreases Unseen(g, memo), 0, 0
  {
    hide OverAll, ClosedBut, FollowRanked, Served, OccursAt;
    if x !in memo {
      var looks := if x == start then iset{End} else iset{};
      var begun := memo[x := looks];
      assert x in Unseen(g, memo) && x !in Unseen(g, begun);
      BeginsOpen(g, start, order, memo, open, x, looks);
      AllServed(g, start, order, begun, x, order, open, rank);
      var r := OverAll(g, start, order, begun, x, order);
      assert x == start ==> End in begun[x];
      FilledCloses(g, start, order, r, open, x, rank);
    }
  }

  lemma {:induction false} AllServed(g: Grammar, start: nat, order: seq<nat>, memo: Memo, x: nat, rest: seq<nat>, open: set<nat>, rank: nat -> nat)
    requires x in memo && x !in open && ClosedBut(g, start, order, memo, open + {x}) && Above(rank, open, x) && FollowRanked(g, order, rank)
    requires forall a :: a in rest ==> a in order
    ensures var r := OverAll(g, start, order, memo, x, rest);
      && ClosedBut(g, start, order, r, open + {x}) && memo[x] <= r[x]
      && forall a: nat, rhs: seq<Symbol>, j: nat :: OccursAt(g, rest, a, rhs, j, x) ==> Served(g, r, x, a, rhs[j + 1..])
    decreases Unseen(g, memo), 4, |rest|
  {
    hide OverProds, ClosedBut, FollowRanked, Served;
    if rest != [] {
      var a := rest[0];
      var mid := if IsChoice(g, a) then OverProds(g, start, order, memo, x, a, g[a].prods) else memo;
      if IsChoice(g, a) {
        assert forall l :: 0 <= l < |g[a].prods| ==> IsProduction(g, a, g[a].prods[l]);
        ProdsServed(g, start, order, memo, x, a, g[a].prods, open, rank);
      }
      AllServed(g, start, order, mid, x, rest[1..], open, rank);
      var r := OverAll(g, start, order, mid, x, rest[1..]);
      forall b: nat, rhs: seq<Symbol>, j: nat | OccursAt(g, rest, b, rhs, j, x) ensures Served(g, r, x, b, rhs[j + 1..]) {
        if b == a {
          var l :| 0 <= l < |g[a].prods| && g[a].prods[l] == rhs;
          assert Served(g, mid, x, a, g[a].prods[l][j + 1..]);
          ServedLater(g, mid, r, x, a, rhs[j + 1..]);
        } else {
          assert OccursAt(g, rest[1..], b, rhs, j, x);
        }
      }
    }
  }

  lemma {:induction false} ProdsServed(g: Grammar, start: nat, order: seq<nat>, memo: Memo, x: nat, a: nat, prods: seq<seq<Symbol>>, open: set<nat>, rank: nat -> nat)
    requires x in memo && x !in open && ClosedBut(g, start, order, memo, open + {x}) && Above(rank, open, x) && FollowRanked(g, order, rank)
    requires a in order && IsChoice(g, a) && forall l :: 0 <= l < |prods| ==> IsProduction(g, a, prods[l])
    ensures var r := OverProds(g, start, order, memo, x, a, prods);
      && ClosedBut(g, start, order, r, open + {x}) && memo[x] <= r[x]
      && forall l, j: nat :: 0 <= l < |prods| && j < |prods[l]| && prods[l][j] == Nt(x) ==> Served(g, r, x, a, prods[l][j + 1..])
    decreases Unseen(g, memo), 3, |prods|
  {
    hide OverSyms, ClosedBut, FollowRanked, Served, IsProduction;
    if prods != [] {
      var mid := OverSyms(g, start, order, memo, x, a, prods[0]);
      assert prods[0][0..] == prods[0];
      SymsServed(g, start, order, memo, x, a, prods[0], 0, open, rank);
      ProdsServed(g, start, order, mid, x, a, prods[1..], open, rank);
      var r := OverProds(g, start, order, mid, x, a, prods[1..]);
      forall l, j: nat | 0 <= l < |prods| && j < |prods[l]| && prods[l][j] == Nt(x) ensures Served(g, r, x, a, prods[l][j + 1..]) {
        if l == 0 {
          ServedLater(g, mid, r, x, a, prods[0][j + 1..]);
        } else {
          assert prods[1..][l - 1] == prods[l];
        }
      }
    }
  }

  lemma {:induction false} SymsServed(g: Grammar, start: nat, order: seq<nat>, memo: Memo, x: nat, a: nat, rhs: seq<Symbol>, i: nat, open: set<nat>, rank: nat -> nat)
    requires x in memo && x !in open && ClosedBut(g, start, order, memo, open + {x}) && Above(rank, open, x) && FollowRanked(g, order, rank)
    requires a in order && IsChoice(g, a) && IsProduction(g, a, rhs) && i <= |rhs|
    ensures var r := OverSyms(g, start, order, memo, x, a, rhs[i..]);
      && ClosedBut(g, start, order, r, open + {x}) && memo[x] <= r[x]
      && forall j: nat :: i <= j < |rhs| && rhs[j] == Nt(x) ==> Served(g, r, x, a, rhs[j + 1..])
    decreases Unseen(g, memo), 2, |rhs| - i
  {
    hide Occurrence, ClosedBut, FollowRanked, Served, IsProduction;
    if i < |rhs| {
      assert rhs[i..][1..] == rhs[i + 1..] && rhs[i..][0] == rhs[i];
      var mid := if rhs[i] == Nt(x) then Occurrence(g, start, order, memo, x, a, rhs[i + 1..]) else memo;
      if rhs[i] == Nt(x) {
        assert OccursAt(g, order, a, rhs, i, x);
        OneServed(g, start, order, memo, x, a, rhs, i, open, rank);
      }
      SymsServed(g, start, order, mid, x, a, rhs, i + 1, open, rank);
      var r := OverSyms(g, start, order, mid, x, a, rhs[i + 1..]);
      if rhs[i] == Nt(x) {
        ServedLater(g, mid, r, x, a, rhs[i + 1..]);
      }
    }
  }

  lemma {:induction false} OneServed(g: Grammar, start: nat, order: seq<nat>, memo: Memo, x: nat, a: nat, rhs: seq<Symbol>, j: nat, open: set<nat>, rank: nat -> nat)
    requires x in memo && x !in open && ClosedBut(g, start, order, memo, open + {x}) && Above(rank, open, x) && FollowRanked(g, order, rank)
    requires OccursAt(g, order, a, rhs, j, x)
    ensures var r := Occurrence(g, start, order, memo, x, a, rhs[j + 1..]);
      ClosedBut(g, start, order, r, open + {x}) && memo[x] <= r[x] && Served(g, r, x, a, rhs[j + 1..])
    decreases Unseen(g, memo), 1, 0
  {
    hide FollowRun, ClosedBut, Begins, Vanishes;
    var tail := rhs[j + 1..];
    var mid := if Vanishes(g, tail) then FollowRun(g, start, order, memo, a) else memo;
    if Vanishes(g, tail) {
      if a == x {
        EntryStays(g, start, order, memo, x);
      } else {
        assert rank(a) < rank(x);
        NotOpen(rank, open, x, a);
        RunCloses(g, start, order, memo, a, open + {x}, rank);
      }
    }
    var r := Occurrence(g, start, order, memo, x, a, tail);
    OpenChanges(g, start, order, mid, open + {x}, x, r[x]);
    assert r == mid[x := r[x]];
    EntryKept(g, start, order, memo, a, x);
  }

  lemma NotOpen(rank: nat -> nat, open: set<nat>, x: nat, a: nat)
    requires Above(rank, open, x) && rank(a) < rank(x)
    ensures a !in open + {x} && Above(rank, open + {x}, a)
  {
  }

  lemma EntryStays(g: Grammar, start: nat, order: seq<nat>, memo: Memo, x: nat)
    requires x < |g| && x in memo
    ensures FollowRun(g, start, order, memo, x) == memo
  {
    hide OverAll;
  }

  lemma EntryKept(g: Grammar, start: nat, order: seq<nat>, memo: Memo, a: nat, x: nat)
    requires a < |g| && x in memo
    ensures x in FollowRun(g, start, order, memo, a) && FollowRun(g, start, order, memo, a)[x] == memo[x]
  {
    hide FollowRun;
  }

  /** So the follow sets behind the table are closed, whatever the order. */
  lemma {:induction false} TableCloses(g: Grammar, start: nat, order: seq<nat>, memo: Memo, rest: seq<nat>, rank: nat -> nat)
    requires FollowRanked(g, order, rank) && ClosedBut(g, start, order, memo, {})
    ensures ClosedBut(g, start, order, TableRun(g, start, order, memo, rest), {})
    decreases |rest|
  {
    hide FollowRun, ClosedBut, FollowRanked;
    if rest != [] {
      if SomeVanishes(g, rest[0]) {
        RunCloses(g, start, order, memo, rest[0], {}, rank);
      }
      TableCloses(g, start, order, RowRun(g, start, order, memo, rest[0]), rest[1..], rank);
    }
  }

  lemma RankedCloses(g: Grammar, start: nat, order: seq<nat>, rank: nat -> nat)
    requires FollowRanked(g, order, rank)
    ensures FollowClosed(g, start, order, FollowMemo(g, start, order))
  {
    hide TableRun, FollowRanked;
    TableCloses(g, start, order, map[], order, rank);
  }

  /** The follow set of every listed nonterminal that can vanish has been asked for. */
  lemma {:induction false} AskedFor(g: Grammar, start: nat, order: seq<nat>, memo: Memo, rest: seq<nat>, a: nat)
    requires a in rest && SomeVanishes(g, a)
    ensures a in TableRun(g, start, order, memo, rest)
    decreases |rest|
  {
    hide FollowRun, SomeVanishes;
    if rest[0] != a {
      assert a in rest[1..];
      AskedFor(g, start, order, RowRun(g, start, order, memo, rest[0]), rest[1..], a);
    } else {
      RowAsked(g, start, order, memo, a);
    }
  }

  lemma RowAsked(g: Grammar, start: nat, order: seq<nat>, memo: Memo, a: nat)
    requires SomeVanishes(g, a)
    ensures a in RowRun(g, start, order, memo, a)
  {
    hide FollowRun;
  }
}
