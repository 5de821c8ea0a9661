/** Filling the predictive parse table: the predict sets of a nonterminal's productions are merged into its row, and a
    lookahead string that indicates two productions is a conflict, to be resolved by looking one symbol further. */
module LlTable {
  import opened Basics
  import opened FirstFollow
  import opened FollowSets
  import opened Grammar
  import opened GrammarAnalysis
  import opened Languages
  import opened LlRows
  import opened Nullable
  import opened StringMap
  import opened StringSet
  import LlDriver
  import LlParse

  // ----- merging

  /** The conflicts in the branches of some bytes. */
  ghost function BranchClashes(dst: Row, src: Row, done: set<byte>): set<Cell>
    requires done <= src.branches.Keys
  {
    set c, v | c in done && c in dst.branches && v in Clashes(dst.branches[c], src.branches[c]) :: v
  }

  /** The branches when those of `done` have been merged. */
  ghost predicate BranchesMerged(dst: Row, src: Row, done: set<byte>, branches: map<byte, Row>)
    requires done <= src.branches.Keys
  {
    && branches.Keys == dst.branches.Keys + done
    && forall c :: c in branches ==>
         branches[c] == if c !in done then dst.branches[c]
                        else if c in dst.branches then Merge(dst.branches[c], src.branches[c])
                        else src.branches[c]
  }

  lemma BranchStep(dst: Row, src: Row, done: set<byte>, c: byte)
    requires done <= src.branches.Keys && c in src.branches
    ensures BranchClashes(dst, src, done + {c}) ==
      BranchClashes(dst, src, done) + if c in dst.branches then Clashes(dst.branches[c], src.branches[c]) else {}
  {
    hide Clashes;
  }

  lemma MergeIs(dst: Row, src: Row, branches: map<byte, Row>)
    requires !Decided(dst, src) && BranchesMerged(dst, src, src.branches.Keys, branches)
    ensures Merge(dst, src) == StringMap(Joined(dst.epsilon, src.epsilon), Joined(dst.end, src.end), branches)
    ensures Clashes(dst, src) == Clash(dst.epsilon, src.epsilon) + Clash(dst.end, src.end) + BranchClashes(dst, src, src.branches.Keys)
  {
    hide Joined, Clash;
    assert Merge(dst, src).branches == branches;
  }

  /** The loops over the branches, in any order. */
  method StringmapMerge(workset: set<Cell>, dst: Row, src: Row) returns (r: Row, w: set<Cell>)
    ensures r == Merge(dst, src) && w == workset + Clashes(dst, src)
    decreases src
  {
    hide Merge, Clashes, Clash, Joined, BranchClashes;
    w := workset;
    if Decided(dst, src) {
      DecidedMerge(dst, src);
      return dst, w;
    }
    w := w + Clash(dst.epsilon, src.epsilon) + Clash(dst.end, src.end);
    ghost var w0, done := w, {};
    var branches := dst.branches;
    var rest := src.branches.Keys;
    NoBranches(dst, src);
    while rest != {}
      invariant rest <= src.branches.Keys && done == src.branches.Keys - rest
      invariant BranchesMerged(dst, src, done, branches) && w == w0 + BranchClashes(dst, src, done)
      decreases rest
    {
      var c :| c in rest;
      rest := rest - {c};
      BranchStep(dst, src, done, c);
      if c in branches {
        var node;
        node, w := StringmapMerge(w, branches[c], src.branches[c]);
        branches := branches[c := node];
      } else {
        branches := branches[c := src.branches[c]];
      }
      done := done + {c};
    }
    assert done == src.branches.Keys;
    MergeIs(dst, src, branches);
    r := StringMap(Joined(dst.epsilon, src.epsilon), Joined(dst.end, src.end), branches);
  }

  lemma DecidedMerge(dst: Row, src: Row)
    requires Decided(dst, src)
    ensures Merge(dst, src) == dst && Clashes(dst, src) == {}
  {
  }

  lemma NoBranches(dst: Row, src: Row)
    ensures BranchClashes(dst, src, {}) == {} && BranchesMerged(dst, src, {}, dst.branches)
  {
  }

  // ----- one byte of lookahead

  /** A map whose strings are all one symbol long. */
  ghost predicate Flat<V>(m: StringMap<V>) {
    m.epsilon == None && forall c :: c in m.branches ==> Leafy(m.branches[c])
  }

  ghost predicate Leafy<V>(m: StringMap<V>) {
    m.epsilon.Some? && m.end == None && m.branches == map[]
  }

  lemma PredictFlat(m: StringSet, l: Language)
    requires Sound(m, 1, l) && forall w, end :: In(m, w, end) ==> end || |w| == 1
    ensures Flat(m)
  {
    hide Has;
    assert m.epsilon.Some? ==> In(m, [], false);
    forall c | c in m.branches ensures Leafy(m.branches[c]) {
      assert Shaped(m.branches[c], 0);
    }
  }

  lemma MergedFlat(dst: Row, pred: StringSet, v: Cell)
    requires Flat(dst) && Flat(pred)
    ensures Flat(Merge(dst, ReplaceAll(pred, v)))
  {
    var src := ReplaceAll(pred, v);
    var r := Merge(dst, src);
    forall c | c in r.branches ensures Leafy(r.branches[c]) {
      if c in src.branches {
        assert Leafy(pred.branches[c]) && src.branches[c] == ReplaceAll(pred.branches[c], v);
        if c in dst.branches {
          LeafMerge(dst.branches[c], src.branches[c]);
        }
      }
    }
  }

  lemma LeafMerge(dst: Row, src: Row)
    requires Leafy(dst) && Leafy(src)
    ensures Leafy(Merge(dst, src))
  {
  }

  // ----- filling a row

  /** What is known of the predict set of a production: its strings are genuine, and with one byte of lookahead and no
      left recursion it has everything the production itself begins with. */
  ghost predicate Predicted(g: Grammar, start: nat, ranked: bool, k: nat, a: nat, rhs: seq<Symbol>, m: StringSet) {
    Sound(m, k, Cat(Derives(g, rhs), Follows(g, start, Nt(a)))) && (ranked && k == 1 ==> BeginsWith(g, rhs, m))
  }

  lemma PredictSized(pred: StringSet, k: nat, l: Language)
    requires Sound(pred, k, l) && forall w, end :: In(pred, w, end) ==> end || |w| == k
    ensures forall w, end :: In(pred, w, end) ==> if end then |w| < k else |w| == k
  {
    hide In;
  }

  lemma SizedMore(preds: Preds, k: nat, i: nat, pred: StringSet)
    requires Sized(preds, k) && i !in preds && forall w, end :: In(pred, w, end) ==> if end then |w| < k else |w| == k
    ensures Sized(preds[i := pred], k)
  {
    hide In;
    var preds' := preds[i := pred];
    forall j: nat, w: seq<byte>, end: bool | Holds(preds', j, w, end) ensures if end then |w| < k else |w| == k {
      assert Holds(preds, j, w, end) || In(pred, w, end);
    }
  }

  /** What `h_predict` was asked for and has returned. */
  type Log = set<(nat, nat, seq<Symbol>, StringSet)>

  /** The predict sets of some productions for `k` symbols, as `h_predict` has returned them. */
  ghost predicate Recorded(g: Grammar, start: nat, ranked: bool, log: Log, k: nat, a: nat, preds: Preds) {
    forall i :: i in preds ==>
      && IsChoice(g, a) && i < |g[a].prods|
      && Predicted(g, start, ranked, k, a, g[a].prods[i], preds[i]) && (k, a, g[a].prods[i], preds[i]) in log
  }

  /** The predict sets of the work set, merged in any order into the row that the rounds `before` have left: the next
      work set has the productions that take part in a conflict. */
  method FillRound(an: Analysis, k: nat, a: nat, workset: set<Cell>, row0: Row, ghost before: seq<Preds>)
    returns (row: Row, next: set<Cell>, ghost preds: Preds)
    requires an.Valid() && 0 < k <= an.kmax && IsChoice(an.g, a) && a in an.nts && an.open == {}
    requires forall c :: c in workset ==> c.Alt? && c.n < |an.g[a].prods|
    requires k == |before| + 1 && AllSized(before) && RowKept(row0, before)
    modifies an`first, an`follow, an`open, an`predicted
    ensures an.Valid() && an.open == {} && old(an.predicted) <= an.predicted
    ensures forall i: nat :: i in preds <==> Alt(i) in workset
    ensures Recorded(an.g, an.start, an.ranked, an.predicted, k, a, preds) && Sized(preds, k)
    ensures RowIs(row, before, preds) && forall c :: c in next <==> c.Alt? && Contested(before, preds, c.n)
    ensures k == 1 && Flat(row0) ==> Flat(row)
    ensures an.Tracks() ==> RoundExact(an.g, an.start, an.order, old(an.Now()), an.Now(), a, preds)
  {
    hide Sound, Cat, Derives, Follows, Usable, FirstsOk, FollowsOk, ExactOn, Ranked, Merge, Clashes, ReplaceAll, RowIs, RowKept, Contested, Sized, AllSized, Flat, FollowRun, RoundExact, Merged, Predicted, BeginsWith;
    row, next, preds := row0, {}, map[];
    var prods := an.g[a].prods;
    var rest := workset;
    RoundBegins(an.g, an.start, an.ranked, an.predicted, k, a, before, row0);
    NothingExact(an.g, an.start, an.order, an.Now(), a);
    while rest != {}
      invariant rest <= workset && an.Valid() && an.open == {} && old(an.predicted) <= an.predicted
      invariant forall i: nat :: i in preds <==> Alt(i) in workset - rest
      invariant Merged(an.g, an.start, an.ranked, an.predicted, k, a, before, preds, row, next)
      invariant k == 1 && Flat(row0) ==> Flat(row)
      invariant an.Tracks() ==> RoundExact(an.g, an.start, an.order, old(an.Now()), an.Now(), a, preds)
      decreases rest
    {
      var c :| c in rest;
      rest := rest - {c};
      assert IsProduction(an.g, a, prods[c.n]);
      ghost var now, log := an.Now(), an.predicted;
      var pred := an.Predict(k, a, prods[c.n]);
      MergedMore(an.g, an.start, an.ranked, log, an.predicted, k, a, before, preds, row, next, c.n, pred);
      if an.Tracks() {
        ExactMore(an.g, an.start, an.order, old(an.Now()), now, an.Now(), a, preds, c.n, pred);
      }
      if k == 1 && Flat(row0) {
        PredictFlat(pred, Cat(Derives(an.g, prods[c.n]), Follows(an.g, an.start, Nt(a))));
        MergedFlat(row, pred, c);
      }
      // let values map to the production, then merge
      row, next := StringmapMerge(next, row, ReplaceAll(pred, c));
      preds := preds[c.n := pred];
    }
    MergedIs(an.g, an.start, an.ranked, an.predicted, k, a, before, preds, row, next);
  }

  lemma MergedIs(g: Grammar, start: nat, ranked: bool, log: Log, k: nat, a: nat, before: seq<Preds>, preds: Preds, row: Row, next: set<Cell>)
    requires Merged(g, start, ranked, log, k, a, before, preds, row, next)
    ensures Recorded(g, start, ranked, log, k, a, preds) && Sized(preds, k) && RowIs(row, before, preds)
    ensures forall c :: c in next <==> c.Alt? && Contested(before, preds, c.n)
  {
  }

  /** The predict sets so far have been merged into the row, and those in conflict are in the next work set. */
  ghost predicate Merged(g: Grammar, start: nat, ranked: bool, log: Log, k: nat, a: nat, before: seq<Preds>, preds: Preds, row: Row, next: set<Cell>) {
    && Recorded(g, start, ranked, log, k, a, preds) && Sized(preds, k)
    && RowIs(row, before, preds) && forall c :: c in next <==> c.Alt? && Contested(before, preds, c.n)
  }

  lemma RoundBegins(g: Grammar, start: nat, ranked: bool, log: Log, k: nat, a: nat, before: seq<Preds>, row: Row)
    requires RowKept(row, before)
    ensures Merged(g, start, ranked, log, k, a, before, map[], row, {})
  {
    hide RowIs, RowKept, Contested, Sized;
    Fresh(row, before);
    NoneSized(k);
  }

  lemma MergedMore(g: Grammar, start: nat, ranked: bool, log: Log, log': Log, k: nat, a: nat, before: seq<Preds>, preds: Preds,
                   row: Row, next: set<Cell>, i: nat, pred: StringSet)
    requires Merged(g, start, ranked, log, k, a, before, preds, row, next) && k == |before| + 1 && AllSized(before)
    requires IsChoice(g, a) && i < |g[a].prods| && i !in preds && log' == log + {(k, a, g[a].prods[i], pred)}
    requires Sound(pred, k, Cat(Derives(g, g[a].prods[i]), Follows(g, start, Nt(a)))) && forall w, end :: In(pred, w, end) ==> end || |w| == k
    requires ranked && k == 1 ==> BeginsWith(g, g[a].prods[i], pred)
    ensures var src := ReplaceAll(pred, Alt(i));
      Merged(g, start, ranked, log', k, a, before, preds[i := pred], Merge(row, src), next + Clashes(row, src))
  {
    hide Sound, Cat, Derives, Follows, Merge, Clashes, ReplaceAll, RowIs, Contested, Sized, AllSized, BeginsWith;
    PredictSized(pred, k, Cat(Derives(g, g[a].prods[i]), Follows(g, start, Nt(a))));
    SizedMore(preds, k, i, pred);
    RoundStep(row, before, preds, i, pred);
    assert Predicted(g, start, ranked, k, a, g[a].prods[i], pred);
  }

  lemma NoneSized(k: nat)
    ensures Sized(map[], k)
  {
  }

  /** One symbol of lookahead: the predict sets are what the follow sets behind the round make them. */
  ghost predicate RowExact(g: Grammar, memo: Memo, a: nat, preds: Preds) {
    forall i :: i in preds ==>
      IsChoice(g, a) && i < |g[a].prods| && Syms(preds[i]) == PredictOf(g, memo, a, g[a].prods[i]) && (Vanishes(g, g[a].prods[i]) ==> a in memo)
  }

  ghost predicate RoundExact(g: Grammar, start: nat, order: seq<nat>, memo0: Memo, memo: Memo, a: nat, preds: Preds)
    requires a < |g|
  {
    && RowExact(g, memo, a, preds)
    && memo == if exists i :: i in preds && IsChoice(g, a) && i < |g[a].prods| && Vanishes(g, g[a].prods[i])
               then FollowRun(g, start, order, memo0, a) else memo0
  }

  lemma NothingExact(g: Grammar, start: nat, order: seq<nat>, memo: Memo, a: nat)
    requires a < |g|
    ensures RoundExact(g, start, order, memo, memo, a, map[])
  {
    hide FollowRun;
  }

  lemma RowExactLater(g: Grammar, memo: Memo, memo': Memo, a: nat, preds: Preds)
    requires RowExact(g, memo, a, preds) && Grown(memo, memo')
    ensures RowExact(g, memo', a, preds)
  {
    hide Vanishes, Begins, Syms;
  }

  lemma ExactMore(g: Grammar, start: nat, order: seq<nat>, memo0: Memo, memo: Memo, memo': Memo, a: nat, preds: Preds, i: nat, pred: StringSet)
    requires IsChoice(g, a) && i < |g[a].prods| && RoundExact(g, start, order, memo0, memo, a, preds)
    requires memo' == if Vanishes(g, g[a].prods[i]) then FollowRun(g, start, order, memo, a) else memo
    requires Syms(pred) == PredictOf(g, memo', a, g[a].prods[i])
    ensures RoundExact(g, start, order, memo0, memo', a, preds[i := pred])
  {
    hide FollowRun, Vanishes, Syms, PredictOf, RowExact;
    var preds' := preds[i := pred];
    RowExactLater(g, memo, memo', a, preds);
    assert RowExact(g, memo', a, preds') by { RowExactPut(g, memo', a, preds, i, pred); }
    EntryFound(g, start, order, memo, a);
    if Vanishes(g, g[a].prods[i]) {
      assert i in preds';
    }
    if j :| j in preds && j < |g[a].prods| && Vanishes(g, g[a].prods[j]) {
      assert j in preds';
      assert a in memo;
    } else {
      assert forall j :: j in preds' && j < |g[a].prods| && Vanishes(g, g[a].prods[j]) ==> j == i;
    }
  }

  lemma RowExactPut(g: Grammar, memo: Memo, a: nat, preds: Preds, i: nat, pred: StringSet)
    requires RowExact(g, memo, a, preds) && IsChoice(g, a) && i < |g[a].prods| && Syms(pred) == PredictOf(g, memo, a, g[a].prods[i])
    requires Vanishes(g, g[a].prods[i]) ==> a in memo
    ensures RowExact(g, memo, a, preds[i := pred])
  {
    hide Vanishes, Syms, PredictOf;
  }

  /** The rounds of one row: the first merges the predict sets of all productions for one symbol, and each further one
      those of the productions that were in conflict, for one symbol more. */
  ghost predicate RoundsOf(g: Grammar, start: nat, ranked: bool, log: Log, a: nat, rounds: seq<Preds>) {
    && IsChoice(g, a) && AllSized(rounds)
    && (forall r :: 0 <= r < |rounds| ==> Recorded(g, start, ranked, log, r + 1, a, rounds[r]))
    && (forall r, i: nat :: 0 <= r < |rounds| ==> (i in rounds[r] <==> if r == 0 then i < |g[a].prods| else Contested(rounds[..r - 1], rounds[r - 1], i)))
  }

  /** There are conflicts in the last round. */
  ghost predicate Open(rounds: seq<Preds>) {
    exists i: nat :: Disputed(rounds, i)
  }

  /** A round is only begun when the one before has left conflicts. */
  ghost predicate OpenBefore(rounds: seq<Preds>) {
    forall r :: 0 < r < |rounds| ==> Open(rounds[..r])
  }

  ghost predicate Disputed(rounds: seq<Preds>, i: nat) {
    rounds != [] && Contested(rounds[..|rounds| - 1], rounds[|rounds| - 1], i)
  }

  lemma RoundsMore(g: Grammar, start: nat, ranked: bool, log: Log, log': Log,
                   a: nat, rounds: seq<Preds>, preds: Preds)
    requires RoundsOf(g, start, ranked, log, a, rounds) && log <= log' && Sized(preds, |rounds| + 1)
    requires Recorded(g, start, ranked, log', |rounds| + 1, a, preds)
    requires forall i: nat :: i in preds <==> if rounds == [] then i < |g[a].prods| else Disputed(rounds, i)
    ensures RoundsOf(g, start, ranked, log', a, rounds + [preds])
  {
    hide Predicted, Contested, Sized;
    var rounds' := rounds + [preds];
    forall r, i: nat | 0 <= r < |rounds'|
      ensures i in rounds'[r] <==> if r == 0 then i < |g[a].prods| else Contested(rounds'[..r - 1], rounds'[r - 1], i)
    {
      if r > 0 {
        assert rounds'[..r - 1] == rounds[..r - 1];
      }
      if r < |rounds| {
        assert rounds'[r] == rounds[r];
      }
    }
    forall r | 0 <= r < |rounds'| ensures Recorded(g, start, ranked, log', r + 1, a, rounds'[r]) && Sized(rounds'[r], r + 1) {
      if r < |rounds| {
        assert Recorded(g, start, ranked, log, r + 1, a, rounds[r]) && Sized(rounds[r], r + 1);
      }
    }
  }

  /** A row behind its last round, of which there are at most `kmax`, and as many where conflicts remain: it says what the
      predict sets of the rounds say. */
  ghost predicate RowDone(g: Grammar, start: nat, ranked: bool, log: Log, kmax: nat, a: nat, row: Row, rounds: seq<Preds>) {
    && RoundsOf(g, start, ranked, log, a, rounds) && OpenBefore(rounds) && RowKept(row, rounds)
    && 0 < |rounds| <= kmax && (Open(rounds) ==> |rounds| == kmax)
    && (kmax == 1 && !Open(rounds) ==> Flat(row))
  }

  /** `fill_table_row`.  The result is 0 when a round, the `kmax`-th at the latest, has left no conflict. */
  method FillTableRow(an: Analysis, kmax: nat, a: nat) returns (code: int, row: Row, ghost rounds: seq<Preds>)
    requires an.Valid() && 0 < kmax == an.kmax && IsChoice(an.g, a) && a in an.nts && an.open == {}
    modifies an`first, an`follow, an`open, an`predicted
    ensures an.Valid() && an.open == {} && old(an.predicted) <= an.predicted
    ensures RowDone(an.g, an.start, an.ranked, an.predicted, kmax, a, row, rounds)
    ensures (code == 0 || code == -1) && (code == 0 <==> !Open(rounds))
    ensures an.Tracks() ==> an.Now() == RowRun(an.g, an.start, an.order, old(an.Now()), a) && RowExact(an.g, an.Now(), a, rounds[0])
  {
    hide Sound, Cat, Derives, Follows, Usable, FirstsOk, FollowsOk, ExactOn, Ranked, RowIs, RowKept, Contested, Sized, Recorded, Flat, ClearConflicts, RowRun, RoundExact, RowExact;
    var prods := an.g[a].prods;
    // initialize the working set to the productions of A
    var workset: set<Cell> := set i: nat | i < |prods| :: Alt(i);
    row, rounds := StringMap(None, None, map[]), [];
    NoRounds();
    var k := 1;
    while k <= kmax
      invariant 1 <= k <= kmax + 1 && an.Valid() && an.open == {} && old(an.predicted) <= an.predicted
      invariant RoundsOf(an.g, an.start, an.ranked, an.predicted, a, rounds) && |rounds| == k - 1 && RowKept(row, rounds)
      invariant forall c :: c in workset <==> c.Alt? && if k == 1 then c.n < |prods| else Disputed(rounds, c.n)
      invariant (forall c :: c in workset ==> c.Alt? && c.n < |prods|) && (k > 1 ==> Open(rounds))
      invariant OpenBefore(rounds)
      invariant k == 1 ==> Flat(row) && an.Now() == old(an.Now())
      invariant k > 1 && an.Tracks() ==> an.Now() == RowRun(an.g, an.start, an.order, old(an.Now()), a) && RowExact(an.g, an.Now(), a, rounds[0])
    {
      var next;
      ghost var preds, log := map[], an.predicted;
      row, next, preds := FillRound(an, k, a, workset, row, rounds);
      if an.Tracks() {
        WholeRound(an.g, an.start, an.order, old(an.Now()), an.Now(), a, preds);
      }
      RoundDone(an.g, an.start, an.ranked, log, an.predicted, a, rounds, preds, row, next);
      rounds := rounds + [preds];
      // switch to the updated working set
      workset := next;
      if workset == {} {
        return 0, row, rounds;
      }
      // clear conflict markers for the next iteration
      row := ClearConflicts(row);
      k := k + 1;
    }
    code := -1;
  }

  lemma WholeRound(g: Grammar, start: nat, order: seq<nat>, memo0: Memo, memo: Memo, a: nat, preds: Preds)
    requires IsChoice(g, a) && RoundExact(g, start, order, memo0, memo, a, preds) && forall i: nat :: i in preds <==> i < |g[a].prods|
    ensures memo == RowRun(g, start, order, memo0, a) && RowExact(g, memo, a, preds)
  {
    hide FollowRun, Vanishes, RowExact;
  }

  lemma NoRounds()
    ensures RowKept(StringMap(None, None, map[]), []) && Flat<Cell>(StringMap(None, None, map[]))
  {
  }

  lemma RoundNumbers(g: Grammar, start: nat, ranked: bool, log: Log, a: nat, rounds: seq<Preds>)
    requires RoundsOf(g, start, ranked, log, a, rounds)
    ensures Numbered(rounds, |g[a].prods|)
  {
    hide Predicted, Contested, AllSized;
    forall r, i | 0 <= r < |rounds| && i in rounds[r] ensures i < |g[a].prods| {
      assert Recorded(g, start, ranked, log, r + 1, a, rounds[r]);
    }
  }

  /** What a round has done to the rounds before it. */
  lemma RoundDone(g: Grammar, start: nat, ranked: bool, log: Log, log': Log,
                  a: nat, before: seq<Preds>, preds: Preds, row: Row, next: set<Cell>)
    requires RoundsOf(g, start, ranked, log, a, before) && log <= log' && Sized(preds, |before| + 1)
    requires Recorded(g, start, ranked, log', |before| + 1, a, preds)
    requires forall i: nat :: i in preds <==> if before == [] then i < |g[a].prods| else Disputed(before, i)
    requires RowIs(row, before, preds) && forall c :: c in next <==> c.Alt? && Contested(before, preds, c.n)
    requires OpenBefore(before) && (before != [] ==> Open(before))
    ensures var rounds := before + [preds];
      && RoundsOf(g, start, ranked, log', a, rounds) && OpenBefore(rounds)
      && (forall c :: c in next <==> c.Alt? && Disputed(rounds, c.n)) && (forall c :: c in next ==> c.n < |g[a].prods|)
      && (next == {} <==> !Open(rounds)) && RowKept(ClearConflicts(row), rounds) && (next == {} ==> RowKept(row, rounds))
  {
    hide Predicted, Contested, Sized, RowIs, RowKept, AllSized, Recorded, ClearConflicts;
    var rounds := before + [preds];
    RoundsMore(g, start, ranked, log, log', a, before, preds);
    RoundNumbers(g, start, ranked, log', a, rounds);
    ContestedNumbers(before, preds, |g[a].prods|);
    RowCleared(row, before, preds);
    assert rounds[..|before|] == before && rounds[|before|] == preds;
    forall r | 0 < r < |rounds| ensures Open(rounds[..r]) {
      assert rounds[..r] == before[..r];
      assert before[..|before|] == before;
    }
    forall i: nat ensures Contested(before, preds, i) <==> Alt(i) in next {
    }
    if next == {} {
      QuietRow(row, before, preds);
    } else {
      var c :| c in next;
      assert Disputed(rounds, c.n);
    }
  }

  lemma ContestedNumbers(before: seq<Preds>, preds: Preds, n: nat)
    requires AllSized(before) && Numbered(before + [preds], n)
    ensures forall i: nat :: Contested(before, preds, i) ==> i < n
  {
    hide Sized, Holds, Kept, Entry;
    var rounds := before + [preds];
    forall i: nat | Contested(before, preds, i) ensures i < n {
      var w, end :| Contests(before, preds, i, w, end);
      KeptIs(before, w, end);
      assert forall r :: 0 <= r < |before| ==> rounds[r] == before[r];
      if r :| 0 <= r < |before| && Holds(before[r], i, w, end) {
        HolderIn(before[r], i, w, end);
      } else {
        HolderIn(preds, i, w, end);
        assert rounds[|before|] == preds;
      }
    }
  }

  lemma HolderIn(preds: Preds, i: nat, w: seq<byte>, end: bool)
    requires Holds(preds, i, w, end)
    ensures i in preds
  {
  }

  /** Without conflicts there is nothing to clear. */
  lemma QuietRow(row: Row, before: seq<Preds>, preds: Preds)
    requires RowIs(row, before, preds) && AllSized(before) && forall i: nat :: !Contested(before, preds, i)
    ensures RowKept(row, before + [preds])
  {
    hide Holds, Shut, Mark, Entry, Contested, Contests;
    var rounds := before + [preds];
    assert rounds[..|rounds| - 1] == before;
    forall w, end ensures At(row, w, end) == Kept(rounds, w, end) {
      QuietEntry(before, preds, w, end);
    }
  }

  lemma QuietEntry(before: seq<Preds>, preds: Preds, w: seq<byte>, end: bool)
    requires AllSized(before) && forall i: nat :: !Contested(before, preds, i)
    ensures Entry(before, preds, w, end) != Some(Conflict)
  {
    hide Holds, Shut, Kept;
    KeptIs(before, w, end);
    forall i: nat ensures !Holds(preds, i, w, end) || Entry(before, preds, w, end) != Some(Conflict) {
      assert !Contested(before, preds, i) && !Contests(before, preds, i, w, end);
    }
    assert Mark(preds, w, end) == None || exists i: nat :: Holds(preds, i, w, end);
  }

  /** A finished row; with one symbol of lookahead its predict sets are those that the follow sets make. */
  ghost predicate RowFilled(g: Grammar, start: nat, ranked: bool, log: Log, kmax: nat, memo: Memo, a: nat, row: Row, rounds: seq<Preds>) {
    RowDone(g, start, ranked, log, kmax, a, row, rounds) && (ranked && kmax == 1 ==> RowExact(g, memo, a, rounds[0]))
  }

  /** `fill_table`. */
  method FillTable(an: Analysis, kmax: nat) returns (code: int, rows: map<nat, Row>, ghost rounds: map<nat, seq<Preds>>)
    requires an.Valid() && 0 < kmax == an.kmax && an.open == {}
    modifies an`first, an`follow, an`open, an`predicted
    ensures an.Valid() && (code == 0 || code == -1) && rows.Keys == rounds.Keys <= an.nts
    ensures forall a :: a in rounds ==> RowFilled(an.g, an.start, an.ranked, an.predicted, kmax, an.Now(), a, rows[a], rounds[a])
    ensures code == 0 <==> rounds.Keys == an.nts && forall a :: a in rounds ==> !Open(rounds[a])
    ensures code == -1 ==> exists a :: a in rounds && Open(rounds[a])
    ensures an.Tracks() && code == 0 ==> an.Now() == TableRun(an.g, an.start, an.order, old(an.Now()), an.order)
  {
    hide Sound, Cat, Derives, Follows, FirstsOk, FollowsOk, ExactOn, Ranked, RowFilled, Open, RowRun, RowDone, RowExact, TableRun, MemoOf, Usable;
    rows, rounds := map[], map[];
    RunStart(an.g, an.start, an.order, an.Now());
    for n := 0 to |an.order|
      invariant an.Valid() && an.open == {} && rows.Keys == rounds.Keys && forall a :: a in rounds <==> a in an.order[..n]
      invariant an.Tracks() ==> TableRun(an.g, an.start, an.order, old(an.Now()), an.order) == TableRun(an.g, an.start, an.order, an.Now(), an.order[n..])
      invariant forall a :: a in rounds ==> RowFilled(an.g, an.start, an.ranked, an.predicted, kmax, an.Now(), a, rows[a], rounds[a])
      invariant forall a :: a in rounds ==> !Open(rounds[a])
    {
      var a := an.order[n];
      assert a in an.nts && an.order[..n + 1] == an.order[..n] + [a];
      NtIsChoice(an.g, an.start, an.nts, a);
      ghost var log, now := an.predicted, an.Now();
      var row;
      ghost var rs;
      code, row, rs := FillTableRow(an, kmax, a);
      RunStep(an.g, an.start, an.order, now, n);
      RowsLater(an.g, an.start, an.ranked, log, an.predicted, kmax, now, an.Now(), a, an.order, rows, rounds);
      RowIsFilled(an.g, an.start, an.ranked, an.predicted, kmax, an.Now(), a, row, rs);
      rows, rounds := rows[a := row], rounds[a := rs];
      if code < 0 {
        assert Open(rounds[a]);
        return -1, rows, rounds; // unresolvable conflicts in row
      }
    }
    RunEnd(an.g, an.start, an.order, an.Now());
    assert an.order[..|an.order|] == an.order;
    code := 0;
  }

  lemma NtIsChoice(g: Grammar, start: nat, nts: set<nat>, a: nat)
    requires Usable(g, start, nts) && a in nts
    ensures IsChoice(g, a)
  {
  }

  lemma FilledRow(g: Grammar, start: nat, ranked: bool, log: Log, kmax: nat, memo: Memo, a: nat, row: Row, rounds: seq<Preds>)
    requires RowFilled(g, start, ranked, log, kmax, memo, a, row, rounds)
    ensures RowDone(g, start, ranked, log, kmax, a, row, rounds) && rounds != [] && (ranked && kmax == 1 ==> RowExact(g, memo, a, rounds[0]))
  {
    hide RowExact;
  }

  lemma RowIsFilled(g: Grammar, start: nat, ranked: bool, log: Log, kmax: nat, memo: Memo, a: nat, row: Row, rounds: seq<Preds>)
    requires RowDone(g, start, ranked, log, kmax, a, row, rounds)
    requires ranked && kmax == 1 ==> RowExact(g, memo, a, rounds[0])
    ensures RowFilled(g, start, ranked, log, kmax, memo, a, row, rounds)
  {
    hide RowExact;
  }

  /** Finished rows stay what they are while others are filled. */
  lemma RowsLater(g: Grammar, start: nat, ranked: bool, log: Log, log': Log, kmax: nat, memo: Memo, memo': Memo, a: nat, order: seq<nat>,
                  rows: map<nat, Row>, rounds: map<nat, seq<Preds>>)
    requires rows.Keys == rounds.Keys && log <= log' && (ranked && kmax == 1 ==> memo' == RowRun(g, start, order, memo, a))
    requires forall b :: b in rounds ==> RowFilled(g, start, ranked, log, kmax, memo, b, rows[b], rounds[b])
    ensures forall b :: b in rounds ==> RowFilled(g, start, ranked, log', kmax, memo', b, rows[b], rounds[b])
  {
    hide RowExact, RowDone, RowRun;
    forall b | b in rounds ensures RowFilled(g, start, ranked, log', kmax, memo', b, rows[b], rounds[b]) {
      LogGrows(g, start, ranked, log, log', kmax, b, rows[b], rounds[b]);
      DoneRounds(g, start, ranked, log, kmax, b, rows[b], rounds[b]);
      if ranked && kmax == 1 {
        RowExactLater(g, memo, memo', b, rounds[b][0]);
      }
    }
  }

  lemma RunStart(g: Grammar, start: nat, order: seq<nat>, memo: Memo)
    ensures order[0..] == order
  {
  }

  lemma RunStep(g: Grammar, start: nat, order: seq<nat>, memo: Memo, n: nat)
    requires n < |order|
    ensures TableRun(g, start, order, memo, order[n..]) == TableRun(g, start, order, RowRun(g, start, order, memo, order[n]), order[n + 1..])
  {
    hide RowRun;
    assert order[n..][1..] == order[n + 1..];
  }

  lemma RunEnd(g: Grammar, start: nat, order: seq<nat>, memo: Memo)
    ensures TableRun(g, start, order, memo, order[|order|..]) == memo
  {
  }

  lemma LogGrows(g: Grammar, start: nat, ranked: bool, log: Log, log': Log, kmax: nat, a: nat, row: Row, rounds: seq<Preds>)
    requires RowDone(g, start, ranked, log, kmax, a, row, rounds) && log <= log'
    ensures RowDone(g, start, ranked, log', kmax, a, row, rounds)
  {
    hide Predicted, Contested, AllSized, RowKept, Open, Flat;
    forall r | 0 <= r < |rounds| ensures Recorded(g, start, ranked, log', r + 1, a, rounds[r]) {
      assert Recorded(g, start, ranked, log, r + 1, a, rounds[r]);
    }
  }

  // ----- the finished table

  lemma RowFits(g: Grammar, a: nat, row: Row)
    requires IsChoice(g, a)
    ensures forall w, end :: At(WithProductions(g[a].prods, row), w, end).Some? ==> IsProduction(g, a, At(WithProductions(g[a].prods, row), w, end).value)
  {
    forall w, end | At(WithProductions(g[a].prods, row), w, end).Some? ensures IsProduction(g, a, At(WithProductions(g[a].prods, row), w, end).value) {
      ChosenAt(g[a].prods, row, w, end);
    }
  }

  /** Two productions claim the same lookahead string. */
  ghost predicate Ambiguous(rounds: seq<Preds>) {
    exists i: nat, j: nat, w, end :: i != j && Claims(rounds, i, w, end) && Claims(rounds, j, w, end)
  }

  lemma OpenAmbiguous(rounds: seq<Preds>)
    requires AllSized(rounds) && Open(rounds)
    ensures Ambiguous(rounds)
  {
    hide Claims, Contested, AllSized;
    var i: nat :| Disputed(rounds, i);
    var j, w, end := ContestedShares(rounds, i);
  }

  // ----- one symbol of lookahead

  ghost predicate Indicates(preds: Preds, i: nat, x: Symbol) {
    match x
    case End => Holds(preds, i, [], true)
    case Char(c) => Holds(preds, i, [c], false)
    case Nt(_) => false
  }

  /** Two productions are indicated by the same symbol. */
  ghost predicate Overlap(preds: Preds) {
    exists i: nat, j: nat, x :: i != j && Indicates(preds, i, x) && Indicates(preds, j, x)
  }

  lemma FirstEntry(preds: Preds, w: seq<byte>, end: bool)
    ensures !Shut([], w) && Entry([], preds, w, end) == Mark(preds, w, end)
  {
    hide Mark;
  }

  lemma OpenOverlap(preds: Preds)
    requires Sized(preds, 1)
    ensures Open([preds]) <==> Overlap(preds)
  {
    hide Holds, Mark, Entry, Shut;
    assert [preds][..0] == [];
    if Open([preds]) {
      var i: nat :| Disputed([preds], i);
      var w, end :| Contests([], preds, i, w, end);
      FirstEntry(preds, w, end);
      assert !Alone(preds, i, w, end);
      var j: nat :| Holds(preds, j, w, end) && j != i;
      var x := if end then End else Char(w[0]);
      assert end ==> w == [];
      assert !end ==> w == [w[0]];
      assert Indicates(preds, i, x) && Indicates(preds, j, x);
    }
    if i: nat, j: nat, x :| i != j && Indicates(preds, i, x) && Indicates(preds, j, x) {
      var w, end := if x.End? then [] else [x.c], x.End?;
      FirstEntry(preds, w, end);
      assert Contests([], preds, i, w, end);
      assert Disputed([preds], i);
    }
  }

  /** The symbol that one byte of lookahead shows. */
  function NextSymbol(ahead: seq<byte>): Symbol {
    if ahead == [] then End else Char(ahead[0])
  }

  /** The lookahead `ahead` selects the only production whose predict set holds it, if there is one. */
  ghost predicate Selects(prods: seq<seq<Symbol>>, preds: Preds, row: StringMap<seq<Symbol>>, ahead: seq<byte>) {
    var r := Lookahead(row, ahead, true);
    r.Found? && match r.value
    case None => forall i: nat :: !Indicates(preds, i, NextSymbol(ahead))
    case Some(p) => exists i: nat :: i < |prods| && Indicates(preds, i, NextSymbol(ahead)) && prods[i] == p
                               && forall j: nat :: Indicates(preds, j, NextSymbol(ahead)) ==> j == i
  }

  /** After one round without conflict a lookup finds the only production whose predict set holds the next symbol, and
      nothing when there is none. */
  lemma RowLookup(prods: seq<seq<Symbol>>, preds: Preds, row: StringMap<seq<Symbol>>, ahead: seq<byte>)
    requires Resolves(prods, [preds], row, ahead) && Sized(preds, 1) && !Open([preds])
    ensures Selects(prods, preds, row, ahead)
  {
    hide Holds, Lookahead, Open, EndMark, Settles;
    OpenOverlap(preds);
    var x := NextSymbol(ahead);
    if ahead != [] {
      assert ahead[..1] == [ahead[0]];
    }
    match Lookahead(row, ahead, true).value
    case None =>
      forall i: nat ensures !Indicates(preds, i, x) {
        NothingLeft(preds, ahead, i);
      }
    case Some(p) =>
      var i: nat :| Selected(prods, [preds], ahead, i) && prods[i] == p;
      SelectedOne(prods, preds, ahead, i);
  }

  lemma NothingLeft(preds: Preds, ahead: seq<byte>, i: nat)
    requires (forall d: nat, j: nat :: !Settles([preds], ahead, d, j)) && EndMark([preds], ahead) == None && !Overlap(preds)
    ensures !Indicates(preds, i, NextSymbol(ahead))
  {
    hide Holds;
    var x := NextSymbol(ahead);
    if ahead != [] {
      assert ahead[..1] == [ahead[0]];
      assert !Settles([preds], ahead, 1, i);
      assert [preds][0] == preds;
      assert !Alone(preds, i, [ahead[0]], false);
    } else {
      assert [preds][..0] == [] && [preds][0] == preds;
      assert Mark(preds, [], true) == None || Mark(preds, [], true) == Some(Conflict);
      assert !Alone(preds, i, [], true);
    }
    var w, end := if ahead == [] then [] else [ahead[0]], ahead == [];
    forall j: nat | Holds(preds, i, w, end) && Holds(preds, j, w, end) ensures i == j {
      assert Indicates(preds, i, x) && Indicates(preds, j, x);
    }
  }

  lemma SelectedOne(prods: seq<seq<Symbol>>, preds: Preds, ahead: seq<byte>, i: nat)
    requires Selected(prods, [preds], ahead, i) && Sized(preds, 1)
    ensures Indicates(preds, i, NextSymbol(ahead)) && forall j: nat :: Indicates(preds, j, NextSymbol(ahead)) ==> j == i
  {
    hide Holds;
    if d: nat :| SettlesFirst([preds], ahead, d, i) {
      assert ahead[..1] == [ahead[0]];
    } else {
      var r := EndMarkIs([preds], ahead, i);
    }
  }

  lemma RowIsOneByte(prods: seq<seq<Symbol>>, row: Row, rounds: seq<Preds>)
    requires Flat(row) && RowKept(row, rounds) && AllSized(rounds) && Numbered(rounds, |prods|)
    ensures LlParse.OneByteRow(WithProductions(prods, row))
  {
    hide Kept, AllSized;
    var m := WithProductions(prods, row);
    forall c | c in m.branches ensures m.branches[c].epsilon.Some? {
      assert Leafy(row.branches[c]);
      assert [c][1..] == [];
      assert At(row, [c], false) == row.branches[c].epsilon && At(m, [c], false) == m.branches[c].epsilon;
      EntryChosen(prods, row, rounds, [c], false);
    }
  }

  // ----- genuine lookaheads

  /** Every sentence needs the nonterminal's rule, as far as productions tell. */
  ghost predicate Reached(g: Grammar, start: nat, a: nat) {
    IsChoice(g, a) && forall s: set<nat> :: ClosedUnder(g, s) && Covered(g, s, Nt(start)) ==> a in s
  }

  /** `k` symbols of lookahead can show the string where the `i`-th production of `a` is to be chosen. */
  ghost predicate Comes(g: Grammar, start: nat, k: nat, a: nat, i: nat, w: seq<byte>, end: bool) {
    IsChoice(g, a) && i < |g[a].prods| && (end || |w| == k) && Has(k, Cat(YieldsOf(g, g[a].prods[i]), Rests(g, start, Nt(a))), w, end)
  }

  /** The grammar is strong LL(k): no lookahead of `k` symbols can come both where one production of a nonterminal is to
      be chosen and where another is. */
  ghost predicate GenuinelyDisjoint(g: Grammar, start: nat, k: nat) {
    forall a: nat, i: nat, j: nat, w, end :: Reached(g, start, a) && Comes(g, start, k, a, i, w, end) && Comes(g, start, k, a, j, w, end) ==> i == j
  }

  lemma ClaimComes(g: Grammar, start: nat, ranked: bool, log: Log, a: nat, rounds: seq<Preds>, i: nat, w: seq<byte>, end: bool)
    requires Productive(g) && RoundsOf(g, start, ranked, log, a, rounds) && Claims(rounds, i, w, end)
    ensures Comes(g, start, |rounds|, a, i, w, end)
  {
    hide Productive, YieldsOf, Rests, Cat, Contested;
    var r :| 0 <= r < |rounds| && (end || r == |rounds| - 1) && Holds(rounds[r], i, w, end);
    assert Recorded(g, start, ranked, log, r + 1, a, rounds[r]);
    var l := Cat(YieldsOf(g, g[a].prods[i]), Rests(g, start, Nt(a)));
    assert Has(r + 1, l, w, end) && Sized(rounds[r], r + 1);
    var y :| y in l && Shows(r + 1, w, end, y);
    assert Shows(|rounds|, w, end, y);
  }

  /** In a strong LL(k) grammar no conflict is left after `k` rounds. */
  lemma DisjointCloses(g: Grammar, start: nat, ranked: bool, log: Log, a: nat, rounds: seq<Preds>)
    requires Productive(g) && RoundsOf(g, start, ranked, log, a, rounds) && Reached(g, start, a)
    requires GenuinelyDisjoint(g, start, |rounds|)
    ensures !Open(rounds)
  {
    hide Productive, RoundsOf, Claims, Comes, Reached, Open;
    if Open(rounds) {
      assert AllSized(rounds) by {
        RoundsSized(g, start, ranked, log, a, rounds);
      }
      OpenAmbiguous(rounds);
      var i: nat, j: nat, w, end :| i != j && Claims(rounds, i, w, end) && Claims(rounds, j, w, end);
      ClaimComes(g, start, ranked, log, a, rounds, i, w, end);
      ClaimComes(g, start, ranked, log, a, rounds, j, w, end);
    }
  }

  lemma RoundsSized(g: Grammar, start: nat, ranked: bool, log: Log, a: nat, rounds: seq<Preds>)
    requires RoundsOf(g, start, ranked, log, a, rounds)
    ensures IsChoice(g, a) && AllSized(rounds) && Numbered(rounds, |g[a].prods|)
  {
    hide Contested, AllSized, Predicted;
    RoundNumbers(g, start, ranked, log, a, rounds);
  }

  lemma NtsReached(g: Grammar, start: nat, nts: set<nat>)
    requires ClosedUnder(g, nts) && start in nts && forall a :: a in nts ==> IsChoice(g, a)
    requires forall s: set<nat> :: ClosedUnder(g, s) && Covered(g, s, Nt(start)) ==> nts <= s
    ensures forall a: nat :: a in nts <==> Reached(g, start, a)
    ensures Covered(g, nts, Nt(start))
  {
  }

  /** What a finished row of the table is worth. */
  ghost predicate RowWorks(g: Grammar, kmax: nat, a: nat, rounds: seq<Preds>, row: StringMap<seq<Symbol>>) {
    && IsChoice(g, a) && rounds != [] && !Open(rounds)
    && (forall ahead: seq<byte> :: Resolves(g[a].prods, rounds, row, ahead))
    && (kmax == 1 ==> forall ahead: seq<byte> :: Selects(g[a].prods, rounds[0], row, ahead))
  }

  lemma RowDoneWorks(g: Grammar, start: nat, ranked: bool, log: Log, kmax: nat, a: nat, row: Row, rounds: seq<Preds>)
    requires RowDone(g, start, ranked, log, kmax, a, row, rounds) && !Open(rounds)
    ensures IsChoice(g, a) && RowWorks(g, kmax, a, rounds, WithProductions(g[a].prods, row))
    ensures kmax == 1 ==> LlParse.OneByteRow(WithProductions(g[a].prods, row))
  {
    hide Contested, Predicted, Open, OpenBefore, RowKept, Resolves, Selects, WithProductions, Recorded, Sized, Flat;
    var prods := g[a].prods;
    RoundsSized(g, start, ranked, log, a, rounds);
    forall ahead: seq<byte> ensures Resolves(prods, rounds, WithProductions(prods, row), ahead) {
      RowResolves(prods, row, rounds, ahead);
    }
    if kmax == 1 {
      assert rounds == [rounds[0]] && Sized(rounds[0], 1);
      forall ahead: seq<byte> ensures Selects(prods, rounds[0], WithProductions(prods, row), ahead) {
        RowLookup(prods, rounds[0], WithProductions(prods, row), ahead);
      }
      RowIsOneByte(prods, row, rounds);
    }
  }

  /** `h_llk_compile`: a table the driver can use, in which lookups find what the predict sets of the rounds say, or -1.
      It is -1 exactly when in the row of some nonterminal the last round leaves a conflict, which it does not in a strong
      LL(k) grammar. */
  method Compile(g0: Grammar, symbol: Symbol, kmax: nat, ghost rank: nat -> nat, ghost ranked: bool, ghost top: nat)
    returns (code: int, g: Grammar, start: nat, table: LlDriver.Table, ghost rounds: map<nat, seq<Preds>>, ghost log: Log, ghost order: seq<nat>)
    requires Complete(g0) && (symbol.Nt? ==> symbol.id < |g0|) && kmax > 0
    requires ranked ==> Productive(Wrapped(g0, symbol).0) && Ranked(Wrapped(g0, symbol).0, rank, top)
    ensures code == 0 || code == -1
    ensures (g, start) == Wrapped(g0, symbol)
    ensures forall a :: a in rounds ==> RoundsOf(g, start, ranked, log, a, rounds[a]) && OpenBefore(rounds[a]) && 0 < |rounds[a]| <= kmax
    ensures code == 0 <==> forall a: nat :: Reached(g, start, a) ==> a in rounds && !Open(rounds[a])
    ensures code == -1 ==> exists a: nat :: Reached(g, start, a) && a in rounds && |rounds[a]| == kmax && Open(rounds[a]) && Ambiguous(rounds[a])
    ensures code == 0 ==> LlDriver.Fits(g, start, table) && (kmax == 1 ==> LlParse.OneByte(table))
    ensures code == 0 ==> forall a: nat :: a in table <==> Reached(g, start, a)
    ensures code == 0 ==> forall a: nat :: a in table ==> a in rounds && RowWorks(g, kmax, a, rounds[a], table[a])
    ensures Productive(g) && GenuinelyDisjoint(g, start, kmax) ==> code == 0
    ensures forall a: nat :: a in order <==> Reached(g, start, a)
    ensures kmax == 1 && ranked && code == 0 ==>
      forall a: nat :: Reached(g, start, a) ==> a in rounds && rounds[a] != [] && RowExact(g, FollowMemo(g, start, order), a, rounds[a][0])
  {
    hide Productive, Usable, FirstsOk, FollowsOk, Ranked, ExactOn, Sound, Cat, Derives, Follows, RowDone, RowWorks, RoundsOf;
    hide Predicted, GenuinelyDisjoint, Wrapped, ClosedUnder, Covered, Open, OpenBefore, Ambiguous, WithProductions, RowExact, TableRun, RowFilled;
    var nts;
    g, start, nts := CfGrammar(g0, symbol);
    CollectedOccur(g, start, nts);
    NtsReached(g, start, nts);
    var walk := Enumerate(nts);
    order := walk;
    var an := new Analysis(g, start, nts, walk, kmax, rank, ranked, top);
    EmptyMemo(g);
    var rows;
    code, rows, rounds := FillTable(an, kmax);
    log := an.predicted;
    table := map a | a in rows :: WithProductions(g[a].prods, rows[a]);
    forall a | a in rounds ensures RowDone(g, start, ranked, log, kmax, a, rows[a], rounds[a])
      && RoundsOf(g, start, ranked, log, a, rounds[a]) && OpenBefore(rounds[a]) && 0 < |rounds[a]| <= kmax
      && (ranked && kmax == 1 ==> RowExact(g, an.Now(), a, rounds[a][0]))
    {
      FilledRow(g, start, ranked, log, kmax, an.Now(), a, rows[a], rounds[a]);
      DoneRounds(g, start, ranked, log, kmax, a, rows[a], rounds[a]);
    }
    if code == 0 {
      forall a | a in table ensures forall w, end :: At(table[a], w, end).Some? ==> IsProduction(g, a, At(table[a], w, end).value) {
        RowFits(g, a, rows[a]);
      }
      forall a | a in table ensures RowWorks(g, kmax, a, rounds[a], table[a]) && (kmax == 1 ==> LlParse.OneByteRow(table[a])) {
        RowDoneWorks(g, start, ranked, log, kmax, a, rows[a], rounds[a]);
      }
      assert table.Keys == nts;
    } else {
      ghost var a :| a in rounds && Open(rounds[a]);
      DoneRounds(g, start, ranked, log, kmax, a, rows[a], rounds[a]);
      RoundsSized(g, start, ranked, log, a, rounds[a]);
      OpenAmbiguous(rounds[a]);
      if Productive(g) && GenuinelyDisjoint(g, start, kmax) {
        DisjointCloses(g, start, ranked, log, a, rounds[a]);
      }
    }
  }

  /** The nonterminals in some order: that of the hash set that holds them. */
  method Enumerate(nts: set<nat>) returns (order: seq<nat>)
    ensures forall a :: a in order <==> a in nts
  {
    var rest := nts;
    order := [];
    while rest != {}
      invariant rest <= nts && forall a :: a in order <==> a in nts - rest
      decreases rest
    {
      var a :| a in rest;
      rest := rest - {a};
      order := order + [a];
    }
  }

  lemma EmptyMemo(g: Grammar)
    ensures MemoOf(g, map[]) == map[]
  {
  }

  lemma DoneRounds(g: Grammar, start: nat, ranked: bool, log: Log, kmax: nat, a: nat, row: Row, rounds: seq<Preds>)
    requires RowDone(g, start, ranked, log, kmax, a, row, rounds)
    ensures RoundsOf(g, start, ranked, log, a, rounds) && OpenBefore(rounds) && 0 < |rounds| <= kmax && (Open(rounds) ==> |rounds| == kmax)
  {
    hide RoundsOf, Open, OpenBefore, RowKept, Flat;
  }
}
