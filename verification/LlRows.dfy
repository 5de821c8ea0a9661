/** Rows of the predictive parse table: how predict sets are merged into them, and what they then say of a lookahead. */
module LlRows {
  import opened Basics
  import opened Grammar
  import opened StringMap
  import opened StringSet

  /** A production, given by its number among those of its nonterminal, or the mark of a conflict. */
  datatype Cell = Conflict | Alt(n: nat)

  type Row = StringMap<Cell>

  // ----- merging

  /** `combine_entries`. */
  function Combine(dst: Cell, src: Cell): Cell {
    if dst.Conflict? || dst != src then Conflict else dst
  }

  /** The productions that become part of a conflict. */
  function Clash(dst: Option<Cell>, src: Option<Cell>): set<Cell> {
    if dst == None || src == None then {}
    else if dst.value.Conflict? then {src.value}
    else if dst != src then {dst.value, src.value}
    else {}
  }

  function Joined(dst: Option<Cell>, src: Option<Cell>): Option<Cell> {
    if src == None then dst else if dst == None then src else Some(Combine(dst.value, src.value))
  }

  /** A non-conflicting value on the left side means that the prediction is unambiguous already. */
  predicate Decided(dst: Row, src: Row) {
    src.epsilon == None && dst.epsilon.Some? && dst.epsilon.value.Alt?
  }

  /** `stringmap_merge`: the merged map. */
  function Merge(dst: Row, src: Row): Row
    decreases src
  {
    if Decided(dst, src) then dst
    else
      StringMap(Joined(dst.epsilon, src.epsilon), Joined(dst.end, src.end),
                map c | c in dst.branches.Keys + src.branches.Keys ::
                  if c !in src.branches then dst.branches[c]
                  else if c in dst.branches then Merge(dst.branches[c], src.branches[c])
                  else src.branches[c])
  }

  /** `stringmap_merge`: the conflicting values. */
  function Clashes(dst: Row, src: Row): set<Cell>
    decreases src
  {
    if Decided(dst, src) then {}
    else
      Clash(dst.epsilon, src.epsilon) + Clash(dst.end, src.end)
      + set c, v | c in src.branches && c in dst.branches && v in Clashes(dst.branches[c], src.branches[c]) :: v
  }

  // ----- a merge, entry by entry

  /** The prediction is unambiguous for a beginning of `w` at which `src` has nothing: what lies behind is not extended. */
  ghost predicate Settled(dst: Row, src: Row, w: seq<byte>) {
    exists d :: 0 <= d <= |w| && SettledAt(dst, src, w[..d])
  }

  ghost predicate SettledAt(dst: Row, src: Row, u: seq<byte>) {
    At(src, u, false) == None && At(dst, u, false).Some? && At(dst, u, false).value.Alt?
  }

  lemma SettledStep(dst: Row, src: Row, w: seq<byte>)
    requires w != [] && w[0] in dst.branches && w[0] in src.branches
    ensures Settled(dst, src, w) <==> Decided(dst, src) || Settled(dst.branches[w[0]], src.branches[w[0]], w[1..])
  {
    var dst', src', w' := dst.branches[w[0]], src.branches[w[0]], w[1..];
    if Settled(dst, src, w) && !Decided(dst, src) {
      var d :| 0 <= d <= |w| && SettledAt(dst, src, w[..d]);
      assert w[..d][1..] == w'[..d - 1];
      assert SettledAt(dst', src', w'[..d - 1]);
    }
    if Decided(dst, src) {
      assert SettledAt(dst, src, w[..0]);
    }
    if Settled(dst', src', w') {
      var d :| 0 <= d <= |w'| && SettledAt(dst', src', w'[..d]);
      assert w[..d + 1][1..] == w'[..d];
      assert SettledAt(dst, src, w[..d + 1]);
    }
  }

  lemma {:induction false} MergedAt(dst: Row, src: Row, w: seq<byte>, end: bool)
    ensures At(Merge(dst, src), w, end) ==
      if Settled(dst, src, w) then At(dst, w, end) else Joined(At(dst, w, end), At(src, w, end))
    decreases |w|
  {
    hide Settled;
    var r := Merge(dst, src);
    if w == [] {
      SettledHere(dst, src);
    } else if w[0] in dst.branches && w[0] in src.branches {
      SettledStep(dst, src, w);
      if !Decided(dst, src) {
        assert r.branches[w[0]] == Merge(dst.branches[w[0]], src.branches[w[0]]);
        MergedAt(dst.branches[w[0]], src.branches[w[0]], w[1..], end);
      } else {
        assert r == dst;
      }
    } else if w[0] in src.branches {
      NotSettled(dst, src, w);
    }
  }

  lemma SettledHere(dst: Row, src: Row)
    ensures Settled(dst, src, []) <==> Decided(dst, src)
  {
    if Decided(dst, src) {
      assert SettledAt(dst, src, [][..0]);
    }
  }

  lemma NotSettled(dst: Row, src: Row, w: seq<byte>)
    requires w != [] && w[0] !in dst.branches
    ensures Settled(dst, src, w) <==> Decided(dst, src)
  {
    if Decided(dst, src) {
      assert SettledAt(dst, src, w[..0]);
    }
  }

  /** The conflicting values are those that meet at some entry which is not settled. */
  ghost predicate Meets(dst: Row, src: Row, w: seq<byte>, end: bool, v: Cell) {
    !Settled(dst, src, w) && v in Clash(At(dst, w, end), At(src, w, end))
  }

  lemma {:induction false} ClashMeets(dst: Row, src: Row, v: Cell) returns (w: seq<byte>, end: bool)
    requires v in Clashes(dst, src)
    ensures Meets(dst, src, w, end, v)
    decreases src
  {
    hide Settled;
    SettledHere(dst, src);
    if v in Clash(dst.epsilon, src.epsilon) {
      w, end := [], false;
    } else if v in Clash(dst.end, src.end) {
      w, end := [], true;
    } else {
      var c :| c in src.branches && c in dst.branches && v in Clashes(dst.branches[c], src.branches[c]);
      var w', end' := ClashMeets(dst.branches[c], src.branches[c], v);
      w, end := [c] + w', end';
      assert w[1..] == w';
      SettledStep(dst, src, w);
    }
  }

  lemma {:induction false} MeetingClash(dst: Row, src: Row, w: seq<byte>, end: bool, v: Cell)
    requires Meets(dst, src, w, end, v)
    ensures v in Clashes(dst, src)
    decreases |w|
  {
    hide Settled;
    if w == [] {
      SettledHere(dst, src);
    } else if w[0] in dst.branches && w[0] in src.branches {
      SettledStep(dst, src, w);
      MeetingClash(dst.branches[w[0]], src.branches[w[0]], w[1..], end, v);
    }
  }

  lemma ClashesExactly(dst: Row, src: Row, v: Cell)
    ensures v in Clashes(dst, src) <==> exists w, end :: Meets(dst, src, w, end, v)
  {
    hide Meets, Clashes;
    if v in Clashes(dst, src) {
      var w, end := ClashMeets(dst, src, v);
    }
    if w, end :| Meets(dst, src, w, end, v) {
      MeetingClash(dst, src, w, end, v);
    }
  }

  // ----- replacing values

  /** `h_stringmap_replace` with NULL as the old value: all values become `v`. */
  function ReplaceAll(m: StringSet, v: Cell): Row
    decreases m
  {
    StringMap(if m.epsilon.Some? then Some(v) else None, if m.end.Some? then Some(v) else None,
              map c | c in m.branches :: ReplaceAll(m.branches[c], v))
  }

  lemma {:induction false} ReplacedEntry(m: StringSet, v: Cell, w: seq<byte>, end: bool)
    ensures At(ReplaceAll(m, v), w, end) == if In(m, w, end) then Some(v) else None
    decreases |w|
  {
    if w != [] && w[0] in m.branches {
      InStep(m, w, end);
      ReplacedEntry(m.branches[w[0]], v, w[1..], end);
    } else if w != [] {
      InStep(m, w, end);
    }
  }

  function Cleared(c: Option<Cell>): Option<Cell> {
    if c == Some(Conflict) then None else c
  }

  /** `h_stringmap_replace` with NULL as the new value: clear the conflict markers. */
  function ClearConflicts(m: Row): Row
    decreases m
  {
    StringMap(Cleared(m.epsilon), Cleared(m.end), map c | c in m.branches :: ClearConflicts(m.branches[c]))
  }

  lemma {:induction false} ClearedEntry(m: Row, w: seq<byte>, end: bool)
    ensures At(ClearConflicts(m), w, end) == Cleared(At(m, w, end))
    decreases |w|
  {
    if w != [] && w[0] in m.branches {
      ClearedEntry(m.branches[w[0]], w[1..], end);
    }
  }

  // ----- what the predict sets of the rounds say

  /** The predict sets that were merged in one round, by the number of the production. */
  type Preds = map<nat, StringSet>

  ghost predicate Holds(preds: Preds, i: nat, w: seq<byte>, end: bool) {
    i in preds && In(preds[i], w, end)
  }

  ghost predicate Alone(preds: Preds, i: nat, w: seq<byte>, end: bool) {
    Holds(preds, i, w, end) && forall j :: Holds(preds, j, w, end) ==> j == i
  }

  /** No production, one, or several have the string in their predict set. */
  ghost function Mark(preds: Preds, w: seq<byte>, end: bool): (c: Option<Cell>)
    ensures c == None <==> forall i :: !Holds(preds, i, w, end)
    ensures c.Some? && c.value.Alt? ==> Alone(preds, c.value.n, w, end)
    ensures forall i :: Alone(preds, i, w, end) ==> c == Some(Alt(i))
  {
    if i :| Alone(preds, i, w, end) then Some(Alt(i))
    else if exists i :: Holds(preds, i, w, end) then Some(Conflict)
    else None
  }

  lemma MarkMore(preds: Preds, i: nat, pred: StringSet, w: seq<byte>, end: bool)
    requires i !in preds
    ensures Mark(preds[i := pred], w, end) == Joined(Mark(preds, w, end), if In(pred, w, end) then Some(Alt(i)) else None)
  {
    hide In;
    var preds' := preds[i := pred];
    forall j ensures Holds(preds', j, w, end) <==> Holds(preds, j, w, end) || (j == i && In(pred, w, end)) {
    }
    match Mark(preds, w, end)
    case None =>
      if In(pred, w, end) {
        assert Alone(preds', i, w, end);
      }
    case Some(Alt(n)) =>
      assert Holds(preds', n, w, end);
      if In(pred, w, end) {
        assert Holds(preds', i, w, end);
      } else {
        assert Alone(preds', n, w, end);
      }
    case Some(Conflict) =>
      var j :| Holds(preds, j, w, end);
      assert !Alone(preds, j, w, end);
      var k :| Holds(preds, k, w, end) && k != j;
      assert Holds(preds', j, w, end) && Holds(preds', k, w, end);
  }

  /** The strings of a round: `k` bytes long, or shorter and up to the end of the input. */
  ghost predicate Sized(preds: Preds, k: nat) {
    forall i, w, end :: Holds(preds, i, w, end) ==> if end then |w| < k else |w| == k
  }

  ghost predicate AllSized(rounds: seq<Preds>) {
    forall r :: 0 <= r < |rounds| ==> Sized(rounds[r], r + 1)
  }

  /** The entry of the row behind the rounds `before` and the predict sets merged after them. */
  ghost function Entry(before: seq<Preds>, preds: Preds, w: seq<byte>, end: bool): Option<Cell>
    decreases |before|, 2
  {
    if Shut(before, w) then Kept(before, w, end) else Joined(Kept(before, w, end), Mark(preds, w, end))
  }

  /** What later rounds find: conflicts have been cleared. */
  ghost function Kept(rounds: seq<Preds>, w: seq<byte>, end: bool): Option<Cell>
    decreases |rounds|, 0
  {
    if rounds == [] then None else Cleared(Entry(rounds[..|rounds| - 1], rounds[|rounds| - 1], w, end))
  }

  /** A beginning of `w` indicates one production already. */
  ghost predicate Shut(rounds: seq<Preds>, w: seq<byte>)
    decreases |rounds|, 1
  {
    exists d :: 0 <= d <= |w| && Kept(rounds, w[..d], false).Some?
  }

  ghost predicate Contests(before: seq<Preds>, preds: Preds, i: nat, w: seq<byte>, end: bool) {
    && !Shut(before, w) && Entry(before, preds, w, end) == Some(Conflict)
    && (Holds(preds, i, w, end) || Kept(before, w, end) == Some(Alt(i)))
  }

  /** The production takes part in a conflict of the round. */
  ghost predicate Contested(before: seq<Preds>, preds: Preds, i: nat) {
    exists w, end :: Contests(before, preds, i, w, end)
  }

  lemma {:induction false} KeptIs(rounds: seq<Preds>, w: seq<byte>, end: bool)
    requires AllSized(rounds)
    ensures var c := Kept(rounds, w, end); c != Some(Conflict) && (c.Some? && !end ==> 0 < |w| <= |rounds|)
    ensures var c := Kept(rounds, w, end); c.Some? ==> exists r :: 0 <= r < |rounds| && Holds(rounds[r], c.value.n, w, end)
    decreases |rounds|
  {
    hide Holds, Shut;
    if rounds != [] {
      var before, preds := rounds[..|rounds| - 1], rounds[|rounds| - 1];
      KeptIs(before, w, end);
      assert Sized(preds, |rounds|);
    }
  }

  /** Before the strings of the round there is nothing new. */
  lemma ShortEntry(before: seq<Preds>, preds: Preds, w: seq<byte>)
    requires AllSized(before) && Sized(preds, |before| + 1) && |w| <= |before|
    ensures Entry(before, preds, w, false) == Kept(before, w, false)
  {
    hide Shut, Kept;
  }

  ghost predicate RowIs(row: Row, before: seq<Preds>, preds: Preds) {
    forall w, end :: At(row, w, end) == Entry(before, preds, w, end)
  }

  ghost predicate RowKept(row: Row, rounds: seq<Preds>) {
    forall w, end :: At(row, w, end) == Kept(rounds, w, end)
  }

  lemma Fresh(row: Row, before: seq<Preds>)
    requires RowKept(row, before)
    ensures RowIs(row, before, map[]) && forall i :: !Contested(before, map[], i)
  {
    hide Shut, Kept;
    forall w, end ensures At(row, w, end) == Entry(before, map[], w, end) {
      assert At(row, w, end) == Kept(before, w, end);
    }
  }

  lemma RowCleared(row: Row, before: seq<Preds>, preds: Preds)
    requires RowIs(row, before, preds)
    ensures RowKept(ClearConflicts(row), before + [preds])
  {
    hide Entry, ClearConflicts;
    var rounds := before + [preds];
    assert rounds[..|rounds| - 1] == before;
    forall w, end ensures At(ClearConflicts(row), w, end) == Kept(rounds, w, end) {
      ClearedEntry(row, w, end);
    }
  }

  /** One string of the round, when one more predict set is merged. */
  lemma EntryMore(row: Row, before: seq<Preds>, preds: Preds, i: nat, pred: StringSet, w: seq<byte>, end: bool)
    requires RowIs(row, before, preds) && AllSized(before) && i !in preds && Sized(preds[i := pred], |before| + 1) && Sized(preds, |before| + 1)
    ensures var src, preds' := ReplaceAll(pred, Alt(i)), preds[i := pred];
      && At(Merge(row, src), w, end) == Entry(before, preds', w, end)
      && forall j :: Contests(before, preds', j, w, end) <==> Contests(before, preds, j, w, end) || Meets(row, src, w, end, Alt(j))
  {
    hide Merge, ReplaceAll, Settled, Shut, Kept, RowIs, Sized, AllSized, Mark, Contests, Meets;
    var src := ReplaceAll(pred, Alt(i));
    MergedAt(row, src, w, end);
    ReplacedEntry(pred, Alt(i), w, end);
    MarkMore(preds, i, pred, w, end);
    SettledIs(row, before, preds, i, pred, w, end);
    KeptIs(before, w, end);
    Rowed(row, before, preds, w, end);
    forall j ensures Contests(before, preds[i := pred], j, w, end) <==> Contests(before, preds, j, w, end) || Meets(row, src, w, end, Alt(j)) {
      ContestsMore(row, before, preds, i, pred, w, end, j);
    }
  }

  lemma ContestsMore(row: Row, before: seq<Preds>, preds: Preds, i: nat, pred: StringSet, w: seq<byte>, end: bool, j: nat)
    requires RowIs(row, before, preds) && AllSized(before) && i !in preds && Sized(preds[i := pred], |before| + 1) && Sized(preds, |before| + 1)
    ensures Contests(before, preds[i := pred], j, w, end) <==>
      Contests(before, preds, j, w, end) || Meets(row, ReplaceAll(pred, Alt(i)), w, end, Alt(j))
  {
    hide ReplaceAll, Settled, Shut, Kept, RowIs, Sized, AllSized, Mark, In;
    ReplacedEntry(pred, Alt(i), w, end);
    MarkMore(preds, i, pred, w, end);
    SettledIs(row, before, preds, i, pred, w, end);
    KeptIs(before, w, end);
    Rowed(row, before, preds, w, end);
    assert Holds(preds[i := pred], j, w, end) <==> Holds(preds, j, w, end) || (j == i && In(pred, w, end));
  }

  lemma Rowed(row: Row, before: seq<Preds>, preds: Preds, w: seq<byte>, end: bool)
    requires RowIs(row, before, preds)
    ensures At(row, w, end) == Entry(before, preds, w, end)
  {
    hide Entry;
  }

  lemma SettledIs(row: Row, before: seq<Preds>, preds: Preds, i: nat, pred: StringSet, w: seq<byte>, end: bool)
    requires RowIs(row, before, preds) && AllSized(before) && i !in preds && Sized(preds[i := pred], |before| + 1) && Sized(preds, |before| + 1)
    ensures var src := ReplaceAll(pred, Alt(i));
      && (Shut(before, w) ==> Settled(row, src, w))
      && (Settled(row, src, w) && !Shut(before, w) ==> At(src, w, end) == None)
  {
    hide ReplaceAll, Kept, Entry, RowIs, AllSized;
    var src, k := ReplaceAll(pred, Alt(i)), |before| + 1;
    ReplacedEntry(pred, Alt(i), w, end);
    assert Holds(preds[i := pred], i, w, end) <==> In(pred, w, end);
    if Shut(before, w) {
      var d :| 0 <= d <= |w| && Kept(before, w[..d], false).Some?;
      KeptIs(before, w[..d], false);
      ShortEntry(before, preds, w[..d]);
      Rowed(row, before, preds, w[..d], false);
      ReplacedEntry(pred, Alt(i), w[..d], false);
      assert Holds(preds[i := pred], i, w[..d], false) <==> In(pred, w[..d], false);
      assert SettledAt(row, src, w[..d]);
    } else if Settled(row, src, w) {
      var d :| 0 <= d <= |w| && SettledAt(row, src, w[..d]);
      Rowed(row, before, preds, w[..d], false);
      if d < k {
        ShortEntry(before, preds, w[..d]);
      } else if d == |w| {
        assert w[..d] == w;
      }
    }
  }

  /** Merging one more predict set in a round. */
  lemma RoundStep(row: Row, before: seq<Preds>, preds: Preds, i: nat, pred: StringSet)
    requires RowIs(row, before, preds) && AllSized(before) && i !in preds && Sized(preds[i := pred], |before| + 1) && Sized(preds, |before| + 1)
    ensures var src, preds' := ReplaceAll(pred, Alt(i)), preds[i := pred];
      && RowIs(Merge(row, src), before, preds')
      && forall c :: c in Clashes(row, src) ==> c.Alt?
    ensures var src, preds' := ReplaceAll(pred, Alt(i)), preds[i := pred];
      forall j :: Contested(before, preds', j) <==> Contested(before, preds, j) || Alt(j) in Clashes(row, src)
  {
    hide Merge, ReplaceAll, Clashes, Entry, Contests, Meets, AllSized, Sized;
    var src, preds' := ReplaceAll(pred, Alt(i)), preds[i := pred];
    forall w, end ensures At(Merge(row, src), w, end) == Entry(before, preds', w, end) {
      EntryMore(row, before, preds, i, pred, w, end);
    }
    forall j ensures Contested(before, preds', j) <==> Contested(before, preds, j) || Alt(j) in Clashes(row, src) {
      ClashesExactly(row, src, Alt(j));
      forall w, end ensures Contests(before, preds', j, w, end) <==> Contests(before, preds, j, w, end) || Meets(row, src, w, end, Alt(j)) {
        EntryMore(row, before, preds, i, pred, w, end);
      }
    }
    forall c | c in Clashes(row, src) ensures c.Alt? {
      ClashesExactly(row, src, c);
      var w, end :| Meets(row, src, w, end, c);
      ReplacedEntry(pred, Alt(i), w, end);
      ClashIsAlt(row, src, w, end, c, i);
    }
  }

  lemma ClashIsAlt(row: Row, src: Row, w: seq<byte>, end: bool, c: Cell, i: nat)
    requires Meets(row, src, w, end, c) && (At(src, w, end) == None || At(src, w, end) == Some(Alt(i)))
    ensures c.Alt?
  {
    hide Settled;
  }

  // ----- what is contested

  /** The production has the string in the predict set of the last round, or ends with it in that of an earlier one. */
  ghost predicate Claims(rounds: seq<Preds>, i: nat, w: seq<byte>, end: bool) {
    exists r :: 0 <= r < |rounds| && (end || r == |rounds| - 1) && Holds(rounds[r], i, w, end)
  }

  /** A production takes part in a conflict of the last round only where another one claims the same string. */
  lemma ContestedShares(rounds: seq<Preds>, i: nat) returns (j: nat, w: seq<byte>, end: bool)
    requires AllSized(rounds) && rounds != []
    requires Contested(rounds[..|rounds| - 1], rounds[|rounds| - 1], i)
    ensures i != j && Claims(rounds, i, w, end) && Claims(rounds, j, w, end)
    ensures Holds(rounds[|rounds| - 1], i, w, end) || Holds(rounds[|rounds| - 1], j, w, end)
  {
    hide Holds, Sized, Kept, Mark;
    var before, preds := rounds[..|rounds| - 1], rounds[|rounds| - 1];
    w, end :| Contests(before, preds, i, w, end);
    KeptIs(before, w, end);
    assert w[..|w|] == w;
    if k :| Holds(preds, k, w, end) && k != i {
      j := k;
    } else {
      assert Alone(preds, i, w, end) || forall k :: !Holds(preds, k, w, end);
      j := Kept(before, w, end).value.n;
    }
    forall n | Kept(before, w, end) == Some(Alt(n)) ensures Claims(rounds, n, w, end) {
      var r :| 0 <= r < |before| && Holds(before[r], n, w, end);
      assert Holds(rounds[r], n, w, end);
    }
  }

  // ----- what the row says in the end

  /** A string of bytes is kept for the production that was alone with it in its round, if none was alone with a beginning. */
  lemma {:induction false} KeptAlone(rounds: seq<Preds>, w: seq<byte>, i: nat)
    requires AllSized(rounds)
    ensures Kept(rounds, w, false) == Some(Alt(i)) <==>
      0 < |w| <= |rounds| && Alone(rounds[|w| - 1], i, w, false) && !Shut(rounds[..|w| - 1], w)
    decreases |rounds|
  {
    hide Holds, Shut, Alone, Mark;
    if rounds != [] {
      var before, preds := rounds[..|rounds| - 1], rounds[|rounds| - 1];
      KeptIs(before, w, false);
      if |w| < |rounds| {
        ShortEntry(before, preds, w);
        KeptAlone(before, w, i);
        if 0 < |w| {
          assert before[..|w| - 1] == rounds[..|w| - 1];
        }
      } else if |w| > |rounds| {
        KeptIs(rounds, w, false);
      } else {
        MarkAlone(preds, w, false, i);
      }
    }
  }

  lemma MarkAlone(preds: Preds, w: seq<byte>, end: bool, i: nat)
    ensures Mark(preds, w, end) == Some(Alt(i)) <==> Alone(preds, i, w, end)
  {
    hide Holds;
  }

  /** Some production is alone in its round with a beginning of `w`. */
  ghost predicate Settles(rounds: seq<Preds>, w: seq<byte>, d: nat, i: nat) {
    0 < d <= |w| && d <= |rounds| && Alone(rounds[d - 1], i, w[..d], false)
  }

  /** The first beginning of `w` with which some production is alone. */
  ghost predicate SettlesFirst(rounds: seq<Preds>, w: seq<byte>, d: nat, i: nat) {
    Settles(rounds, w, d, i) && forall e: nat, j: nat :: e < d ==> !Settles(rounds, w, e, j)
  }

  lemma ShutAlone(rounds: seq<Preds>, w: seq<byte>)
    requires AllSized(rounds)
    ensures Shut(rounds, w) <==> exists d: nat, i: nat :: Settles(rounds, w, d, i)
  {
    hide Kept, Alone;
    if Shut(rounds, w) {
      var d :| 0 <= d <= |w| && Kept(rounds, w[..d], false).Some?;
      KeptIs(rounds, w[..d], false);
      var i := Kept(rounds, w[..d], false).value.n;
      KeptAlone(rounds, w[..d], i);
      assert Settles(rounds, w, d, i);
    }
    if d: nat, i: nat :| Settles(rounds, w, d, i) {
      KeptAlone(rounds, w[..d], i);
      if Shut(rounds[..d - 1], w[..d]) {
        var before := rounds[..d - 1];
        var e :| 0 <= e <= d && Kept(before, w[..d][..e], false).Some?;
        assert w[..d][..e] == w[..e];
        KeptIs(before, w[..e], false);
        var j := Kept(before, w[..e], false).value.n;
        KeptAlone(before, w[..e], j);
        KeptAlone(rounds, w[..e], j);
        assert before[..e - 1] == rounds[..e - 1];
      }
    }
  }

  /** The production kept for a string that ends the input: rounds in which several claim it clear it. */
  ghost function EndMark(rounds: seq<Preds>, w: seq<byte>): Option<Cell> {
    if rounds == [] then None
    else Cleared(Joined(EndMark(rounds[..|rounds| - 1], w), Mark(rounds[|rounds| - 1], w, true)))
  }

  lemma {:induction false} KeptEnd(rounds: seq<Preds>, w: seq<byte>)
    requires AllSized(rounds)
    ensures Kept(rounds, w, true) == if Shut(rounds, w) then None else EndMark(rounds, w)
    decreases |rounds|
  {
    hide Holds, Mark;
    if rounds != [] {
      var before, preds := rounds[..|rounds| - 1], rounds[|rounds| - 1];
      KeptEnd(before, w);
      ShutLater(rounds, w);
      if |w| >= |rounds| {
        NoEnd(rounds, w);
        NoEnd(before, w);
      }
    }
  }

  lemma {:induction false} NoEnd(rounds: seq<Preds>, w: seq<byte>)
    requires AllSized(rounds) && |w| >= |rounds|
    ensures EndMark(rounds, w) == None && Kept(rounds, w, true) == None
    decreases |rounds|
  {
    hide Holds, Mark, Shut;
    if rounds != [] {
      NoEnd(rounds[..|rounds| - 1], w);
      assert Sized(rounds[|rounds| - 1], |rounds|);
    }
  }

  /** A string shorter than the rounds before is settled by them or not at all. */
  lemma ShutLater(rounds: seq<Preds>, w: seq<byte>)
    requires AllSized(rounds) && rounds != []
    ensures var before := rounds[..|rounds| - 1];
      (Shut(before, w) ==> Shut(rounds, w)) && (|w| < |rounds| && Shut(rounds, w) ==> Shut(before, w))
  {
    hide Shut, Alone;
    var before := rounds[..|rounds| - 1];
    ShutAlone(rounds, w);
    ShutAlone(before, w);
    if d: nat, i: nat :| Settles(before, w, d, i) {
      assert Settles(rounds, w, d, i);
    }
    if |w| < |rounds| {
      if d: nat, i: nat :| Settles(rounds, w, d, i) {
        assert Settles(before, w, d, i);
      }
    }
  }

  /** The production kept for the end of the input claims it, and no other one does in any later round. */
  lemma {:induction false} EndMarkIs(rounds: seq<Preds>, w: seq<byte>, i: nat) returns (r: nat)
    requires EndMark(rounds, w) == Some(Alt(i))
    ensures r < |rounds| && Holds(rounds[r], i, w, true)
    ensures forall q, j :: r <= q < |rounds| && Holds(rounds[q], j, w, true) ==> j == i
    decreases |rounds|
  {
    hide Holds;
    var before, preds := rounds[..|rounds| - 1], rounds[|rounds| - 1];
    if EndMark(before, w) == Some(Alt(i)) {
      r := EndMarkIs(before, w, i);
      assert Holds(before[r], i, w, true);
      forall q, j | r <= q < |rounds| && Holds(rounds[q], j, w, true) ensures j == i {
        if q < |before| {
          assert Holds(before[q], j, w, true);
        }
      }
    } else {
      r := |before|;
    }
  }

  // ----- lookups

  function Chosen(prods: seq<seq<Symbol>>, c: Option<Cell>): Option<seq<Symbol>> {
    if c.Some? && c.value.Alt? && c.value.n < |prods| then Some(prods[c.value.n]) else None
  }

  /** The row with its productions in place of their numbers. */
  function WithProductions(prods: seq<seq<Symbol>>, row: Row): StringMap<seq<Symbol>>
    decreases row
  {
    StringMap(Chosen(prods, row.epsilon), Chosen(prods, row.end), map c | c in row.branches :: WithProductions(prods, row.branches[c]))
  }

  lemma {:induction false} ChosenAt(prods: seq<seq<Symbol>>, row: Row, w: seq<byte>, end: bool)
    ensures At(WithProductions(prods, row), w, end) == Chosen(prods, At(row, w, end))
    decreases |w|
  {
    if w != [] && w[0] in row.branches {
      ChosenAt(prods, row.branches[w[0]], w[1..], end);
    }
  }

  ghost predicate Numbered(rounds: seq<Preds>, n: nat) {
    forall r, i :: 0 <= r < |rounds| && i in rounds[r] ==> i < n
  }

  /** The production that the rounds leave for the lookahead `ahead`, behind which the input ends. */
  ghost predicate Selected(prods: seq<seq<Symbol>>, rounds: seq<Preds>, ahead: seq<byte>, i: nat) {
    && i < |prods|
    && ((exists d: nat :: SettlesFirst(rounds, ahead, d, i))
        || ((forall d: nat, j: nat :: !Settles(rounds, ahead, d, j)) && EndMark(rounds, ahead) == Some(Alt(i))))
  }

  /** A lookup in the row finds the production that is alone in its round with the shortest beginning of the lookahead
      for which there is one; else the one kept for the end of the input. */
  ghost predicate Resolves(prods: seq<seq<Symbol>>, rounds: seq<Preds>, m: StringMap<seq<Symbol>>, ahead: seq<byte>) {
    var r := Lookahead(m, ahead, true);
    r.Found? && match r.value
    case None => (forall d: nat, j: nat :: !Settles(rounds, ahead, d, j)) && EndMark(rounds, ahead) == None
    case Some(p) => exists i: nat :: Selected(prods, rounds, ahead, i) && prods[i] == p
  }

  lemma RowResolves(prods: seq<seq<Symbol>>, row: Row, rounds: seq<Preds>, ahead: seq<byte>)
    requires RowKept(row, rounds) && AllSized(rounds) && Numbered(rounds, |prods|)
    ensures Resolves(prods, rounds, WithProductions(prods, row), ahead)
  {
    hide Kept, Settles, EndMark, Lookahead, WithProductions, AllSized;
    var m := WithProductions(prods, row);
    var k := LookaheadFinds(m, ahead, true);
    var r := Lookahead(m, ahead, true);
    ShutAlone(rounds, ahead);
    forall d | 0 <= d <= |ahead| ensures At(m, ahead[..d], false).Some? <==> Kept(rounds, ahead[..d], false).Some? {
      EntryChosen(prods, row, rounds, ahead[..d], false);
    }
    EntryChosen(prods, row, rounds, ahead, true);
    KeptEnd(rounds, ahead);
    if At(m, ahead[..k], false).Some? {
      EntryChosen(prods, row, rounds, ahead[..k], false);
      var i := Kept(rounds, ahead[..k], false).value.n;
      FirstSettled(rounds, ahead, k, i);
      assert Selected(prods, rounds, ahead, i);
    } else if r.value.Some? {
      assert Selected(prods, rounds, ahead, Kept(rounds, ahead, true).value.n);
    }
  }

  lemma FirstSettled(rounds: seq<Preds>, ahead: seq<byte>, k: nat, i: nat)
    requires AllSized(rounds) && k <= |ahead| && Kept(rounds, ahead[..k], false) == Some(Alt(i))
    requires forall j :: 0 <= j < k ==> Kept(rounds, ahead[..j], false) == None
    ensures SettlesFirst(rounds, ahead, k, i)
  {
    hide Kept, Alone, AllSized;
    KeptAlone(rounds, ahead[..k], i);
    KeptIs(rounds, ahead[..k], false);
    if e: nat, j: nat :| e < k && Settles(rounds, ahead, e, j) {
      assert ahead[..e][..e] == ahead[..e];
      assert Settles(rounds, ahead[..e], e, j);
      ShutAlone(rounds, ahead[..e]);
      var d :| 0 <= d <= e && Kept(rounds, ahead[..e][..d], false).Some?;
      assert ahead[..e][..d] == ahead[..d];
    }
  }

  lemma EntryChosen(prods: seq<seq<Symbol>>, row: Row, rounds: seq<Preds>, w: seq<byte>, end: bool)
    requires RowKept(row, rounds) && AllSized(rounds) && Numbered(rounds, |prods|)
    ensures var c := Kept(rounds, w, end);
      match c
      case None => At(WithProductions(prods, row), w, end) == None
      case Some(Alt(i)) => i < |prods| && At(WithProductions(prods, row), w, end) == Some(prods[i])
      case Some(Conflict) => false
  {
    hide Kept, WithProductions, AllSized;
    ChosenAt(prods, row, w, end);
    KeptIs(rounds, w, end);
    assert At(row, w, end) == Kept(rounds, w, end);
  }
}
