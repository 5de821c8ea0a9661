/** The search of the permutation combinator: it finds the least order in which all parsers match. */
module PermutationSearch {
  import opened Basics
  import opened Combinators
  import Packrat

  /** `order` lists exactly the active parsers, each once. */
  ghost predicate Ordering(active: seq<bool>, order: seq<nat>) {
    && (forall i: nat :: i in order <==> i < |active| && active[i])
    && (forall j, k :: 0 <= j < k < |order| ==> order[j] != order[k])
  }

  /** The results of the parsers in this order, and the stream behind the last one; None unless all of them match. */
  function Follow(g: seq<Parser>, n: nat, ps: seq<nat>, order: seq<nat>, s: Input): Option<(seq<Option<Token>>, Input)>
    decreases |order|
  {
    if order == [] then Some(([], s))
    else if order[0] >= |ps| then None
    else
      var r := Direct(g, n, ps[order[0]], s);
      if r == None || r.value.res.Fail? then None
      else
        var rest := Follow(g, n, ps, order[1..], r.value.s);
        if rest == None then None else Some(([r.value.res.ast] + rest.value.0, rest.value.1))
  }

  /** All parsers match in this order, whatever bound direct evaluation takes for it. */
  ghost predicate Works(g: seq<Parser>, ps: seq<nat>, order: seq<nat>, s: Input) {
    exists m: nat :: Follow(g, m, ps, order, s).Some?
  }

  function LexLe(a: seq<nat>, b: seq<nat>): bool {
    a == [] || (b != [] && (a[0] < b[0] || (a[0] == b[0] && LexLe(a[1..], b[1..]))))
  }

  /** None of the parsers ever yields an empty optional. */
  ghost predicate NeverNone(g: seq<Parser>, ps: seq<nat>) {
    forall i, n, s :: 0 <= i < |ps| && Direct(g, n, ps[i], s).Some? && Direct(g, n, ps[i], s).value.res.Ok?
      ==> !IsNone(Direct(g, n, ps[i], s).value.res.ast)
  }

  function Count(active: seq<bool>): nat {
    if active == [] then 0 else Count(active[..|active| - 1]) + if active[|active| - 1] then 1 else 0
  }

  lemma {:induction false} CountOne(active: seq<bool>, i: nat)
    requires i < |active| && active[i]
    ensures Count(active[i := false]) == Count(active) - 1
  {
    var last := |active| - 1;
    if i < last {
      CountOne(active[..last], i);
      assert active[i := false][..last] == active[..last][i := false];
    } else {
      assert active[i := false][..last] == active[..last];
    }
  }

  lemma {:induction false} CountZero(active: seq<bool>)
    ensures Count(active) == 0 <==> forall i :: 0 <= i < |active| ==> !active[i]
  {
    if active != [] {
      var last := |active| - 1;
      CountZero(active[..last]);
      assert forall i :: 0 <= i < last ==> active[i] == active[..last][i];
    }
  }

  lemma {:induction false} CountAll(n: nat)
    ensures Count(seq(n, _ => true)) == n
  {
    if n > 0 {
      CountAll(n - 1);
      assert seq(n, _ => true)[..n - 1] == seq(n - 1, _ => true);
    }
  }

  lemma TakeFirst(active: seq<bool>, order: seq<nat>)
    requires Ordering(active, order) && order != []
    ensures order[0] < |active| && active[order[0]] && Ordering(active[order[0] := false], order[1..])
  {
    var rest := order[1..];
    assert order[0] in order;
    forall i: nat ensures i in rest <==> i < |active| && active[order[0] := false][i] {
      if i in rest {
        var j :| 0 <= j < |rest| && rest[j] == i;
        assert order[j + 1] == i;
      }
      assert i in order <==> i == order[0] || i in rest;
    }
  }

  lemma PutFirst(active: seq<bool>, i: nat, rest: seq<nat>)
    requires i < |active| && active[i] && Ordering(active[i := false], rest)
    ensures Ordering(active, [i] + rest)
  {
    var order := [i] + rest;
    assert i !in rest;
    forall j, k | 0 <= j < k < |order| ensures order[j] != order[k] {
      assert order[k] == rest[k - 1];
      assert rest[k - 1] in rest;
    }
  }

  /** What a search of the orders whose first parser is `i` or a later one has found. */
  ghost predicate Found(g: seq<Parser>, n: nat, ps: seq<nat>, from: nat, active: seq<bool>, elems: seq<Option<Token>>, s: Input,
                        r: PermOut, order: seq<nat>)
    requires |active| == |elems| == |r.active| == |r.elems| == |ps|
  {
    && (forall i :: 0 <= i < |ps| && !active[i] ==> r.elems[i] == elems[i])
    && (forall i :: 0 <= i < |ps| ==> !IsNone(r.elems[i]))
    && if r.ok then
         && Ordering(active, order) && (order != [] ==> order[0] >= from)
         && Follow(g, n, ps, order, s).Some? && r.s == Follow(g, n, ps, order, s).value.1
         && |Follow(g, n, ps, order, s).value.0| == |order|
         && (forall j :: 0 <= j < |order| ==>
              order[j] < |ps| && r.elems[order[j]] == Follow(g, n, ps, order, s).value.0[j])
         && (forall other :: Candidate(active, from, other) && Works(g, ps, other, s) ==> LexLe(order, other))
       else
         && r.active == active && r.s == s
         && (forall other :: Candidate(active, from, other) ==> !Works(g, ps, other, s))
  }

  ghost predicate Candidate(active: seq<bool>, from: nat, order: seq<nat>) {
    Ordering(active, order) && (order != [] ==> order[0] >= from)
  }

  lemma {:induction false} TailSearch(g: seq<Parser>, n: nat, ps: seq<nat>, k: nat, active: seq<bool>, elems: seq<Option<Token>>, s: Input) returns (order: seq<nat>)
    requires |active| == |elems| == |ps| && NeverNone(g, ps) && Count(active) + k == |ps|
    requires forall i :: 0 <= i < |ps| ==> !IsNone(elems[i])
    requires PermTail(g, n, ps, k, active, elems, s).Some?
    ensures Found(g, n, ps, 0, active, elems, s, PermTail(g, n, ps, k, active, elems, s).value, order)
    decreases |ps| - k, |ps| + 1
  {
    hide Direct, NeverNone;
    if k >= |ps| {
      order := [];
      CountZero(active);
    } else {
      order := TrySearch(g, n, ps, k, 0, active, elems, s);
    }
  }

  /** Nothing is found with parser `i` first, so what is found behind it is what is found. */
  lemma StepOver(g: seq<Parser>, n: nat, ps: seq<nat>, i: nat, active: seq<bool>, elems: seq<Option<Token>>, elems1: seq<Option<Token>>,
                 s: Input, r: PermOut, order: seq<nat>)
    requires |active| == |elems| == |elems1| == |r.active| == |r.elems| == |ps|
    requires Found(g, n, ps, i + 1, active, elems1, s, r, order)
    requires forall j :: 0 <= j < |ps| && !active[j] ==> elems1[j] == elems[j]
    requires forall other :: Ordering(active, other) && other != [] && other[0] == i ==> !Works(g, ps, other, s)
    ensures Found(g, n, ps, i, active, elems, s, r, order)
  {
    hide Follow, Ordering, Works;
    forall other | Candidate(active, i, other) && Works(g, ps, other, s) ensures Candidate(active, i + 1, other) {
    }
  }

  /** A match of parser `i` whose continuation fails rules out the orders that begin with it. */
  lemma BeginsWith(g: seq<Parser>, n: nat, ps: seq<nat>, i: nat, active: seq<bool>, s: Input, r: Out, other: seq<nat>)
    requires |active| == |ps| && i < |ps| && Direct(g, n, ps[i], s) == Some(r) && r.res.Ok?
    requires Ordering(active, other) && other != [] && other[0] == i
    ensures Candidate(active[i := false], 0, other[1..])
    ensures var rest := Follow(g, n, ps, other[1..], r.s);
      Follow(g, n, ps, other, s) == if rest == None then None else Some(([r.res.ast] + rest.value.0, rest.value.1))
    ensures Works(g, ps, other, s) ==> Works(g, ps, other[1..], r.s)
  {
    hide Direct;
    TakeFirst(active, other);
    if Works(g, ps, other, s) {
      var m: nat :| Follow(g, m, ps, other, s).Some?;
      DirectUnique(g, m, n, ps[i], s);
      assert Follow(g, m, ps, other[1..], r.s).Some?;
    }
  }

  lemma ExtendFound(g: seq<Parser>, n: nat, ps: seq<nat>, i: nat, active: seq<bool>, elems: seq<Option<Token>>, s: Input, r: Out,
                    t: PermOut, rest: seq<nat>)
    requires |active| == |elems| == |t.active| == |t.elems| == |ps| && i < |ps| && active[i]
    requires Direct(g, n, ps[i], s) == Some(r) && r.res.Ok? && t.ok
    requires Found(g, n, ps, 0, active[i := false], elems[i := r.res.ast], r.s, t, rest)
    ensures Found(g, n, ps, i, active, elems, s, t, [i] + rest)
  {
    hide Direct, Follow, Ordering;
    var order := [i] + rest;
    PutFirst(active, i, rest);
    BeginsWith(g, n, ps, i, active, s, r, order);
    assert order[1..] == rest;
    forall j | 0 <= j < |order| ensures order[j] < |ps| && t.elems[order[j]] == Follow(g, n, ps, order, s).value.0[j] {
      if j > 0 {
        assert order[j] == rest[j - 1];
      }
    }
    forall other | Candidate(active, i, other) && Works(g, ps, other, s) ensures LexLe(order, other) {
      NotEmpty(active, i, other);
      if other[0] == i {
        BeginsWith(g, n, ps, i, active, s, r, other);
      }
    }
  }

  lemma NotEmpty(active: seq<bool>, i: nat, order: seq<nat>)
    requires Ordering(active, order) && i < |active| && active[i]
    ensures order != []
  {
    assert i in order;
  }

  /** All parsers have been tried. */
  lemma NothingLeft(g: seq<Parser>, n: nat, ps: seq<nat>, active: seq<bool>, elems: seq<Option<Token>>, s: Input)
    requires |active| == |elems| == |ps| && Count(active) > 0 && forall i :: 0 <= i < |ps| ==> !IsNone(elems[i])
    ensures Found(g, n, ps, |ps|, active, elems, s, PermOut(AllNone(active, elems), active, elems, s), [])
  {
    CountZero(active);
    var j :| 0 <= j < |active| && active[j];
    assert !AllNone(active, elems);
    forall other ensures !Candidate(active, |ps|, other) {
      BeyondAll(active, j, other);
    }
  }

  lemma BeyondAll(active: seq<bool>, j: nat, order: seq<nat>)
    requires j < |active| && active[j]
    ensures !Candidate(active, |active|, order)
  {
    if order != [] {
      assert order[0] in order;
    } else {
      assert j !in order;
    }
  }

  lemma NotNone(g: seq<Parser>, n: nat, ps: seq<nat>, i: nat, s: Input)
    requires NeverNone(g, ps) && i < |ps| && Direct(g, n, ps[i], s).Some? && Direct(g, n, ps[i], s).value.res.Ok?
    ensures !IsNone(Direct(g, n, ps[i], s).value.res.ast)
  {
  }

  lemma {:induction false} TrySearch(g: seq<Parser>, n: nat, ps: seq<nat>, k: nat, i: nat, active: seq<bool>, elems: seq<Option<Token>>, bak: Input) returns (order: seq<nat>)
    requires |active| == |elems| == |ps| && NeverNone(g, ps) && Count(active) + k == |ps| && k < |ps| && i <= |ps|
    requires forall i :: 0 <= i < |ps| ==> !IsNone(elems[i])
    requires PermTry(g, n, ps, k, i, active, elems, bak).Some?
    ensures Found(g, n, ps, i, active, elems, bak, PermTry(g, n, ps, k, i, active, elems, bak).value, order)
    decreases |ps| - k, |ps| - i
  {
    hide Direct, NeverNone, Found, Ordering, PermTail, PermTry, Follow;
    PermTryIs(g, n, ps, k, i, active, elems, bak);
    var whole := PermTry(g, n, ps, k, i, active, elems, bak).value;
    if i == |ps| {
      NothingLeft(g, n, ps, active, elems, bak);
      order := [];
    } else if !active[i] {
      order := TrySearch(g, n, ps, k, i + 1, active, elems, bak);
      forall other ensures !(Ordering(active, other) && other != [] && other[0] == i) {
        InactiveFirst(active, i, other);
      }
      StepOver(g, n, ps, i, active, elems, elems, bak, whole, order);
    } else if Direct(g, n, ps[i], bak).value.res.Fail? {
      order := TrySearch(g, n, ps, k, i + 1, active, elems, bak);
      forall other | Ordering(active, other) && other != [] && other[0] == i ensures !Works(g, ps, other, bak) {
        FirstFails(g, n, ps, other, bak);
      }
      StepOver(g, n, ps, i, active, elems, elems, bak, whole, order);
    } else {
      order := MatchSearch(g, n, ps, k, i, active, elems, bak);
    }
  }

  lemma InactiveFirst(active: seq<bool>, i: nat, order: seq<nat>)
    requires i < |active| && !active[i]
    ensures !(Ordering(active, order) && order != [] && order[0] == i)
  {
    if order != [] {
      assert order[0] in order;
    }
  }

  lemma FirstFails(g: seq<Parser>, n: nat, ps: seq<nat>, other: seq<nat>, s: Input)
    requires other != [] && other[0] < |ps| && Direct(g, n, ps[other[0]], s).Some? && Direct(g, n, ps[other[0]], s).value.res.Fail?
    ensures !Works(g, ps, other, s)
  {
    hide Direct;
    if Works(g, ps, other, s) {
      var m: nat :| Follow(g, m, ps, other, s).Some?;
      DirectUnique(g, m, n, ps[other[0]], s);
    }
  }

  /** Parser `i` matches: either the rest of the permutation does as well, or the search goes on. */
  lemma {:induction false} MatchSearch(g: seq<Parser>, n: nat, ps: seq<nat>, k: nat, i: nat, active: seq<bool>, elems: seq<Option<Token>>, bak: Input) returns (order: seq<nat>)
    requires |active| == |elems| == |ps| && NeverNone(g, ps) && Count(active) + k == |ps| && k < |ps| && i < |ps| && active[i]
    requires forall i :: 0 <= i < |ps| ==> !IsNone(elems[i])
    requires PermTry(g, n, ps, k, i, active, elems, bak).Some?
    requires Direct(g, n, ps[i], bak).Some? && Direct(g, n, ps[i], bak).value.res.Ok?
    ensures Found(g, n, ps, i, active, elems, bak, PermTry(g, n, ps, k, i, active, elems, bak).value, order)
    decreases |ps| - k, |ps| - i, 0
  {
    hide Direct, NeverNone, Found, Ordering, PermTail, PermTry, Follow;
    PermTryIs(g, n, ps, k, i, active, elems, bak);
    NotNone(g, n, ps, i, bak);
    CountOne(active, i);
    var r := Direct(g, n, ps[i], bak).value;
    var elems1, active1 := elems[i := r.res.ast], active[i := false];
    var t := PermTail(g, n, ps, k + 1, active1, elems1, r.s).value;
    var rest := TailSearch(g, n, ps, k + 1, active1, elems1, r.s);
    if t.ok {
      order := [i] + rest;
      ExtendFound(g, n, ps, i, active, elems, bak, r, t, rest);
    } else {
      NothingFound(g, n, ps, i, active, elems, elems1, r.s, t, rest);
      order := TrySearch(g, n, ps, k, i + 1, active, t.elems, bak);
      forall other | Ordering(active, other) && other != [] && other[0] == i ensures !Works(g, ps, other, bak) {
        BeginsWith(g, n, ps, i, active, bak, r, other);
      }
      StepOver(g, n, ps, i, active, elems, t.elems, bak, PermTry(g, n, ps, k, i, active, elems, bak).value, order);
    }
  }

  lemma NothingFound(g: seq<Parser>, n: nat, ps: seq<nat>, i: nat, active: seq<bool>, elems: seq<Option<Token>>, elems1: seq<Option<Token>>,
                     s: Input, t: PermOut, order: seq<nat>)
    requires |active| == |elems| == |elems1| == |t.active| == |t.elems| == |ps| && i < |ps| && active[i] && !t.ok
    requires elems1 == elems[i := elems1[i]]
    requires Found(g, n, ps, 0, active[i := false], elems1, s, t, order)
    ensures t.active[i := true] == active
    ensures forall j :: 0 <= j < |ps| ==> !IsNone(t.elems[j]) && (!active[j] ==> t.elems[j] == elems[j])
    ensures forall other :: Candidate(active[i := false], 0, other) ==> !Works(g, ps, other, s)
  {
    hide Follow, Ordering;
  }

  /** A permutation of parsers that never yield an empty optional succeeds exactly when some order of all of them
      works; it consumes what the least such order consumes and stores each result at its parser's place. */
  lemma PermutationFinds(g: seq<Parser>, n: nat, ps: seq<nat>, s: Input) returns (order: seq<nat>)
    requires NeverNone(g, ps) && Raw(g, n, Permutation(ps), s).Some?
    ensures var all, out := seq(|ps|, _ => true), Raw(g, n, Permutation(ps), s).value;
      if out.res.Fail? then out.s == s && forall other :: Ordering(all, other) ==> !Works(g, ps, other, s)
      else
        && Ordering(all, order) && Follow(g, n, ps, order, s).Some? && out.s == Follow(g, n, ps, order, s).value.1
        && (forall other :: Ordering(all, other) && Works(g, ps, other, s) ==> LexLe(order, other))
        && out.res.ast.Some? && out.res.ast.value.kind.TtSequence?
        && |out.res.ast.value.kind.elems| == |ps| && |Follow(g, n, ps, order, s).value.0| == |order|
        && forall j :: 0 <= j < |order| ==>
             order[j] < |ps| && out.res.ast.value.kind.elems[order[j]] == Follow(g, n, ps, order, s).value.0[j]
  {
    hide Direct, NeverNone, Ordering, PermTail, Follow;
    CountAll(|ps|);
    var all := seq(|ps|, _ => true);
    order := TailSearch(g, n, ps, 0, all, seq(|ps|, _ => None), s);
    forall other | Ordering(all, other) ensures Candidate(all, 0, other) {
    }
  }
}
