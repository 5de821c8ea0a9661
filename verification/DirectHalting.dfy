/** When direct evaluation ends: no parser leads back to itself before a bit has been read, and every repetition
    without a fixed number of rounds reads one in each. */
module DirectHalting {
  import opened Basics
  import opened Bits
  import opened BitReader
  import opened BitLaws
  import opened Combinators
  import opened Matching
  import Packrat

  // ----- parsers that read something whenever they succeed

  /** The parser reads at least one bit when it succeeds, if the parsers in `eats` do. */
  ghost predicate Eats(eats: iset<nat>, p: Parser) {
    match p
    case Ch(_) => true
    case Charset(_) => true
    case BytesToken(str) => str != []
    case BitField(_, _) => true
    case Nothing => true
    case Sequence(ps) => exists k :: 0 <= k < |ps| && ps[k] in eats
    case Choice(ps) => forall k :: 0 <= k < |ps| ==> ps[k] in eats
    case Many(q, _, count, _) => count > 0 && q in eats
    case Whitespace(q) => q in eats
    case Ignore(q) => q in eats
    case IgnoreSeq(ps, _) => exists k :: 0 <= k < |ps| && ps[k] in eats
    case Xor(q1, q2) => q1 in eats && q2 in eats
    case Indirect(q) => q in eats
    case AttrBool(q, _) => q in eats
    case Action(q, _) => q in eats
    case WithEndianness(_, q) => q in eats
    case _ => false
  }

  ghost predicate Eating(g: seq<Parser>, eats: iset<nat>) {
    forall id: nat :: id in eats && id < |g| ==> Eats(eats, g[id])
  }

  /** How much is left to read. */
  function Left(s: Input): nat {
    |Unread(s)|
  }

  /** `less` says that something must have been read. */
  ghost predicate Behind(out: Out, s: Input, less: bool) {
    out.res.Ok? ==> Left(out.s) <= Left(s) && (less ==> Left(out.s) < Left(s))
  }

  lemma ReadBehind(s: Input, count: nat, signed: bool)
    ensures var t := Next(s, count, signed).1; t.overrun || (count <= Left(s) && Left(t) == Left(s) - count)
  {
    hide Unread, Advance, Gather, Val;
    if count <= |Unread(s)| {
      UnreadAdvanced(s, count);
      FlagKept(Advance(s, count), 0, s.overrun);
    }
  }

  lemma {:induction false} TokenBehind(str: seq<byte>, whole: seq<byte>, s: Input)
    ensures var out := TokenFrom(str, whole, s);
      out.s.overrun || Behind(out, s, str != [])
    decreases |str|
  {
    hide Unread, Next;
    if str != [] {
      var (c, t) := NextByte(s);
      ReadBehind(s, 8, false);
      if c == str[0] {
        TokenBehind(str[1..], whole, t);
        if t.overrun {
          TokenKeepsOverrun(str[1..], whole, t);
        }
      }
    }
  }

  lemma {:induction false} TokenKeepsOverrun(str: seq<byte>, whole: seq<byte>, s: Input)
    requires s.overrun
    ensures TokenFrom(str, whole, s).s.overrun
    decreases |str|
  {
    hide Unread, Advance;
    if str != [] {
      TokenKeepsOverrun(str[1..], whole, NextByte(s).1);
    }
  }

  lemma {:induction false} SkipBehind(s: Input)
    ensures Left(SkipSpace(s)) <= Left(s)
    decreases Left(s)
  {
    hide Unread, Next;
    var (c, t) := NextByte(s);
    ReadTakes(s);
    if !t.overrun && IsSpace(c) {
      SkipBehind(t);
    }
  }

  lemma ReorderKeeps(s: Input, diff: Order)
    ensures Left(Reorder(s, diff)) == Left(s)
  {
    SwitchKeepsUnread(s);
  }

  /** No parser goes back in the input, and those in `eats` go forward. */
  lemma {:induction false} DirectBehind(g: seq<Parser>, eats: iset<nat>, n: nat, id: nat, s: Input)
    requires Eating(g, eats) && Direct(g, n, id, s).Some?
    ensures Behind(Direct(g, n, id, s).value, s, id in eats)
    decreases n, 0
  {
    hide Raw, Eats, Left;
    RawBehind(g, eats, n - 1, g[id], s);
  }

  lemma {:induction false} RawBehind(g: seq<Parser>, eats: iset<nat>, n: nat, p: Parser, s: Input)
    requires Eating(g, eats) && Raw(g, n, p, s).Some?
    ensures var out := Raw(g, n, p, s).value; out.s.overrun || Behind(out, s, Eats(eats, p))
    decreases n, 3
  {
    hide Direct, Next, TokenFrom, SkipSpace, Reorder, Left, Eating;
    match p
    case Ch(_) => ReadBehind(s, 8, false);
    case Charset(_) => ReadBehind(s, 8, false);
    case BytesToken(str) => TokenBehind(str, str, s);
    case BitField(length, signed) => ReadBehind(s, length, signed);
    case Sequence(ps) => SequenceBehind(g, eats, n, ps, [], s);
    case Choice(ps) => FirstOfBehind(g, eats, n, ps, s, s);
    case Many(q, sep, count, minP) => RepeatBehind(g, eats, n, p, 0, [], s);
    case Optional(q) => DirectBehind(g, eats, n, q, s);
    case Whitespace(q) => SkipBehind(s); DirectBehind(g, eats, n, q, SkipSpace(s));
    case Ignore(q) => DirectBehind(g, eats, n, q, s);
    case IgnoreSeq(ps, which) => PickedBehind(g, eats, n, ps, which, Fail, s);
    case Xor(q1, q2) => DirectBehind(g, eats, n, q1, s); DirectBehind(g, eats, n, q2, s);
    case Indirect(q) => DirectBehind(g, eats, n, q, s);
    case AttrBool(q, _) => DirectBehind(g, eats, n, q, s);
    case Action(q, _) => DirectBehind(g, eats, n, q, s);
    case WithEndianness(order, q) => EndiannessBehind(g, eats, n, order, q, s);
    case Permutation(ps) => PermTailBehind(g, eats, n, ps, 0, seq(|ps|, _ => true), seq(|ps|, _ => None), s);
    case _ =>
  }

  lemma {:induction false} EndiannessBehind(g: seq<Parser>, eats: iset<nat>, n: nat, order: Order, q: nat, s: Input)
    requires Eating(g, eats) && Raw(g, n, WithEndianness(order, q), s).Some?
    ensures Behind(Raw(g, n, WithEndianness(order, q), s).value, s, q in eats)
    decreases n, 2
  {
    hide Direct, Reorder, Left, Eating;
    var diff := OrderXor(s.order, order);
    var t := if diff == Order(false, false) then s else Reorder(s, diff);
    DirectBehind(g, eats, n, q, t);
    ReorderKeeps(s, diff);
    ReorderKeeps(Direct(g, n, q, t).value.s, diff);
  }

  lemma {:induction false} SequenceBehind(g: seq<Parser>, eats: iset<nat>, n: nat, ps: seq<nat>, acc: seq<Option<Token>>, s: Input)
    requires Eating(g, eats) && InSequence(g, n, ps, acc, s).Some?
    ensures Behind(InSequence(g, n, ps, acc, s).value, s, exists k :: 0 <= k < |ps| && ps[k] in eats)
    decreases n, 2, |ps|
  {
    hide Direct, Left, Eating;
    if ps != [] {
      DirectBehind(g, eats, n, ps[0], s);
      var r := Direct(g, n, ps[0], s).value;
      if r.res.Ok? {
        SequenceBehind(g, eats, n, ps[1..], Appended(acc, r.res.ast), r.s);
        assert forall k :: 0 < k < |ps| ==> ps[k] == ps[1..][k - 1];
      }
    }
  }

  lemma {:induction false} PickedBehind(g: seq<Parser>, eats: iset<nat>, n: nat, ps: seq<nat>, which: nat, res: Res, s: Input)
    requires Eating(g, eats) && Picked(g, n, ps, which, res, s).Some?
    ensures Behind(Picked(g, n, ps, which, res, s).value, s, exists k :: 0 <= k < |ps| && ps[k] in eats)
    decreases n, 2, |ps|
  {
    hide Direct, Left, Eating;
    if ps != [] {
      DirectBehind(g, eats, n, ps[0], s);
      var r := Direct(g, n, ps[0], s).value;
      if r.res.Ok? {
        PickedBehind(g, eats, n, ps[1..], if which == 0 then |ps| else which - 1, if which == 0 then r.res else res, r.s);
        assert forall k :: 0 < k < |ps| ==> ps[k] == ps[1..][k - 1];
      }
    }
  }

  lemma {:induction false} FirstOfBehind(g: seq<Parser>, eats: iset<nat>, n: nat, ps: seq<nat>, backup: Input, s: Input)
    requires Eating(g, eats) && FirstOf(g, n, ps, backup, s).Some?
    ensures Behind(FirstOf(g, n, ps, backup, s).value, backup, forall k :: 0 <= k < |ps| ==> ps[k] in eats)
    decreases n, 2, |ps|
  {
    hide Direct, Left, Eating;
    if ps != [] {
      DirectBehind(g, eats, n, ps[0], backup);
      var r := Direct(g, n, ps[0], backup).value;
      if r.res.Fail? {
        FirstOfBehind(g, eats, n, ps[1..], backup, r.s);
      }
    }
  }

  lemma {:induction false} RepeatBehind(g: seq<Parser>, eats: iset<nat>, n: nat, p: Parser, done: nat, acc: seq<Option<Token>>, s: Input)
    requires p.Many? && Eating(g, eats) && Repeat(g, n, p.p, p.sep, p.count, p.minP, done, acc, s).Some?
    ensures Behind(Repeat(g, n, p.p, p.sep, p.count, p.minP, done, acc, s).value, s, done < p.count && p.p in eats)
    decreases n, 2
  {
    hide Direct, Left, Eating;
    RepeatStep(g, n, p, done, acc, s);
    if p.minP || p.count > done {
      var r0 := if done > 0 && p.sep.Some? then Direct(g, n, p.sep.value, s) else Some(Out(Ok(None), s));
      if done > 0 && p.sep.Some? {
        DirectBehind(g, eats, n, p.sep.value, s);
      }
      if r0.value.res.Ok? {
        DirectBehind(g, eats, n, p.p, r0.value.s);
        var r := Direct(g, n, p.p, r0.value.s).value;
        if r.res.Ok? {
          RepeatBehind(g, eats, n - 1, p, done + 1, Appended(acc, r.res.ast), r.s);
        }
      }
    }
  }

  lemma {:induction false} PermTailBehind(g: seq<Parser>, eats: iset<nat>, n: nat, ps: seq<nat>, k: nat, active: seq<bool>, elems: seq<Option<Token>>, s: Input)
    requires Eating(g, eats) && |active| == |elems| == |ps| && PermTail(g, n, ps, k, active, elems, s).Some?
    ensures Left(PermTail(g, n, ps, k, active, elems, s).value.s) <= Left(s)
    decreases n, 2, if k < |ps| then |ps| - k else 0, |ps| + 1
  {
    hide Left, Eating;
    PermTailIs(g, n, ps, k, active, elems, s);
    if k < |ps| {
      PermTryBehind(g, eats, n, ps, k, 0, active, elems, s);
    }
  }

  lemma {:induction false} PermTryBehind(g: seq<Parser>, eats: iset<nat>, n: nat, ps: seq<nat>, k: nat, i: nat, active: seq<bool>, elems: seq<Option<Token>>, bak: Input)
    requires Eating(g, eats) && |active| == |elems| == |ps| && k < |ps| && i <= |ps| && PermTry(g, n, ps, k, i, active, elems, bak).Some?
    ensures Left(PermTry(g, n, ps, k, i, active, elems, bak).value.s) <= Left(bak)
    decreases n, 2, |ps| - k, |ps| - i
  {
    hide Direct, PermTail, PermTry, Left, Eating;
    PermTryIs(g, n, ps, k, i, active, elems, bak);
    if i < |ps| {
      if !active[i] {
        PermTryBehind(g, eats, n, ps, k, i + 1, active, elems, bak);
      } else {
        DirectBehind(g, eats, n, ps[i], bak);
        var r := Direct(g, n, ps[i], bak).value;
        var elems' := if r.res.Ok? then elems[i := r.res.ast] else elems;
        if r.res.Fail? || IsNone(r.res.ast) {
          PermTryBehind(g, eats, n, ps, k, i + 1, active, elems', bak);
        } else {
          PermTailBehind(g, eats, n, ps, k + 1, active[i := false], elems', r.s);
          var t := PermTail(g, n, ps, k + 1, active[i := false], elems', r.s).value;
          if !t.ok {
            PermTryBehind(g, eats, n, ps, k, i + 1, t.active[i := true], t.elems, bak);
          }
        }
      }
    }
  }

  // ----- no parser leads back to itself before something has been read

  ghost predicate Lower(g: seq<Parser>, rank: nat -> nat, q: nat, bound: nat) {
    q < |g| && rank(q) < bound
  }

  /** Parsers one after the other: those that may begin before something has been read are below the bound. */
  ghost predicate FrontLower(g: seq<Parser>, eats: iset<nat>, rank: nat -> nat, ps: seq<nat>, bound: nat) {
    forall k :: 0 <= k < |ps| ==> ps[k] < |g| && ((forall j :: 0 <= j < k ==> ps[j] !in eats) ==> rank(ps[k]) < bound)
  }

  ghost predicate AllLower(g: seq<Parser>, rank: nat -> nat, ps: seq<nat>, bound: nat) {
    forall k :: 0 <= k < |ps| ==> Lower(g, rank, ps[k], bound)
  }

  ghost predicate Below(g: seq<Parser>, eats: iset<nat>, rank: nat -> nat, p: Parser, bound: nat) {
    match p
    case Sequence(ps) => FrontLower(g, eats, rank, ps, bound)
    case IgnoreSeq(ps, _) => FrontLower(g, eats, rank, ps, bound)
    case Choice(ps) => AllLower(g, rank, ps, bound)
    case Permutation(ps) => AllLower(g, rank, ps, bound)
    case Many(q, sep, _, minP) =>
      && Lower(g, rank, q, bound)
      && (sep.Some? ==> sep.value < |g| && (q !in eats ==> rank(sep.value) < bound))
      && (minP ==> q in eats || (sep.Some? && sep.value in eats))
    case Optional(q) => Lower(g, rank, q, bound)
    case Whitespace(q) => Lower(g, rank, q, bound)
    case Ignore(q) => Lower(g, rank, q, bound)
    case And(q) => Lower(g, rank, q, bound)
    case Not(q) => Lower(g, rank, q, bound)
    case Xor(q1, q2) => Lower(g, rank, q1, bound) && Lower(g, rank, q2, bound)
    case Indirect(q) => Lower(g, rank, q, bound)
    case AttrBool(q, _) => Lower(g, rank, q, bound)
    case Action(q, _) => Lower(g, rank, q, bound)
    case WithEndianness(_, q) => Lower(g, rank, q, bound)
    case _ => true
  }

  /** There is no left recursion, and a repetition without a fixed number of rounds reads something in each. */
  ghost predicate NoLeftRecursion(g: seq<Parser>, eats: iset<nat>, rank: nat -> nat) {
    Eating(g, eats) && forall id: nat :: id < |g| ==> Below(g, eats, rank, g[id], rank(id))
  }

  // ----- bounds that suffice

  ghost predicate Suffices(g: seq<Parser>, n: nat, id: nat, s: Input) {
    forall m: nat :: m >= n ==> Direct(g, m, id, s).Some?
  }

  lemma SufficesAt(g: seq<Parser>, n: nat, id: nat, s: Input, m: nat)
    requires Suffices(g, n, id, s) && m >= n
    ensures Direct(g, m, id, s).Some? && Direct(g, n, id, s).Some? && Direct(g, m, id, s) == Direct(g, n, id, s)
  {
    hide Direct;
    DirectUnique(g, n, m, id, s);
  }

  /** Direct evaluation ends. */
  lemma {:induction false} DirectEnds(g: seq<Parser>, eats: iset<nat>, rank: nat -> nat, id: nat, s: Input) returns (n: nat)
    requires NoLeftRecursion(g, eats, rank) && id < |g|
    ensures Suffices(g, n, id, s)
    decreases Left(s), rank(id), 3
  {
    hide Raw, NoLeftRecursion;
    BelowAt(g, eats, rank, id);
    var k := RawEnds(g, eats, rank, g[id], rank(id), s);
    n := k + 1;
    forall m: nat | m >= n ensures Direct(g, m, id, s).Some? {
      assert Raw(g, m - 1, g[id], s).Some?;
    }
  }

  lemma BelowAt(g: seq<Parser>, eats: iset<nat>, rank: nat -> nat, id: nat)
    requires NoLeftRecursion(g, eats, rank) && id < |g|
    ensures Below(g, eats, rank, g[id], rank(id))
  {
    hide Below, Eating;
  }

  lemma EatingOf(g: seq<Parser>, eats: iset<nat>, rank: nat -> nat)
    requires NoLeftRecursion(g, eats, rank)
    ensures Eating(g, eats)
  {
    hide Below, Eating;
  }

  /** The one parser that `p` runs, where it runs it. */
  function Child(p: Parser): Option<nat> {
    match p
    case Optional(q) => Some(q)
    case Whitespace(q) => Some(q)
    case Ignore(q) => Some(q)
    case And(q) => Some(q)
    case Not(q) => Some(q)
    case Indirect(q) => Some(q)
    case AttrBool(q, _) => Some(q)
    case Action(q, _) => Some(q)
    case WithEndianness(_, q) => Some(q)
    case _ => None
  }

  function ChildInput(p: Parser, s: Input): Input {
    match p
    case Whitespace(_) => SkipSpace(s)
    case WithEndianness(order, _) =>
      var diff := OrderXor(s.order, order);
      if diff == Order(false, false) then s else Reorder(s, diff)
    case _ => s
  }

  lemma ChildRuns(g: seq<Parser>, n: nat, p: Parser, s: Input)
    requires Child(p).Some? && Direct(g, n, Child(p).value, ChildInput(p, s)).Some?
    ensures Raw(g, n, p, s).Some?
  {
    hide Direct, SkipSpace, Reorder;
  }

  lemma ChildBehind(p: Parser, s: Input)
    ensures Left(ChildInput(p, s)) <= Left(s)
  {
    hide SkipSpace, Reorder, Left;
    SkipBehind(s);
    if p.WithEndianness? {
      ReorderKeeps(s, OrderXor(s.order, p.order));
    }
  }

  lemma {:induction false} RawEnds(g: seq<Parser>, eats: iset<nat>, rank: nat -> nat, p: Parser, bound: nat, s: Input) returns (n: nat)
    requires NoLeftRecursion(g, eats, rank) && Below(g, eats, rank, p, bound)
    ensures forall m: nat :: m >= n ==> Raw(g, m, p, s).Some?
    decreases Left(s), bound, 2
  {
    hide Direct, Next, TokenFrom, SkipSpace, Reorder, NoLeftRecursion, Left;
    if Child(p).Some? {
      ChildBehind(p, s);
      n := DirectEnds(g, eats, rank, Child(p).value, ChildInput(p, s));
      forall m: nat | m >= n ensures Raw(g, m, p, s).Some? {
        ChildRuns(g, m, p, s);
      }
      return;
    }
    match p
    case Sequence(ps) => n := SequenceEnds(g, eats, rank, ps, bound, Left(s), [], s);
    case Choice(ps) => n := FirstOfEnds(g, eats, rank, ps, bound, s, s);
    case Many(q, sep, count, minP) => n := RepeatEnds(g, eats, rank, p, bound, Left(s), 0, [], s);
    case IgnoreSeq(ps, which) => n := PickedEnds(g, eats, rank, ps, bound, Left(s), which, Fail, s);
    case Xor(q1, q2) =>
      var n1 := DirectEnds(g, eats, rank, q1, s);
      var n2 := DirectEnds(g, eats, rank, q2, s);
      n := n1 + n2;
    case Permutation(ps) => n := PermTailEnds(g, eats, rank, ps, bound, 0, seq(|ps|, _ => true), seq(|ps|, _ => None), s);
    case _ => n := 0;
  }

  /** A front that is left to run: nothing of it may be at the bound, unless something has been read. */
  ghost predicate Runs(g: seq<Parser>, eats: iset<nat>, rank: nat -> nat, ps: seq<nat>, bound: nat, left: nat, s: Input) {
    && Left(s) <= left && (forall k :: 0 <= k < |ps| ==> ps[k] < |g|)
    && (Left(s) == left ==> FrontLower(g, eats, rank, ps, bound))
  }

  lemma RunsOn(g: seq<Parser>, eats: iset<nat>, rank: nat -> nat, n: nat, ps: seq<nat>, bound: nat, left: nat, s: Input)
    requires Eating(g, eats) && Runs(g, eats, rank, ps, bound, left, s) && ps != []
    requires Direct(g, n, ps[0], s).Some? && Direct(g, n, ps[0], s).value.res.Ok?
    ensures Runs(g, eats, rank, ps[1..], bound, left, Direct(g, n, ps[0], s).value.s)
  {
    hide Direct, Left, Eating;
    DirectBehind(g, eats, n, ps[0], s);
    var tail := ps[1..];
    if Left(Direct(g, n, ps[0], s).value.s) == left {
      forall k | 0 <= k < |tail| && forall j :: 0 <= j < k ==> tail[j] !in eats ensures rank(tail[k]) < bound {
        assert tail[k] == ps[k + 1] && forall j :: 0 < j < k + 1 ==> ps[j] == tail[j - 1];
      }
    }
  }

  lemma {:induction false} SequenceEnds(g: seq<Parser>, eats: iset<nat>, rank: nat -> nat, ps: seq<nat>, bound: nat, left: nat,
                                        acc: seq<Option<Token>>, s: Input) returns (n: nat)
    requires NoLeftRecursion(g, eats, rank) && Runs(g, eats, rank, ps, bound, left, s)
    ensures forall m: nat :: m >= n ==> InSequence(g, m, ps, acc, s).Some?
    decreases left, bound, 1, |ps|
  {
    hide Direct, NoLeftRecursion, Left, Suffices;
    if ps == [] {
      n := 0;
    } else {
      var n0 := DirectEnds(g, eats, rank, ps[0], s);
      SufficesAt(g, n0, ps[0], s, n0);
      var r := Direct(g, n0, ps[0], s).value;
      var n1 := 0;
      if r.res.Ok? {
        EatingOf(g, eats, rank);
        RunsOn(g, eats, rank, n0, ps, bound, left, s);
        n1 := SequenceEnds(g, eats, rank, ps[1..], bound, left, Appended(acc, r.res.ast), r.s);
      }
      n := n0 + n1;
      forall m: nat | m >= n ensures InSequence(g, m, ps, acc, s).Some? {
        SufficesAt(g, n0, ps[0], s, m);
      }
    }
  }

  lemma {:induction false} PickedEnds(g: seq<Parser>, eats: iset<nat>, rank: nat -> nat, ps: seq<nat>, bound: nat, left: nat,
                                      which: nat, res: Res, s: Input) returns (n: nat)
    requires NoLeftRecursion(g, eats, rank) && Runs(g, eats, rank, ps, bound, left, s)
    ensures forall m: nat :: m >= n ==> Picked(g, m, ps, which, res, s).Some?
    decreases left, bound, 1, |ps|
  {
    hide Direct, NoLeftRecursion, Left, Suffices;
    if ps == [] {
      n := 0;
    } else {
      var n0 := DirectEnds(g, eats, rank, ps[0], s);
      SufficesAt(g, n0, ps[0], s, n0);
      var r := Direct(g, n0, ps[0], s).value;
      var n1 := 0;
      if r.res.Ok? {
        EatingOf(g, eats, rank);
        RunsOn(g, eats, rank, n0, ps, bound, left, s);
        n1 := PickedEnds(g, eats, rank, ps[1..], bound, left, if which == 0 then |ps| else which - 1, if which == 0 then r.res else res, r.s);
      }
      n := n0 + n1;
      forall m: nat | m >= n ensures Picked(g, m, ps, which, res, s).Some? {
        SufficesAt(g, n0, ps[0], s, m);
      }
    }
  }

  lemma {:induction false} FirstOfEnds(g: seq<Parser>, eats: iset<nat>, rank: nat -> nat, ps: seq<nat>, bound: nat, backup: Input, s: Input)
    returns (n: nat)
    requires NoLeftRecursion(g, eats, rank) && AllLower(g, rank, ps, bound)
    ensures forall m: nat :: m >= n ==> FirstOf(g, m, ps, backup, s).Some?
    decreases Left(backup), bound, 1, |ps|
  {
    hide Direct, NoLeftRecursion, Left, Suffices;
    if ps == [] {
      n := 0;
    } else {
      assert Lower(g, rank, ps[0], bound);
      var n0 := DirectEnds(g, eats, rank, ps[0], backup);
      SufficesAt(g, n0, ps[0], backup, n0);
      var r := Direct(g, n0, ps[0], backup).value;
      var n1 := FirstOfEnds(g, eats, rank, ps[1..], bound, backup, r.s);
      n := n0 + n1;
      forall m: nat | m >= n ensures FirstOf(g, m, ps, backup, s).Some? {
        SufficesAt(g, n0, ps[0], backup, m);
      }
    }
  }

  // ----- repetitions

  /** Rounds of a repetition still to come, at most. */
  function RoundsLeft(p: Parser, done: nat, s: Input): nat
    requires p.Many?
  {
    if p.minP then Left(s) + (if done == 0 then 1 else 0) else if done < p.count then p.count - done else 0
  }

  lemma {:induction false} RepeatEnds(g: seq<Parser>, eats: iset<nat>, rank: nat -> nat, p: Parser, bound: nat, left: nat,
                                      done: nat, acc: seq<Option<Token>>, s: Input) returns (n: nat)
    requires NoLeftRecursion(g, eats, rank) && p.Many? && Below(g, eats, rank, p, bound)
    requires Left(s) <= left && (done > 0 && p.p in eats ==> Left(s) < left)
    ensures forall m: nat :: m >= n ==> Repeat(g, m, p.p, p.sep, p.count, p.minP, done, acc, s).Some?
    decreases left, bound, 1, RoundsLeft(p, done, s)
  {
    hide Direct, NoLeftRecursion, Left, Suffices, Eating;
    EatingOf(g, eats, rank);
    if !p.minP && p.count <= done {
      n := 1;
    } else {
      var r0, n0 := Out(Ok(None), s), 0;
      if done > 0 && p.sep.Some? {
        n0 := DirectEnds(g, eats, rank, p.sep.value, s);
        SufficesAt(g, n0, p.sep.value, s, n0);
        r0 := Direct(g, n0, p.sep.value, s).value;
        DirectBehind(g, eats, n0, p.sep.value, s);
      }
      var n1, n2, r := 0, 0, Out(Fail, s);
      if r0.res.Ok? {
        n1 := DirectEnds(g, eats, rank, p.p, r0.s);
        SufficesAt(g, n1, p.p, r0.s, n1);
        r := Direct(g, n1, p.p, r0.s).value;
        DirectBehind(g, eats, n1, p.p, r0.s);
        if r.res.Ok? {
          n2 := RepeatEnds(g, eats, rank, p, bound, left, done + 1, Appended(acc, r.res.ast), r.s);
        }
      }
      n := n0 + n1 + n2 + 1;
      forall m: nat | m >= n ensures Repeat(g, m, p.p, p.sep, p.count, p.minP, done, acc, s).Some? {
        if done > 0 && p.sep.Some? {
          SufficesAt(g, n0, p.sep.value, s, m);
        }
        if r0.res.Ok? {
          SufficesAt(g, n1, p.p, r0.s, m);
        }
      }
    }
  }

  // ----- permutations

  lemma {:induction false} PermTailStable(g: seq<Parser>, m: nat, n: nat, ps: seq<nat>, k: nat, active: seq<bool>, elems: seq<Option<Token>>, s: Input)
    requires m <= n && |active| == |elems| == |ps| && PermTail(g, m, ps, k, active, elems, s).Some?
    ensures PermTail(g, n, ps, k, active, elems, s) == PermTail(g, m, ps, k, active, elems, s)
    decreases n
  {
    hide PermTail;
    if m < n {
      PermTailStable(g, m, n - 1, ps, k, active, elems, s);
      PermTailMore(g, n - 1, ps, k, active, elems, s);
    }
  }

  lemma {:induction false} PermTailEnds(g: seq<Parser>, eats: iset<nat>, rank: nat -> nat, ps: seq<nat>, bound: nat,
                                        k: nat, active: seq<bool>, elems: seq<Option<Token>>, s: Input) returns (n: nat)
    requires NoLeftRecursion(g, eats, rank) && AllLower(g, rank, ps, bound) && |active| == |elems| == |ps|
    ensures forall m: nat :: m >= n ==> PermTail(g, m, ps, k, active, elems, s).Some?
    decreases Left(s), bound, 1, if k < |ps| then |ps| - k else 0, |ps| + 1
  {
    hide PermTry, NoLeftRecursion, Left;
    n := 0;
    if k < |ps| {
      n := PermTryEnds(g, eats, rank, ps, bound, k, 0, active, elems, s);
    }
  }

  lemma {:induction false} PermTryEnds(g: seq<Parser>, eats: iset<nat>, rank: nat -> nat, ps: seq<nat>, bound: nat,
                                       k: nat, i: nat, active: seq<bool>, elems: seq<Option<Token>>, bak: Input) returns (n: nat)
    requires NoLeftRecursion(g, eats, rank) && AllLower(g, rank, ps, bound) && |active| == |elems| == |ps| && k < |ps| && i <= |ps|
    ensures forall m: nat :: m >= n ==> PermTry(g, m, ps, k, i, active, elems, bak).Some?
    decreases Left(bak), bound, 1, |ps| - k, |ps| - i
  {
    hide Direct, PermTail, NoLeftRecursion, Left, Suffices;
    if i == |ps| {
      n := 0;
    } else if !active[i] {
      n := PermTryEnds(g, eats, rank, ps, bound, k, i + 1, active, elems, bak);
    } else {
      assert Lower(g, rank, ps[i], bound);
      var n0 := DirectEnds(g, eats, rank, ps[i], bak);
      SufficesAt(g, n0, ps[i], bak, n0);
      EatingOf(g, eats, rank);
      DirectBehind(g, eats, n0, ps[i], bak);
      var r := Direct(g, n0, ps[i], bak).value;
      var elems' := if r.res.Ok? then elems[i := r.res.ast] else elems;
      if r.res.Fail? || IsNone(r.res.ast) {
        var n1 := PermTryEnds(g, eats, rank, ps, bound, k, i + 1, active, elems', bak);
        n := n0 + n1;
        forall m: nat | m >= n ensures PermTry(g, m, ps, k, i, active, elems, bak).Some? {
          SufficesAt(g, n0, ps[i], bak, m);
        }
      } else {
        var n1 := PermTailEnds(g, eats, rank, ps, bound, k + 1, active[i := false], elems', r.s);
        var t := PermTail(g, n1, ps, k + 1, active[i := false], elems', r.s).value;
        var n2 := 0;
        if !t.ok {
          n2 := PermTryEnds(g, eats, rank, ps, bound, k, i + 1, t.active[i := true], t.elems, bak);
        }
        n := n0 + n1 + n2;
        forall m: nat | m >= n ensures PermTry(g, m, ps, k, i, active, elems, bak).Some? {
          SufficesAt(g, n0, ps[i], bak, m);
          PermTailStable(g, n1, m, ps, k + 1, active[i := false], elems', r.s);
        }
      }
    }
  }

  // ----- the packrat parser

  /** `h_packrat_parse` on such parsers: it ends, its result is the only one that the rules admit, and direct evaluation
      finds it under every bound that suffices; there is one. */
  method Parse(g: seq<Parser>, id: nat, input: Input, ghost eats: iset<nat>, ghost rank: nat -> nat)
    returns (r: Res, rest: Input, ghost n: nat)
    requires NoLeftRecursion(g, eats, rank) && id < |g|
    ensures forall out :: Admits(g, id, input, out) <==> out == Out(r, rest)
    ensures forall m: nat :: m >= n ==> Direct(g, m, id, input) == Some(Out(r, rest))
    ensures r.Ok? ==> Left(rest) <= Left(input) && (id in eats ==> Left(rest) < Left(input))
  {
    hide Direct, NoLeftRecursion, Suffices, Left, Admits;
    n := DirectEnds(g, eats, rank, id, input);
    SufficesAt(g, n, id, input, n);
    AdmitsExactly(g, id, input, Direct(g, n, id, input).value);
    r, rest := Packrat.PackratParse(g, id, input);
    forall m: nat | m >= n ensures Direct(g, m, id, input) == Some(Out(r, rest)) {
      SufficesAt(g, n, id, input, m);
    }
    EatingOf(g, eats, rank);
    DirectBehind(g, eats, n, id, input);
  }
}
