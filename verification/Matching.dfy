/** What the combinators match, one rule for each: which streams a parse takes to which outcome.  Direct evaluation, and
    with it the packrat parser, computes exactly this relation. */
module Matching {
  import opened Basics
  import opened Bits
  import opened BitReader
  import opened BitLaws
  import opened Combinators

  // ----- the rules

  /** By a derivation of height `n`, parser `id` takes `s` to `out`.  Whatever overruns the input fails. */
  ghost predicate Gives(g: seq<Parser>, n: nat, id: nat, s: Input, out: Out)
    decreases n, 0
  {
    n > 0 && id < |g| && exists raw :: Rule(g, n - 1, g[id], s, raw) && out == if raw.s.overrun then Out(Fail, raw.s) else raw
  }

  /** Parser `id` takes `s` to `out`. */
  ghost predicate Admits(g: seq<Parser>, id: nat, s: Input, out: Out) {
    exists n: nat :: Gives(g, n, id, s, out)
  }

  ghost predicate Fails(g: seq<Parser>, n: nat, id: nat, s: Input)
    decreases n, 1
  {
    exists t :: Gives(g, n, id, s, Out(Fail, t))
  }

  ghost predicate Succeeds(g: seq<Parser>, n: nat, id: nat, s: Input)
    decreases n, 1
  {
    exists a, t :: Gives(g, n, id, s, Out(Ok(a), t))
  }

  /** The first `|asts|` of the parsers succeed one after the other, each where the one before has stopped. */
  ghost predicate Chain(g: seq<Parser>, n: nat, ids: seq<nat>, at: seq<Input>, asts: seq<Option<Token>>)
    decreases n, 1
  {
    && |at| == |asts| + 1 && |asts| <= |ids|
    && forall k :: 0 <= k < |asts| ==> Gives(g, n, ids[k], at[k], Out(Ok(asts[k]), at[k + 1]))
  }

  /** The tokens there are, in order. */
  function Present(asts: seq<Option<Token>>): seq<Option<Token>> {
    if asts == [] then []
    else Present(asts[..|asts| - 1]) + if asts[|asts| - 1].Some? then [asts[|asts| - 1]] else []
  }

  /** `at` are the places passed when the bytes of `str` are read. */
  ghost predicate Spells(str: seq<byte>, at: seq<Input>) {
    |at| == |str| + 1 && forall k :: 0 <= k < |str| ==> NextByte(at[k]) == (str[k], at[k + 1])
  }

  ghost predicate TokenRule(str: seq<byte>, s: Input, out: Out) {
    || (exists at :: Spells(str, at) && at[0] == s && out == Out(Ok(Tok(TtBytes(str))), at[|str|]))
    || (exists k, at :: 0 <= k < |str| && Spells(str[..k], at) && at[0] == s && NextByte(at[k]).0 != str[k] && out == Out(Fail, NextByte(at[k]).1))
  }

  /** `t` is the first place from `s` on that is not followed by white space. */
  ghost predicate Skips(s: Input, t: Input) {
    exists at: seq<Input> ::
      && |at| > 0 && at[0] == s && at[|at| - 1] == t && !SpaceAhead(t)
      && forall k :: 0 <= k < |at| - 1 ==> SpaceAhead(at[k]) && at[k + 1] == NextByte(at[k]).1
  }

  ghost predicate SpaceAhead(s: Input) {
    !NextByte(s).1.overrun && IsSpace(NextByte(s).0)
  }

  // Repetitions: `at` are the ends of the elements, `mid` their beginnings.

  /** What stands in front of the `k`-th element. */
  ghost predicate Gap(g: seq<Parser>, n: nat, m: Parser, k: nat, s: Input, t: Input)
    requires m.Many?
    decreases n, 1
  {
    if k > 0 && m.sep.Some? then exists a :: Gives(g, n, m.sep.value, s, Out(Ok(a), t)) else t == s
  }

  ghost predicate Element(g: seq<Parser>, n: nat, m: Parser, k: nat, s: Input, t: Input, ast: Option<Token>)
    requires m.Many?
    decreases n, 2
  {
    exists mid :: Gap(g, n, m, k, s, mid) && Gives(g, n, m.p, mid, Out(Ok(ast), t))
  }

  /** Behind `k` elements there is not another one. */
  ghost predicate Stops(g: seq<Parser>, n: nat, m: Parser, k: nat, s: Input)
    requires m.Many?
    decreases n, 2
  {
    || (k > 0 && m.sep.Some? && Fails(g, n, m.sep.value, s))
    || (exists mid :: Gap(g, n, m, k, s, mid) && Fails(g, n, m.p, mid))
  }

  ghost predicate Elements(g: seq<Parser>, n: nat, m: Parser, from: nat, at: seq<Input>, asts: seq<Option<Token>>)
    requires m.Many?
    decreases n, 3
  {
    |at| == |asts| + 1 && forall k :: 0 <= k < |asts| ==> Element(g, n, m, from + k, at[k], at[k + 1], asts[k])
  }

  /** As many elements as there are, at least `count`; or exactly `count`, when the bound is not a minimum. */
  ghost predicate ManyRule(g: seq<Parser>, n: nat, m: Parser, s: Input, out: Out)
    requires m.Many?
    decreases n, 4
  {
    exists at, asts ::
      && Elements(g, n, m, 0, at, asts) && at[0] == s && (m.minP || |asts| <= m.count)
      && ((!m.minP && |asts| == m.count) || Stops(g, n, m, |asts|, at[|asts|]))
      && out == Out(if |asts| >= m.count then Ok(Tok(TtSequence(Present(asts)))) else Fail, at[|asts|])
  }

  /** The first alternative that succeeds; all are tried from the same place. */
  ghost predicate ChoiceRule(g: seq<Parser>, n: nat, ps: seq<nat>, s: Input, out: Out)
    decreases n, 4
  {
    if out.res.Ok? then exists i :: 0 <= i < |ps| && Gives(g, n, ps[i], s, out) && forall j :: 0 <= j < i ==> Fails(g, n, ps[j], s)
    else (forall j :: 0 <= j < |ps| ==> Fails(g, n, ps[j], s)) && if ps == [] then out.s == s else Gives(g, n, ps[|ps| - 1], s, out)
  }

  /** All parsers one after the other, or the failure of the first that fails. */
  ghost predicate SequenceRule(g: seq<Parser>, n: nat, ps: seq<nat>, which: Option<nat>, s: Input, out: Out)
    decreases n, 4
  {
    exists at, asts ::
      && Chain(g, n, ps, at, asts) && at[0] == s
      && if |asts| == |ps| then
           out == Out(match which
                      case None => Ok(Tok(TtSequence(Present(asts))))
                      case Some(w) => if w < |ps| then Ok(asts[w]) else Fail, at[|ps|])
         else out.res.Fail? && Gives(g, n, ps[|asts|], at[|asts|], out)
  }

  // Permutations: the parsers still active are tried in turn, each followed by a permutation of the others.

  /** The `i`-th parser is of no use as the next of the permutation; `after` are the tokens it leaves behind. */
  ghost predicate PassedOver(g: seq<Parser>, n: nat, ps: seq<nat>, k: nat, i: nat, active: seq<bool>, before: seq<Option<Token>>,
                             after: seq<Option<Token>>, s: Input)
    requires i < |ps| && |active| == |before| == |ps| && k < |ps|
    decreases n, 2, |ps| - k, 0
  {
    if !active[i] then after == before
    else
      || (Fails(g, n, ps[i], s) && after == before)
      || (exists a, t :: Gives(g, n, ps[i], s, Out(Ok(a), t)) && IsNone(a) && after == before[i := a])
      || (exists a, t, r :: Gives(g, n, ps[i], s, Out(Ok(a), t)) && !IsNone(a)
            && PermutationRest(g, n, ps, k + 1, active[i := false], before[i := a], t, r) && !r.ok && after == r.elems)
  }

  /** The `i`-th parser is the next of the permutation. */
  ghost predicate TakenNext(g: seq<Parser>, n: nat, ps: seq<nat>, k: nat, i: nat, active: seq<bool>, before: seq<Option<Token>>,
                            s: Input, r: PermOut)
    requires i < |ps| && |active| == |before| == |ps| && k < |ps|
    decreases n, 2, |ps| - k, 0
  {
    && active[i] && r.ok
    && exists a, t ::
         && Gives(g, n, ps[i], s, Out(Ok(a), t)) && !IsNone(a)
         && PermutationRest(g, n, ps, k + 1, active[i := false], before[i := a], t, r)
  }

  /** What becomes of a permutation of which `k` parsers have been found. */
  ghost predicate PermutationRest(g: seq<Parser>, n: nat, ps: seq<nat>, k: nat, active: seq<bool>, elems: seq<Option<Token>>, s: Input, r: PermOut)
    requires |active| == |elems| == |ps|
    decreases n, 2, if k < |ps| then |ps| - k else 0, 1
  {
    if k >= |ps| then r == PermOut(true, active, elems, s)
    else
      exists trail: seq<seq<Option<Token>>> ::
        && 0 < |trail| <= |ps| + 1 && trail[0] == elems && (forall i :: 0 <= i < |trail| ==> |trail[i]| == |ps|)
        && (forall i :: 0 <= i < |trail| - 1 ==> PassedOver(g, n, ps, k, i, active, trail[i], trail[i + 1], s))
        && var m := |trail| - 1;
           if m == |ps| then r == PermOut(AllNone(active, trail[m]), active, trail[m], s)
           else TakenNext(g, n, ps, k, m, active, trail[m], s, r)
  }

  ghost predicate PermutationRule(g: seq<Parser>, n: nat, ps: seq<nat>, s: Input, out: Out)
    decreases n, 4
  {
    exists r :: PermutationRest(g, n, ps, 0, seq(|ps|, _ => true), seq(|ps|, _ => None), s, r)
      && out == Out(if r.ok then Ok(Tok(TtSequence(r.elems))) else Fail, r.s)
  }

  /** One rule for each combinator; its parts are derivations of height `n`. */
  ghost predicate Rule(g: seq<Parser>, n: nat, p: Parser, s: Input, out: Out)
    decreases n, 5
  {
    match p
    case Ch(c) => out == Out(if NextByte(s).0 == c then Ok(Tok(TtUint(c))) else Fail, NextByte(s).1)
    case Charset(chars) => out == Out(if NextByte(s).0 in chars then Ok(Tok(TtUint(NextByte(s).0))) else Fail, NextByte(s).1)
    case BytesToken(str) => TokenRule(str, s, out)
    case BitField(length, signed) =>
      exists v: int :: Next(s, length, signed) == (v, out.s)
        && out.res == Ok(Tok(if signed then TtSint(v) else TtUint(if v < 0 then v % Pow2(64) else v)))
    case End => out == Out(if s.index == |s.input| then Ok(None) else Fail, s)
    case Epsilon => out == Out(Ok(None), s)
    case Nothing => out == Out(Fail, s)
    case Sequence(ps) => SequenceRule(g, n, ps, None, s, out)
    case Choice(ps) => ChoiceRule(g, n, ps, s, out)
    case Many(_, _, _, _) => ManyRule(g, n, p, s, out)
    case Optional(q) => (out.res.Ok? && Gives(g, n, q, s, out)) || (Fails(g, n, q, s) && out == Out(Ok(Tok(TtNone)), s))
    case Whitespace(q) => exists t :: Skips(s, t) && Gives(g, n, q, t, out)
    case Ignore(q) => if out.res.Fail? then Gives(g, n, q, s, out) else out.res == Ok(None) && exists a :: Gives(g, n, q, s, Out(Ok(a), out.s))
    case IgnoreSeq(ps, which) => SequenceRule(g, n, ps, Some(which), s, out)
    case And(q) => out.s == s && if out.res.Ok? then out.res == Ok(None) && Succeeds(g, n, q, s) else Fails(g, n, q, s)
    case Not(q) => if out.res.Ok? then out == Out(Ok(None), s) && Fails(g, n, q, s) else exists a :: Gives(g, n, q, s, Out(Ok(a), out.s))
    case Xor(q1, q2) =>
      || (Fails(g, n, q1, s) && Gives(g, n, q2, s, out))
      || (out.res.Ok? && Gives(g, n, q1, s, out) && Fails(g, n, q2, s))
      || (out.res.Fail? && Succeeds(g, n, q1, s) && exists a :: Gives(g, n, q2, s, Out(Ok(a), out.s)))
    case Indirect(q) => Gives(g, n, q, s, out)
    case AttrBool(q, pred) =>
      exists r :: Gives(g, n, q, s, r)
        && out == if r.res.Ok? && !(r.res.ast.Some? && pred(r.res.ast)) then Out(Fail, r.s) else r
    case Action(q, action) => exists r :: Gives(g, n, q, s, r) && out == if r.res.Ok? then Out(Ok(action(r.res.ast)), r.s) else r
    case WithEndianness(order, q) =>
      var diff := OrderXor(s.order, order);
      if order == s.order then Gives(g, n, q, s, out)
      else exists r :: Gives(g, n, q, Reorder(s, diff), r) && out == Out(r.res, Reorder(r.s, diff))
    case Permutation(ps) => PermutationRule(g, n, ps, s, out)
  }

  // ----- parsers without children

  lemma {:induction false} TokenPlaces(str: seq<byte>, whole: seq<byte>, s: Input) returns (k: nat, at: seq<Input>)
    ensures k <= |str| && Spells(str[..k], at) && at[0] == s
    ensures if k == |str| then TokenFrom(str, whole, s) == Out(Ok(Tok(TtBytes(whole))), at[k])
            else NextByte(at[k]).0 != str[k] && TokenFrom(str, whole, s) == Out(Fail, NextByte(at[k]).1)
    decreases |str|
  {
    hide Next;
    if str == [] || NextByte(s).0 != str[0] {
      k, at := 0, [s];
    } else {
      var k', at' := TokenPlaces(str[1..], whole, NextByte(s).1);
      k, at := k' + 1, [s] + at';
      assert str[..k] == [str[0]] + str[1..][..k'];
      forall i | 0 <= i < k ensures NextByte(at[i]) == (str[..k][i], at[i + 1]) {
        if i > 0 {
          assert NextByte(at'[i - 1]) == (str[1..][..k'][i - 1], at'[i]);
        }
      }
    }
  }

  lemma {:induction false} SpellsOnce(str: seq<byte>, at: seq<Input>, at': seq<Input>, n: nat)
    requires Spells(str, at) && Spells(str, at') && at[0] == at'[0] && n <= |str|
    ensures at[n] == at'[n]
  {
    hide NextByte;
    if n > 0 {
      SpellsOnce(str, at, at', n - 1);
      assert NextByte(at[n - 1]) == (str[n - 1], at[n]) && NextByte(at'[n - 1]) == (str[n - 1], at'[n]);
    }
  }

  lemma SpellsPrefix(str: seq<byte>, at: seq<Input>, n: nat)
    requires Spells(str, at) && n <= |str|
    ensures Spells(str[..n], at[..n + 1])
  {
    hide NextByte;
  }

  lemma TokenExactly(str: seq<byte>, s: Input, out: Out)
    ensures TokenRule(str, s, out) <==> out == TokenFrom(str, str, s)
  {
    hide NextByte, TokenFrom;
    var k, at := TokenPlaces(str, str, s);
    assert str[..|str|] == str;
    if TokenRule(str, s, out) {
      if at' :| Spells(str, at') && at'[0] == s && out == Out(Ok(Tok(TtBytes(str))), at'[|str|]) {
        TokenOnce(str, k, at, |str|, at');
      } else {
        var k', at' :| 0 <= k' < |str| && Spells(str[..k'], at') && at'[0] == s && NextByte(at'[k']).0 != str[k'] && out == Out(Fail, NextByte(at'[k']).1);
        TokenOnce(str, k, at, k', at');
      }
    }
  }

  /** Two readings of the same bytes go equally far. */
  lemma TokenOnce(str: seq<byte>, k: nat, at: seq<Input>, k': nat, at': seq<Input>)
    requires k <= |str| && k' <= |str| && Spells(str[..k], at) && Spells(str[..k'], at') && at[0] == at'[0]
    requires k < |str| ==> NextByte(at[k]).0 != str[k]
    requires k' < |str| ==> NextByte(at'[k']).0 != str[k']
    ensures k == k' && at[k] == at'[k]
  {
    hide NextByte, Spells;
    SpellsLength(str[..k], at);
    SpellsLength(str[..k'], at');
    var m := if k <= k' then k else k';
    SpellsPrefix(str[..k], at, m);
    SpellsPrefix(str[..k'], at', m);
    assert str[..k][..m] == str[..m] == str[..k'][..m];
    SpellsOnce(str[..m], at[..m + 1], at'[..m + 1], m);
    if k < k' {
      SpelledByte(str[..k'], at', k);
    } else if k' < k {
      SpelledByte(str[..k], at, k');
    }
  }

  lemma SpellsLength(str: seq<byte>, at: seq<Input>)
    requires Spells(str, at)
    ensures |at| == |str| + 1
  {
    hide NextByte;
  }

  lemma SpelledByte(str: seq<byte>, at: seq<Input>, k: nat)
    requires Spells(str, at) && k < |str|
    ensures NextByte(at[k]).0 == str[k]
  {
    hide NextByte;
    assert NextByte(at[k]) == (str[k], at[k + 1]);
  }

  lemma {:induction false} SkipPlaces(s: Input)
    ensures Skips(s, SkipSpace(s))
    decreases |Unread(s)|
  {
    hide NextByte, Unread;
    ReadTakes(s);
    if !SpaceAhead(s) {
      assert [s][0] == s;
    } else {
      var s', t := NextByte(s).1, SkipSpace(s);
      SkipPlaces(s');
      var at: seq<Input> :| |at| > 0 && at[0] == s' && at[|at| - 1] == t && !SpaceAhead(t)
        && forall k :: 0 <= k < |at| - 1 ==> SpaceAhead(at[k]) && at[k + 1] == NextByte(at[k]).1;
      var at' := [s] + at;
      assert at'[|at'| - 1] == t;
    }
  }

  lemma {:induction false} SkipOnce(s: Input, t: Input)
    requires Skips(s, t)
    ensures t == SkipSpace(s)
    decreases |Unread(s)|
  {
    hide NextByte, Unread;
    ReadTakes(s);
    var at: seq<Input> :| |at| > 0 && at[0] == s && at[|at| - 1] == t && !SpaceAhead(t)
      && forall k :: 0 <= k < |at| - 1 ==> SpaceAhead(at[k]) && at[k + 1] == NextByte(at[k]).1;
    if |at| > 1 {
      var rest := at[1..];
      assert rest[|rest| - 1] == t && rest[0] == NextByte(s).1;
      assert SpaceAhead(at[0]);
      assert Skips(NextByte(s).1, t);
      SkipOnce(NextByte(s).1, t);
    }
  }

  // ----- what is computed is admitted

  lemma {:induction false} PresentFront(a: Option<Token>, asts: seq<Option<Token>>)
    ensures Present([a] + asts) == (if a.Some? then [a] else []) + Present(asts)
    decreases |asts|
  {
    var all := [a] + asts;
    if asts == [] {
      assert all[..0] == [] && all == [a];
    } else {
      assert all[..|all| - 1] == [a] + asts[..|asts| - 1];
      PresentFront(a, asts[..|asts| - 1]);
    }
  }

  lemma AppendedFront(acc: seq<Option<Token>>, a: Option<Token>, asts: seq<Option<Token>>)
    ensures Appended(acc, a) + Present(asts) == acc + Present([a] + asts)
  {
    PresentFront(a, asts);
  }

  lemma {:induction false} DirectGives(g: seq<Parser>, n: nat, id: nat, s: Input)
    requires Direct(g, n, id, s).Some?
    ensures Gives(g, n, id, s, Direct(g, n, id, s).value)
    decreases n, 0
  {
    hide Raw, Rule;
    RawGives(g, n - 1, g[id], s);
  }

  lemma {:induction false} RawGives(g: seq<Parser>, n: nat, p: Parser, s: Input)
    requires Raw(g, n, p, s).Some?
    ensures Rule(g, n, p, s, Raw(g, n, p, s).value)
    decreases n, 5
  {
    hide Direct, Gives, NextByte, Next, TokenFrom, SkipSpace, Reorder, SequenceRule, ChoiceRule, ManyRule, PermutationRule;
    var out := Raw(g, n, p, s).value;
    match p
    case BytesToken(str) => TokenExactly(str, s, out);
    case BitField(length, signed) => assert Next(s, length, signed) == (Next(s, length, signed).0, out.s);
    case Sequence(ps) => InSequenceGives(g, n, ps, s);
    case Choice(ps) => FirstOfGives(g, n, ps, s);
    case Many(_, _, _, _) => ManyGives(g, n, p, s);
    case Optional(q) => DirectGives(g, n, q, s); IsOut(Direct(g, n, q, s).value);
    case Whitespace(q) => SkipPlaces(s); DirectGives(g, n, q, SkipSpace(s));
    case Ignore(q) => DirectGives(g, n, q, s); IsOut(Direct(g, n, q, s).value);
    case IgnoreSeq(ps, which) => PickedGives(g, n, ps, which, s);
    case And(q) => DirectGives(g, n, q, s); IsOut(Direct(g, n, q, s).value);
    case Not(q) => DirectGives(g, n, q, s); IsOut(Direct(g, n, q, s).value);
    case Xor(q1, q2) =>
      DirectGives(g, n, q1, s);
      DirectGives(g, n, q2, s);
      IsOut(Direct(g, n, q1, s).value);
      IsOut(Direct(g, n, q2, s).value);
    case Indirect(q) => DirectGives(g, n, q, s);
    case AttrBool(q, _) => DirectGives(g, n, q, s);
    case Action(q, _) => DirectGives(g, n, q, s);
    case WithEndianness(order, q) =>
      var diff := OrderXor(s.order, order);
      DirectGives(g, n, q, if diff == Order(false, false) then s else Reorder(s, diff));
    case Permutation(ps) => PermutationGives(g, n, ps, s);
    case _ =>
  }

  lemma IsOut(out: Out)
    ensures out == if out.res.Ok? then Out(Ok(out.res.ast), out.s) else Out(Fail, out.s)
  {
  }

  lemma {:induction false} InSequenceGives(g: seq<Parser>, n: nat, ps: seq<nat>, s: Input)
    requires InSequence(g, n, ps, [], s).Some?
    ensures SequenceRule(g, n, ps, None, s, InSequence(g, n, ps, [], s).value)
    decreases n, 4
  {
    hide Direct, Gives, InSequence, Chain;
    var at, asts := SequencePlaces(g, n, ps, [], s);
    assert [] + Present(asts) == Present(asts);
  }

  lemma {:induction false} SequencePlaces(g: seq<Parser>, n: nat, ps: seq<nat>, acc: seq<Option<Token>>, s: Input)
    returns (at: seq<Input>, asts: seq<Option<Token>>)
    requires InSequence(g, n, ps, acc, s).Some?
    ensures Chain(g, n, ps, at, asts) && at[0] == s
    ensures var out := InSequence(g, n, ps, acc, s).value;
      if |asts| == |ps| then out == Out(Ok(Tok(TtSequence(acc + Present(asts)))), at[|ps|])
      else out.res.Fail? && Gives(g, n, ps[|asts|], at[|asts|], out)
    decreases n, 3, |ps|
  {
    hide Direct, Gives;
    at, asts := [s], [];
    if ps == [] {
      assert acc + [] == acc;
    } else {
      DirectGives(g, n, ps[0], s);
      var r := Direct(g, n, ps[0], s).value;
      IsOut(r);
      if r.res.Ok? {
        var at', asts' := SequencePlaces(g, n, ps[1..], Appended(acc, r.res.ast), r.s);
        at, asts := [s] + at', [r.res.ast] + asts';
        ChainFront(g, n, ps, s, r.res.ast, at', asts');
        AppendedFront(acc, r.res.ast, asts');
      }
    }
  }

  lemma ChainFront(g: seq<Parser>, n: nat, ps: seq<nat>, s: Input, a: Option<Token>, at: seq<Input>, asts: seq<Option<Token>>)
    requires ps != [] && Chain(g, n, ps[1..], at, asts) && Gives(g, n, ps[0], s, Out(Ok(a), at[0]))
    ensures Chain(g, n, ps, [s] + at, [a] + asts)
  {
    hide Gives;
    var at', asts' := [s] + at, [a] + asts;
    forall k | 0 <= k < |asts'| ensures Gives(g, n, ps[k], at'[k], Out(Ok(asts'[k]), at'[k + 1])) {
      if k > 0 {
        assert Gives(g, n, ps[1..][k - 1], at[k - 1], Out(Ok(asts[k - 1]), at[k]));
      }
    }
  }

  lemma {:induction false} PickedGives(g: seq<Parser>, n: nat, ps: seq<nat>, which: nat, s: Input)
    requires Picked(g, n, ps, which, Fail, s).Some?
    ensures SequenceRule(g, n, ps, Some(which), s, Picked(g, n, ps, which, Fail, s).value)
    decreases n, 4
  {
    hide Direct, Gives, Picked, Chain;
    var at, asts := PickedPlaces(g, n, ps, which, Fail, s);
  }

  lemma {:induction false} PickedPlaces(g: seq<Parser>, n: nat, ps: seq<nat>, which: nat, res: Res, s: Input)
    returns (at: seq<Input>, asts: seq<Option<Token>>)
    requires Picked(g, n, ps, which, res, s).Some?
    ensures Chain(g, n, ps, at, asts) && at[0] == s
    ensures var out := Picked(g, n, ps, which, res, s).value;
      if |asts| == |ps| then out == Out(if which < |ps| then Ok(asts[which]) else res, at[|ps|])
      else out.res.Fail? && Gives(g, n, ps[|asts|], at[|asts|], out)
    decreases n, 3, |ps|
  {
    hide Direct, Gives;
    at, asts := [s], [];
    if ps != [] {
      DirectGives(g, n, ps[0], s);
      var r := Direct(g, n, ps[0], s).value;
      IsOut(r);
      if r.res.Ok? {
        var at', asts' := PickedPlaces(g, n, ps[1..], if which == 0 then |ps| else which - 1, if which == 0 then r.res else res, r.s);
        at, asts := [s] + at', [r.res.ast] + asts';
        ChainFront(g, n, ps, s, r.res.ast, at', asts');
      }
    }
  }

  lemma {:induction false} FirstOfGives(g: seq<Parser>, n: nat, ps: seq<nat>, s: Input)
    requires FirstOf(g, n, ps, s, s).Some?
    ensures ChoiceRule(g, n, ps, s, FirstOf(g, n, ps, s, s).value)
    decreases n, 4
  {
    hide Direct, Gives, FirstOf, Fails;
    FirstOfPlaces(g, n, ps, s, s);
  }

  lemma {:induction false} FirstOfPlaces(g: seq<Parser>, n: nat, ps: seq<nat>, backup: Input, s: Input)
    requires FirstOf(g, n, ps, backup, s).Some?
    ensures var out := FirstOf(g, n, ps, backup, s).value;
      if out.res.Ok? then exists i :: 0 <= i < |ps| && Gives(g, n, ps[i], backup, out) && forall j :: 0 <= j < i ==> Fails(g, n, ps[j], backup)
      else (forall j :: 0 <= j < |ps| ==> Fails(g, n, ps[j], backup)) && if ps == [] then out.s == s else Gives(g, n, ps[|ps| - 1], backup, out)
    decreases n, 3, |ps|
  {
    hide Direct, Gives;
    if ps != [] {
      DirectGives(g, n, ps[0], backup);
      var r := Direct(g, n, ps[0], backup).value;
      IsOut(r);
      if r.res.Ok? {
        assert Gives(g, n, ps[0], backup, r);
      } else {
        var rest := ps[1..];
        FirstOfPlaces(g, n, rest, backup, r.s);
        var out := FirstOf(g, n, rest, backup, r.s).value;
        assert Fails(g, n, ps[0], backup);
        forall j | 0 < j < |ps| && Fails(g, n, rest[j - 1], backup) ensures Fails(g, n, ps[j], backup) {
        }
        if out.res.Ok? {
          var i :| 0 <= i < |rest| && Gives(g, n, rest[i], backup, out) && forall j :: 0 <= j < i ==> Fails(g, n, rest[j], backup);
          assert Gives(g, n, ps[i + 1], backup, out);
        } else {
          IsOut(out);
        }
      }
    }
  }

  lemma {:induction false} ManyGives(g: seq<Parser>, n: nat, p: Parser, s: Input)
    requires p.Many? && Repeat(g, n, p.p, p.sep, p.count, p.minP, 0, [], s).Some?
    ensures ManyRule(g, n, p, s, Repeat(g, n, p.p, p.sep, p.count, p.minP, 0, [], s).value)
    decreases n, 4, 1
  {
    hide Direct, Gives, Repeat, Elements, Stops;
    var at, asts := RepeatPlaces(g, n, n, p, 0, [], s);
    assert [] + Present(asts) == Present(asts);
  }

  /** A result under a smaller bound. */
  lemma {:induction false} DirectGivesMore(g: seq<Parser>, n: nat, m: nat, id: nat, s: Input)
    requires m <= n && Direct(g, m, id, s).Some?
    ensures Gives(g, n, id, s, Direct(g, m, id, s).value)
    decreases n, 1
  {
    hide Direct, Gives;
    DirectStable(g, m, n, id, s);
    DirectGives(g, n, id, s);
  }

  lemma {:induction false} RepeatPlaces(g: seq<Parser>, n: nat, m: nat, p: Parser, done: nat, acc: seq<Option<Token>>, s: Input)
    returns (at: seq<Input>, asts: seq<Option<Token>>)
    requires p.Many? && m <= n && Repeat(g, m, p.p, p.sep, p.count, p.minP, done, acc, s).Some? && (p.minP || done <= p.count)
    ensures Elements(g, n, p, done, at, asts) && at[0] == s && (p.minP || done + |asts| <= p.count)
    ensures (!p.minP && done + |asts| == p.count) || Stops(g, n, p, done + |asts|, at[|asts|])
    ensures Repeat(g, m, p.p, p.sep, p.count, p.minP, done, acc, s).value ==
      Out(if done + |asts| >= p.count then Ok(Tok(TtSequence(acc + Present(asts)))) else Fail, at[|asts|])
    decreases n, 4, 0, m
  {
    hide Direct, Gives, Repeat;
    RepeatStep(g, m, p, done, acc, s);
    at, asts := [s], [];
    assert acc + [] == acc;
    if p.minP || p.count > done {
      var r0 := if done > 0 && p.sep.Some? then Direct(g, m, p.sep.value, s) else Some(Out(Ok(None), s));
      if done > 0 && p.sep.Some? {
        DirectGivesMore(g, n, m, p.sep.value, s);
      }
      IsOut(r0.value);
      if r0.value.res.Ok? {
        assert Gap(g, n, p, done, s, r0.value.s);
        DirectGivesMore(g, n, m, p.p, r0.value.s);
        var r := Direct(g, m, p.p, r0.value.s).value;
        IsOut(r);
        if r.res.Ok? {
          var at', asts' := RepeatPlaces(g, n, m - 1, p, done + 1, Appended(acc, r.res.ast), r.s);
          at, asts := [s] + at', [r.res.ast] + asts';
          ElementsFront(g, n, p, done, s, r.res.ast, at', asts');
          AppendedFront(acc, r.res.ast, asts');
        }
      }
    }
  }

  lemma ElementsFront(g: seq<Parser>, n: nat, p: Parser, done: nat, s: Input, a: Option<Token>, at: seq<Input>, asts: seq<Option<Token>>)
    requires p.Many? && Elements(g, n, p, done + 1, at, asts) && Element(g, n, p, done, s, at[0], a)
    ensures Elements(g, n, p, done, [s] + at, [a] + asts)
  {
    hide Element;
    var at', asts' := [s] + at, [a] + asts;
    forall k | 0 <= k < |asts'| ensures Element(g, n, p, done + k, at'[k], at'[k + 1], asts'[k]) {
      if k > 0 {
        assert Element(g, n, p, done + 1 + (k - 1), at[k - 1], at[k], asts[k - 1]);
      }
    }
  }

  lemma {:induction false} PermutationGives(g: seq<Parser>, n: nat, ps: seq<nat>, s: Input)
    requires PermTail(g, n, ps, 0, seq(|ps|, _ => true), seq(|ps|, _ => None), s).Some?
    ensures var r := PermTail(g, n, ps, 0, seq(|ps|, _ => true), seq(|ps|, _ => None), s).value;
      PermutationRule(g, n, ps, s, Out(if r.ok then Ok(Tok(TtSequence(r.elems))) else Fail, r.s))
    decreases n, 4
  {
    hide PermTail, PermutationRest;
    PermTailGives(g, n, ps, 0, seq(|ps|, _ => true), seq(|ps|, _ => None), s);
  }

  lemma {:induction false} PermTailGives(g: seq<Parser>, n: nat, ps: seq<nat>, k: nat, active: seq<bool>, elems: seq<Option<Token>>, s: Input)
    requires |active| == |elems| == |ps| && PermTail(g, n, ps, k, active, elems, s).Some?
    ensures var r := PermTail(g, n, ps, k, active, elems, s).value;
      PermutationRest(g, n, ps, k, active, elems, s, r) && (!r.ok ==> r.active == active)
    decreases n, 3, if k < |ps| then |ps| - k else 0, |ps| + 1
  {
    hide PermTry, PassedOver, TakenNext;
    if k < |ps| {
      var trail := PermTryGives(g, n, ps, k, 0, active, elems, s);
    }
  }

  /** The tokens left behind by the candidates from the `i`-th on. */
  ghost predicate Trail(g: seq<Parser>, n: nat, ps: seq<nat>, k: nat, i: nat, active: seq<bool>, trail: seq<seq<Option<Token>>>, s: Input, r: PermOut)
    requires |active| == |ps| && k < |ps| && i <= |ps|
  {
    && 0 < |trail| <= |ps| + 1 - i && (forall j :: 0 <= j < |trail| ==> |trail[j]| == |ps|)
    && (forall j :: 0 <= j < |trail| - 1 ==> PassedOver(g, n, ps, k, i + j, active, trail[j], trail[j + 1], s))
    && var m := |trail| - 1;
       if i + m == |ps| then r == PermOut(AllNone(active, trail[m]), active, trail[m], s)
       else TakenNext(g, n, ps, k, i + m, active, trail[m], s, r)
  }

  lemma TrailFront(g: seq<Parser>, n: nat, ps: seq<nat>, k: nat, i: nat, active: seq<bool>, elems: seq<Option<Token>>,
                   trail: seq<seq<Option<Token>>>, s: Input, r: PermOut)
    requires |active| == |elems| == |ps| && k < |ps| && i < |ps| && Trail(g, n, ps, k, i + 1, active, trail, s, r)
    requires PassedOver(g, n, ps, k, i, active, elems, trail[0], s)
    ensures Trail(g, n, ps, k, i, active, [elems] + trail, s, r)
  {
    hide PassedOver, TakenNext;
    var trail' := [elems] + trail;
    forall j | 0 <= j < |trail'| - 1 ensures PassedOver(g, n, ps, k, i + j, active, trail'[j], trail'[j + 1], s) {
      if j > 0 {
        assert PassedOver(g, n, ps, k, i + 1 + (j - 1), active, trail[j - 1], trail[j], s);
      }
    }
  }

  lemma {:induction false} PermTryGives(g: seq<Parser>, n: nat, ps: seq<nat>, k: nat, i: nat, active: seq<bool>, elems: seq<Option<Token>>, bak: Input)
    returns (trail: seq<seq<Option<Token>>>)
    requires |active| == |elems| == |ps| && k < |ps| && i <= |ps| && PermTry(g, n, ps, k, i, active, elems, bak).Some?
    ensures var r := PermTry(g, n, ps, k, i, active, elems, bak).value;
      Trail(g, n, ps, k, i, active, trail, bak, r) && trail[0] == elems && (!r.ok ==> r.active == active)
    decreases n, 3, |ps| - k, |ps| - i
  {
    hide Direct, PermTail, PermTry, Gives, PermutationRest;
    PermTryIs(g, n, ps, k, i, active, elems, bak);
    if i == |ps| {
      trail := [elems];
    } else if !active[i] {
      trail := PermTryGives(g, n, ps, k, i + 1, active, elems, bak);
      TrailFront(g, n, ps, k, i, active, elems, trail, bak, PermTry(g, n, ps, k, i, active, elems, bak).value);
      trail := [elems] + trail;
    } else {
      DirectGives(g, n, ps[i], bak);
      var r := Direct(g, n, ps[i], bak).value;
      IsOut(r);
      var elems' := if r.res.Ok? then elems[i := r.res.ast] else elems;
      if r.res.Fail? || IsNone(r.res.ast) {
        trail := PermTryGives(g, n, ps, k, i + 1, active, elems', bak);
        TrailFront(g, n, ps, k, i, active, elems, trail, bak, PermTry(g, n, ps, k, i, active, elems, bak).value);
        trail := [elems] + trail;
      } else {
        PermTailGives(g, n, ps, k + 1, active[i := false], elems', r.s);
        var t := PermTail(g, n, ps, k + 1, active[i := false], elems', r.s).value;
        if t.ok {
          trail := [elems];
        } else {
          assert t.active[i := true] == active;
          trail := PermTryGives(g, n, ps, k, i + 1, active, t.elems, bak);
          TrailFront(g, n, ps, k, i, active, elems, trail, bak, PermTry(g, n, ps, k, i, active, elems, bak).value);
          trail := [elems] + trail;
        }
      }
    }
  }

  // ----- what is admitted is computed

  /** Direct evaluation has this result under every bound from `m` on. */
  ghost predicate Settles(g: seq<Parser>, m: nat, id: nat, s: Input, out: Out) {
    forall k: nat :: k >= m ==> Direct(g, k, id, s) == Some(out)
  }

  ghost predicate RepeatSettles(g: seq<Parser>, m: nat, p: Parser, done: nat, acc: seq<Option<Token>>, s: Input, out: Out)
    requires p.Many?
  {
    forall k: nat :: k >= m ==> Repeat(g, k, p.p, p.sep, p.count, p.minP, done, acc, s) == Some(out)
  }

  ghost predicate TrySettles(g: seq<Parser>, m: nat, ps: seq<nat>, k: nat, i: nat, active: seq<bool>, elems: seq<Option<Token>>, s: Input, r: PermOut)
    requires |active| == |elems| == |ps| && k < |ps| && i <= |ps|
  {
    forall b: nat :: b >= m ==> PermTry(g, b, ps, k, i, active, elems, s) == Some(r)
  }

  lemma {:induction false} GivesDirect(g: seq<Parser>, n: nat, id: nat, s: Input, out: Out) returns (m: nat)
    requires Gives(g, n, id, s, out)
    ensures Settles(g, m, id, s, out)
    decreases n, 0
  {
    hide Rule, Raw;
    var raw :| Rule(g, n - 1, g[id], s, raw) && out == if raw.s.overrun then Out(Fail, raw.s) else raw;
    var m' := RuleRaw(g, n - 1, g[id], s, raw);
    m := m' + 1;
    forall k: nat | k >= m ensures Direct(g, k, id, s) == Some(out) {
      assert Raw(g, k - 1, g[id], s) == Some(raw);
    }
  }

  lemma {:induction false} FailsDirect(g: seq<Parser>, n: nat, id: nat, s: Input) returns (m: nat, t: Input)
    requires Fails(g, n, id, s)
    ensures Settles(g, m, id, s, Out(Fail, t))
    decreases n, 1
  {
    hide Gives;
    t :| Gives(g, n, id, s, Out(Fail, t));
    m := GivesDirect(g, n, id, s, Out(Fail, t));
  }

  lemma {:induction false} RuleRaw(g: seq<Parser>, n: nat, p: Parser, s: Input, out: Out) returns (m: nat)
    requires Rule(g, n, p, s, out)
    ensures forall k: nat :: k >= m ==> Raw(g, k, p, s) == Some(out)
    decreases n, 5
  {
    hide Direct, Gives, NextByte, Next, TokenFrom, SkipSpace, Reorder, SequenceRule, ChoiceRule, ManyRule, PermutationRule, Fails, Succeeds;
    m := 0;
    match p
    case BytesToken(str) => TokenExactly(str, s, out);
    case Sequence(ps) => m := SequenceRaw(g, n, ps, s, out);
    case Choice(ps) => m := ChoiceRaw(g, n, ps, s, out);
    case Many(_, _, _, _) => m := ManyRaw(g, n, p, s, out);
    case IgnoreSeq(ps, which) => m := PickedRaw(g, n, ps, which, s, out);
    case Optional(_) => m := VerdictRaw(g, n, p, s, out);
    case Whitespace(q) =>
      var t :| Skips(s, t) && Gives(g, n, q, t, out);
      SkipOnce(s, t);
      m := GivesDirect(g, n, q, t, out);
    case Ignore(_) => m := VerdictRaw(g, n, p, s, out);
    case And(q) => m := AndRaw(g, n, q, s, out);
    case Not(_) => m := VerdictRaw(g, n, p, s, out);
    case Xor(q1, q2) => m := XorRaw(g, n, q1, q2, s, out);
    case Indirect(q) => m := GivesDirect(g, n, q, s, out);
    case AttrBool(_, _) => m := ChangedRaw(g, n, p, s, out);
    case Action(_, _) => m := ChangedRaw(g, n, p, s, out);
    case WithEndianness(_, _) => m := ChangedRaw(g, n, p, s, out);
    case Permutation(ps) => m := PermutationRaw(g, n, ps, s, out);
    case _ =>
  }

  lemma {:induction false} VerdictRaw(g: seq<Parser>, n: nat, p: Parser, s: Input, out: Out) returns (m: nat)
    requires (p.Optional? || p.Ignore? || p.Not?) && Rule(g, n, p, s, out)
    ensures forall k: nat :: k >= m ==> Raw(g, k, p, s) == Some(out)
    decreases n, 4
  {
    hide Direct, Gives, Fails;
    match p
    case Optional(q) =>
      if out.res.Ok? && Gives(g, n, q, s, out) {
        m := GivesDirect(g, n, q, s, out);
      } else {
        var t;
        m, t := FailsDirect(g, n, q, s);
      }
    case Ignore(q) =>
      if out.res.Fail? {
        m := GivesDirect(g, n, q, s, out);
      } else {
        var a :| Gives(g, n, q, s, Out(Ok(a), out.s));
        m := GivesDirect(g, n, q, s, Out(Ok(a), out.s));
      }
    case Not(q) =>
      if out.res.Ok? {
        var t;
        m, t := FailsDirect(g, n, q, s);
      } else {
        var a :| Gives(g, n, q, s, Out(Ok(a), out.s));
        m := GivesDirect(g, n, q, s, Out(Ok(a), out.s));
      }
  }

  lemma {:induction false} ChangedRaw(g: seq<Parser>, n: nat, p: Parser, s: Input, out: Out) returns (m: nat)
    requires (p.AttrBool? || p.Action? || p.WithEndianness?) && Rule(g, n, p, s, out)
    ensures forall k: nat :: k >= m ==> Raw(g, k, p, s) == Some(out)
    decreases n, 4
  {
    hide Direct, Gives, Reorder;
    match p
    case AttrBool(q, pred) =>
      var r :| Gives(g, n, q, s, r) && out == if r.res.Ok? && !(r.res.ast.Some? && pred(r.res.ast)) then Out(Fail, r.s) else r;
      m := GivesDirect(g, n, q, s, r);
    case Action(q, action) =>
      var r :| Gives(g, n, q, s, r) && out == if r.res.Ok? then Out(Ok(action(r.res.ast)), r.s) else r;
      m := GivesDirect(g, n, q, s, r);
    case WithEndianness(order, q) =>
      var diff := OrderXor(s.order, order);
      if order == s.order {
        m := GivesDirect(g, n, q, s, out);
      } else {
        var r :| Gives(g, n, q, Reorder(s, diff), r) && out == Out(r.res, Reorder(r.s, diff));
        m := GivesDirect(g, n, q, Reorder(s, diff), r);
      }
  }

  lemma {:induction false} AndRaw(g: seq<Parser>, n: nat, q: nat, s: Input, out: Out) returns (m: nat)
    requires Rule(g, n, And(q), s, out)
    ensures forall k: nat :: k >= m ==> Raw(g, k, And(q), s) == Some(out)
    decreases n, 4
  {
    hide Direct, Gives, Fails;
    if out.res.Ok? {
      var a, t :| Gives(g, n, q, s, Out(Ok(a), t));
      m := GivesDirect(g, n, q, s, Out(Ok(a), t));
    } else {
      var t;
      m, t := FailsDirect(g, n, q, s);
    }
  }

  lemma {:induction false} XorRaw(g: seq<Parser>, n: nat, q1: nat, q2: nat, s: Input, out: Out) returns (m: nat)
    requires Rule(g, n, Xor(q1, q2), s, out)
    ensures forall k: nat :: k >= m ==> Raw(g, k, Xor(q1, q2), s) == Some(out)
    decreases n, 4
  {
    hide Direct, Gives, Fails;
    if Fails(g, n, q1, s) && Gives(g, n, q2, s, out) {
      var m1, t := FailsDirect(g, n, q1, s);
      var m2 := GivesDirect(g, n, q2, s, out);
      m := m1 + m2;
    } else if out.res.Ok? {
      var m1 := GivesDirect(g, n, q1, s, out);
      var m2, t := FailsDirect(g, n, q2, s);
      m := m1 + m2;
    } else {
      var a, t :| Gives(g, n, q1, s, Out(Ok(a), t));
      var b :| Gives(g, n, q2, s, Out(Ok(b), out.s));
      var m1 := GivesDirect(g, n, q1, s, Out(Ok(a), t));
      var m2 := GivesDirect(g, n, q2, s, Out(Ok(b), out.s));
      m := m1 + m2;
    }
  }

  lemma {:induction false} SequenceRaw(g: seq<Parser>, n: nat, ps: seq<nat>, s: Input, out: Out) returns (m: nat)
    requires SequenceRule(g, n, ps, None, s, out)
    ensures forall k: nat :: k >= m ==> InSequence(g, k, ps, [], s) == Some(out)
    decreases n, 4
  {
    hide Direct, Gives, InSequence;
    var at, asts :| Chain(g, n, ps, at, asts) && at[0] == s
      && if |asts| == |ps| then out == Out(Ok(Tok(TtSequence(Present(asts)))), at[|ps|])
         else out.res.Fail? && Gives(g, n, ps[|asts|], at[|asts|], out);
    assert [] + Present(asts) == Present(asts);
    m := InSequenceRaw(g, n, ps, [], at, asts, out);
  }

  lemma ChainRest(g: seq<Parser>, n: nat, ps: seq<nat>, at: seq<Input>, asts: seq<Option<Token>>)
    requires Chain(g, n, ps, at, asts) && asts != []
    ensures Chain(g, n, ps[1..], at[1..], asts[1..]) && Gives(g, n, ps[0], at[0], Out(Ok(asts[0]), at[1]))
  {
    hide Gives;
    forall k | 0 <= k < |asts| - 1 ensures Gives(g, n, ps[1..][k], at[1..][k], Out(Ok(asts[1..][k]), at[1..][k + 1])) {
      assert Gives(g, n, ps[k + 1], at[k + 1], Out(Ok(asts[k + 1]), at[k + 2]));
    }
  }

  lemma {:induction false} InSequenceRaw(g: seq<Parser>, n: nat, ps: seq<nat>, acc: seq<Option<Token>>, at: seq<Input>,
                                         asts: seq<Option<Token>>, out: Out) returns (m: nat)
    requires Chain(g, n, ps, at, asts)
    requires if |asts| == |ps| then out == Out(Ok(Tok(TtSequence(acc + Present(asts)))), at[|ps|])
             else out.res.Fail? && Gives(g, n, ps[|asts|], at[|asts|], out)
    ensures forall k: nat :: k >= m ==> InSequence(g, k, ps, acc, at[0]) == Some(out)
    decreases n, 3, |ps|
  {
    hide Direct, Gives;
    if ps == [] {
      m := 0;
      assert acc + [] == acc;
    } else if asts == [] {
      m := GivesDirect(g, n, ps[0], at[0], out);
    } else {
      ChainRest(g, n, ps, at, asts);
      var m1 := GivesDirect(g, n, ps[0], at[0], Out(Ok(asts[0]), at[1]));
      assert [asts[0]] + asts[1..] == asts;
      AppendedFront(acc, asts[0], asts[1..]);
      var m2 := InSequenceRaw(g, n, ps[1..], Appended(acc, asts[0]), at[1..], asts[1..], out);
      m := m1 + m2;
    }
  }

  lemma {:induction false} PickedRaw(g: seq<Parser>, n: nat, ps: seq<nat>, which: nat, s: Input, out: Out) returns (m: nat)
    requires SequenceRule(g, n, ps, Some(which), s, out)
    ensures forall k: nat :: k >= m ==> Picked(g, k, ps, which, Fail, s) == Some(out)
    decreases n, 4
  {
    hide Direct, Gives, Picked;
    var at, asts :| Chain(g, n, ps, at, asts) && at[0] == s
      && if |asts| == |ps| then out == Out(if which < |ps| then Ok(asts[which]) else Fail, at[|ps|])
         else out.res.Fail? && Gives(g, n, ps[|asts|], at[|asts|], out);
    m := PickedFrom(g, n, ps, which, Fail, at, asts, out);
  }

  lemma {:induction false} PickedFrom(g: seq<Parser>, n: nat, ps: seq<nat>, which: nat, res: Res, at: seq<Input>,
                                      asts: seq<Option<Token>>, out: Out) returns (m: nat)
    requires Chain(g, n, ps, at, asts)
    requires if |asts| == |ps| then out == Out(if which < |ps| then Ok(asts[which]) else res, at[|ps|])
             else out.res.Fail? && Gives(g, n, ps[|asts|], at[|asts|], out)
    ensures forall k: nat :: k >= m ==> Picked(g, k, ps, which, res, at[0]) == Some(out)
    decreases n, 3, |ps|
  {
    hide Direct, Gives;
    if ps == [] {
      m := 0;
    } else if asts == [] {
      m := GivesDirect(g, n, ps[0], at[0], out);
    } else {
      ChainRest(g, n, ps, at, asts);
      var m1 := GivesDirect(g, n, ps[0], at[0], Out(Ok(asts[0]), at[1]));
      var m2 := PickedFrom(g, n, ps[1..], if which == 0 then |ps| else which - 1, if which == 0 then Ok(asts[0]) else res, at[1..], asts[1..], out);
      m := m1 + m2;
    }
  }

  lemma {:induction false} ChoiceRaw(g: seq<Parser>, n: nat, ps: seq<nat>, s: Input, out: Out) returns (m: nat)
    requires ChoiceRule(g, n, ps, s, out)
    ensures forall k: nat :: k >= m ==> FirstOf(g, k, ps, s, s) == Some(out)
    decreases n, 4
  {
    hide Direct, Gives, FirstOf, Fails;
    if out.res.Ok? {
      var i :| 0 <= i < |ps| && Gives(g, n, ps[i], s, out) && forall j :: 0 <= j < i ==> Fails(g, n, ps[j], s);
      m := FirstOfRaw(g, n, ps, i, s, s, out);
    } else if ps == [] {
      m := NoAlternative(g, s);
    } else {
      m := FirstOfRaw(g, n, ps, |ps| - 1, s, s, out);
    }
  }

  lemma NoAlternative(g: seq<Parser>, s: Input) returns (m: nat)
    ensures forall k: nat :: k >= m ==> FirstOf(g, k, [], s, s) == Some(Out(Fail, s))
  {
    m := 0;
  }

  /** The alternatives before the `i`-th fail, and it either succeeds or is the last. */
  lemma {:induction false} FirstOfRaw(g: seq<Parser>, n: nat, ps: seq<nat>, i: nat, backup: Input, s: Input, out: Out) returns (m: nat)
    requires i < |ps| && Gives(g, n, ps[i], backup, out) && (out.res.Ok? || i == |ps| - 1) && forall j :: 0 <= j < i ==> Fails(g, n, ps[j], backup)
    ensures forall k: nat :: k >= m ==> FirstOf(g, k, ps, backup, s) == Some(out)
    decreases n, 3, |ps|
  {
    hide Direct, Gives, Fails;
    if i == 0 {
      m := GivesDirect(g, n, ps[0], backup, out);
      IsOut(out);
    } else {
      var m1, t := FailsDirect(g, n, ps[0], backup);
      assert ps[1..][i - 1] == ps[i] && forall j :: 0 <= j < i - 1 ==> ps[1..][j] == ps[j + 1];
      var m2 := FirstOfRaw(g, n, ps[1..], i - 1, backup, t, out);
      m := m1 + m2;
    }
  }

  lemma {:induction false} ManyRaw(g: seq<Parser>, n: nat, p: Parser, s: Input, out: Out) returns (m: nat)
    requires p.Many? && ManyRule(g, n, p, s, out)
    ensures forall k: nat :: k >= m ==> Repeat(g, k, p.p, p.sep, p.count, p.minP, 0, [], s) == Some(out)
    decreases n, 4, 1
  {
    hide Direct, Gives, Repeat, Element, Stops;
    var at, asts :| Elements(g, n, p, 0, at, asts) && at[0] == s && (p.minP || |asts| <= p.count)
      && ((!p.minP && |asts| == p.count) || Stops(g, n, p, |asts|, at[|asts|]))
      && out == Out(if |asts| >= p.count then Ok(Tok(TtSequence(Present(asts)))) else Fail, at[|asts|]);
    assert [] + Present(asts) == Present(asts);
    m := RepeatRaw(g, n, p, 0, [], at, asts, out);
  }

  lemma {:induction false} RepeatRaw(g: seq<Parser>, n: nat, p: Parser, done: nat, acc: seq<Option<Token>>, at: seq<Input>,
                                     asts: seq<Option<Token>>, out: Out) returns (m: nat)
    requires p.Many? && Elements(g, n, p, done, at, asts) && (p.minP || done + |asts| <= p.count)
    requires (!p.minP && done + |asts| == p.count) || Stops(g, n, p, done + |asts|, at[|asts|])
    requires out == Out(if done + |asts| >= p.count then Ok(Tok(TtSequence(acc + Present(asts)))) else Fail, at[|asts|])
    ensures RepeatSettles(g, m, p, done, acc, at[0], out)
    decreases n, 4, 0, |asts|
  {
    hide Direct, Gives, Stops, Element;
    if asts == [] {
      assert acc + [] == acc;
      if !p.minP && done == p.count {
        m := 1;
      } else {
        m := StopsRaw(g, n, p, done, acc, at[0]);
      }
    } else {
      assert Element(g, n, p, done + 0, at[0], at[1], asts[0]);
      forall k | 0 <= k < |asts| - 1 ensures Element(g, n, p, done + 1 + k, at[1..][k], at[1..][k + 1], asts[1..][k]) {
        assert Element(g, n, p, done + (k + 1), at[k + 1], at[k + 2], asts[k + 1]);
      }
      assert [asts[0]] + asts[1..] == asts;
      AppendedFront(acc, asts[0], asts[1..]);
      var m2 := RepeatRaw(g, n, p, done + 1, Appended(acc, asts[0]), at[1..], asts[1..], out);
      m := ElementRaw(g, n, p, done, acc, at[0], at[1], asts[0], m2, out);
    }
  }

  lemma {:induction false} GapRaw(g: seq<Parser>, n: nat, p: Parser, done: nat, s: Input, mid: Input) returns (m: nat, r0: Out)
    requires p.Many? && Gap(g, n, p, done, s, mid)
    ensures r0.res.Ok? && r0.s == mid
    ensures if done > 0 && p.sep.Some? then Settles(g, m, p.sep.value, s, r0) else r0 == Out(Ok(None), s)
    decreases n, 2
  {
    hide Direct, Gives;
    if done > 0 && p.sep.Some? {
      var a :| Gives(g, n, p.sep.value, s, Out(Ok(a), mid));
      r0 := Out(Ok(a), mid);
      m := GivesDirect(g, n, p.sep.value, s, r0);
    } else {
      m, r0 := 0, Out(Ok(None), s);
    }
  }

  lemma {:induction false} StopsRaw(g: seq<Parser>, n: nat, p: Parser, done: nat, acc: seq<Option<Token>>, s: Input) returns (m: nat)
    requires p.Many? && Stops(g, n, p, done, s) && (p.minP || done < p.count)
    ensures RepeatSettles(g, m, p, done, acc, s, Out(if done >= p.count then Ok(Tok(TtSequence(acc))) else Fail, s))
    decreases n, 3
  {
    hide Direct, Gives, Fails, Gap, Repeat;
    var out := Out(if done >= p.count then Ok(Tok(TtSequence(acc))) else Fail, s);
    if done > 0 && p.sep.Some? && Fails(g, n, p.sep.value, s) {
      var m1, t := FailsDirect(g, n, p.sep.value, s);
      m := m1 + 1;
      forall k: nat | k >= m ensures Repeat(g, k, p.p, p.sep, p.count, p.minP, done, acc, s) == Some(out) {
        RepeatStep(g, k, p, done, acc, s);
      }
    } else {
      var mid :| Gap(g, n, p, done, s, mid) && Fails(g, n, p.p, mid);
      var m1, r0 := GapRaw(g, n, p, done, s, mid);
      var m2, t := FailsDirect(g, n, p.p, mid);
      m := m1 + m2 + 1;
      forall k: nat | k >= m ensures Repeat(g, k, p.p, p.sep, p.count, p.minP, done, acc, s) == Some(out) {
        RepeatStep(g, k, p, done, acc, s);
      }
    }
  }

  lemma {:induction false} ElementRaw(g: seq<Parser>, n: nat, p: Parser, done: nat, acc: seq<Option<Token>>, s: Input, t: Input,
                                      ast: Option<Token>, rest: nat, out: Out) returns (m: nat)
    requires p.Many? && Element(g, n, p, done, s, t, ast) && (p.minP || done < p.count)
    requires RepeatSettles(g, rest, p, done + 1, Appended(acc, ast), t, out)
    ensures RepeatSettles(g, m, p, done, acc, s, out)
    decreases n, 3
  {
    hide Direct, Gives, Gap, Repeat;
    var mid :| Gap(g, n, p, done, s, mid) && Gives(g, n, p.p, mid, Out(Ok(ast), t));
    var m1, r0 := GapRaw(g, n, p, done, s, mid);
    var m2 := GivesDirect(g, n, p.p, mid, Out(Ok(ast), t));
    m := m1 + m2 + rest + 1;
    forall k: nat | k >= m ensures Repeat(g, k, p.p, p.sep, p.count, p.minP, done, acc, s) == Some(out) {
      RepeatStep(g, k, p, done, acc, s);
      assert Repeat(g, k - 1, p.p, p.sep, p.count, p.minP, done + 1, Appended(acc, ast), t) == Some(out);
    }
  }

  lemma {:induction false} PermutationRaw(g: seq<Parser>, n: nat, ps: seq<nat>, s: Input, out: Out) returns (m: nat)
    requires PermutationRule(g, n, ps, s, out)
    ensures forall k: nat :: k >= m ==> Raw(g, k, Permutation(ps), s) == Some(out)
    decreases n, 4
  {
    hide PermTail, PermutationRest;
    var r :| PermutationRest(g, n, ps, 0, seq(|ps|, _ => true), seq(|ps|, _ => None), s, r)
      && out == Out(if r.ok then Ok(Tok(TtSequence(r.elems))) else Fail, r.s);
    m := PermTailRaw(g, n, ps, 0, seq(|ps|, _ => true), seq(|ps|, _ => None), s, r);
  }

  lemma RestActive(g: seq<Parser>, n: nat, ps: seq<nat>, k: nat, active: seq<bool>, elems: seq<Option<Token>>, s: Input, r: PermOut)
    requires |active| == |elems| == |ps| && PermutationRest(g, n, ps, k, active, elems, s, r) && !r.ok
    ensures r.active == active && |r.elems| == |ps| && r.s == s
  {
    hide PassedOver;
  }

  lemma {:induction false} PermTailRaw(g: seq<Parser>, n: nat, ps: seq<nat>, k: nat, active: seq<bool>, elems: seq<Option<Token>>, s: Input, r: PermOut)
    returns (m: nat)
    requires |active| == |elems| == |ps| && PermutationRest(g, n, ps, k, active, elems, s, r)
    ensures forall b: nat :: b >= m ==> PermTail(g, b, ps, k, active, elems, s) == Some(r)
    decreases n, 3, if k < |ps| then |ps| - k else 0, |ps| + 1
  {
    hide PermTry, PassedOver, TakenNext;
    m := 0;
    if k < |ps| {
      var trail: seq<seq<Option<Token>>> :|
        && 0 < |trail| <= |ps| + 1 && trail[0] == elems && (forall i :: 0 <= i < |trail| ==> |trail[i]| == |ps|)
        && (forall i :: 0 <= i < |trail| - 1 ==> PassedOver(g, n, ps, k, i, active, trail[i], trail[i + 1], s))
        && var m := |trail| - 1;
           if m == |ps| then r == PermOut(AllNone(active, trail[m]), active, trail[m], s)
           else TakenNext(g, n, ps, k, m, active, trail[m], s, r);
      m := TrailRaw(g, n, ps, k, 0, active, trail, s, r);
    }
  }

  lemma TrailRest(g: seq<Parser>, n: nat, ps: seq<nat>, k: nat, i: nat, active: seq<bool>, trail: seq<seq<Option<Token>>>, s: Input, r: PermOut)
    requires |active| == |ps| && k < |ps| && i < |ps| && Trail(g, n, ps, k, i, active, trail, s, r) && |trail| > 1
    ensures Trail(g, n, ps, k, i + 1, active, trail[1..], s, r) && PassedOver(g, n, ps, k, i, active, trail[0], trail[1], s)
  {
    hide PassedOver, TakenNext;
    assert PassedOver(g, n, ps, k, i + 0, active, trail[0], trail[1], s);
    forall j | 0 <= j < |trail| - 2 ensures PassedOver(g, n, ps, k, i + 1 + j, active, trail[1..][j], trail[1..][j + 1], s) {
      assert PassedOver(g, n, ps, k, i + (j + 1), active, trail[j + 1], trail[j + 2], s);
    }
  }

  lemma {:induction false} TrailRaw(g: seq<Parser>, n: nat, ps: seq<nat>, k: nat, i: nat, active: seq<bool>, trail: seq<seq<Option<Token>>>,
                                    s: Input, r: PermOut) returns (m: nat)
    requires |active| == |ps| && k < |ps| && i <= |ps| && Trail(g, n, ps, k, i, active, trail, s, r)
    ensures TrySettles(g, m, ps, k, i, active, trail[0], s, r)
    decreases n, 3, |ps| - k, |ps| - i
  {
    hide Direct, PermTail, Gives, PermutationRest, PassedOver, TakenNext;
    if |trail| > 1 {
      TrailRest(g, n, ps, k, i, active, trail, s, r);
      var rest := TrailRaw(g, n, ps, k, i + 1, active, trail[1..], s, r);
      m := PassedRaw(g, n, ps, k, i, active, trail[0], trail[1], s, rest, r);
    } else if i == |ps| {
      m := 0;
    } else {
      m := TakenRaw(g, n, ps, k, i, active, trail[0], s, r);
    }
  }

  lemma {:induction false} PassedRaw(g: seq<Parser>, n: nat, ps: seq<nat>, k: nat, i: nat, active: seq<bool>, before: seq<Option<Token>>,
                                     after: seq<Option<Token>>, s: Input, rest: nat, r: PermOut) returns (m: nat)
    requires |active| == |before| == |after| == |ps| && k < |ps| && i < |ps| && PassedOver(g, n, ps, k, i, active, before, after, s)
    requires TrySettles(g, rest, ps, k, i + 1, active, after, s, r)
    ensures TrySettles(g, m, ps, k, i, active, before, s, r)
    decreases n, 3, |ps| - k, 0, 1
  {
    hide Direct, PermTail, PermTry, Gives, PermutationRest, Fails;
    if !active[i] {
      m := rest;
      assert after == before;
    } else if Fails(g, n, ps[i], s) && after == before {
      var m1, t := FailsDirect(g, n, ps[i], s);
      m := m1 + rest;
    } else if a, t :| Gives(g, n, ps[i], s, Out(Ok(a), t)) && IsNone(a) && after == before[i := a] {
      var m1 := GivesDirect(g, n, ps[i], s, Out(Ok(a), t));
      m := m1 + rest;
    } else {
      var a, t, q :| Gives(g, n, ps[i], s, Out(Ok(a), t)) && !IsNone(a)
        && PermutationRest(g, n, ps, k + 1, active[i := false], before[i := a], t, q) && !q.ok && after == q.elems;
      var m1 := GivesDirect(g, n, ps[i], s, Out(Ok(a), t));
      var m2 := PermTailRaw(g, n, ps, k + 1, active[i := false], before[i := a], t, q);
      RestActive(g, n, ps, k + 1, active[i := false], before[i := a], t, q);
      assert q.active[i := true] == active;
      m := m1 + m2 + rest;
    }
    forall b: nat | b >= m ensures PermTry(g, b, ps, k, i, active, before, s) == Some(r) {
      PermTryIs(g, b, ps, k, i, active, before, s);
    }
  }

  lemma {:induction false} TakenRaw(g: seq<Parser>, n: nat, ps: seq<nat>, k: nat, i: nat, active: seq<bool>, before: seq<Option<Token>>,
                                    s: Input, r: PermOut) returns (m: nat)
    requires |active| == |before| == |ps| && k < |ps| && i < |ps| && TakenNext(g, n, ps, k, i, active, before, s, r)
    ensures TrySettles(g, m, ps, k, i, active, before, s, r)
    decreases n, 3, |ps| - k, 0, 1
  {
    hide Direct, PermTail, PermTry, Gives, PermutationRest;
    var a, t :| Gives(g, n, ps[i], s, Out(Ok(a), t)) && !IsNone(a)
      && PermutationRest(g, n, ps, k + 1, active[i := false], before[i := a], t, r);
    var m1 := GivesDirect(g, n, ps[i], s, Out(Ok(a), t));
    var m2 := PermTailRaw(g, n, ps, k + 1, active[i := false], before[i := a], t, r);
    m := m1 + m2;
    forall b: nat | b >= m ensures PermTry(g, b, ps, k, i, active, before, s) == Some(r) {
      PermTryIs(g, b, ps, k, i, active, before, s);
    }
  }

  // ----- the relation is the function

  /** Direct evaluation computes exactly what the rules admit. */
  lemma AdmitsExactly(g: seq<Parser>, id: nat, s: Input, out: Out)
    ensures Admits(g, id, s, out) <==> exists n: nat :: Direct(g, n, id, s) == Some(out)
  {
    hide Direct, Gives;
    if Admits(g, id, s, out) {
      var n: nat :| Gives(g, n, id, s, out);
      var m := GivesDirect(g, n, id, s, out);
      assert Direct(g, m, id, s) == Some(out);
    }
    if n: nat :| Direct(g, n, id, s) == Some(out) {
      DirectGives(g, n, id, s);
    }
  }

  /** So there is at most one outcome. */
  lemma AdmitsOnce(g: seq<Parser>, id: nat, s: Input, out: Out, out': Out)
    requires Admits(g, id, s, out) && Admits(g, id, s, out')
    ensures out == out'
  {
    hide Direct, Gives;
    AdmitsExactly(g, id, s, out);
    AdmitsExactly(g, id, s, out');
    var m: nat :| Direct(g, m, id, s) == Some(out);
    var n: nat :| Direct(g, n, id, s) == Some(out');
    DirectUnique(g, m, n, id, s);
  }
}
