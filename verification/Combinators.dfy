/** The combinators, evaluated directly: every parser is a function of the input stream. */
module Combinators {
  import opened Basics
  import opened Bits
  import opened BitReader
  import opened BitLaws

  type Input = s: InputStream | ValidInput(s) witness InputStream([], 0, 0, 0, 0, Order(true, true), false, true)

  type width = n: nat | 1 <= n <= 64 witness 1

  /** Parsers refer to each other by number, so they may be recursive. */
  datatype Parser =
    | Ch(c: byte)
    | Charset(chars: set<byte>)
    | BytesToken(str: seq<byte>)
    | BitField(length: width, signed: bool)
    | End
    | Epsilon
    | Nothing
    | Sequence(ps: seq<nat>)
    | Choice(ps: seq<nat>)
    | Many(p: nat, sep: Option<nat>, count: nat, minP: bool)
    | Optional(p: nat)
    | Whitespace(p: nat)
    | Ignore(p: nat)
    | IgnoreSeq(ps: seq<nat>, which: nat)
    | And(p: nat)
    | Not(p: nat)
    | Xor(p1: nat, p2: nat)
    | Indirect(p: nat)
    | AttrBool(p: nat, pred: Option<Token> -> bool)
    | Action(p: nat, action: Option<Token> -> Option<Token>)
    | WithEndianness(order: Order, p: nat)
    | Permutation(ps: seq<nat>)
  {
    /** Only results of these are looked up in the cache. */
    predicate Higher() {
      !(Ch? || Charset? || BytesToken? || BitField? || End? || Epsilon? || Nothing? || Whitespace?)
    }
  }

  datatype Res = Fail | Ok(ast: Option<Token>)

  /** What a parse leaves behind: a failure may leave the stream anywhere. */
  datatype Out = Out(res: Res, s: Input)

  function Tok(kind: Kind): Option<Token> {
    Some(Token(kind, 0))
  }

  function Next(s: Input, count: nat, signed: bool): (int, Input) {
    ReadStaysValid(s, count, signed);
    Read(s, count, signed)
  }

  /** The next eight bits, cast to a byte. */
  function NextByte(s: Input): (byte, Input) {
    (Next(s, 8, false).0 % 256, Next(s, 8, false).1)
  }

  // ----- parsers without children

  function TokenFrom(str: seq<byte>, whole: seq<byte>, s: Input): Out
    decreases |str|
  {
    if str == [] then Out(Ok(Tok(TtBytes(whole))), s)
    else
      var (c, s') := NextByte(s);
      if c != str[0] then Out(Fail, s') else TokenFrom(str[1..], whole, s')
  }

  /** The stream behind the white space. */
  function SkipSpace(s: Input): Input
    decreases |Unread(s)|
  {
    var (c, s') := NextByte(s);
    ReadTakes(s);
    if s'.overrun || !IsSpace(c) then s else SkipSpace(s')
  }

  lemma ReadTakes(s: Input)
    ensures var s' := NextByte(s).1; !s'.overrun ==> |Unread(s')| < |Unread(s)|
  {
    hide Unread, Advance, Gather, Val;
    if 8 <= |Unread(s)| {
      UnreadAdvanced(s, 8);
      FlagKept(Advance(s, 8), 0, s.overrun);
    }
  }

  // ----- switching the byte and bit order for a parser

  function OrderXor(a: Order, b: Order): Order {
    Order(a.byteBig != b.byteBig, a.bitBig != b.bitBig)
  }

  /** Change the order by `diff`. */
  function Reorder(s: Input, diff: Order): Input {
    SwitchKeepsUnread(s);
    var t := if diff.bitBig then s.(bitOffset := s.margin, margin := s.bitOffset) else s;
    t.(order := OrderXor(s.order, diff))
  }

  // ----- evaluation

  function Appended(seq0: seq<Option<Token>>, ast: Option<Token>): seq<Option<Token>> {
    if ast.Some? then seq0 + [ast] else seq0
  }

  predicate IsNone(ast: Option<Token>) {
    ast.Some? && ast.value.kind.TtNone?
  }

  /** `perform_lowlevel_parse`: overrun is always failure. */
  function Guarded(out: Out): Out {
    if out.s.overrun then Out(Fail, out.s) else out
  }

  /** The result of a parser; None when `n` does not suffice as the bound for nested and repeated calls. */
  function Direct(g: seq<Parser>, n: nat, id: nat, s: Input): Option<Out>
    decreases n, 0
  {
    if n == 0 || id >= |g| then None
    else
      var r := Raw(g, n - 1, g[id], s);
      if r == None then None else Some(Guarded(r.value))
  }

  /** The `parse` functions of the combinators. */
  function Raw(g: seq<Parser>, n: nat, p: Parser, s: Input): Option<Out>
    decreases n, 3
  {
    match p
    case Ch(c) => var (r, s') := NextByte(s); Some(Out(if c == r then Ok(Tok(TtUint(r))) else Fail, s'))
    case Charset(chars) => var (r, s') := NextByte(s); Some(Out(if r in chars then Ok(Tok(TtUint(r))) else Fail, s'))
    case BytesToken(str) => Some(TokenFrom(str, str, s))
    case BitField(length, signed) =>
      var (v, s') := Next(s, length, signed);
      Some(Out(Ok(Tok(if signed then TtSint(v) else TtUint(if v < 0 then v % Pow2(64) else v))), s'))
    case End => Some(Out(if s.index == |s.input| then Ok(None) else Fail, s))
    case Epsilon => Some(Out(Ok(None), s))
    case Nothing => Some(Out(Fail, s))
    case Sequence(ps) => InSequence(g, n, ps, [], s)
    case Choice(ps) => FirstOf(g, n, ps, s, s)
    case Many(q, sep, count, minP) => Repeat(g, n, q, sep, count, minP, 0, [], s)
    case Optional(q) =>
      var r := Direct(g, n, q, s);
      if r.Some? && r.value.res.Fail? then Some(Out(Ok(Tok(TtNone)), s)) else r
    case Whitespace(q) => Direct(g, n, q, SkipSpace(s))
    case Ignore(q) =>
      var r := Direct(g, n, q, s);
      if r.Some? && r.value.res.Ok? then Some(Out(Ok(None), r.value.s)) else r
    case IgnoreSeq(ps, which) => Picked(g, n, ps, which, Fail, s)
    case And(q) =>
      var r := Direct(g, n, q, s);
      if r == None then None else Some(Out(if r.value.res.Ok? then Ok(None) else Fail, s))
    case Not(q) =>
      var r := Direct(g, n, q, s);
      if r == None then None else Some(if r.value.res.Ok? then Out(Fail, r.value.s) else Out(Ok(None), s))
    case Xor(q1, q2) =>
      var r1, r2 := Direct(g, n, q1, s), Direct(g, n, q2, s);
      if r1 == None || r2 == None then None
      else if r1.value.res.Fail? then r2
      else if r2.value.res.Fail? then r1
      else Some(Out(Fail, r2.value.s))
    case Indirect(q) => Direct(g, n, q, s)
    case AttrBool(q, pred) =>
      var r := Direct(g, n, q, s);
      if r.Some? && r.value.res.Ok? && !(r.value.res.ast.Some? && pred(r.value.res.ast)) then Some(Out(Fail, r.value.s)) else r
    case Action(q, action) =>
      var r := Direct(g, n, q, s);
      if r.Some? && r.value.res.Ok? then Some(Out(Ok(action(r.value.res.ast)), r.value.s)) else r
    case WithEndianness(order, q) =>
      var diff := OrderXor(s.order, order);
      if diff == Order(false, false) then Direct(g, n, q, s)
      else
        var r := Direct(g, n, q, Reorder(s, diff));
        if r == None then None else Some(Out(r.value.res, Reorder(r.value.s, diff)))
    case Permutation(ps) =>
      var r := PermTail(g, n, ps, 0, seq(|ps|, _ => true), seq(|ps|, _ => None), s);
      if r == None then None
      else Some(Out(if r.value.ok then Ok(Tok(TtSequence(r.value.elems))) else Fail, r.value.s))
  }

  /** All of them, one after the other; values that are missing leave no trace. */
  function InSequence(g: seq<Parser>, n: nat, ps: seq<nat>, acc: seq<Option<Token>>, s: Input): Option<Out>
    decreases n, 2, |ps|
  {
    if ps == [] then Some(Out(Ok(Tok(TtSequence(acc))), s))
    else
      var r := Direct(g, n, ps[0], s);
      if r == None || r.value.res.Fail? then r
      else InSequence(g, n, ps[1..], Appended(acc, r.value.res.ast), r.value.s)
  }

  /** The first that succeeds from `backup` on; the stream of the last failure otherwise. */
  function FirstOf(g: seq<Parser>, n: nat, ps: seq<nat>, backup: Input, s: Input): Option<Out>
    decreases n, 2, |ps|
  {
    if ps == [] then Some(Out(Fail, s))
    else
      var r := Direct(g, n, ps[0], backup);
      if r == None || r.value.res.Ok? then r else FirstOf(g, n, ps[1..], backup, r.value.s)
  }

  /** One after the other, keeping the result of number `which`. */
  function Picked(g: seq<Parser>, n: nat, ps: seq<nat>, which: nat, res: Res, s: Input): Option<Out>
    decreases n, 2, |ps|
  {
    if ps == [] then Some(Out(res, s))
    else
      var r := Direct(g, n, ps[0], s);
      if r == None || r.value.res.Fail? then r
      else Picked(g, n, ps[1..], if which == 0 then |ps| else which - 1, if which == 0 then r.value.res else res, r.value.s)
  }

  /** From the `done`-th element on: at least `count` of them, and more if `minP` is set. */
  function Repeat(g: seq<Parser>, n: nat, p: nat, sep: Option<nat>, count: nat, minP: bool, done: nat, acc: seq<Option<Token>>, s: Input): Option<Out>
    decreases n, 2, 0
  {
    if n == 0 then None
    else if !minP && count <= done then Some(Out(Ok(Tok(TtSequence(acc))), s))
    else
      var stop := Out(if done >= count then Ok(Tok(TtSequence(acc))) else Fail, s);
      var r0 := if done > 0 && sep.Some? then Direct(g, n, sep.value, s) else Some(Out(Ok(None), s));
      if r0 == None then None
      else if r0.value.res.Fail? then Some(stop)
      else
        var r := Direct(g, n, p, r0.value.s);
        if r == None then None
        else if r.value.res.Fail? then Some(stop)
        else Repeat(g, n - 1, p, sep, count, minP, done + 1, Appended(acc, r.value.res.ast), r.value.s)
  }

  // ----- permutations

  datatype PermOut = PermOut(ok: bool, active: seq<bool>, elems: seq<Option<Token>>, s: Input)

  /** Every parser still active has left an empty optional. */
  predicate AllNone(active: seq<bool>, elems: seq<Option<Token>>)
    requires |active| == |elems|
  {
    forall i :: 0 <= i < |active| && active[i] ==> IsNone(elems[i])
  }

  /** `parse_permutation_tail`. */
  function PermTail(g: seq<Parser>, n: nat, ps: seq<nat>, k: nat, active: seq<bool>, elems: seq<Option<Token>>, s: Input): (r: Option<PermOut>)
    requires |active| == |elems| == |ps|
    ensures r.Some? ==> |r.value.active| == |r.value.elems| == |ps|
    decreases n, 2, if k < |ps| then |ps| - k else 0, |ps| + 1
  {
    if k >= |ps| then Some(PermOut(true, active, elems, s)) else PermTry(g, n, ps, k, 0, active, elems, s)
  }

  /** Try parser `i` and those behind it as the first of the tail; `bak` is where the tail begins. */
  function PermTry(g: seq<Parser>, n: nat, ps: seq<nat>, k: nat, i: nat, active: seq<bool>, elems: seq<Option<Token>>, bak: Input): (r: Option<PermOut>)
    requires |active| == |elems| == |ps| && k < |ps| && i <= |ps|
    ensures r.Some? ==> |r.value.active| == |r.value.elems| == |ps|
    decreases n, 2, |ps| - k, |ps| - i
  {
    if i == |ps| then Some(PermOut(AllNone(active, elems), active, elems, bak))
    else if !active[i] then PermTry(g, n, ps, k, i + 1, active, elems, bak)
    else
      var r := Direct(g, n, ps[i], bak);
      if r == None then None
      else
        var elems' := if r.value.res.Ok? then elems[i := r.value.res.ast] else elems;
        if r.value.res.Fail? || IsNone(r.value.res.ast) then PermTry(g, n, ps, k, i + 1, active, elems', bak)
        else
          var t := PermTail(g, n, ps, k + 1, active[i := false], elems', r.value.s);
          if t == None || t.value.ok then t
          else PermTry(g, n, ps, k, i + 1, t.value.active[i := true], t.value.elems, bak)
  }

  // ----- one step of the loops

  lemma RepeatStep(g: seq<Parser>, n: nat, p: Parser, done: nat, acc: seq<Option<Token>>, s: Input)
    requires p.Many?
    ensures Repeat(g, n, p.p, p.sep, p.count, p.minP, done, acc, s) ==
      if n == 0 then None
      else if !p.minP && p.count <= done then Some(Out(Ok(Tok(TtSequence(acc))), s))
      else
        var stop := Some(Out(if done >= p.count then Ok(Tok(TtSequence(acc))) else Fail, s));
        var r0 := if done > 0 && p.sep.Some? then Direct(g, n, p.sep.value, s) else Some(Out(Ok(None), s));
        if r0 == None then None
        else if r0.value.res.Fail? then stop
        else
          var r := Direct(g, n, p.p, r0.value.s);
          if r == None then None
          else if r.value.res.Fail? then stop
          else Repeat(g, n - 1, p.p, p.sep, p.count, p.minP, done + 1, Appended(acc, r.value.res.ast), r.value.s)
  {
    hide Direct;
  }

  lemma PermTailIs(g: seq<Parser>, n: nat, ps: seq<nat>, k: nat, active: seq<bool>, elems: seq<Option<Token>>, s: Input)
    requires |active| == |elems| == |ps|
    ensures PermTail(g, n, ps, k, active, elems, s) ==
      if k >= |ps| then Some(PermOut(true, active, elems, s)) else PermTry(g, n, ps, k, 0, active, elems, s)
  {
    hide PermTry;
  }

  lemma PermTryIs(g: seq<Parser>, n: nat, ps: seq<nat>, k: nat, i: nat, active: seq<bool>, elems: seq<Option<Token>>, bak: Input)
    requires |active| == |elems| == |ps| && k < |ps| && i <= |ps|
    ensures PermTry(g, n, ps, k, i, active, elems, bak) ==
      if i == |ps| then Some(PermOut(AllNone(active, elems), active, elems, bak))
      else if !active[i] then PermTry(g, n, ps, k, i + 1, active, elems, bak)
      else
        var r := Direct(g, n, ps[i], bak);
        if r == None then None
        else
          var elems' := if r.value.res.Ok? then elems[i := r.value.res.ast] else elems;
          if r.value.res.Fail? || IsNone(r.value.res.ast) then PermTry(g, n, ps, k, i + 1, active, elems', bak)
          else
            var t := PermTail(g, n, ps, k + 1, active[i := false], elems', r.value.s);
            if t == None || t.value.ok then t
            else PermTry(g, n, ps, k, i + 1, t.value.active[i := true], t.value.elems, bak)
  {
    hide Direct, PermTail;
  }

  // ----- a larger bound changes nothing

  lemma {:induction false} DirectMore(g: seq<Parser>, n: nat, id: nat, s: Input)
    requires Direct(g, n, id, s).Some?
    ensures Direct(g, n + 1, id, s) == Direct(g, n, id, s)
    decreases n, 0
  {
    hide Raw;
    RawMore(g, n - 1, g[id], s);
  }

  lemma {:induction false} RawMore(g: seq<Parser>, n: nat, p: Parser, s: Input)
    requires Raw(g, n, p, s).Some?
    ensures Raw(g, n + 1, p, s) == Raw(g, n, p, s)
    decreases n, 3
  {
    hide Direct, NextByte, Next, TokenFrom, SkipSpace, Reorder;
    match p
    case Sequence(ps) => SequenceMore(g, n, ps, [], s);
    case Choice(ps) => FirstOfMore(g, n, ps, s, s);
    case Many(q, sep, count, minP) => RepeatMore(g, n, q, sep, count, minP, 0, [], s);
    case IgnoreSeq(ps, which) => PickedMore(g, n, ps, which, Fail, s);
    case Permutation(ps) => PermTailMore(g, n, ps, 0, seq(|ps|, _ => true), seq(|ps|, _ => None), s);
    case Optional(q) => DirectMore(g, n, q, s);
    case Whitespace(q) => DirectMore(g, n, q, SkipSpace(s));
    case Ignore(q) => DirectMore(g, n, q, s);
    case And(q) => DirectMore(g, n, q, s);
    case Not(q) => DirectMore(g, n, q, s);
    case Xor(q1, q2) => DirectMore(g, n, q1, s); DirectMore(g, n, q2, s);
    case Indirect(q) => DirectMore(g, n, q, s);
    case AttrBool(q, _) => DirectMore(g, n, q, s);
    case Action(q, _) => DirectMore(g, n, q, s);
    case WithEndianness(order, q) =>
      var diff := OrderXor(s.order, order);
      DirectMore(g, n, q, if diff == Order(false, false) then s else Reorder(s, diff));
    case _ =>
  }

  lemma {:induction false} SequenceMore(g: seq<Parser>, n: nat, ps: seq<nat>, acc: seq<Option<Token>>, s: Input)
    requires InSequence(g, n, ps, acc, s).Some?
    ensures InSequence(g, n + 1, ps, acc, s) == InSequence(g, n, ps, acc, s)
    decreases n, 2, |ps|
  {
    hide Direct;
    if ps != [] {
      DirectMore(g, n, ps[0], s);
      var r := Direct(g, n, ps[0], s).value;
      if r.res.Ok? {
        SequenceMore(g, n, ps[1..], Appended(acc, r.res.ast), r.s);
      }
    }
  }

  lemma {:induction false} FirstOfMore(g: seq<Parser>, n: nat, ps: seq<nat>, backup: Input, s: Input)
    requires FirstOf(g, n, ps, backup, s).Some?
    ensures FirstOf(g, n + 1, ps, backup, s) == FirstOf(g, n, ps, backup, s)
    decreases n, 2, |ps|
  {
    hide Direct;
    if ps != [] {
      DirectMore(g, n, ps[0], backup);
      var r := Direct(g, n, ps[0], backup).value;
      if r.res.Fail? {
        FirstOfMore(g, n, ps[1..], backup, r.s);
      }
    }
  }

  lemma {:induction false} PickedMore(g: seq<Parser>, n: nat, ps: seq<nat>, which: nat, res: Res, s: Input)
    requires Picked(g, n, ps, which, res, s).Some?
    ensures Picked(g, n + 1, ps, which, res, s) == Picked(g, n, ps, which, res, s)
    decreases n, 2, |ps|
  {
    hide Direct;
    if ps != [] {
      DirectMore(g, n, ps[0], s);
      var r := Direct(g, n, ps[0], s).value;
      if r.res.Ok? {
        PickedMore(g, n, ps[1..], if which == 0 then |ps| else which - 1, if which == 0 then r.res else res, r.s);
      }
    }
  }

  lemma {:induction false} RepeatMore(g: seq<Parser>, n: nat, p: nat, sep: Option<nat>, count: nat, minP: bool, done: nat, acc: seq<Option<Token>>, s: Input)
    requires Repeat(g, n, p, sep, count, minP, done, acc, s).Some?
    ensures Repeat(g, n + 1, p, sep, count, minP, done, acc, s) == Repeat(g, n, p, sep, count, minP, done, acc, s)
    decreases n, 2, 0
  {
    hide Direct;
    if minP || count > done {
      if done > 0 && sep.Some? {
        DirectMore(g, n, sep.value, s);
      }
      var r0 := if done > 0 && sep.Some? then Direct(g, n, sep.value, s) else Some(Out(Ok(None), s));
      if r0.value.res.Ok? {
        DirectMore(g, n, p, r0.value.s);
        var r := Direct(g, n, p, r0.value.s).value;
        if r.res.Ok? {
          RepeatMore(g, n - 1, p, sep, count, minP, done + 1, Appended(acc, r.res.ast), r.s);
        }
      }
    }
  }

  lemma {:induction false} PermTailMore(g: seq<Parser>, n: nat, ps: seq<nat>, k: nat, active: seq<bool>, elems: seq<Option<Token>>, s: Input)
    requires |active| == |elems| == |ps| && PermTail(g, n, ps, k, active, elems, s).Some?
    ensures PermTail(g, n + 1, ps, k, active, elems, s) == PermTail(g, n, ps, k, active, elems, s)
    decreases n, 2, if k < |ps| then |ps| - k else 0, |ps| + 1
  {
    if k < |ps| {
      PermTryMore(g, n, ps, k, 0, active, elems, s);
    }
  }

  lemma {:induction false} PermTryMore(g: seq<Parser>, n: nat, ps: seq<nat>, k: nat, i: nat, active: seq<bool>, elems: seq<Option<Token>>, bak: Input)
    requires |active| == |elems| == |ps| && k < |ps| && i <= |ps| && PermTry(g, n, ps, k, i, active, elems, bak).Some?
    ensures PermTry(g, n + 1, ps, k, i, active, elems, bak) == PermTry(g, n, ps, k, i, active, elems, bak)
    decreases n, 2, |ps| - k, |ps| - i
  {
    hide Direct, PermTail;
    if i < |ps| {
      if !active[i] {
        PermTryMore(g, n, ps, k, i + 1, active, elems, bak);
      } else {
        DirectMore(g, n, ps[i], bak);
        var r := Direct(g, n, ps[i], bak).value;
        var elems' := if r.res.Ok? then elems[i := r.res.ast] else elems;
        if r.res.Fail? || IsNone(r.res.ast) {
          PermTryMore(g, n, ps, k, i + 1, active, elems', bak);
        } else {
          PermTailMore(g, n, ps, k + 1, active[i := false], elems', r.s);
          var t := PermTail(g, n, ps, k + 1, active[i := false], elems', r.s).value;
          if !t.ok {
            PermTryMore(g, n, ps, k, i + 1, t.active[i := true], t.elems, bak);
          }
        }
      }
    }
  }

  lemma {:induction false} DirectStable(g: seq<Parser>, m: nat, n: nat, id: nat, s: Input)
    requires m <= n && Direct(g, m, id, s).Some?
    ensures Direct(g, n, id, s) == Direct(g, m, id, s)
    decreases n
  {
    hide Direct;
    if m < n {
      DirectStable(g, m, n - 1, id, s);
      DirectMore(g, n - 1, id, s);
    }
  }

  /** The result does not depend on the bound. */
  lemma DirectUnique(g: seq<Parser>, m: nat, n: nat, id: nat, s: Input)
    requires Direct(g, m, id, s).Some? && Direct(g, n, id, s).Some?
    ensures Direct(g, m, id, s) == Direct(g, n, id, s)
  {
    hide Direct;
    if m <= n {
      DirectStable(g, m, n, id, s);
    } else {
      DirectStable(g, n, m, id, s);
    }
  }
}
