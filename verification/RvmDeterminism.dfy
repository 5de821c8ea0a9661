/** Combinators for which one byte of lookahead tells where a match goes on.  For these the simulation never has more
    than one instruction waiting, so that the iteration macro misses nothing. */
module RvmDeterminism {
  import opened Basics
  import opened RegularLanguage
  import opened RvmCode
  import opened Svm
  import opened RvmPaths
  import opened RvmThreads
  import opened RvmCoverage
  import opened RvmLabels

  // ----- what a combinator can do in front of a byte

  /** What matches of `p` can do when the byte `b` comes next in the input: begin with it, be empty, or be complete and
      go on with it all the same. */
  function RoleOf(p: Parser, b: byte): Role
    decreases p, 1
  {
    match p
    case Ch(c) => Role(b == c, false, false)
    case Charset(chars) => Role(b in chars, false, false)
    case Literal(str) => if str == [] then EmptyRole() else Role(b == str[0], false, false)
    case Sequence(ps) => SequenceRole(ps, |ps|, b)
    case Choice(ps) => ChoiceRole(ps, 0, b)
    case Many(q, sep, atLeastOne) =>
      var loop := LoopRole(RoleOf(q, b), if sep.Some? then RoleOf(sep.value, b) else EmptyRole());
      if atLeastOne then loop else OptionalRole(loop)
    case RepeatN(q, n) => RepeatRole(RoleOf(q, b), n)
    case Optional(q) => OptionalRole(RoleOf(q, b))
    case Whitespace(q) => WhiteRole(b, RoleOf(q, b))
    case Epsilon => EmptyRole()
    case End => Role(false, false, false)
    case Nothing => Role(false, false, false)
  }

  /** The first `k` parsers one after the other. */
  function SequenceRole(ps: seq<Parser>, k: nat, b: byte): Role
    requires k <= |ps|
    decreases ps, 0, k
  {
    if k == 0 then EmptyRole() else ThenRole(SequenceRole(ps, k - 1, b), RoleOf(ps[k - 1], b))
  }

  /** The alternatives from the `k`-th on. */
  function ChoiceRole(ps: seq<Parser>, k: nat, b: byte): Role
    requires k <= |ps|
    decreases ps, 0, |ps| - k
  {
    if k == |ps| then Role(false, false, false) else EitherRole(RoleOf(ps[k], b), ChoiceRole(ps, k + 1, b))
  }

  function RepeatRole(x: Role, n: nat): Role {
    if n == 0 then EmptyRole() else ThenRole(RepeatRole(x, n - 1), x)
  }

  /** In front of the byte `b` there is never a choice: alternatives do not both begin with it, and no part goes on
      with it if what follows the part begins with it. */
  predicate Clear(p: Parser, b: byte)
    decreases p
  {
    match p
    case Sequence(ps) =>
      forall k: nat :: k < |ps| ==> Clear(ps[k], b) && !(SequenceRole(ps, k, b).goesOn && RoleOf(ps[k], b).begins)
    case Choice(ps) =>
      forall k: nat :: k < |ps| ==> Clear(ps[k], b) && !(RoleOf(ps[k], b).begins && ChoiceRole(ps, k + 1, b).begins)
    case Many(q, sep, _) =>
      && Clear(q, b) && (sep.Some? ==> Clear(sep.value, b))
      && var x, y := RoleOf(q, b), if sep.Some? then RoleOf(sep.value, b) else EmptyRole();
      && !(x.goesOn && Again(x, y)) && !(y.goesOn && x.begins) && !(x.skips && y.goesOn && Again(x, y))
    case RepeatN(q, n) => Clear(q, b) && (n > 1 ==> !(RoleOf(q, b).goesOn && RoleOf(q, b).begins))
    case Optional(q) => Clear(q, b)
    case Whitespace(q) => Clear(q, b) && !(IsSpace(b) && RoleOf(q, b).begins)
    case _ => true
  }

  /** One byte of lookahead tells where every match goes on. */
  predicate Deterministic(p: Parser) {
    forall b: byte :: Clear(p, b)
  }

  // ----- the code of such a combinator is a piece

  lemma {:induction false} PieceOf(code: Code, p: Parser, lo: nat, b: byte) returns (l: Label)
    requires CodeFor(code, p, lo) && Clear(p, b)
    ensures Piece(code, b, l, lo, lo + Len(p), RoleOf(p, b))
    decreases p, 2
  {
    hide ChCode, CharsetCode, LiteralCode, SequenceCode, ChoiceCode, ManyCode, RepeatCode, OptionalCode, WhitespaceCode;
    hide Piece, LenUpto, Rep, Runs, RangeArg, RangeLow, RangeHigh;
    match p
    case Ch(c) => l := ChPiece(code, c, lo, b);
    case Charset(chars) => l := CharsetPiece(code, chars, lo, b);
    case Literal(str) => l := LiteralPiece(code, str, lo, b);
    case Sequence(ps) => l := SequencePiece(code, ps, lo, b);
    case Choice(ps) => l := ChoicePiece(code, ps, lo, b);
    case Many(_, _, _) => l := ManyPiece(code, p, lo, b);
    case RepeatN(_, _) => l := RepeatPiece(code, p, lo, b);
    case Optional(_) => l := OptionalOfPiece(code, p, lo, b);
    case Whitespace(_) => l := WhitespacePiece(code, p, lo, b);
    case Epsilon => l := EmptyPiece(code, b, lo);
    case End => l := EofPiece(code, b, lo);
    case Nothing => l := NothingPiece(code, lo, b);
  }

  /** A mark in front of a piece and an action behind it change nothing. */
  lemma Framed(code: Code, b: byte, lo: nat, m: Label, hi: nat, x: Role) returns (l: Label)
    requires lo < |code.insns| && code.insns[lo].op == PUSH && Piece(code, b, m, lo + 1, hi, x)
    requires hi < |code.insns| && (code.insns[hi].op == ACTION || code.insns[hi].op == CAPTURE)
    ensures Piece(code, b, l, lo, hi + 1, x)
  {
    hide Piece;
    var push := PassPiece(code, b, lo);
    var last := PassPiece(code, b, hi);
    l := ThenPiece(code, b, push, lo, lo + 1, EmptyRole(), m, hi, x);
    l := ThenPiece(code, b, l, lo, hi, x, last, hi + 1, EmptyRole());
  }

  lemma NothingPiece(code: Code, lo: nat, b: byte) returns (l: Label)
    requires CodeFor(code, Nothing, lo)
    ensures Piece(code, b, l, lo, lo + 2, Role(false, false, false))
  {
    hide Piece, RangeLow, RangeHigh, RangeArg;
    var first := MatchPiece(code, b, lo, b == 0);
    var second := MatchPiece(code, b, lo + 1, b == 255);
    l := ThenPiece(code, b, first, lo, lo + 1, Role(false, b == 0, false), second, lo + 2, Role(false, b == 255, false));
  }

  lemma ChPiece(code: Code, c: byte, lo: nat, b: byte) returns (l: Label)
    requires ChCode(code, c, lo)
    ensures Piece(code, b, l, lo, lo + 5, Role(b == c, false, false))
  {
    hide Piece, RangeLow, RangeHigh, RangeArg;
    l := BytePiece(code, c, lo + 1, b);
    var capture := PassPiece(code, b, lo + 3);
    l := ThenPiece(code, b, l, lo + 1, lo + 3, Role(b == c, false, false), capture, lo + 4, EmptyRole());
    l := Framed(code, b, lo, l, lo + 4, Role(b == c, false, false));
  }

  /** A test for one byte and the STEP over it. */
  lemma BytePiece(code: Code, c: byte, at: nat, b: byte) returns (l: Label)
    requires LiteralByte(code, c, at)
    ensures Piece(code, b, l, at, at + 2, Role(b == c, false, false))
  {
    hide Piece, RangeLow, RangeHigh, RangeArg;
    var test := MatchPiece(code, b, at, b == c);
    var step := StepPiece(code, b, at + 1);
    l := ThenPiece(code, b, test, at, at + 1, Role(false, b == c, false), step, at + 2, Role(true, false, false));
  }

  lemma LiteralPiece(code: Code, str: seq<byte>, lo: nat, b: byte) returns (l: Label)
    requires LiteralCode(code, str, lo)
    ensures Piece(code, b, l, lo, lo + 2 * |str| + 2, RoleOf(Literal(str), b))
  {
    hide Piece, RangeLow, RangeHigh, RangeArg;
    l := EmptyPiece(code, b, lo + 1);
    var k := 0;
    while k < |str|
      invariant k <= |str|
      invariant Piece(code, b, l, lo + 1, lo + 1 + 2 * k, if k == 0 then EmptyRole() else Role(b == str[0], false, false))
    {
      var next := BytePiece(code, str[k], lo + 1 + 2 * k, b);
      l := ThenPiece(code, b, l, lo + 1, lo + 1 + 2 * k, if k == 0 then EmptyRole() else Role(b == str[0], false, false),
                     next, lo + 3 + 2 * k, Role(b == str[k], false, false));
      k := k + 1;
    }
    l := Framed(code, b, lo, l, lo + 1 + 2 * |str|, RoleOf(Literal(str), b));
  }

  lemma CharsetPiece(code: Code, chars: set<byte>, lo: nat, b: byte) returns (l: Label)
    requires CharsetCode(code, chars, lo)
    ensures Piece(code, b, l, lo, lo + Len(Charset(chars)), Role(b in chars, false, false))
  {
    hide Piece, RangeLow, RangeHigh, RangeArg, CharsetCode;
    var jump := lo + 3 * |Runs(chars, 257)| + 2;
    l := RunsPiece(code, chars, 0, lo, b);
    assert At(code, jump, STEP, 0) && At(code, jump + 1, CAPTURE, 0) && ActAt(code, jump + 2, CharsetAction(chars))
        && At(code, lo, PUSH, 0) by {
      CharsetFacts(code, chars, lo);
    }
    var step := StepPiece(code, b, jump);
    l := ThenPiece(code, b, l, lo + 1, jump, Role(false, b in chars, false), step, jump + 1, Role(true, false, false));
    var capture := PassPiece(code, b, jump + 1);
    l := ThenPiece(code, b, l, lo + 1, jump + 1, Role(b in chars, false, false), capture, jump + 2, EmptyRole());
    l := Framed(code, b, lo, l, jump + 2, Role(b in chars, false, false));
  }

  lemma CharsetFacts(code: Code, chars: set<byte>, lo: nat)
    requires CharsetCode(code, chars, lo)
    ensures var jump := lo + 3 * |Runs(chars, 257)| + 2;
      && At(code, lo, PUSH, 0) && At(code, jump - 1, MATCH, RangeArg(255, 0)) && At(code, jump, STEP, 0)
      && At(code, jump + 1, CAPTURE, 0) && ActAt(code, jump + 2, CharsetAction(chars))
      && forall k: nat :: k < |Runs(chars, 257)| ==> CharsetRun(code, Runs(chars, 257)[k], lo + 1 + 3 * k, jump)
  {
    hide Runs, RangeArg;
  }

  /** The range tests from the `k`-th on let only members of the set pass. */
  lemma {:induction false} RunsPiece(code: Code, chars: set<byte>, k: nat, lo: nat, b: byte) returns (l: Label)
    requires CharsetCode(code, chars, lo) && k <= |Runs(chars, 257)|
    ensures Piece(code, b, l, lo + 1 + 3 * k, lo + 3 * |Runs(chars, 257)| + 2, Role(false, b in chars, false))
    decreases |Runs(chars, 257)| - k
  {
    hide Piece, RangeLow, RangeHigh, RangeArg, CharsetCode, Runs;
    CharsetFacts(code, chars, lo);
    var rs := Runs(chars, 257);
    var at, jump := lo + 1 + 3 * k, lo + 3 * |rs| + 2;
    if k == |rs| {
      l := MatchPiece(code, b, at, b in chars);
    } else {
      assert CharsetRun(code, rs[k], at, jump);
      var test := MatchPiece(code, b, at + 1, b in chars);
      l := RunsPiece(code, chars, k + 1, lo, b);
      l := EitherPiece(code, b, at, test, at + 2, Role(false, b in chars, false), l, jump, Role(false, b in chars, false));
    }
  }

  lemma {:induction false} SequencePiece(code: Code, ps: seq<Parser>, lo: nat, b: byte) returns (l: Label)
    requires SequenceCode(code, ps, lo) && Clear(Sequence(ps), b)
    ensures Piece(code, b, l, lo, lo + LenUpto(ps, |ps|) + 2, SequenceRole(ps, |ps|, b))
    decreases ps, 1
  {
    hide Piece, CodeFor, Len, LenUpto, RoleOf, SequenceRole;
    l := PrefixPiece(code, ps, |ps|, lo, b);
    l := Framed(code, b, lo, l, lo + 1 + LenUpto(ps, |ps|), SequenceRole(ps, |ps|, b));
  }

  lemma PartFacts(code: Code, ps: seq<Parser>, k: nat, lo: nat, b: byte)
    requires SequenceCode(code, ps, lo) && Clear(Sequence(ps), b) && k < |ps|
    ensures CodeFor(code, ps[k], lo + 1 + LenUpto(ps, k)) && Clear(ps[k], b)
    ensures !(SequenceRole(ps, k, b).goesOn && RoleOf(ps[k], b).begins)
  {
    hide CodeFor, Len, LenUpto, RoleOf, SequenceRole;
  }

  lemma {:induction false} PrefixPiece(code: Code, ps: seq<Parser>, k: nat, lo: nat, b: byte) returns (l: Label)
    requires SequenceCode(code, ps, lo) && Clear(Sequence(ps), b) && k <= |ps|
    ensures Piece(code, b, l, lo + 1, lo + 1 + LenUpto(ps, k), SequenceRole(ps, k, b))
    decreases ps, 0, k
  {
    hide Piece, CodeFor, Len, RoleOf, SequenceCode, Clear;
    if k == 0 {
      l := EmptyPiece(code, b, lo + 1);
    } else {
      var at := lo + 1 + LenUpto(ps, k - 1);
      PartFacts(code, ps, k - 1, lo, b);
      l := PrefixPiece(code, ps, k - 1, lo, b);
      var next := PieceOf(code, ps[k - 1], at, b);
      l := ThenPiece(code, b, l, lo + 1, at, SequenceRole(ps, k - 1, b), next, at + Len(ps[k - 1]), RoleOf(ps[k - 1], b));
    }
  }

  lemma {:induction false} ChoicePiece(code: Code, ps: seq<Parser>, lo: nat, b: byte) returns (l: Label)
    requires ChoiceCode(code, ps, lo) && Clear(Choice(ps), b)
    ensures Piece(code, b, l, lo, lo + LenUpto(ps, |ps|) + 2 * |ps| + 1, ChoiceRole(ps, 0, b))
    decreases ps, 1
  {
    hide Piece, CodeFor, Len, LenUpto, ChoiceRole;
    l := AlternativesPiece(code, ps, 0, lo, b);
    LenUptoZero(ps);
  }

  /** The alternatives from the `k`-th on, and behind them a test that no byte passes. */
  lemma {:induction false} AlternativesPiece(code: Code, ps: seq<Parser>, k: nat, lo: nat, b: byte) returns (l: Label)
    requires ChoiceCode(code, ps, lo) && Clear(Choice(ps), b) && k <= |ps|
    ensures Piece(code, b, l, AltStart(ps, k, lo), AltStart(ps, |ps|, lo) + 1, ChoiceRole(ps, k, b))
    decreases ps, 0, |ps| - k
  {
    hide Piece, CodeFor, Len, LenUpto, RoleOf, RangeLow, RangeHigh, RangeArg;
    var at, jump := AltStart(ps, k, lo), AltStart(ps, |ps|, lo) + 1;
    if k == |ps| {
      l := MatchPiece(code, b, at, false);
    } else {
      LenUptoStep(ps, k);
      assert Clear(ps[k], b) && CodeFor(code, ps[k], at + 1) && AltFrame(code, ps, k, lo, jump);
      var first := PieceOf(code, ps[k], at + 1, b);
      l := AlternativesPiece(code, ps, k + 1, lo, b);
      l := EitherPiece(code, b, at, first, at + 1 + Len(ps[k]), RoleOf(ps[k], b), l, jump, ChoiceRole(ps, k + 1, b));
    }
  }

  lemma {:induction false} ManyPiece(code: Code, p: Parser, lo: nat, b: byte) returns (l: Label)
    requires p.Many? && ManyCode(code, p, lo) && Clear(p, b)
    ensures Piece(code, b, l, lo, lo + Len(p), RoleOf(p, b))
    decreases p, 1
  {
    hide Piece, CodeFor;
    var next, mid, end := ManyNext(p, lo), ManyMid(p, lo), ManyEnd(p, lo) - 1;
    var x, y := RoleOf(p.p, b), if p.sep.Some? then RoleOf(p.sep.value, b) else EmptyRole();
    var gap := EmptyPiece(code, b, next);
    if p.sep.Some? {
      gap := PieceOf(code, p.sep.value, next + 1, b);
      gap := Framed(code, b, next, gap, mid - 1, y);
    }
    var element := PieceOf(code, p.p, mid, b);
    l := LoopPiece(code, b, next, gap, mid, y, element, end, x);
    if !p.atLeastOne {
      l := OptionalPiece(code, b, lo + 1, l, end + 1, LoopRole(x, y));
    }
    l := Framed(code, b, lo, l, end + 1, RoleOf(p, b));
  }

  lemma {:induction false} RepeatPiece(code: Code, p: Parser, lo: nat, b: byte) returns (l: Label)
    requires p.RepeatN? && RepeatCode(code, p, lo) && Clear(p, b)
    ensures Piece(code, b, l, lo, lo + Len(p), RoleOf(p, b))
    decreases p, 1
  {
    hide Piece, CodeFor;
    l := EmptyPiece(code, b, lo + 1);
    var k, size, x := 0, Len(p.p), RoleOf(p.p, b);
    while k < p.n
      invariant k <= p.n && Piece(code, b, l, lo + 1, lo + 1 + Rep(k, size), RepeatRole(x, k))
    {
      RepeatGoesOn(x, k);
      var next := PieceOf(code, p.p, lo + 1 + Rep(k, size), b);
      l := ThenPiece(code, b, l, lo + 1, lo + 1 + Rep(k, size), RepeatRole(x, k), next, lo + 1 + Rep(k + 1, size), x);
      k := k + 1;
    }
    l := Framed(code, b, lo, l, lo + 1 + Rep(p.n, size), RepeatRole(x, p.n));
  }

  lemma {:induction false} RepeatGoesOn(x: Role, n: nat)
    ensures RepeatRole(x, n).goesOn ==> n > 0 && x.goesOn
  {
    if n > 0 {
      RepeatGoesOn(x, n - 1);
    }
  }

  lemma {:induction false} OptionalOfPiece(code: Code, p: Parser, lo: nat, b: byte) returns (l: Label)
    requires p.Optional? && OptionalCode(code, p, lo) && Clear(p, b)
    ensures Piece(code, b, l, lo, lo + Len(p), RoleOf(p, b))
    decreases p, 1
  {
    hide Piece, CodeFor;
    l := PieceOf(code, p.p, lo + 2, b);
    l := OptionalPiece(code, b, lo + 1, l, lo + 2 + Len(p.p), RoleOf(p.p, b));
    l := Framed(code, b, lo, l, lo + 2 + Len(p.p), RoleOf(p, b));
  }

  lemma {:induction false} WhitespacePiece(code: Code, p: Parser, lo: nat, b: byte) returns (l: Label)
    requires p.Whitespace? && WhitespaceCode(code, p, lo) && Clear(p, b)
    ensures Piece(code, b, l, lo, lo + Len(p), RoleOf(p, b))
    decreases p, 1
  {
    hide Piece, CodeFor, RangeArg;
    l := PieceOf(code, p.p, lo + 8, b);
    l := WhitePiece(code, b, lo, l, lo + 8 + Len(p.p), RoleOf(p.p, b));
  }

  // ----- a single head

  /** A run that stays at an offset leads only to STEPs that the labels tell of. */
  lemma {:induction false} RunLabelled(code: Code, input: seq<byte>, n: nat, h: nat, s: nat, off: nat, es: seq<Event>, l: Label, hi: nat)
    requires off < |input| && Tame(code, input[off], l, 0, hi) && At(code, hi, ACCEPT, 0)
    requires h <= hi && s < |code.insns| && code.insns[s].op == STEP && Reach(code, input, n, Conf(h, off), Conf(s, off), es)
    ensures (h, s) in l.may
    decreases n
  {
    hide Emits, Succs, RangeLow, RangeHigh;
    if n == 0 {
      assert h == s;
      assert Local(code, input[off], l, 0, hi, h);
    } else {
      var k, rest := FirstTurn(code, input, n, Conf(h, off), Conf(s, off), es);
      OnlyStepMoves(code, input, Conf(h, off), k);
      OffsetsGrow(code, input, n - 1, Succs(code, input, Conf(h, off))[k], Conf(s, off), rest);
      NextSuccs(code, input, Conf(h, off));
      var next := Next(code, input[off], h)[k];
      assert Local(code, input[off], l, 0, hi, h);
      RunLabelled(code, input, n - 1, next, s, off, rest, l, hi);
    }
  }

  lemma NextSuccs(code: Code, input: seq<byte>, c: Conf)
    requires c.ip < |code.insns| && code.insns[c.ip].op != STEP && c.off < |input|
    ensures var next := Next(code, input[c.off], c.ip);
      |next| == |Succs(code, input, c)| && forall k :: 0 <= k < |next| ==> Succs(code, input, c)[k] == Conf(next[k], c.off)
  {
    hide RangeLow, RangeHigh;
  }

  lemma {:induction false} OneHead(code: Code, p: Parser, input: seq<byte>, off: nat, g: nat, h: nat)
    requires CodeFor(code, p, 0) && |code.insns| == Len(p) + 1 && At(code, Len(p), ACCEPT, 0) && Deterministic(p)
    requires IsHead(code, input, off, g) && IsHead(code, input, off, h)
    ensures g == h
    decreases off
  {
    hide CodeFor, Len, Clear, Reach, Tame, RoleOf;
    if off > 0 {
      var x, m, fs := HeadOnTheWay(code, input, Conf(g - 1, off - 1));
      var y, n, es := HeadOnTheWay(code, input, Conf(h - 1, off - 1));
      OneHead(code, p, input, off - 1, x, y);
      var b := input[off - 1];
      var l := PieceOf(code, p, 0, b);
      RunLabelled(code, input, m, x, g - 1, off - 1, fs, l, Len(p));
      RunLabelled(code, input, n, x, h - 1, off - 1, es, l, Len(p));
      assert Entry(code, 0, Len(p), x);
    }
  }

  /** On the program of a deterministic combinator, never more than one instruction waits. */
  lemma DeterministicSingle(code: Code, p: Parser, input: seq<byte>)
    requires CodeFor(code, p, 0) && |code.insns| == Len(p) + 1 && At(code, Len(p), ACCEPT, 0) && Deterministic(p)
    ensures SingleHead(code, input)
  {
    hide CodeFor, Len, Clear, IsHead;
    forall off: nat, g: nat, h: nat | IsHead(code, input, off, g) && IsHead(code, input, off, h) ensures g == h {
      OneHead(code, p, input, off, g, h);
    }
  }
}
