/** Every match of a combinator is a run through its code, and the recorded trace pushes that match's token. */
module RegexCompleteness {
  import opened Basics
  import opened RegularLanguage
  import opened RvmCode
  import opened Svm
  import opened RvmPaths

  /** A run of `n` steps through the code of a combinator. */
  ghost predicate Traverses(code: Code, lo: nat, hi: nat, input: seq<byte>, i: nat, j: nat, t: Option<Token>, n: nat, es: seq<Event>) {
    && i <= j <= |input|
    && Reach(code, input, n, Conf(lo, i), Conf(hi, j), es)
    && Pushes(code.acts, input, es, Toks(t))
  }

  lemma {:induction false} Complete(code: Code, p: Parser, lo: nat, input: seq<byte>, i: nat, j: nat, t: Option<Token>)
    returns (n: nat, es: seq<Event>)
    requires CodeFor(code, p, lo) && i <= |input| && Denotes(p, input, i, j, t)
    ensures Traverses(code, lo, lo + Len(p), input, i, j, t, n, es)
    decreases p, 2, 0
  {
    hide Reach, Pushes, CharsetCode, LiteralCode, SequenceCode, ChoiceCode, ManyCode, RepeatCode, OptionalCode, WhitespaceCode,
      DenotesSeq, DenotesTimes;
    match p
    case Ch(c) =>
      var f := ReachByteTail(code, lo + 2, input, i);
      StepOver(code, input, Conf(lo + 1, i), 3, Conf(lo + 5, i + 1), f);
      n, es := MarkedByte(code, input, lo, lo + 5, i, 4, f);
    case Charset(chars) => n, es := CompleteCharset(code, chars, lo, input, i);
    case Literal(str) => n, es := CompleteLiteral(code, str, lo, input, i);
    case Sequence(_) => n, es := CompleteSequence(code, p, lo, input, i, j, t);
    case Choice(_) => n, es := CompleteChoice(code, p, lo, input, i, j, t);
    case Many(_, _, _) => n, es := CompleteMany(code, p, lo, input, i, j, t);
    case RepeatN(_, _) => n, es := CompleteRepeat(code, p, lo, input, i, j, t);
    case Optional(_) => n, es := CompleteOptional(code, p, lo, input, i, j, t);
    case Whitespace(q) =>
      var k: nat :| AllSpace(input, i, k) && Denotes(q, input, k, j, t);
      n, es := CompleteWhitespace(code, p, lo, input, i, k, j, t);
    case Epsilon =>
      n, es := ReachNothing(code, input, lo, i);
    case End =>
      n, es := ReachNothing(code, input, lo, i);
      ReachOne(code, input, Conf(lo, i), 0);
      n := 1;
  }

  lemma ReachNothing(code: Code, input: seq<byte>, lo: nat, i: nat) returns (n: nat, es: seq<Event>)
    requires i <= |input|
    ensures n == 0 && es == [] && Traverses(code, lo, lo, input, i, i, None, n, es)
  {
    PushesNothing(code.acts, input);
    n, es := 0, [];
  }

  /** Runs and what they push, end to end. */
  lemma Joined(code: Code, input: seq<byte>, n: nat, a: Conf, b: Conf, es: seq<Event>, ts: seq<Token>,
               m: nat, c: Conf, fs: seq<Event>, us: seq<Token>)
    requires Reach(code, input, n, a, b, es) && Pushes(code.acts, input, es, ts)
    requires Reach(code, input, m, b, c, fs) && Pushes(code.acts, input, fs, us)
    ensures Reach(code, input, n + m, a, c, es + fs) && Pushes(code.acts, input, es + fs, ts + us)
  {
    hide *;
    ReachConcat(code, input, n, a, b, es, m, c, fs);
    PushesConcat(code.acts, input, es, ts, fs, us);
  }

  /** Prefix a run with a silent instruction that has a single successor. */
  lemma StepOver(code: Code, input: seq<byte>, c: Conf, n: nat, d: Conf, es: seq<Event>)
    requires Emits(code, c) == [] && |Succs(code, input, c)| > 0
    requires Reach(code, input, n, Succs(code, input, c)[0], d, es)
    ensures Reach(code, input, n + 1, c, d, es)
  {
    hide *;
    ReachCons(code, input, c, 0, n, d, es);
    assert [] + es == es;
  }

  /** A mark in front of a run and one recording instruction behind it. */
  lemma FramedRun(code: Code, input: seq<byte>, lo: nat, i: nat, n: nat, k: nat, j: nat, es: seq<Event>) returns (last: Event)
    requires At(code, lo, PUSH, 0) && k < |code.insns| && (code.insns[k].op == ACTION || code.insns[k].op == CAPTURE)
    requires Reach(code, input, n, Conf(lo + 1, i), Conf(k, j), es)
    ensures Emits(code, Conf(k, j)) == [last]
    ensures Reach(code, input, n + 2, Conf(lo, i), Conf(k + 1, j), [Event(SVM_PUSH, 0, i)] + es + [last])
  {
    hide Reach;
    last := Emits(code, Conf(k, j))[0];
    ReachCons(code, input, Conf(lo, i), 0, n, Conf(k, j), es);
    ReachSnoc(code, input, n + 1, Conf(lo, i), Conf(k, j), [Event(SVM_PUSH, 0, i)] + es, 0);
  }

  /** STEP, CAPTURE and the value action. */
  lemma ReachByteTail(code: Code, at: nat, input: seq<byte>, i: nat) returns (es: seq<Event>)
    requires At(code, at, STEP, 0) && At(code, at + 1, CAPTURE, 0)
    requires at + 2 < |code.insns| && code.insns[at + 2].op == ACTION && code.insns[at + 2].arg < |code.acts|
    requires var a := code.acts[code.insns[at + 2].arg]; a.ChAction? || a.CharsetAction?
    requires i < |input|
    ensures Reach(code, input, 3, Conf(at, i), Conf(at + 3, i + 1), es)
    ensures Pushes(code.acts, input, [Event(SVM_PUSH, 0, i)] + es, [Token(TtUint(input[i]), i)])
  {
    hide Reach, Replay;
    var last := Event(SVM_ACTION, code.insns[at + 2].arg, i + 1);
    ReachOne(code, input, Conf(at, i), 0);
    ReachSnoc(code, input, 1, Conf(at, i), Conf(at + 1, i + 1), [], 0);
    ReachSnoc(code, input, 2, Conf(at, i), Conf(at + 2, i + 1), [] + [Event(SVM_CAPTURE, 0, i + 1)], 0);
    es := [] + [Event(SVM_CAPTURE, 0, i + 1)] + [last];
    PushesChar(code.acts, input, i, last);
    assert [Event(SVM_PUSH, 0, i)] + es == [Event(SVM_PUSH, 0, i), Event(SVM_CAPTURE, 0, i + 1), last];
  }

  lemma MarkedByte(code: Code, input: seq<byte>, lo: nat, hi: nat, i: nat, m: nat, f: seq<Event>) returns (n: nat, es: seq<Event>)
    requires At(code, lo, PUSH, 0) && i < |input|
    requires Reach(code, input, m, Conf(lo + 1, i), Conf(hi, i + 1), f)
    requires Pushes(code.acts, input, [Event(SVM_PUSH, 0, i)] + f, [Token(TtUint(input[i]), i)])
    ensures Traverses(code, lo, hi, input, i, i + 1, Some(Token(TtUint(input[i]), i)), n, es)
  {
    hide Reach, Pushes;
    ReachCons(code, input, Conf(lo, i), 0, m, Conf(hi, i + 1), f);
    n, es := m + 1, [Event(SVM_PUSH, 0, i)] + f;
  }

  lemma CompleteCharset(code: Code, chars: set<byte>, lo: nat, input: seq<byte>, i: nat) returns (n: nat, es: seq<Event>)
    requires CharsetCode(code, chars, lo) && i < |input| && input[i] in chars
    ensures Traverses(code, lo, lo + Len(Charset(chars)), input, i, i + 1, Some(Token(TtUint(input[i]), i)), n, es)
  {
    hide Reach, Pushes, Runs, RangeLow, RangeHigh, RangeArg;
    RunsCover(chars, input[i]);
    var rs := Runs(chars, 257);
    var k: nat :| k < |rs| && rs[k].0 <= input[i] <= rs[k].1;
    var step := lo + 3 * |rs| + 2;
    var m := ReachRange(code, chars, lo, input, i, 0, k);
    var f := ReachByteTail(code, step, input, i);
    ReachConcat(code, input, m, Conf(lo + 1, i), Conf(step, i), [], 3, Conf(step + 3, i + 1), f);
    assert [] + f == f;
    n, es := MarkedByte(code, input, lo, step + 3, i, m + 3, f);
  }

  /** Skip the range tests before the `k`-th, pass that one, and jump to the STEP. */
  lemma {:induction false} ReachRange(code: Code, chars: set<byte>, lo: nat, input: seq<byte>, i: nat, at: nat, k: nat) returns (m: nat)
    requires CharsetCode(code, chars, lo) && at <= k < |Runs(chars, 257)|
    requires Runs(chars, 257)[k].0 <= Look(input, i) <= Runs(chars, 257)[k].1
    ensures Reach(code, input, m, Conf(lo + 1 + 3 * at, i), Conf(lo + 3 * |Runs(chars, 257)| + 2, i), [])
    decreases k - at
  {
    hide Reach, Runs, RangeLow, RangeHigh, RangeArg;
    var rs := Runs(chars, 257);
    var step := lo + 3 * |rs| + 2;
    var here := Conf(lo + 1 + 3 * at, i);
    assert CharsetRun(code, rs[at], lo + 1 + 3 * at, step);
    if at < k {
      m := ReachRange(code, chars, lo, input, i, at + 1, k);
      ReachCons(code, input, here, 1, m, Conf(step, i), []);
      assert Emits(code, here) + [] == [];
      m := m + 1;
    } else {
      ReachOne(code, input, Conf(here.ip + 2, i), 0);
      StepOver(code, input, Conf(here.ip + 1, i), 1, Conf(step, i), []);
      StepOver(code, input, here, 2, Conf(step, i), []);
      m := 3;
    }
  }

  lemma CompleteLiteral(code: Code, str: seq<byte>, lo: nat, input: seq<byte>, i: nat) returns (n: nat, es: seq<Event>)
    requires LiteralCode(code, str, lo) && i + |str| <= |input| && input[i..i + |str|] == str
    ensures Traverses(code, lo, lo + 2 * |str| + 2, input, i, i + |str|, Some(Token(TtBytes(str), i)), n, es)
  {
    hide Reach, Pushes, RangeLow, RangeHigh, RangeArg;
    var k: nat := 0;
    assert Reach(code, input, 0, Conf(lo + 1, i), Conf(lo + 1, i), []) by { ReachRefl(code, input, Conf(lo + 1, i)); }
    while k < |str|
      invariant k <= |str| && Reach(code, input, 2 * k, Conf(lo + 1, i), Conf(lo + 1 + 2 * k, i + k), [])
    {
      assert LiteralByte(code, str[k], lo + 1 + 2 * k) && input[i..i + |str|][k] == str[k];
      ReachSnoc(code, input, 2 * k, Conf(lo + 1, i), Conf(lo + 1 + 2 * k, i + k), [], 0);
      assert [] + Emits(code, Conf(lo + 1 + 2 * k, i + k)) == [] + Emits(code, Conf(lo + 2 + 2 * k, i + k)) == [];
      ReachSnoc(code, input, 2 * k + 1, Conf(lo + 1, i), Conf(lo + 2 + 2 * k, i + k), [], 0);
      k := k + 1;
    }
    var last := FramedRun(code, input, lo, i, 2 * k, lo + 1 + 2 * k, i + k, []);
    PushesCapture(code.acts, input, i, i + k);
    n, es := 2 * k + 2, [Event(SVM_PUSH, 0, i)] + [] + [last];
    assert es == [Event(SVM_PUSH, 0, i), Event(SVM_CAPTURE, 0, i + k)];
  }

  lemma ReachRefl(code: Code, input: seq<byte>, c: Conf)
    ensures Reach(code, input, 0, c, c, [])
  {
  }

  lemma {:induction false} CompleteSequence(code: Code, p: Parser, lo: nat, input: seq<byte>, i: nat, j: nat, t: Option<Token>)
    returns (n: nat, es: seq<Event>)
    requires p.Sequence? && SequenceCode(code, p.ps, lo) && i <= |input| && Denotes(p, input, i, j, t)
    ensures Traverses(code, lo, lo + Len(p), input, i, j, t, n, es)
    decreases p, 1, 0
  {
    hide Reach, Pushes, CodeFor, DenotesSeq, LenUpto;
    var toks :| DenotesSeq(p.ps, |p.ps|, input, i, j, toks) && t == Some(SequenceAt(toks, i));
    n, es := CompletePrefix(code, p, |p.ps|, lo, input, i, j, toks);
    var end := lo + 1 + LenUpto(p.ps, |p.ps|);
    var last := FramedRun(code, input, lo, i, n, end, j, es);
    PushesSequence(code.acts, input, i, es, toks, last);
    n, es := n + 2, [Event(SVM_PUSH, 0, i)] + es + [last];
  }

  lemma {:induction false} CompletePrefix(code: Code, p: Parser, k: nat, lo: nat, input: seq<byte>, i: nat, j: nat, toks: seq<Token>)
    returns (n: nat, es: seq<Event>)
    requires p.Sequence? && SequenceCode(code, p.ps, lo) && i <= |input| && k <= |p.ps|
    requires DenotesSeq(p.ps, k, input, i, j, toks)
    ensures i <= j <= |input| && Pushes(code.acts, input, es, toks)
    ensures Reach(code, input, n, Conf(lo + 1, i), Conf(lo + 1 + LenUpto(p.ps, k), j), es)
    decreases p, 0, k
  {
    hide Reach, Pushes, CodeFor, Denotes, DenotesGap, DenotesSeq, DenotesTimes, Len, LenUpto;
    LenUptoZero(p.ps);
    if k == 0 {
      PushesNothing(code.acts, input);
      ReachRefl(code, input, Conf(lo + 1, i));
      NoParsers(p.ps, input, i, j, toks);
      n, es := 0, [];
    } else {
      var prev := k - 1;
      var m, ts, u := SeqLast(p.ps, k, input, i, j, toks);
      var n1, f1 := CompletePrefix(code, p, prev, lo, input, i, m, ts);
      var at := lo + 1 + LenUpto(p.ps, prev);
      LenUptoStep(p.ps, prev);
      var n2, f2 := Complete(code, p.ps[prev], at, input, m, j, u);
      Joined(code, input, n1, Conf(lo + 1, i), Conf(at, m), f1, ts, n2, Conf(at + Len(p.ps[prev]), j), f2, Toks(u));
      n, es := n1 + n2, f1 + f2;
    }
  }

  lemma {:induction false} CompleteChoice(code: Code, p: Parser, lo: nat, input: seq<byte>, i: nat, j: nat, t: Option<Token>)
    returns (n: nat, es: seq<Event>)
    requires p.Choice? && ChoiceCode(code, p.ps, lo) && i <= |input| && Denotes(p, input, i, j, t)
    ensures Traverses(code, lo, lo + Len(p), input, i, j, t, n, es)
    decreases p, 1, 0
  {
    hide Reach, Pushes, CodeFor, LenUpto;
    var ps := p.ps;
    var jump := AltStart(ps, |ps|, lo) + 1;
    var k: nat :| k < |ps| && Denotes(ps[k], input, i, j, t);
    n, es := CompleteAlternative(code, ps, k, lo, input, i, j, t);
    n := ReachAlternative(code, ps, k, lo, input, i, n, Conf(jump, j), es);
    LenUptoZero(ps);
  }

  /** From the fork of the `k`-th alternative, through that alternative, to the end of the choice. */
  lemma {:induction false} CompleteAlternative(code: Code, ps: seq<Parser>, k: nat, lo: nat, input: seq<byte>, i: nat, j: nat, t: Option<Token>)
    returns (n: nat, es: seq<Event>)
    requires ChoiceCode(code, ps, lo) && i <= |input| && k < |ps| && Denotes(ps[k], input, i, j, t)
    ensures i <= j <= |input| && Pushes(code.acts, input, es, Toks(t))
    ensures Reach(code, input, n, Conf(AltStart(ps, k, lo), i), Conf(AltStart(ps, |ps|, lo) + 1, j), es)
    decreases ps, 0, 0
  {
    hide Reach, Pushes, CodeFor, LenUpto, Denotes;
    var jump := AltStart(ps, |ps|, lo) + 1;
    assert CodeFor(code, ps[k], AltStart(ps, k, lo) + 1) && AltFrame(code, ps, k, lo, jump);
    LenUptoStep(ps, k);
    n, es := Complete(code, ps[k], AltStart(ps, k, lo) + 1, input, i, j, t);
    ReachSnoc(code, input, n, Conf(AltStart(ps, k, lo) + 1, i), Conf(AltStart(ps, k + 1, lo) - 1, j), es, 0);
    assert es + [] == es;
    StepOver(code, input, Conf(AltStart(ps, k, lo), i), n + 1, Conf(jump, j), es);
    n := n + 2;
  }

  /** The forks of the alternatives before the `k`-th lead to it. */
  lemma {:induction false} ReachAlternative(code: Code, ps: seq<Parser>, k: nat, lo: nat, input: seq<byte>, i: nat,
                                            m: nat, d: Conf, es: seq<Event>) returns (n: nat)
    requires ChoiceCode(code, ps, lo) && k <= |ps| && Reach(code, input, m, Conf(AltStart(ps, k, lo), i), d, es)
    ensures Reach(code, input, n, Conf(AltStart(ps, 0, lo), i), d, es)
  {
    hide Reach, CodeFor, LenUpto;
    n := m;
    if k > 0 {
      assert AltFrame(code, ps, k - 1, lo, AltStart(ps, |ps|, lo) + 1);
      ReachCons(code, input, Conf(AltStart(ps, k - 1, lo), i), 1, m, d, es);
      assert [] + es == es;
      n := ReachAlternative(code, ps, k - 1, lo, input, i, m + 1, d, es);
    }
  }

  lemma {:induction false} CompleteOptional(code: Code, p: Parser, lo: nat, input: seq<byte>, i: nat, j: nat, t: Option<Token>)
    returns (n: nat, es: seq<Event>)
    requires p.Optional? && OptionalCode(code, p, lo) && i <= |input| && Denotes(p, input, i, j, t)
    ensures Traverses(code, lo, lo + Len(p), input, i, j, t, n, es)
    decreases p, 1, 0
  {
    hide Reach, Pushes, CodeFor;
    var end := lo + 2 + Len(p.p);
    var fork := Conf(lo + 1, i);
    var u: Option<Token>;
    if i == j && t == Some(Token(TtNone, i)) {
      u := None;
      PushesNothing(code.acts, input);
      ReachOne(code, input, fork, 1);
      n, es := 1, [];
    } else {
      u :| Denotes(p.p, input, i, j, u) && t == if u.Some? then u else Some(Token(TtNone, i));
      n, es := Complete(code, p.p, lo + 2, input, i, j, u);
      StepOver(code, input, fork, n, Conf(end, j), es);
      n := n + 1;
    }
    var last := FramedRun(code, input, lo, i, n, end, j, es);
    PushesOptional(code.acts, input, i, es, u, last);
    n, es := n + 2, [Event(SVM_PUSH, 0, i)] + es + [last];
  }

  lemma {:induction false} CompleteWhitespace(code: Code, p: Parser, lo: nat, input: seq<byte>, i: nat, k: nat, j: nat, t: Option<Token>)
    returns (n: nat, es: seq<Event>)
    requires p.Whitespace? && WhitespaceCode(code, p, lo) && AllSpace(input, i, k) && Denotes(p.p, input, k, j, t)
    ensures Traverses(code, lo, lo + Len(p), input, i, j, t, n, es)
    decreases p, 1, k - i
  {
    hide Reach, Pushes, CodeFor, Denotes, RangeLow, RangeHigh, RangeArg;
    var hi := lo + 8 + Len(p.p);
    if i == k {
      n, es := Complete(code, p.p, lo + 8, input, k, j, t);
      ReachCons(code, input, Conf(lo + 4, i), 1, n, Conf(hi, j), es);
      ReachCons(code, input, Conf(lo, i), 1, n + 1, Conf(hi, j), [] + es);
      assert [] + ([] + es) == es;
      n := n + 2;
    } else {
      n, es := CompleteWhitespace(code, p, lo, input, i + 1, k, j, t);
      var at := if input[i] == 32 then lo + 4 else lo;
      StepOver(code, input, Conf(at + 3, i + 1), n, Conf(hi, j), es);
      StepOver(code, input, Conf(at + 2, i), n + 1, Conf(hi, j), es);
      StepOver(code, input, Conf(at + 1, i), n + 2, Conf(hi, j), es);
      StepOver(code, input, Conf(at, i), n + 3, Conf(hi, j), es);
      n := n + 4;
      if input[i] == 32 {
        ReachCons(code, input, Conf(lo, i), 1, n, Conf(hi, j), es);
        assert [] + es == es;
        n := n + 1;
      }
    }
  }

  lemma {:induction false} CompleteRepeat(code: Code, p: Parser, lo: nat, input: seq<byte>, i: nat, j: nat, t: Option<Token>)
    returns (n: nat, es: seq<Event>)
    requires p.RepeatN? && RepeatCode(code, p, lo) && i <= |input| && Denotes(p, input, i, j, t)
    ensures Traverses(code, lo, lo + Len(p), input, i, j, t, n, es)
    decreases p, 1, 0
  {
    hide Reach, Pushes, CodeFor, DenotesTimes;
    var toks :| DenotesTimes(p, p.n, input, i, j, toks) && t == Some(SequenceAt(toks, i));
    n, es := CompleteCopies(code, p, p.n, lo, input, i, j, toks);
    var end := lo + 1 + Rep(p.n, Len(p.p));
    var last := FramedRun(code, input, lo, i, n, end, j, es);
    PushesSequence(code.acts, input, i, es, toks, last);
    n, es := n + 2, [Event(SVM_PUSH, 0, i)] + es + [last];
  }

  lemma {:induction false} CompleteCopies(code: Code, p: Parser, k: nat, lo: nat, input: seq<byte>, i: nat, j: nat, toks: seq<Token>)
    returns (n: nat, es: seq<Event>)
    requires p.RepeatN? && RepeatCode(code, p, lo) && i <= |input| && k <= p.n
    requires DenotesTimes(p, k, input, i, j, toks)
    ensures i <= j <= |input| && Pushes(code.acts, input, es, toks)
    ensures Reach(code, input, n, Conf(lo + 1, i), Conf(lo + 1 + Rep(k, Len(p.p)), j), es)
    decreases p, 0, k
  {
    hide Reach, Pushes, CodeFor, Denotes, DenotesGap, DenotesSeq, DenotesTimes, Len;
    if k == 0 {
      PushesNothing(code.acts, input);
      ReachRefl(code, input, Conf(lo + 1, i));
      NoElements(p, input, i, j, toks);
      n, es := 0, [];
    } else {
      var prev := k - 1;
      var m, l, ts, u := TimesLast(p, k, input, i, j, toks);
      var n1, f1 := CompleteCopies(code, p, prev, lo, input, i, m, ts);
      var at := lo + 1 + Rep(prev, Len(p.p));
      var n2, f2 := Complete(code, p.p, at, input, m, j, u);
      Joined(code, input, n1, Conf(lo + 1, i), Conf(at, m), f1, ts, n2, Conf(at + Len(p.p), j), f2, Toks(u));
      n, es := n1 + n2, f1 + f2;
    }
  }

  lemma {:induction false} CompleteMany(code: Code, p: Parser, lo: nat, input: seq<byte>, i: nat, j: nat, t: Option<Token>)
    returns (n: nat, es: seq<Event>)
    requires p.Many? && ManyCode(code, p, lo) && i <= |input| && Denotes(p, input, i, j, t)
    ensures Traverses(code, lo, lo + Len(p), input, i, j, t, n, es)
    decreases p, 1, 0
  {
    hide Reach, Pushes, CodeFor, DenotesTimes;
    var end := ManyEnd(p, lo);
    var count: nat, toks :| DenotesTimes(p, count, input, i, j, toks) && (p.atLeastOne ==> count >= 1)
      && t == Some(SequenceAt(toks, i));
    hide Denotes;
    if count == 0 {
      NoElements(p, input, i, j, toks);
      PushesNothing(code.acts, input);
      ReachOne(code, input, Conf(lo + 1, i), 1);
      n, es := 1, [];
    } else {
      n, es := CompleteElements(code, p, count, lo, input, i, j, toks);
      ReachSnoc(code, input, n, Conf(lo + 1, i), Conf(end - 1, j), es, 0);
      assert es + [] == es;
      n := n + 1;
    }
    var last := FramedRun(code, input, lo, i, n, end, j, es);
    PushesSequence(code.acts, input, i, es, toks, last);
    n, es := n + 2, [Event(SVM_PUSH, 0, i)] + es + [last];
  }

  lemma NoParsers(ps: seq<Parser>, input: seq<byte>, i: nat, j: nat, toks: seq<Token>)
    requires DenotesSeq(ps, 0, input, i, j, toks)
    ensures i == j && toks == []
  {
  }

  lemma NoElements(p: Parser, input: seq<byte>, i: nat, j: nat, toks: seq<Token>)
    requires (p.Many? || p.RepeatN?) && DenotesTimes(p, 0, input, i, j, toks)
    ensures i == j && toks == []
  {
  }

  /** From behind the mark to the fork that ends the loop body, for `count` elements. */
  lemma {:induction false} CompleteElements(code: Code, p: Parser, count: nat, lo: nat, input: seq<byte>, i: nat, j: nat, toks: seq<Token>)
    returns (n: nat, es: seq<Event>)
    requires p.Many? && ManyCode(code, p, lo) && i <= |input| && count > 0
    requires DenotesTimes(p, count, input, i, j, toks)
    ensures i <= j <= |input| && Pushes(code.acts, input, es, toks)
    ensures Reach(code, input, n, Conf(lo + 1, i), Conf(ManyEnd(p, lo) - 1, j), es)
    decreases p, 0, count + 1
  {
    hide Pushes, CodeFor, Denotes, Reach, DenotesGap, DenotesTimes, Len;
    var k, l, ts, u := TimesLast(p, count, input, i, j, toks);
    var n1: nat, f1;
    if count == 1 {
      NoElements(p, input, i, k, ts);
      n1, f1 := EnterLoop(code, p, lo, input, i);
    } else {
      n1, f1 := CompleteElements(code, p, count - 1, lo, input, i, k, ts);
      n1, f1 := Again(code, p, count, lo, input, n1, i, f1, ts, k, l);
    }
    var n2, f2 := Complete(code, p.p, ManyMid(p, lo), input, l, j, u);
    Joined(code, input, n1, Conf(lo + 1, i), Conf(ManyMid(p, lo), l), f1, ts, n2, Conf(ManyEnd(p, lo) - 1, j), f2, Toks(u));
    n, es := n1 + n2, f1 + f2;
  }

  lemma EnterLoop(code: Code, p: Parser, lo: nat, input: seq<byte>, i: nat) returns (n: nat, es: seq<Event>)
    requires p.Many? && ManyCode(code, p, lo)
    ensures es == [] && Pushes(code.acts, input, es, []) && Reach(code, input, n, Conf(lo + 1, i), Conf(ManyMid(p, lo), i), es)
  {
    hide Pushes, CodeFor, Reach, Len;
    PushesNothing(code.acts, input);
    ReachOne(code, input, Conf(ManyGoto(p, lo), i), 0);
    n, es := 1, [];
    if !p.atLeastOne {
      StepOver(code, input, Conf(lo + 1, i), 1, Conf(ManyMid(p, lo), i), []);
      n := 2;
    }
  }

  /** From the end of one element to the front of the next. */
  lemma {:induction false} Again(code: Code, p: Parser, count: nat, lo: nat, input: seq<byte>,
                                 m: nat, i: nat, fs: seq<Event>, ts: seq<Token>, k: nat, l: nat)
    returns (n: nat, es: seq<Event>)
    requires p.Many? && ManyCode(code, p, lo) && k <= |input| && count > 1 && DenotesGap(p, count, input, k, l)
    requires Reach(code, input, m, Conf(lo + 1, i), Conf(ManyEnd(p, lo) - 1, k), fs) && Pushes(code.acts, input, fs, ts)
    ensures k <= l <= |input| && Pushes(code.acts, input, es, ts)
    ensures Reach(code, input, n, Conf(lo + 1, i), Conf(ManyMid(p, lo), l), es)
    decreases p, 0, 1
  {
    hide Pushes, CodeFor, Denotes, Reach, DenotesGap;
    ReachSnoc(code, input, m, Conf(lo + 1, i), Conf(ManyEnd(p, lo) - 1, k), fs, 1);
    assert fs + [] == fs;
    var n2, f2 := CompleteGap(code, p, count, lo, input, k, l);
    Joined(code, input, m + 1, Conf(lo + 1, i), Conf(ManyNext(p, lo), k), fs, ts, n2, Conf(ManyMid(p, lo), l), f2, []);
    assert ts + [] == ts;
    n, es := m + 1 + n2, fs + f2;
  }

  lemma {:induction false} CompleteGap(code: Code, p: Parser, count: nat, lo: nat, input: seq<byte>, k: nat, l: nat)
    returns (n: nat, es: seq<Event>)
    requires p.Many? && ManyCode(code, p, lo) && k <= |input| && count > 1 && DenotesGap(p, count, input, k, l)
    ensures k <= l <= |input| && Pushes(code.acts, input, es, [])
    ensures Reach(code, input, n, Conf(ManyNext(p, lo), k), Conf(ManyMid(p, lo), l), es)
    decreases p, 0, 0
  {
    hide Pushes, CodeFor, Denotes, Reach;
    if p.sep.Some? {
      var u :| Denotes(p.sep.value, input, k, l, u);
      n, es := Complete(code, p.sep.value, ManyNext(p, lo) + 1, input, k, l, u);
      var last := FramedRun(code, input, ManyNext(p, lo), k, n, ManyMid(p, lo) - 1, l, es);
      PushesCleared(code.acts, input, k, es, Toks(u), last);
      n, es := n + 2, [Event(SVM_PUSH, 0, k)] + es + [last];
    } else {
      ReachRefl(code, input, Conf(ManyNext(p, lo), k));
      PushesNothing(code.acts, input);
      n, es := 0, [];
    }
  }
}
