/** Every run through the code of a combinator is one of the combinator's matches, and the trace
    it records makes the stack machine build the token of that match. */
module RegexSoundness {
  import opened Basics
  import opened RegularLanguage
  import opened RvmCode
  import opened Svm
  import opened RvmPaths

  ghost predicate Outside(d: Conf, lo: nat, hi: nat) {
    d.ip < lo || d.ip >= hi
  }

  /** The run splits at the end of the code of `p`, after `m` steps. */
  ghost predicate Splits(code: Code, p: Parser, hi: nat, input: seq<byte>, n: nat, i: nat, d: Conf, es: seq<Event>,
                         m: nat, j: nat, t: Option<Token>, e1: seq<Event>, e2: seq<Event>)
  {
    && m <= n && i <= j <= |input|
    && Denotes(p, input, i, j, t)
    && es == e1 + e2
    && Pushes(code.acts, input, e1, Toks(t))
    && Reach(code, input, n - m, Conf(hi, j), d, e2)
  }

  lemma {:induction false} Sound(code: Code, p: Parser, lo: nat, input: seq<byte>, n: nat, i: nat, d: Conf, es: seq<Event>)
    returns (m: nat, j: nat, t: Option<Token>, e1: seq<Event>, e2: seq<Event>)
    requires CodeFor(code, p, lo) && i <= |input|
    requires Reach(code, input, n, Conf(lo, i), d, es) && Outside(d, lo, lo + Len(p))
    ensures Splits(code, p, lo + Len(p), input, n, i, d, es, m, j, t, e1, e2)
    decreases p, 2, 0
  {
    hide Reach, Pushes, Denotes, CharsetCode, LiteralCode, SequenceCode, ChoiceCode, ManyCode, RepeatCode, OptionalCode, WhitespaceCode;
    match p
    case Ch(c) => m, j, t, e1, e2 := SoundCh(code, c, lo, input, n, i, d, es);
    case Charset(chars) => m, j, t, e1, e2 := SoundCharset(code, chars, lo, input, n, i, d, es);
    case Literal(str) => m, j, t, e1, e2 := SoundLiteral(code, str, lo, input, n, i, d, es);
    case Sequence(_) => m, j, t, e1, e2 := SoundSequence(code, p, lo, input, n, i, d, es);
    case Choice(_) => m, j, t, e1, e2 := SoundChoice(code, p, lo, input, n, i, d, es);
    case Many(_, _, _) => m, j, t, e1, e2 := SoundMany(code, p, lo, input, n, i, d, es);
    case RepeatN(_, _) => m, j, t, e1, e2 := SoundRepeat(code, p, lo, input, n, i, d, es);
    case Optional(_) => m, j, t, e1, e2 := SoundOptional(code, p, lo, input, n, i, d, es);
    case Whitespace(_) => m, j, t, e1, e2 := SoundWhitespace(code, p, lo, input, n, i, d, es);
    case Epsilon => m, j, t, e1, e2 := SoundEpsilon(code, lo, input, n, i, d, es);
    case End => m, j, t, e1, e2 := SoundEnd(code, lo, input, n, i, d, es);
    case Nothing => NoRunThroughNothing(code, lo, input, n, i, d, es);
  }

  lemma SoundEpsilon(code: Code, lo: nat, input: seq<byte>, n: nat, i: nat, d: Conf, es: seq<Event>)
    returns (m: nat, j: nat, t: Option<Token>, e1: seq<Event>, e2: seq<Event>)
    requires i <= |input| && Reach(code, input, n, Conf(lo, i), d, es)
    ensures Splits(code, Epsilon, lo, input, n, i, d, es, m, j, t, e1, e2)
  {
    hide Reach, Replay, RangeLow, RangeHigh, RangeArg;
    m, j, t, e1, e2 := 0, i, None, [], es;
    PushesNothing(code.acts, input);
  }

  lemma SoundEnd(code: Code, lo: nat, input: seq<byte>, n: nat, i: nat, d: Conf, es: seq<Event>)
    returns (m: nat, j: nat, t: Option<Token>, e1: seq<Event>, e2: seq<Event>)
    requires CodeFor(code, End, lo) && i <= |input|
    requires Reach(code, input, n, Conf(lo, i), d, es) && Outside(d, lo, lo + 1)
    ensures Splits(code, End, lo + 1, input, n, i, d, es, m, j, t, e1, e2)
  {
    hide Reach, Replay, RangeLow, RangeHigh, RangeArg;
    var c', rest := FirstStep(code, input, n, Conf(lo, i), d, es);
    m, j, t, e1, e2 := 1, i, None, [], rest;
    PushesNothing(code.acts, input);
  }

  lemma NoRunThroughNothing(code: Code, lo: nat, input: seq<byte>, n: nat, i: nat, d: Conf, es: seq<Event>)
    requires CodeFor(code, Nothing, lo) && Outside(d, lo, lo + 2)
    ensures !Reach(code, input, n, Conf(lo, i), d, es)
  {
    hide Reach, RangeLow, RangeHigh, RangeArg;
    if Reach(code, input, n, Conf(lo, i), d, es) {
      var c1, r1 := FirstStep(code, input, n, Conf(lo, i), d, es);
      var c2, r2 := FirstStep(code, input, n - 1, c1, d, r1);
    }
  }

  /** STEP, CAPTURE and the value action, entered at the STEP after a mark at `i`. */
  lemma SoundByteTail(code: Code, at: nat, input: seq<byte>, n: nat, i: nat, d: Conf, es: seq<Event>)
    returns (e1: seq<Event>, e2: seq<Event>)
    requires At(code, at, STEP, 0) && At(code, at + 1, CAPTURE, 0)
    requires at + 2 < |code.insns| && code.insns[at + 2].op == ACTION && code.insns[at + 2].arg < |code.acts|
    requires var a := code.acts[code.insns[at + 2].arg]; a.ChAction? || a.CharsetAction?
    requires i <= |input| && Reach(code, input, n, Conf(at, i), d, es) && Outside(d, at, at + 3)
    ensures i < |input| && n >= 3 && es == e1 + e2
    ensures Pushes(code.acts, input, [Event(SVM_PUSH, 0, i)] + e1, [Token(TtUint(input[i]), i)])
    ensures Reach(code, input, n - 3, Conf(at + 3, i + 1), d, e2)
  {
    hide Reach, Replay, RangeLow, RangeHigh, RangeArg;
    var c1, r1 := FirstStep(code, input, n, Conf(at, i), d, es);
    var c2, r2 := FirstStep(code, input, n - 1, c1, d, r1);
    var c3, r3 := FirstStep(code, input, n - 2, c2, d, r2);
    var last := Event(SVM_ACTION, code.insns[at + 2].arg, i + 1);
    PushesChar(code.acts, input, i, last);
    e1, e2 := [Event(SVM_CAPTURE, 0, i + 1), last], r3;
    assert [Event(SVM_PUSH, 0, i)] + e1 == [Event(SVM_PUSH, 0, i), Event(SVM_CAPTURE, 0, i + 1), last];
  }

  lemma SoundCh(code: Code, c: byte, lo: nat, input: seq<byte>, n: nat, i: nat, d: Conf, es: seq<Event>)
    returns (m: nat, j: nat, t: Option<Token>, e1: seq<Event>, e2: seq<Event>)
    requires ChCode(code, c, lo) && i <= |input|
    requires Reach(code, input, n, Conf(lo, i), d, es) && Outside(d, lo, lo + 5)
    ensures Splits(code, Ch(c), lo + 5, input, n, i, d, es, m, j, t, e1, e2)
  {
    hide Reach, Pushes, RangeLow, RangeHigh, RangeArg;
    var c1, r1 := FirstStep(code, input, n, Conf(lo, i), d, es);
    var c2, r2 := FirstStep(code, input, n - 1, c1, d, r1);
    e1, e2 := SoundByteTail(code, lo + 2, input, n - 2, i, d, r2);
    m, j, t, e1 := 5, i + 1, Some(Token(TtUint(c), i)), [Event(SVM_PUSH, 0, i)] + e1;
  }

  lemma SoundCharset(code: Code, chars: set<byte>, lo: nat, input: seq<byte>, n: nat, i: nat, d: Conf, es: seq<Event>)
    returns (m: nat, j: nat, t: Option<Token>, e1: seq<Event>, e2: seq<Event>)
    requires CharsetCode(code, chars, lo) && i <= |input|
    requires Reach(code, input, n, Conf(lo, i), d, es) && Outside(d, lo, lo + Len(Charset(chars)))
    ensures Splits(code, Charset(chars), lo + Len(Charset(chars)), input, n, i, d, es, m, j, t, e1, e2)
  {
    hide Reach, Pushes, Runs, RangeLow, RangeHigh, RangeArg;
    var rs := Runs(chars, 257);
    var c1, r1 := FirstStep(code, input, n, Conf(lo, i), d, es);
    var n' := SoundRuns(code, chars, 0, lo, input, n - 1, i, d, r1);
    e1, e2 := SoundByteTail(code, lo + 3 * |rs| + 2, input, n', i, d, r1);
    m, j, t, e1 := n - n' + 3, i + 1, Some(Token(TtUint(input[i]), i)), [Event(SVM_PUSH, 0, i)] + e1;
  }

  /** From the `k`-th range test, the run gets to the STEP, and only if the byte is in the set. */
  lemma {:induction false} SoundRuns(code: Code, chars: set<byte>, k: nat, lo: nat, input: seq<byte>, n: nat, i: nat,
                                     d: Conf, es: seq<Event>)
    returns (n': nat)
    requires CharsetCode(code, chars, lo) && k <= |Runs(chars, 257)|
    requires Outside(d, lo, lo + Len(Charset(chars)))
    requires Reach(code, input, n, Conf(lo + 1 + 3 * k, i), d, es)
    ensures Look(input, i) in chars && n' <= n
    ensures Reach(code, input, n', Conf(lo + 3 * |Runs(chars, 257)| + 2, i), d, es)
    decreases |Runs(chars, 257)| - k
  {
    hide Reach, Runs, RangeLow, RangeHigh, RangeArg;
    var rs := Runs(chars, 257);
    var c1, r1 := FirstStep(code, input, n, Conf(lo + 1 + 3 * k, i), d, es);
    if k < |rs| {
      assert CharsetRun(code, rs[k], lo + 1 + 3 * k, lo + 3 * |rs| + 2);
      assert r1 == es;
      if c1.ip == lo + 4 + 3 * k {
        n' := SoundRuns(code, chars, k + 1, lo, input, n - 1, i, d, r1);
      } else {
        var c2, r2 := FirstStep(code, input, n - 1, c1, d, r1);
        var c3, r3 := FirstStep(code, input, n - 2, c2, d, r2);
        n' := n - 3;
        assert r3 == es;
      }
    }
  }

  lemma SoundLiteral(code: Code, str: seq<byte>, lo: nat, input: seq<byte>, n: nat, i: nat, d: Conf, es: seq<Event>)
    returns (m: nat, j: nat, t: Option<Token>, e1: seq<Event>, e2: seq<Event>)
    requires LiteralCode(code, str, lo) && i <= |input|
    requires Reach(code, input, n, Conf(lo, i), d, es) && Outside(d, lo, lo + 2 * |str| + 2)
    ensures Splits(code, Literal(str), lo + 2 * |str| + 2, input, n, i, d, es, m, j, t, e1, e2)
  {
    hide Reach, Pushes, RangeLow, RangeHigh, RangeArg;
    var c1, rest := FirstStep(code, input, n, Conf(lo, i), d, es);
    var k := 0;
    while k < |str|
      invariant k <= |str| && 1 + 2 * k <= n && i + k <= |input|
      invariant input[i..i + k] == str[..k]
      invariant es == [Event(SVM_PUSH, 0, i)] + rest
      invariant Reach(code, input, n - 1 - 2 * k, Conf(lo + 1 + 2 * k, i + k), d, rest)
    {
      assert LiteralByte(code, str[k], lo + 1 + 2 * k);
      var c2, r2 := FirstStep(code, input, n - 1 - 2 * k, Conf(lo + 1 + 2 * k, i + k), d, rest);
      var c3, r3 := FirstStep(code, input, n - 2 - 2 * k, c2, d, r2);
      assert input[i..i + k + 1] == input[i..i + k] + [input[i + k]] && str[..k + 1] == str[..k] + [str[k]];
      rest, k := r3, k + 1;
    }
    var c4, r4 := FirstStep(code, input, n - 1 - 2 * k, Conf(lo + 1 + 2 * k, i + k), d, rest);
    PushesCapture(code.acts, input, i, i + k);
    e1, e2 := [Event(SVM_PUSH, 0, i), Event(SVM_CAPTURE, 0, i + k)], r4;
    m, j, t := 2 + 2 * k, i + k, Some(Token(TtBytes(str), i));
    assert str[..k] == str;
  }

  lemma {:induction false} SoundSequence(code: Code, p: Parser, lo: nat, input: seq<byte>, n: nat, i: nat, d: Conf, es: seq<Event>)
    returns (m: nat, j: nat, t: Option<Token>, e1: seq<Event>, e2: seq<Event>)
    requires p.Sequence? && SequenceCode(code, p.ps, lo) && i <= |input|
    requires Reach(code, input, n, Conf(lo, i), d, es) && Outside(d, lo, lo + Len(p))
    ensures Splits(code, p, lo + Len(p), input, n, i, d, es, m, j, t, e1, e2)
    decreases p, 1, 0
  {
    hide Reach, Pushes, RangeLow, RangeHigh, RangeArg, CodeFor, LenUpto, Denotes, DenotesSeq;
    var ps := p.ps;
    var push := [Event(SVM_PUSH, 0, i)];
    var c1, rest := FirstStep(code, input, n, Conf(lo, i), d, es);
    assert LenUpto(ps, 0) == 0 && DenotesSeq(ps, 0, input, i, i, []) by { EmptySequence(ps, input, i); }
    PushesNothing(code.acts, input);
    var k, toks, acc := 0, [], [];
    var n': nat := n - 1;
    j := i;
    while k < |ps|
      invariant k <= |ps| && n' < n && i <= j <= |input|
      invariant DenotesSeq(ps, k, input, i, j, toks) && Pushes(code.acts, input, acc, toks)
      invariant es == push + acc + rest
      invariant Reach(code, input, n', Conf(lo + 1 + LenUpto(ps, k), j), d, rest)
    {
      LenUptoStep(ps, k);
      var m', j', t', f1, f2 := Sound(code, ps[k], lo + 1 + LenUpto(ps, k), input, n', j, d, rest);
      SeqSnoc(ps, k, input, i, j, toks, j', t');
      PushesConcat(code.acts, input, acc, toks, f1, Toks(t'));
      k, n', toks, acc, j, rest := k + 1, n' - m', toks + Toks(t'), acc + f1, j', f2;
    }
    var c2, r2 := FirstStep(code, input, n', Conf(lo + 1 + LenUpto(ps, k), j), d, rest);
    var last := Emits(code, Conf(lo + 1 + LenUpto(ps, k), j))[0];
    PushesSequence(code.acts, input, i, acc, toks, last);
    SequenceDenotes(p, input, i, j, toks);
    m, t, e1, e2 := n - n' + 1, Some(SequenceAt(toks, i)), push + acc + [last], r2;
  }

  lemma SequenceDenotes(p: Parser, input: seq<byte>, i: nat, j: nat, toks: seq<Token>)
    requires p.Sequence? && DenotesSeq(p.ps, |p.ps|, input, i, j, toks)
    ensures Denotes(p, input, i, j, Some(SequenceAt(toks, i)))
  {
  }

  lemma EmptySequence(ps: seq<Parser>, input: seq<byte>, i: nat)
    ensures LenUpto(ps, 0) == 0 && DenotesSeq(ps, 0, input, i, i, [])
  {
  }

  lemma {:induction false} SoundChoice(code: Code, p: Parser, lo: nat, input: seq<byte>, n: nat, i: nat, d: Conf, es: seq<Event>)
    returns (m: nat, j: nat, t: Option<Token>, e1: seq<Event>, e2: seq<Event>)
    requires p.Choice? && ChoiceCode(code, p.ps, lo) && i <= |input|
    requires Reach(code, input, n, Conf(lo, i), d, es) && Outside(d, lo, lo + Len(p))
    ensures Splits(code, p, lo + Len(p), input, n, i, d, es, m, j, t, e1, e2)
    decreases p, 1, 0
  {
    hide Reach, Pushes, CodeFor, ChoiceCode, Denotes;
    assert AltStart(p.ps, 0, lo) == lo;
    m, j, t, e1, e2 := SoundAlternatives(code, p, 0, lo, input, n, i, d, es);
  }

  /** From the fork of the `k`-th alternative. */
  lemma {:induction false} SoundAlternatives(code: Code, p: Parser, k: nat, lo: nat, input: seq<byte>, n: nat, i: nat, d: Conf, es: seq<Event>)
    returns (m: nat, j: nat, t: Option<Token>, e1: seq<Event>, e2: seq<Event>)
    requires p.Choice? && ChoiceCode(code, p.ps, lo) && i <= |input| && k <= |p.ps|
    requires Reach(code, input, n, Conf(AltStart(p.ps, k, lo), i), d, es)
    requires Outside(d, lo, AltStart(p.ps, |p.ps|, lo) + 1)
    ensures Splits(code, p, AltStart(p.ps, |p.ps|, lo) + 1, input, n, i, d, es, m, j, t, e1, e2)
    decreases p, 0, |p.ps| - k
  {
    hide Reach, Pushes, RangeLow, RangeHigh, RangeArg, CodeFor, LenUpto;
    var ps := p.ps;
    var jump := AltStart(ps, |ps|, lo) + 1;
    LenUptoMonotone(ps, k, |ps|);
    var c1, r1 := FirstStep(code, input, n, Conf(AltStart(ps, k, lo), i), d, es);
    if k < |ps| {
      LenUptoStep(ps, k);
      assert CodeFor(code, ps[k], AltStart(ps, k, lo) + 1) && AltFrame(code, ps, k, lo, jump);
      if c1.ip == AltStart(ps, k + 1, lo) && Len(ps[k]) + 2 != 1 {
        m, j, t, e1, e2 := SoundAlternatives(code, p, k + 1, lo, input, n - 1, i, d, r1);
        m := m + 1;
      } else {
        m, j, t, e1, e2 := Sound(code, ps[k], AltStart(ps, k, lo) + 1, input, n - 1, i, d, r1);
        var c2, r2 := FirstStep(code, input, n - 1 - m, Conf(AltStart(ps, k + 1, lo) - 1, j), d, e2);
        m, e2 := m + 2, r2;
      }
    }
  }

  lemma {:induction false} SoundOptional(code: Code, p: Parser, lo: nat, input: seq<byte>, n: nat, i: nat, d: Conf, es: seq<Event>)
    returns (m: nat, j: nat, t: Option<Token>, e1: seq<Event>, e2: seq<Event>)
    requires p.Optional? && OptionalCode(code, p, lo) && i <= |input|
    requires Reach(code, input, n, Conf(lo, i), d, es) && Outside(d, lo, lo + Len(p))
    ensures Splits(code, p, lo + Len(p), input, n, i, d, es, m, j, t, e1, e2)
    decreases p, 1, 0
  {
    hide Reach, Pushes, RangeLow, RangeHigh, RangeArg, CodeFor, Denotes;
    var end := lo + 2 + Len(p.p);
    var push := [Event(SVM_PUSH, 0, i)];
    var c1, r1 := FirstStep(code, input, n, Conf(lo, i), d, es);
    var c2, r2 := FirstStep(code, input, n - 1, c1, d, r1);
    var u: Option<Token>, f1, f2;
    if c2.ip == lo + 2 {
      m, j, u, f1, f2 := Sound(code, p.p, lo + 2, input, n - 2, i, d, r2);
    } else {
      PushesNothing(code.acts, input);
      m, j, u, f1, f2 := 0, i, None, [], r2;
    }
    var c3, r3 := FirstStep(code, input, n - 2 - m, Conf(end, j), d, f2);
    var last := Emits(code, Conf(end, j))[0];
    PushesOptional(code.acts, input, i, f1, u, last);
    OptionalDenotes(p, input, i, j, u, c2.ip == lo + 2);
    m, t, e1, e2 := m + 3, Some(if u.Some? then u.value else Token(TtNone, i)), push + f1 + [last], r3;
  }

  lemma OptionalDenotes(p: Parser, input: seq<byte>, i: nat, j: nat, u: Option<Token>, taken: bool)
    requires p.Optional? && (if taken then Denotes(p.p, input, i, j, u) else i == j && u == None)
    ensures Denotes(p, input, i, j, Some(if u.Some? then u.value else Token(TtNone, i)))
  {
  }

  lemma {:induction false} SoundWhitespace(code: Code, p: Parser, lo: nat, input: seq<byte>, n: nat, i: nat, d: Conf, es: seq<Event>)
    returns (m: nat, j: nat, t: Option<Token>, e1: seq<Event>, e2: seq<Event>)
    requires p.Whitespace? && WhitespaceCode(code, p, lo) && i <= |input|
    requires Reach(code, input, n, Conf(lo, i), d, es) && Outside(d, lo, lo + Len(p))
    ensures Splits(code, p, lo + Len(p), input, n, i, d, es, m, j, t, e1, e2)
    decreases p, 1, n
  {
    hide Reach, Pushes, RangeLow, RangeHigh, RangeArg, CodeFor, Denotes;
    var c1, r1 := FirstStep(code, input, n, Conf(lo, i), d, es);
    if c1.ip == lo + 1 {
      var r2 := SoundSpace(code, lo, lo, input, n - 1, i, d, r1, RangeArg(9, 13));
      m, j, t, e1, e2 := SoundWhitespace(code, p, lo, input, n - 4, i + 1, d, r2);
      AnotherSpace(p, input, i, j, t);
      m := m + 4;
    } else {
      var c2, r2 := FirstStep(code, input, n - 1, c1, d, r1);
      if c2.ip == lo + 5 {
        var r3 := SoundSpace(code, lo, lo + 4, input, n - 2, i, d, r2, RangeArg(32, 32));
        m, j, t, e1, e2 := SoundWhitespace(code, p, lo, input, n - 5, i + 1, d, r3);
        AnotherSpace(p, input, i, j, t);
        m := m + 5;
      } else {
        m, j, t, e1, e2 := Sound(code, p.p, lo + 8, input, n - 2, i, d, r2);
        m := m + 2;
        NoSpace(p, input, i, j, t);
      }
    }
  }

  /** MATCH, STEP and the jump back, for one of the two ranges of white space. */
  lemma SoundSpace(code: Code, lo: nat, at: nat, input: seq<byte>, n: nat, i: nat, d: Conf, es: seq<Event>, range: nat)
    returns (rest: seq<Event>)
    requires SpaceRun(code, lo, at, range) && (range == RangeArg(9, 13) || range == RangeArg(32, 32))
    requires i <= |input| && Reach(code, input, n, Conf(at + 1, i), d, es) && Outside(d, at, at + 4)
    ensures i < |input| && IsSpace(input[i]) && n >= 3 && rest == es && Reach(code, input, n - 3, Conf(lo, i + 1), d, rest)
  {
    hide Reach, RangeLow, RangeHigh, RangeArg;
    var c1, r1 := FirstStep(code, input, n, Conf(at + 1, i), d, es);
    var c2, r2 := FirstStep(code, input, n - 1, c1, d, r1);
    var c3, r3 := FirstStep(code, input, n - 2, c2, d, r2);
    rest := r3;
  }

  lemma NoSpace(p: Parser, input: seq<byte>, i: nat, j: nat, t: Option<Token>)
    requires p.Whitespace? && i <= |input| && Denotes(p.p, input, i, j, t)
    ensures Denotes(p, input, i, j, t)
  {
    assert AllSpace(input, i, i);
  }

  lemma AnotherSpace(p: Parser, input: seq<byte>, i: nat, j: nat, t: Option<Token>)
    requires p.Whitespace? && i < |input| && IsSpace(input[i]) && Denotes(p, input, i + 1, j, t)
    ensures Denotes(p, input, i, j, t)
  {
    var next := i + 1;
    var k: nat :| AllSpace(input, next, k) && Denotes(p.p, input, k, j, t);
    assert AllSpace(input, i, k);
  }

  lemma {:induction false} SoundRepeat(code: Code, p: Parser, lo: nat, input: seq<byte>, n: nat, i: nat, d: Conf, es: seq<Event>)
    returns (m: nat, j: nat, t: Option<Token>, e1: seq<Event>, e2: seq<Event>)
    requires p.RepeatN? && RepeatCode(code, p, lo) && i <= |input|
    requires Reach(code, input, n, Conf(lo, i), d, es) && Outside(d, lo, lo + Len(p))
    ensures Splits(code, p, lo + Len(p), input, n, i, d, es, m, j, t, e1, e2)
    decreases p, 1, 0
  {
    hide Reach, Pushes, RangeLow, RangeHigh, RangeArg, CodeFor;
    var size := Len(p.p);
    var push := [Event(SVM_PUSH, 0, i)];
    var c1, rest := FirstStep(code, input, n, Conf(lo, i), d, es);
    PushesNothing(code.acts, input);
    var k, toks, acc := 0, [], [];
    var n': nat := n - 1;
    j := i;
    while k < p.n
      invariant k <= p.n && n' < n && i <= j <= |input|
      invariant DenotesTimes(p, k, input, i, j, toks) && Pushes(code.acts, input, acc, toks)
      invariant es == push + acc + rest
      invariant Reach(code, input, n', Conf(lo + 1 + Rep(k, size), j), d, rest)
    {
      RepStep(k, p.n, size);
      var m', j', t', f1, f2 := Sound(code, p.p, lo + 1 + Rep(k, size), input, n', j, d, rest);
      TimesSnoc(p, k, input, i, j, toks, j, j', t');
      PushesConcat(code.acts, input, acc, toks, f1, Toks(t'));
      k, n', toks, acc, j, rest := k + 1, n' - m', toks + Toks(t'), acc + f1, j', f2;
    }
    var c2, r2 := FirstStep(code, input, n', Conf(lo + 1 + Rep(k, size), j), d, rest);
    var last := Emits(code, Conf(lo + 1 + Rep(k, size), j))[0];
    PushesSequence(code.acts, input, i, acc, toks, last);
    m, t, e1, e2 := n - n' + 1, Some(SequenceAt(toks, i)), push + acc + [last], r2;
  }

  lemma {:induction false} SoundMany(code: Code, p: Parser, lo: nat, input: seq<byte>, n: nat, i: nat, d: Conf, es: seq<Event>)
    returns (m: nat, j: nat, t: Option<Token>, e1: seq<Event>, e2: seq<Event>)
    requires p.Many? && ManyCode(code, p, lo) && i <= |input|
    requires Reach(code, input, n, Conf(lo, i), d, es) && Outside(d, lo, lo + Len(p))
    ensures Splits(code, p, lo + Len(p), input, n, i, d, es, m, j, t, e1, e2)
    decreases p, 1, 1
  {
    hide Reach, Pushes, RangeLow, RangeHigh, RangeArg, CodeFor, DenotesTimes, Replay;
    var end := ManyEnd(p, lo);
    var push := [Event(SVM_PUSH, 0, i)];
    var c1, r1 := FirstStep(code, input, n, Conf(lo, i), d, es);
    var n', count, toks, acc, rest;
    n', count, j, toks, acc, rest := SoundElements(code, p, lo, input, n - 1, i, d, r1);
    var c3, r3 := FirstStep(code, input, n', Conf(end, j), d, rest);
    var last := Emits(code, Conf(end, j))[0];
    PushesSequence(code.acts, input, i, acc, toks, last);
    m, t, e1, e2 := n - n' + 1, Some(SequenceAt(toks, i)), push + acc + [last], r3;
    assert Denotes(p, input, i, j, t);
  }

  /** From behind the mark of `many` to its last instruction. */
  lemma {:induction false} SoundElements(code: Code, p: Parser, lo: nat, input: seq<byte>, n: nat, i: nat, d: Conf, es: seq<Event>)
    returns (n': nat, count: nat, j: nat, toks: seq<Token>, e1: seq<Event>, e2: seq<Event>)
    requires p.Many? && ManyCode(code, p, lo) && i <= |input|
    requires Reach(code, input, n, Conf(lo + 1, i), d, es) && Outside(d, lo, ManyEnd(p, lo) + 1)
    ensures n' <= n && (p.atLeastOne ==> count >= 1) && i <= j <= |input| && es == e1 + e2
    ensures DenotesTimes(p, count, input, i, j, toks) && Pushes(code.acts, input, e1, toks)
    ensures Reach(code, input, n', Conf(ManyEnd(p, lo), j), d, e2)
    decreases p, 1, 0
  {
    hide Reach, Pushes, RangeLow, RangeHigh, RangeArg, CodeFor, Denotes, Replay;
    var c1, r1 := FirstStep(code, input, n, Conf(lo + 1, i), d, es);
    if c1.ip == ManyEnd(p, lo) {
      PushesNothing(code.acts, input);
      n', count, j, toks, e1, e2 := n - 1, 0, i, [], [], r1;
    } else {
      n' := n - 1;
      if !p.atLeastOne {
        c1, r1 := FirstStep(code, input, n - 1, c1, d, r1);
        n' := n - 2;
      }
      assert r1 == es;
      n', count, j, toks, e1, e2 := SoundLoop(code, p, lo, input, n', i, 0, i, [], i, d, r1);
      assert toks == [] + toks;
    }
  }

  /** The loop of `many`, entered in front of an element when `count` elements and a separator have been matched. */
  lemma {:induction false} SoundLoop(code: Code, p: Parser, lo: nat, input: seq<byte>, n: nat,
                                     i: nat, count: nat, k: nat, toks: seq<Token>, l: nat, d: Conf, es: seq<Event>)
    returns (n': nat, count': nat, j: nat, toks': seq<Token>, e1: seq<Event>, e2: seq<Event>)
    requires p.Many? && ManyCode(code, p, lo) && i <= k <= l <= |input|
    requires DenotesTimes(p, count, input, i, k, toks) && DenotesGap(p, count + 1, input, k, l)
    requires Reach(code, input, n, Conf(ManyMid(p, lo), l), d, es) && Outside(d, lo, ManyEnd(p, lo) + 1)
    ensures n' <= n && count' >= 1 && l <= j <= |input| && es == e1 + e2
    ensures DenotesTimes(p, count', input, i, j, toks + toks') && Pushes(code.acts, input, e1, toks')
    ensures Reach(code, input, n', Conf(ManyEnd(p, lo), j), d, e2)
    decreases p, 0, n
  {
    hide Reach, Pushes, RangeLow, RangeHigh, RangeArg, CodeFor, Denotes, DenotesTimes, Replay;
    var m1, j1, t1, f1, f2 := Sound(code, p.p, ManyMid(p, lo), input, n, l, d, es);
    TimesSnoc(p, count, input, i, k, toks, l, j1, t1);
    var c1, r1 := FirstStep(code, input, n - m1, Conf(ManyEnd(p, lo) - 1, j1), d, f2);
    if c1.ip == ManyEnd(p, lo) {
      n', count', j, toks', e1, e2 := n - m1 - 1, count + 1, j1, Toks(t1), f1, r1;
    } else {
      var n2, l2, g1, g2 := SoundGap(code, p, lo, input, n - m1 - 1, j1, count + 2, d, r1);
      n', count', j, toks', e1, e2 := SoundLoop(code, p, lo, input, n2, i, count + 1, j1, toks + Toks(t1), l2, d, g2);
      PushesConcat(code.acts, input, g1, [], e1, toks');
      PushesConcat(code.acts, input, f1, Toks(t1), g1 + e1, [] + toks');
      assert toks + (Toks(t1) + ([] + toks')) == toks + Toks(t1) + toks';
      assert es == (f1 + (g1 + e1)) + e2;
      toks', e1 := Toks(t1) + ([] + toks'), f1 + (g1 + e1);
    }
  }

  /** From the loop head to the front of the next element, over the separator if there is one. */
  lemma {:induction false} SoundGap(code: Code, p: Parser, lo: nat, input: seq<byte>, n: nat, k: nat, count: nat, d: Conf, es: seq<Event>)
    returns (n': nat, l: nat, e1: seq<Event>, e2: seq<Event>)
    requires p.Many? && ManyCode(code, p, lo) && k <= |input| && count > 1
    requires Reach(code, input, n, Conf(ManyNext(p, lo), k), d, es) && Outside(d, lo, ManyEnd(p, lo) + 1)
    ensures n' <= n && k <= l <= |input| && es == e1 + e2
    ensures DenotesGap(p, count, input, k, l) && Pushes(code.acts, input, e1, [])
    ensures Reach(code, input, n', Conf(ManyMid(p, lo), l), d, e2)
    decreases p, 0, 0
  {
    hide Reach, Pushes, RangeLow, RangeHigh, RangeArg, CodeFor, Denotes;
    if p.sep.Some? {
      var c1, r1 := FirstStep(code, input, n, Conf(ManyNext(p, lo), k), d, es);
      var m, j, u, f1, f2 := Sound(code, p.sep.value, ManyNext(p, lo) + 1, input, n - 1, k, d, r1);
      var c2, r2 := FirstStep(code, input, n - 1 - m, Conf(ManyMid(p, lo) - 1, j), d, f2);
      var last := Emits(code, Conf(ManyMid(p, lo) - 1, j))[0];
      PushesCleared(code.acts, input, k, f1, Toks(u), last);
      n', l, e1, e2 := n - 2 - m, j, [Event(SVM_PUSH, 0, k)] + f1 + [last], r2;
    } else {
      PushesNothing(code.acts, input);
      n', l, e1, e2 := n, k, [], es;
    }
  }
}
