/** The regex virtual machine's instructions, and the shape of the code each combinator owns. */
module RvmCode {
  import opened Basics
  import opened RegularLanguage

  datatype Op = ACCEPT | GOTO | FORK | PUSH | ACTION | CAPTURE | EOF | MATCH | STEP

  datatype Insn = Insn(op: Op, arg: nat)

  /** A stack-machine action: the C code compares a function pointer and an environment pointer. */
  datatype Action =
    | ChAction(c: byte)
    | CharsetAction(chars: set<byte>)
    | ClearToMark
    | MakeSequence
    | OptionalAction

  datatype Code = Code(insns: seq<Insn>, acts: seq<Action>)

  /** Jump targets and action numbers are stored in sixteen bits. */
  const ADDRESS_SPACE := 0x1_0000

  function Trunc16(n: nat): nat {
    n % ADDRESS_SPACE
  }

  function RangeLow(arg: nat): nat {
    arg % 256
  }

  function RangeHigh(arg: nat): nat {
    arg / 256 % 256
  }

  /** A MATCH argument: upper bound in the high byte, lower bound in the low byte. */
  function RangeArg(lo: byte, hi: byte): (arg: nat)
    ensures RangeLow(arg) == lo && RangeHigh(arg) == hi && arg < ADDRESS_SPACE
  {
    lo + 256 * hi
  }

  // ----- maximal runs of a character set

  function RunStart(chars: set<byte>, k: nat): (s: nat)
    requires k in chars
    ensures s <= k && s in chars && forall m :: s <= m <= k ==> m in chars
  {
    if k > 0 && k - 1 in chars then RunStart(chars, k - 1) else k
  }

  /** The maximal runs of `chars` that end before position `n - 1`, in increasing order. */
  function Runs(chars: set<byte>, n: nat): (rs: seq<(byte, byte)>)
    requires n <= 257
    ensures forall k :: 0 <= k < |rs| ==> rs[k].0 <= rs[k].1 < n
    ensures forall k, c: byte :: 0 <= k < |rs| && rs[k].0 <= c <= rs[k].1 ==> c in chars
  {
    if n == 0 then []
    else if n - 1 !in chars && n >= 2 && n - 2 in chars then
      Runs(chars, n - 1) + [(RunStart(chars, n - 2), n - 2)]
    else Runs(chars, n - 1)
  }

  /** The runs cover the set. */
  lemma {:induction false} RunsCover(chars: set<byte>, c: byte)
    requires c in chars
    ensures exists k :: 0 <= k < |Runs(chars, 257)| && Runs(chars, 257)[k].0 <= c <= Runs(chars, 257)[k].1
  {
    var e: nat := c;
    while e + 1 in chars
      invariant c <= e <= 255 && forall m :: c <= m <= e ==> m in chars
      decreases 256 - e
    {
      e := e + 1;
    }
    RunStartLow(chars, e, c);
    var k := RunRecorded(chars, 257, e);
  }

  lemma {:induction false} RunRecorded(chars: set<byte>, n: nat, e: byte) returns (k: nat)
    requires e + 2 <= n <= 257 && e in chars && e + 1 !in chars
    ensures k < |Runs(chars, n)| && Runs(chars, n)[k] == (RunStart(chars, e), e)
  {
    hide RunStart;
    if n == e + 2 {
      k := |Runs(chars, n)| - 1;
    } else {
      k := RunRecorded(chars, n - 1, e);
    }
  }

  lemma {:induction false} RunStartLow(chars: set<byte>, e: nat, c: nat)
    requires c <= e && forall m :: c <= m <= e ==> m in chars
    ensures RunStart(chars, e) <= c
  {
    if c < e {
      RunStartLow(chars, e - 1, c);
    }
  }

  // ----- code sizes

  function Rep(k: nat, size: nat): nat {
    if k == 0 then 0 else Rep(k - 1, size) + size
  }

  function Len(p: Parser): nat
    decreases p, 0
  {
    match p
    case Ch(_) => 5
    case Charset(chars) => 3 * |Runs(chars, 257)| + 5
    case Literal(str) => 2 * |str| + 2
    case Sequence(ps) => LenUpto(ps, |ps|) + 2
    case Choice(ps) => LenUpto(ps, |ps|) + 2 * |ps| + 1
    case Many(q, sep, atLeastOne) =>
      (if atLeastOne then 4 else 5) + (if sep.Some? then Len(sep.value) + 2 else 0) + Len(q)
    case RepeatN(q, n) => Rep(n, Len(q)) + 2
    case Optional(q) => Len(q) + 3
    case Whitespace(q) => Len(q) + 8
    case Epsilon => 0
    case End => 1
    case Nothing => 2
  }

  function LenUpto(ps: seq<Parser>, k: nat): nat
    requires k <= |ps|
    decreases ps, k
  {
    if k == 0 then 0 else LenUpto(ps, k - 1) + Len(ps[k - 1])
  }

  lemma LenUptoZero(ps: seq<Parser>)
    ensures LenUpto(ps, 0) == 0
  {
  }

  lemma {:induction false} LenUptoStep(ps: seq<Parser>, k: nat)
    requires k < |ps|
    ensures LenUpto(ps, k + 1) == LenUpto(ps, k) + Len(ps[k]) <= LenUpto(ps, |ps|)
  {
    hide Len;
    LenUptoMonotone(ps, k + 1, |ps|);
  }

  lemma {:induction false} LenUptoMonotone(ps: seq<Parser>, k: nat, l: nat)
    requires k <= l <= |ps|
    ensures LenUpto(ps, k) <= LenUpto(ps, l)
    decreases l
  {
    hide Len;
    if k < l {
      LenUptoMonotone(ps, k, l - 1);
    }
  }

  lemma RepStep(k: nat, l: nat, size: nat)
    requires k < l
    ensures Rep(k + 1, size) == Rep(k, size) + size <= Rep(l, size)
    decreases l
  {
    if k + 1 < l {
      RepStep(k, l - 1, size);
    }
  }

  // ----- the code of a combinator

  ghost predicate At(code: Code, k: nat, op: Op, arg: nat) {
    k < |code.insns| && code.insns[k] == Insn(op, arg)
  }

  ghost predicate ActAt(code: Code, k: nat, a: Action) {
    && k < |code.insns|
    && code.insns[k].op == ACTION
    && code.insns[k].arg < |code.acts|
    && code.acts[code.insns[k].arg] == a
  }

  // The addresses inside the code of `many` and its relatives.
  function ManyGoto(m: Parser, lo: nat): nat
    requires m.Many?
  {
    if m.atLeastOne then lo + 1 else lo + 2
  }

  function ManyNext(m: Parser, lo: nat): nat
    requires m.Many?
  {
    ManyGoto(m, lo) + 1
  }

  function ManyMid(m: Parser, lo: nat): nat
    requires m.Many?
  {
    ManyNext(m, lo) + if m.sep.Some? then Len(m.sep.value) + 2 else 0
  }

  function ManyEnd(m: Parser, lo: nat): nat
    requires m.Many?
  {
    ManyMid(m, lo) + Len(m.p) + 1
  }

  /** Instructions `lo .. lo + Len(p)` are the code of `p`. */
  ghost predicate CodeFor(code: Code, p: Parser, lo: nat)
    decreases p, 1
  {
    match p
    case Ch(c) => ChCode(code, c, lo)
    case Charset(chars) => CharsetCode(code, chars, lo)
    case Literal(str) => LiteralCode(code, str, lo)
    case Sequence(ps) => SequenceCode(code, ps, lo)
    case Choice(ps) => ChoiceCode(code, ps, lo)
    case Many(_, _, _) => ManyCode(code, p, lo)
    case RepeatN(_, _) => RepeatCode(code, p, lo)
    case Optional(_) => OptionalCode(code, p, lo)
    case Whitespace(_) => WhitespaceCode(code, p, lo)
    case Epsilon => true
    case End => At(code, lo, EOF, 0)
    case Nothing => At(code, lo, MATCH, RangeArg(0, 0)) && At(code, lo + 1, MATCH, RangeArg(255, 255))
  }

  ghost predicate ChCode(code: Code, c: byte, lo: nat) {
    && At(code, lo, PUSH, 0) && At(code, lo + 1, MATCH, RangeArg(c, c)) && At(code, lo + 2, STEP, 0)
    && At(code, lo + 3, CAPTURE, 0) && ActAt(code, lo + 4, ChAction(c))
  }

  ghost predicate CharsetCode(code: Code, chars: set<byte>, lo: nat) {
    var rs := Runs(chars, 257);
    var jump := lo + 3 * |rs| + 2;
    && At(code, lo, PUSH, 0)
    && (forall k: nat :: k < |rs| ==> CharsetRun(code, rs[k], lo + 1 + 3 * k, jump))
    && At(code, jump - 1, MATCH, RangeArg(255, 0)) && At(code, jump, STEP, 0)
    && At(code, jump + 1, CAPTURE, 0) && ActAt(code, jump + 2, CharsetAction(chars))
  }

  ghost predicate LiteralCode(code: Code, str: seq<byte>, lo: nat) {
    && At(code, lo, PUSH, 0)
    && (forall k: nat :: k < |str| ==> LiteralByte(code, str[k], lo + 1 + 2 * k))
    && At(code, lo + 1 + 2 * |str|, CAPTURE, 0)
  }

  ghost predicate SequenceCode(code: Code, ps: seq<Parser>, lo: nat)
    decreases ps, 0
  {
    && At(code, lo, PUSH, 0)
    && (forall k: nat :: k < |ps| ==> CodeFor(code, ps[k], lo + 1 + LenUpto(ps, k)))
    && ActAt(code, lo + 1 + LenUpto(ps, |ps|), MakeSequence)
  }

  ghost predicate ChoiceCode(code: Code, ps: seq<Parser>, lo: nat)
    decreases ps, 0
  {
    var jump := AltStart(ps, |ps|, lo) + 1;
    && (forall k: nat :: k < |ps| ==>
          && CodeFor(code, ps[k], AltStart(ps, k, lo) + 1)
          && AltFrame(code, ps, k, lo, jump))
    && At(code, jump - 1, MATCH, RangeArg(255, 0))
  }

  ghost predicate ManyCode(code: Code, m: Parser, lo: nat)
    requires m.Many?
    decreases m, 0
  {
    && At(code, lo, PUSH, 0)
    && (!m.atLeastOne ==> At(code, lo + 1, FORK, ManyEnd(m, lo)))
    && At(code, ManyGoto(m, lo), GOTO, ManyMid(m, lo))
    && (m.sep.Some? ==>
          && At(code, ManyNext(m, lo), PUSH, 0)
          && CodeFor(code, m.sep.value, ManyNext(m, lo) + 1)
          && ActAt(code, ManyMid(m, lo) - 1, ClearToMark))
    && CodeFor(code, m.p, ManyMid(m, lo))
    && At(code, ManyEnd(m, lo) - 1, FORK, ManyNext(m, lo))
    && ActAt(code, ManyEnd(m, lo), MakeSequence)
  }

  ghost predicate RepeatCode(code: Code, m: Parser, lo: nat)
    requires m.RepeatN?
    decreases m, 0
  {
    && At(code, lo, PUSH, 0)
    && (forall k: nat :: k < m.n ==> CodeFor(code, m.p, lo + 1 + Rep(k, Len(m.p))))
    && ActAt(code, lo + 1 + Rep(m.n, Len(m.p)), MakeSequence)
  }

  ghost predicate OptionalCode(code: Code, m: Parser, lo: nat)
    requires m.Optional?
    decreases m, 0
  {
    && At(code, lo, PUSH, 0) && At(code, lo + 1, FORK, lo + 2 + Len(m.p))
    && CodeFor(code, m.p, lo + 2) && ActAt(code, lo + 2 + Len(m.p), OptionalAction)
  }

  ghost predicate WhitespaceCode(code: Code, m: Parser, lo: nat)
    requires m.Whitespace?
    decreases m, 0
  {
    && SpaceRun(code, lo, lo, RangeArg(9, 13)) && SpaceRun(code, lo, lo + 4, RangeArg(32, 32))
    && CodeFor(code, m.p, lo + 8)
  }

  ghost predicate CharsetRun(code: Code, r: (byte, byte), at: nat, jump: nat) {
    At(code, at, FORK, at + 3) && At(code, at + 1, MATCH, RangeArg(r.0, r.1)) && At(code, at + 2, GOTO, jump)
  }

  ghost predicate LiteralByte(code: Code, b: byte, at: nat) {
    At(code, at, MATCH, RangeArg(b, b)) && At(code, at + 1, STEP, 0)
  }

  ghost predicate SpaceRun(code: Code, start: nat, at: nat, range: nat) {
    && At(code, at, FORK, at + 4) && At(code, at + 1, MATCH, range)
    && At(code, at + 2, STEP, 0) && At(code, at + 3, GOTO, start)
  }

  /** Where the `k`-th alternative of a choice begins. */
  function AltStart(ps: seq<Parser>, k: nat, lo: nat): nat
    requires k <= |ps|
  {
    lo + LenUpto(ps, k) + 2 * k
  }

  ghost predicate AltFrame(code: Code, ps: seq<Parser>, k: nat, lo: nat, jump: nat)
    requires k < |ps|
  {
    && At(code, AltStart(ps, k, lo), FORK, AltStart(ps, k + 1, lo))
    && At(code, AltStart(ps, k + 1, lo) - 1, GOTO, jump)
  }

  // ----- code does not depend on what lies outside its region

  ghost predicate Agree(a: Code, b: Code, lo: nat, hi: nat) {
    && lo <= hi <= |a.insns| && hi <= |b.insns|
    && (forall k :: lo <= k < hi ==> a.insns[k] == b.insns[k])
    && a.acts <= b.acts
  }

  lemma {:induction false} CodeForFrame(a: Code, b: Code, p: Parser, lo: nat)
    requires CodeFor(a, p, lo) && Agree(a, b, lo, lo + Len(p))
    ensures CodeFor(b, p, lo)
    decreases p, 1
  {
    hide CharsetCode, LiteralCode, SequenceCode, ChoiceCode, ManyCode, RepeatCode, OptionalCode, WhitespaceCode, LenUpto;
    match p
    case Ch(_) =>
    case Charset(chars) => CharsetFrame(a, b, chars, lo);
    case Literal(str) => LiteralFrame(a, b, str, lo);
    case Sequence(ps) => SequenceFrame(a, b, ps, lo);
    case Choice(ps) => ChoiceFrame(a, b, ps, lo);
    case Many(_, _, _) => ManyFrame(a, b, p, lo);
    case RepeatN(_, _) => RepeatFrame(a, b, p, lo);
    case Optional(_) => OptionalFrame(a, b, p, lo);
    case Whitespace(_) => WhitespaceFrame(a, b, p, lo);
    case Epsilon =>
    case End =>
    case Nothing =>
  }

  lemma CharsetFrame(a: Code, b: Code, chars: set<byte>, lo: nat)
    requires CharsetCode(a, chars, lo) && Agree(a, b, lo, lo + Len(Charset(chars)))
    ensures CharsetCode(b, chars, lo)
  {
    var rs := Runs(chars, 257);
    var jump := lo + 3 * |rs| + 2;
    forall k: nat | k < |rs| ensures CharsetRun(b, rs[k], lo + 1 + 3 * k, jump) {
      assert CharsetRun(a, rs[k], lo + 1 + 3 * k, jump);
    }
  }

  lemma LiteralFrame(a: Code, b: Code, str: seq<byte>, lo: nat)
    requires LiteralCode(a, str, lo) && Agree(a, b, lo, lo + Len(Literal(str)))
    ensures LiteralCode(b, str, lo)
  {
    forall k: nat | k < |str| ensures LiteralByte(b, str[k], lo + 1 + 2 * k) {
      assert LiteralByte(a, str[k], lo + 1 + 2 * k);
    }
  }

  lemma {:induction false} SequenceFrame(a: Code, b: Code, ps: seq<Parser>, lo: nat)
    requires SequenceCode(a, ps, lo) && Agree(a, b, lo, lo + LenUpto(ps, |ps|) + 2)
    ensures SequenceCode(b, ps, lo)
    decreases ps, 0
  {
    hide CodeFor, Len, LenUpto;
    forall k: nat | k < |ps| ensures CodeFor(b, ps[k], lo + 1 + LenUpto(ps, k)) {
      LenUptoStep(ps, k);
      CodeForFrame(a, b, ps[k], lo + 1 + LenUpto(ps, k));
    }
  }

  lemma {:induction false} ChoiceFrame(a: Code, b: Code, ps: seq<Parser>, lo: nat)
    requires ChoiceCode(a, ps, lo) && Agree(a, b, lo, AltStart(ps, |ps|, lo) + 1)
    ensures ChoiceCode(b, ps, lo)
    decreases ps, 0
  {
    hide CodeFor, Len, LenUpto;
    var jump := AltStart(ps, |ps|, lo) + 1;
    forall k: nat | k < |ps|
      ensures CodeFor(b, ps[k], AltStart(ps, k, lo) + 1) && AltFrame(b, ps, k, lo, jump)
    {
      LenUptoStep(ps, k);
      assert CodeFor(a, ps[k], AltStart(ps, k, lo) + 1) && AltFrame(a, ps, k, lo, jump);
      CodeForFrame(a, b, ps[k], AltStart(ps, k, lo) + 1);
    }
  }

  lemma {:induction false} ManyFrame(a: Code, b: Code, m: Parser, lo: nat)
    requires m.Many? && ManyCode(a, m, lo) && Agree(a, b, lo, ManyEnd(m, lo) + 1)
    ensures ManyCode(b, m, lo)
    decreases m, 0
  {
    hide CodeFor;
    if m.sep.Some? {
      CodeForFrame(a, b, m.sep.value, ManyNext(m, lo) + 1);
    }
    CodeForFrame(a, b, m.p, ManyMid(m, lo));
  }

  lemma {:induction false} OptionalFrame(a: Code, b: Code, m: Parser, lo: nat)
    requires m.Optional? && OptionalCode(a, m, lo) && Agree(a, b, lo, lo + Len(m.p) + 3)
    ensures OptionalCode(b, m, lo)
    decreases m, 0
  {
    hide CodeFor;
    CodeForFrame(a, b, m.p, lo + 2);
  }

  lemma {:induction false} WhitespaceFrame(a: Code, b: Code, m: Parser, lo: nat)
    requires m.Whitespace? && WhitespaceCode(a, m, lo) && Agree(a, b, lo, lo + Len(m.p) + 8)
    ensures WhitespaceCode(b, m, lo)
    decreases m, 0
  {
    hide CodeFor;
    CodeForFrame(a, b, m.p, lo + 8);
  }

  lemma {:induction false} RepeatFrame(a: Code, b: Code, m: Parser, lo: nat)
    requires m.RepeatN? && RepeatCode(a, m, lo) && Agree(a, b, lo, lo + Rep(m.n, Len(m.p)) + 2)
    ensures RepeatCode(b, m, lo)
    decreases m, 0
  {
    hide CodeFor;
    forall k: nat | k < m.n ensures CodeFor(b, m.p, lo + 1 + Rep(k, Len(m.p))) {
      RepStep(k, m.n, Len(m.p));
      CodeForFrame(a, b, m.p, lo + 1 + Rep(k, Len(m.p)));
    }
  }
}
