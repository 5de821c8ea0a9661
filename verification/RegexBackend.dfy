/** The regex backend as a whole: compile, simulate, replay.  What an accepting run can return is
    exactly what the combinator denotes, and every result of the simulation comes from such a run. */
module RegexBackend {
  import opened Basics
  import opened RegularLanguage
  import opened RvmCode
  import opened Svm
  import opened RvmPaths
  import opened SvmMachine
  import opened RegexCompiler
  import opened RegexSoundness
  import opened RegexCompleteness
  import opened RvmThreads
  import opened RvmCoverage
  import opened RvmDeterminism
  import opened RvmDriver

  // ----- every jump stays inside the code of its combinator

  ghost predicate InsnInside(code: Code, insn: Insn, lo: nat, hi: nat) {
    && insn.op != ACCEPT
    && (insn.op == FORK || insn.op == GOTO ==> lo <= insn.arg <= hi)
    && (insn.op == ACTION ==> insn.arg < |code.acts|)
  }

  /** Instructions `from .. to` belong to the region `lo .. hi`. */
  ghost predicate Inside(code: Code, from: nat, to: nat, lo: nat, hi: nat) {
    forall k: nat :: from <= k < to ==> k < |code.insns| && InsnInside(code, code.insns[k], lo, hi)
  }

  lemma {:induction false} JumpsInside(code: Code, p: Parser, lo: nat)
    requires CodeFor(code, p, lo)
    ensures Inside(code, lo, lo + Len(p), lo, lo + Len(p))
    decreases p, 1
  {
    hide ChCode, CharsetCode, LiteralCode, SequenceCode, ChoiceCode, ManyCode, RepeatCode, OptionalCode, WhitespaceCode;
    hide LenUpto, Rep, Runs, RangeArg;
    match p
    case Ch(_) => ChInside(code, p, lo);
    case Charset(chars) => CharsetInside(code, chars, lo);
    case Literal(str) => LiteralInside(code, str, lo);
    case Sequence(_) => SequenceInside(code, p, lo);
    case Choice(_) => ChoiceInside(code, p, lo);
    case Many(_, _, _) => ManyInside(code, p, lo);
    case RepeatN(_, _) => RepeatInside(code, p, lo);
    case Optional(_) => OptionalInside(code, p, lo);
    case Whitespace(_) => WhitespaceInside(code, p, lo);
    case Epsilon =>
    case End =>
    case Nothing =>
  }

  lemma ChInside(code: Code, p: Parser, lo: nat)
    requires p.Ch? && ChCode(code, p.c, lo)
    ensures Inside(code, lo, lo + Len(p), lo, lo + Len(p))
  {
    hide RangeArg;
  }

  lemma InsideAt(code: Code, lo: nat, hi: nat, k: nat)
    requires Inside(code, lo, hi, lo, hi) && lo <= k < hi
    ensures k < |code.insns| && InsnInside(code, code.insns[k], lo, hi)
  {
  }

  lemma {:induction false} OptionalInside(code: Code, p: Parser, lo: nat)
    requires p.Optional? && OptionalCode(code, p, lo)
    ensures Inside(code, lo, lo + Len(p), lo, lo + Len(p))
    decreases p, 0
  {
    hide CodeFor;
    JumpsInside(code, p.p, lo + 2);
    var hi := lo + Len(p);
    forall k: nat | lo <= k < hi ensures k < |code.insns| && InsnInside(code, code.insns[k], lo, hi) {
      if lo + 2 <= k < lo + 2 + Len(p.p) {
        InsideAt(code, lo + 2, lo + 2 + Len(p.p), k);
      }
    }
  }

  lemma {:induction false} WhitespaceInside(code: Code, p: Parser, lo: nat)
    requires p.Whitespace? && WhitespaceCode(code, p, lo)
    ensures Inside(code, lo, lo + Len(p), lo, lo + Len(p))
    decreases p, 0
  {
    hide CodeFor;
    JumpsInside(code, p.p, lo + 8);
    SpaceInside(code, p, lo, lo + Len(p));
  }

  lemma SpaceInside(code: Code, p: Parser, lo: nat, hi: nat)
    requires p.Whitespace? && WhitespaceCode(code, p, lo) && hi == lo + 8 + Len(p.p) && Inside(code, lo + 8, hi, lo + 8, hi)
    ensures Inside(code, lo, hi, lo, hi)
  {
    hide CodeFor, RangeArg, Len;
    assert lo + 8 <= |code.insns|;
    if lo + 8 < hi {
      InsideAt(code, lo + 8, hi, hi - 1);
    }
    forall k: nat | lo <= k < hi ensures InsnInside(code, code.insns[k], lo, hi) {
      if k >= lo + 8 {
        InsideAt(code, lo + 8, hi, k);
      }
    }
  }

  lemma CharsetInside(code: Code, chars: set<byte>, lo: nat)
    requires CharsetCode(code, chars, lo)
    ensures Inside(code, lo, lo + Len(Charset(chars)), lo, lo + Len(Charset(chars)))
  {
    hide Runs, RangeArg;
    var rs := Runs(chars, 257);
    var hi := lo + 3 * |rs| + 5;
    forall k: nat | lo <= k < hi ensures k < |code.insns| && InsnInside(code, code.insns[k], lo, hi) {
      if lo < k <= lo + 3 * |rs| {
        assert CharsetRun(code, rs[(k - lo - 1) / 3], lo + 1 + 3 * ((k - lo - 1) / 3), lo + 3 * |rs| + 2);
      }
    }
  }

  lemma LiteralInside(code: Code, str: seq<byte>, lo: nat)
    requires LiteralCode(code, str, lo)
    ensures Inside(code, lo, lo + 2 * |str| + 2, lo, lo + 2 * |str| + 2)
  {
    hide RangeArg;
    var hi := lo + 2 * |str| + 2;
    forall k: nat | lo <= k < hi ensures k < |code.insns| && InsnInside(code, code.insns[k], lo, hi) {
      if lo < k <= lo + 2 * |str| {
        assert LiteralByte(code, str[(k - lo - 1) / 2], lo + 1 + 2 * ((k - lo - 1) / 2));
      }
    }
  }

  lemma {:induction false} SequenceInside(code: Code, p: Parser, lo: nat)
    requires p.Sequence? && SequenceCode(code, p.ps, lo)
    ensures Inside(code, lo, lo + Len(p), lo, lo + Len(p))
    decreases p, 0
  {
    hide CodeFor, LenUpto;
    var ps := p.ps;
    var at, k := lo + 1, 0;
    LenUptoZero(ps);
    while k < |ps|
      invariant k <= |ps| && at == lo + 1 + LenUpto(ps, k) <= lo + Len(p)
      invariant Inside(code, lo, at, lo, lo + Len(p))
    {
      LenUptoStep(ps, k);
      JumpsInside(code, ps[k], at);
      at, k := at + Len(ps[k]), k + 1;
    }
  }

  lemma {:induction false} ChoiceInside(code: Code, p: Parser, lo: nat)
    requires p.Choice? && ChoiceCode(code, p.ps, lo)
    ensures Inside(code, lo, lo + Len(p), lo, lo + Len(p))
    decreases p, 0
  {
    hide CodeFor, LenUpto;
    var ps := p.ps;
    var jump := AltStart(ps, |ps|, lo) + 1;
    var at: nat, k := lo, 0;
    LenUptoZero(ps);
    LenUptoMonotone(ps, 0, |ps|);
    while k < |ps|
      invariant k <= |ps| && at == AltStart(ps, k, lo) < jump == lo + Len(p)
      invariant Inside(code, lo, at, lo, jump)
    {
      LenUptoStep(ps, k);
      assert CodeFor(code, ps[k], AltStart(ps, k, lo) + 1) && AltFrame(code, ps, k, lo, jump);
      JumpsInside(code, ps[k], at + 1);
      AlternativeInside(code, ps, k, lo, jump);
      at, k := at + Len(ps[k]) + 2, k + 1;
    }
  }

  lemma AlternativeInside(code: Code, ps: seq<Parser>, k: nat, lo: nat, jump: nat)
    requires k < |ps| && AltFrame(code, ps, k, lo, jump) && AltStart(ps, k + 1, lo) <= jump
    requires AltStart(ps, k + 1, lo) == AltStart(ps, k, lo) + Len(ps[k]) + 2
    requires Inside(code, AltStart(ps, k, lo) + 1, AltStart(ps, k, lo) + 1 + Len(ps[k]),
                    AltStart(ps, k, lo) + 1, AltStart(ps, k, lo) + 1 + Len(ps[k]))
    ensures Inside(code, AltStart(ps, k, lo), AltStart(ps, k + 1, lo), lo, jump)
  {
    hide LenUpto, Len;
  }

  lemma {:induction false} ManyInside(code: Code, p: Parser, lo: nat)
    requires p.Many? && ManyCode(code, p, lo)
    ensures Inside(code, lo, lo + Len(p), lo, lo + Len(p))
    decreases p, 0
  {
    hide CodeFor;
    if p.sep.Some? {
      JumpsInside(code, p.sep.value, ManyNext(p, lo) + 1);
    }
    JumpsInside(code, p.p, ManyMid(p, lo));
  }

  lemma {:induction false} RepeatInside(code: Code, p: Parser, lo: nat)
    requires p.RepeatN? && RepeatCode(code, p, lo)
    ensures Inside(code, lo, lo + Len(p), lo, lo + Len(p))
    decreases p, 0
  {
    hide CodeFor;
    var size, k := Len(p.p), 0;
    while k < p.n
      invariant k <= p.n && lo + 1 + Rep(k, size) <= lo + Len(p)
      invariant Inside(code, lo, lo + 1 + Rep(k, size), lo, lo + Len(p))
    {
      RepStep(k, p.n, size);
      JumpsInside(code, p.p, lo + 1 + Rep(k, size));
      k := k + 1;
    }
  }

  // ----- the compiled program

  /** The code of `p` from address 0, closed by an ACCEPT. */
  ghost predicate ProgramFor(code: Code, p: Parser) {
    |code.insns| == Len(p) + 1 && CodeFor(code, p, 0) && At(code, Len(p), ACCEPT, 0)
  }

  lemma ProgramWellFormed(code: Code, p: Parser)
    requires ProgramFor(code, p)
    ensures WellFormed(code)
    ensures forall k :: 0 <= k < |code.insns| && code.insns[k].op == ACCEPT ==> k == Len(p)
  {
    hide CodeFor;
    JumpsInside(code, p, 0);
    forall k | 0 <= k < |code.insns| ensures StaysInside(code, k) && (code.insns[k].op == ACCEPT ==> k == Len(p)) {
      if k < Len(p) {
        assert InsnInside(code, code.insns[k], 0, 0 + Len(p));
      }
    }
  }

  method CompileRegex(p: Parser) returns (prog: Program)
    ensures fresh(prog) && |prog.insns| == Len(p) + 1
    ensures Len(p) < ADDRESS_SPACE ==> ProgramFor(prog.View(), p) && WellFormed(prog.View())
  {
    hide CodeFor;
    prog := new Program();
    prog.Compile(p);
    ghost var body := prog.View();
    var _ := prog.InsertInsn(ACCEPT, 0);
    if Len(p) < ADDRESS_SPACE {
      CodeForFrame(body, prog.View(), p, 0);
      ProgramWellFormed(prog.View(), p);
    }
  }

  lemma {:induction false} NoAcceptOnTheWay(code: Code, input: seq<byte>, n: nat, c: Conf, d: Conf, es: seq<Event>)
    requires Reach(code, input, n, c, d, es)
    ensures forall k :: 0 <= k < |es| ==> es[k].op != SVM_ACCEPT
    decreases n, 1
  {
    if n > 0 {
      hide Reach;
      var e := Emits(code, c);
      var rest := StepBehind(code, input, n, c, d, es);
      assert es == e + rest;
    }
  }

  lemma {:induction false} StepBehind(code: Code, input: seq<byte>, n: nat, c: Conf, d: Conf, es: seq<Event>) returns (rest: seq<Event>)
    requires Reach(code, input, n, c, d, es) && n > 0
    ensures es == Emits(code, c) + rest && Succs(code, input, c) != []
    ensures forall k :: 0 <= k < |rest| ==> rest[k].op != SVM_ACCEPT
    decreases n, 0
  {
    hide Emits, Succs;
    var e := Emits(code, c);
    var k :| 0 <= k < |Succs(code, input, c)| && Reach(code, input, n - 1, Succs(code, input, c)[k], d, es[|e|..]);
    rest := es[|e|..];
    NoAcceptOnTheWay(code, input, n - 1, Succs(code, input, c)[k], d, rest);
  }

  /** Some accepting run of the program ends at offset `j` and its replay returns the token `t`. */
  ghost predicate Returns(code: Code, input: seq<byte>, j: nat, t: Option<Token>) {
    exists es, c :: AcceptingRun(code, input, es, c) && c.off == j
      && RunSpec(code.acts, input, [], FullTrace(es, c)) == Some(ParseResult(t, j * 8))
  }

  /** Compilation preserves meaning: accepting runs and their replays are the matches and their tokens. */
  lemma CompiledMeaning(code: Code, p: Parser, input: seq<byte>, j: nat, t: Option<Token>)
    requires ProgramFor(code, p)
    ensures Returns(code, input, j, t) <==> j <= |input| && Denotes(p, input, 0, j, t)
  {
    hide CodeFor, Denotes, RunSpec;
    if Returns(code, input, j, t) {
      var es, c :| AcceptingRun(code, input, es, c) && c.off == j
        && RunSpec(code.acts, input, [], FullTrace(es, c)) == Some(ParseResult(t, j * 8));
      var u := AcceptedMatch(code, p, input, es, c);
    }
    if j <= |input| && Denotes(p, input, 0, j, t) {
      var n, es := Complete(code, p, 0, input, 0, j, t);
      var c := Conf(Len(p), j);
      assert AcceptingRun(code, input, es, c);
      ReplayOfRun(code, input, n, c, es, t);
    }
  }

  /** An accepting run is a match, and its replay returns the token of that match. */
  lemma AcceptedMatch(code: Code, p: Parser, input: seq<byte>, es: seq<Event>, c: Conf) returns (t: Option<Token>)
    requires ProgramFor(code, p) && AcceptingRun(code, input, es, c)
    ensures Denotes(p, input, 0, c.off, t)
    ensures RunSpec(code.acts, input, [], FullTrace(es, c)) == Some(ParseResult(t, c.off * 8))
  {
    hide CodeFor, Denotes, RunSpec, Reach, Pushes;
    ProgramWellFormed(code, p);
    var n: nat :| Reach(code, input, n, Conf(0, 0), c, es);
    var m, j, u, e1, e2 := Sound(code, p, 0, input, n, 0, c, es);
    AcceptIsLast(code, input, n - m, Conf(Len(p), j), c, e2);
    assert es == e1;
    t := u;
    ReplayOfRun(code, input, n, c, es, t);
  }

  lemma AcceptIsLast(code: Code, input: seq<byte>, n: nat, c: Conf, d: Conf, es: seq<Event>)
    requires At(code, c.ip, ACCEPT, 0) && Reach(code, input, n, c, d, es)
    ensures c == d && es == []
  {
  }

  lemma ReplayOfRun(code: Code, input: seq<byte>, n: nat, c: Conf, es: seq<Event>, t: Option<Token>)
    requires Reach(code, input, n, Conf(0, 0), c, es) && Pushes(code.acts, input, es, Toks(t))
    ensures RunSpec(code.acts, input, [], FullTrace(es, c)) == Some(ParseResult(t, c.off * 8))
  {
    hide Replay, Reach;
    NoAcceptOnTheWay(code, input, n, Conf(0, 0), c, es);
    assert [] + Toks(t) == Toks(t);
    assert Replay(code.acts, input, [], es) == Some(Toks(t));
    RunSpecOfReplay(code.acts, input, [], es, c.off, t);
    assert FullTrace(es, c)[1..] == es + [Event(SVM_ACCEPT, 0, c.off)];
    assert RunSpec(code.acts, input, [], FullTrace(es, c)) == RunSpec(code.acts, input, [], FullTrace(es, c)[1..]);
  }

  /** Compile and parse: a result is always a match of the combinator from the start of the input, with its token. */
  method Parse(p: Parser, input: seq<byte>) returns (r: Option<ParseResult>, ghost code: Code)
    requires Len(p) < ADDRESS_SPACE
    ensures ProgramFor(code, p) && WellFormed(code)
    ensures var tr := Simulated(code, input); r == if tr == None then None else RunSpec(code.acts, input, [], Reversed(Events(tr.value)))
    ensures r.Some? ==> exists j: nat, t :: j <= |input| && Denotes(p, input, 0, j, t) && r == Some(ParseResult(t, j * 8))
    ensures Deterministic(p) ==> Longest(p, input, r)
  {
    hide CodeFor, Denotes, RunSpec, AcceptingRun, WellFormed, Simulated, Deterministic, Longest;
    var prog := CompileRegex(p);
    code := prog.View();
    r := Run(Code(prog.insns, prog.actions), input);
    ReturnsMatch(code, p, input);
    if Deterministic(p) {
      ReturnsLongest(code, p, input);
    }
  }

  /** The first `j` bytes of the input match. */
  ghost predicate Matches(p: Parser, input: seq<byte>, j: nat) {
    j <= |input| && exists t :: Denotes(p, input, 0, j, t)
  }

  /** The result is a longest match, or there is no match at all. */
  ghost predicate Longest(p: Parser, input: seq<byte>, r: Option<ParseResult>) {
    match r
    case None => forall j: nat :: !Matches(p, input, j)
    case Some(res) => forall j: nat :: Matches(p, input, j) ==> j * 8 <= res.bitLength
  }

  /** What `h_rvm_run__m` returns for a program. */
  ghost function Returned(code: Code, input: seq<byte>): Option<ParseResult>
    requires WellFormed(code)
  {
    var tr := Simulated(code, input);
    if tr == None then None else RunSpec(code.acts, input, [], Reversed(Events(tr.value)))
  }

  lemma ReturnsMatch(code: Code, p: Parser, input: seq<byte>)
    requires ProgramFor(code, p) && WellFormed(code)
    ensures Simulated(code, input).Some? <==> Returned(code, input).Some?
    ensures var r := Returned(code, input);
      r.Some? ==> exists j: nat, t :: j <= |input| && Denotes(p, input, 0, j, t) && r == Some(ParseResult(t, j * 8))
  {
    hide CodeFor, Denotes, RunSpec, WellFormed, Simulated, AcceptingRun, Reversed, FullTrace;
    SimulatedSound(code, input);
    var tr := Simulated(code, input);
    if tr.Some? {
      var off: nat :| off <= |input| && AcceptedHere(code, input, off, tr.value);
      var t := ReturnedAt(code, p, input, off);
    }
  }

  lemma ReturnedAt(code: Code, p: Parser, input: seq<byte>, off: nat) returns (t: Option<Token>)
    requires ProgramFor(code, p) && WellFormed(code) && off <= |input|
    requires Simulated(code, input).Some? && AcceptedHere(code, input, off, Simulated(code, input).value)
    ensures Denotes(p, input, 0, off, t) && Returned(code, input) == Some(ParseResult(t, off * 8))
  {
    hide CodeFor, Denotes, RunSpec, WellFormed, Simulated, AcceptingRun, Reversed, FullTrace, Events;
    var es, c := RunOfAccepted(code, input, off, Simulated(code, input).value);
    ReversedTwice(FullTrace(es, c));
    t := AcceptedMatch(code, p, input, es, c);
  }

  /** An ACCEPT is visited at `off` or later. */
  ghost predicate SeesFrom(code: Code, input: seq<byte>, off: nat)
    requires WellFormed(code)
  {
    exists o: nat :: off <= o && Sees(code, input, o)
  }

  /** The result is longest exactly when the simulation sees an accepting run wherever a match ends, or a later one. */
  lemma LongestExactly(code: Code, p: Parser, input: seq<byte>)
    requires ProgramFor(code, p) && WellFormed(code)
    ensures Longest(p, input, Returned(code, input)) <==> forall j: nat :: Matches(p, input, j) ==> SeesFrom(code, input, j)
  {
    hide CodeFor, Matches, RunSpec, WellFormed, Simulated, AcceptedHere, Events, Reversed, Sees, AcceptsAt;
    SimulatedExact(code, input);
    forall o: nat ensures Sees(code, input, o) ==> Matches(p, input, o) {
      if Sees(code, input, o) {
        SeenAccepts(code, input, o);
        AcceptsMatches(code, p, input, o);
      }
    }
    forall o: nat | Matches(p, input, o) ensures o <= |input| {
      MatchInside(p, input, o);
    }
    var tr := Simulated(code, input);
    if tr.Some? {
      var off: nat :| off < |input| + 1 && Sees(code, input, off) && AcceptedHere(code, input, off, tr.value)
        && forall o: nat :: off < o < |input| + 1 ==> !Sees(code, input, o);
      var t := ReturnedAt(code, p, input, off);
      assert forall o: nat :: SeesFrom(code, input, o) <==> o <= off;
    } else {
      assert forall o: nat :: !SeesFrom(code, input, o);
    }
  }

  lemma MatchInside(p: Parser, input: seq<byte>, j: nat)
    requires Matches(p, input, j)
    ensures j <= |input|
  {
    hide Denotes;
  }

  /** For a deterministic combinator the result is a longest match, or there is no match. */
  lemma ReturnsLongest(code: Code, p: Parser, input: seq<byte>)
    requires ProgramFor(code, p) && WellFormed(code) && Deterministic(p)
    ensures Longest(p, input, Returned(code, input))
  {
    hide CodeFor, WellFormed, Deterministic, Longest, SingleHead, Reachable, Visited, Matches;
    DeterministicSingle(code, p, input);
    LongestExactly(code, p, input);
    forall o: nat | Matches(p, input, o) ensures SeesFrom(code, input, o) {
      MatchInside(p, input, o);
      AcceptsMatches(code, p, input, o);
      var ip: nat :| ip < |code.insns| && code.insns[ip].op == ACCEPT && Reachable(code, input, Conf(ip, o));
      SingleVisits(code, input, Conf(ip, o));
      assert Sees(code, input, o);
    }
  }

  lemma AcceptsMatches(code: Code, p: Parser, input: seq<byte>, j: nat)
    requires ProgramFor(code, p) && j <= |input|
    ensures AcceptsAt(code, input, j) <==> Matches(p, input, j)
  {
    hide CodeFor, Denotes, RunSpec, Reach;
    if AcceptsAt(code, input, j) {
      var ip: nat :| ip < |code.insns| && code.insns[ip].op == ACCEPT && Reachable(code, input, Conf(ip, j));
      var n: nat, es :| Reach(code, input, n, Conf(0, 0), Conf(ip, j), es);
      assert AcceptingRun(code, input, es, Conf(ip, j));
      var t := AcceptedMatch(code, p, input, es, Conf(ip, j));
    }
    if Matches(p, input, j) {
      var t :| Denotes(p, input, 0, j, t);
      MatchAccepts(code, p, input, j, t);
    }
  }

  lemma MatchAccepts(code: Code, p: Parser, input: seq<byte>, j: nat, t: Option<Token>)
    requires ProgramFor(code, p) && j <= |input| && Denotes(p, input, 0, j, t)
    ensures AcceptsAt(code, input, j)
  {
    hide CodeFor, Denotes, RunSpec, Reach;
    CompiledMeaning(code, p, input, j, t);
    var es, c :| AcceptingRun(code, input, es, c) && c.off == j && RunSpec(code.acts, input, [], FullTrace(es, c)) == Some(ParseResult(t, j * 8));
    assert Reachable(code, input, Conf(c.ip, j));
  }
}
