/** Code generation: each combinator appends its instructions to the program and patches forward jumps. */
module RegexCompiler {
  import opened Basics
  import opened RegularLanguage
  import opened RvmCode

  /** What compiling `p` does to a program.  The promise about the code itself holds as long as
      every address fits in sixteen bits; beyond that, patches may land elsewhere. */
  ghost predicate Emitted(before: Code, after: Code, p: Parser) {
    && |after.insns| == |before.insns| + Len(p)
    && before.acts <= after.acts
    && |after.acts| <= |after.insns|
    && (|after.insns| < ADDRESS_SPACE ==> before.insns <= after.insns && CodeFor(after, p, |before.insns|))
  }

  /** The range tests of some runs, their jumps going to `jump`. */
  ghost predicate RunsCode(code: Code, rs: seq<(byte, byte)>, at: nat, jump: nat) {
    forall k: nat :: k < |rs| ==> CharsetRun(code, rs[k], at + 3 * k, jump)
  }

  lemma RunsFrame(before: Code, after: Code, rs: seq<(byte, byte)>, at: nat, jump: nat)
    requires RunsCode(before, rs, at, jump) && before.insns <= after.insns
    ensures RunsCode(after, rs, at, jump)
  {
    hide RangeArg;
    forall k: nat | k < |rs| ensures CharsetRun(after, rs[k], at + 3 * k, jump) {
      assert CharsetRun(before, rs[k], at + 3 * k, jump);
    }
  }

  lemma RunsSnoc(before: Code, after: Code, rs: seq<(byte, byte)>, r: (byte, byte), at: nat)
    requires RunsCode(before, rs, at, 0) && before.insns <= after.insns && CharsetRun(after, r, at + 3 * |rs|, 0)
    ensures RunsCode(after, rs + [r], at, 0)
  {
    hide CharsetRun;
    RunsFrame(before, after, rs, at, 0);
    forall k: nat | k < |rs| + 1 ensures CharsetRun(after, (rs + [r])[k], at + 3 * k, 0) {
      if k < |rs| {
        assert CharsetRun(after, rs[k], at + 3 * k, 0);
      }
    }
  }

  ghost predicate TestsCode(code: Code, rs: seq<(byte, byte)>, lo: nat) {
    var jump := lo + 3 * |rs| + 2;
    At(code, lo, PUSH, 0) && RunsCode(code, rs, lo + 1, jump) && At(code, jump - 1, MATCH, RangeArg(255, 0)) && At(code, jump, STEP, 0)
  }

  lemma CharsetIntro(code: Code, chars: set<byte>, lo: nat)
    requires TestsCode(code, Runs(chars, 257), lo)
    requires var jump := lo + 3 * |Runs(chars, 257)| + 2;
      At(code, jump + 1, CAPTURE, 0) && ActAt(code, jump + 2, CharsetAction(chars))
    ensures CodeFor(code, Charset(chars), lo)
  {
    hide Runs, RangeArg, CharsetRun;
    assert CharsetCode(code, chars, lo);
  }

  lemma NoRuns(code: Code, chars: set<byte>, at: nat)
    ensures Runs(chars, 0) == [] && RunsCode(code, [], at, 0)
  {
  }

  class Program {
    var insns: seq<Insn>
    var actions: seq<Action>

    constructor ()
      ensures insns == [] && actions == []
    {
      insns, actions := [], [];
    }

    ghost function View(): Code
      reads this
    {
      Code(insns, actions)
    }

    method InsertInsn(op: Op, arg: nat) returns (ip: nat)
      requires arg < ADDRESS_SPACE
      modifies this`insns
      ensures insns == old(insns) + [Insn(op, arg)] && ip == Trunc16(|old(insns)|)
    {
      ip := Trunc16(|insns|);
      insns := insns + [Insn(op, arg)];
    }

    function GetIp(): nat
      reads this
    {
      Trunc16(|insns|)
    }

    method PatchArg(ip: nat, newVal: nat)
      requires ip < |insns| && newVal < ADDRESS_SPACE
      modifies this`insns
      ensures insns == old(insns)[ip := Insn(old(insns)[ip].op, newVal)]
    {
      insns := insns[ip := Insn(insns[ip].op, newVal)];
    }

    /** The number of an action, which is added to the table unless it is there already. */
    method CreateAction(a: Action) returns (id: nat)
      modifies this`actions
      ensures id < ADDRESS_SPACE && old(actions) <= actions && |actions| <= |old(actions)| + 1
      ensures |actions| <= ADDRESS_SPACE ==> id < |actions| && actions[id] == a
      ensures a in old(actions) ==> actions == old(actions)
    {
      for i := 0 to |actions|
        invariant a !in actions[..i]
      {
        if actions[i] == a {
          return Trunc16(i);
        }
      }
      id := Trunc16(|actions|);
      actions := actions + [a];
    }

    method Compile(p: Parser)
      requires |actions| <= |insns|
      modifies this
      ensures Emitted(old(View()), View(), p)
      decreases p, 3
    {
      hide CodeFor;
      match p
      case Ch(c) => ChCtrvm(p);
      case Charset(_) => CharsetCtrvm(p);
      case Literal(_) => LiteralCtrvm(p);
      case Sequence(_) => SequenceCtrvm(p);
      case Choice(_) => ChoiceCtrvm(p);
      case Many(_, _, _) => ManyCtrvm(p);
      case RepeatN(_, _) => RepeatCtrvm(p);
      case Optional(_) => OptionalCtrvm(p);
      case Whitespace(_) => WhitespaceCtrvm(p);
      case Epsilon => EpsilonCtrvm();
      case End => EndCtrvm();
      case Nothing => NothingCtrvm();
    }

    method EpsilonCtrvm()
      requires |actions| <= |insns|
      ensures Emitted(old(View()), View(), Epsilon)
    {
    }

    method EndCtrvm()
      requires |actions| <= |insns|
      modifies this
      ensures Emitted(old(View()), View(), End)
    {
      var _ := InsertInsn(EOF, 0);
    }

    method NothingCtrvm()
      requires |actions| <= |insns|
      modifies this
      ensures Emitted(old(View()), View(), Nothing)
    {
      var _ := InsertInsn(MATCH, RangeArg(0, 0));
      var _ := InsertInsn(MATCH, RangeArg(255, 255));
    }

    method ChCtrvm(p: Parser)
      requires p.Ch? && |actions| <= |insns|
      modifies this
      ensures Emitted(old(View()), View(), p)
    {
      var _ := InsertInsn(PUSH, 0);
      var _ := InsertInsn(MATCH, RangeArg(p.c, p.c));
      var _ := InsertInsn(STEP, 0);
      var _ := InsertInsn(CAPTURE, 0);
      var id := CreateAction(ChAction(p.c));
      var _ := InsertInsn(ACTION, id);
    }

    method LiteralCtrvm(p: Parser)
      requires p.Literal? && |actions| <= |insns|
      modifies this
      ensures Emitted(old(View()), View(), p)
    {
      ghost var lo := |insns|;
      var _ := InsertInsn(PUSH, 0);
      for i := 0 to |p.str|
        invariant |insns| == lo + 1 + 2 * i && old(insns) <= insns && actions == old(actions)
        invariant At(View(), lo, PUSH, 0)
        invariant forall k: nat :: k < i ==> LiteralByte(View(), p.str[k], lo + 1 + 2 * k)
      {
        ghost var before := View();
        var _ := InsertInsn(MATCH, RangeArg(p.str[i], p.str[i]));
        var _ := InsertInsn(STEP, 0);
        forall k: nat | k < i + 1 ensures LiteralByte(View(), p.str[k], lo + 1 + 2 * k) {
          if k < i {
            assert LiteralByte(before, p.str[k], lo + 1 + 2 * k);
          }
        }
      }
      ghost var before := View();
      var _ := InsertInsn(CAPTURE, 0);
      forall k: nat | k < |p.str| ensures LiteralByte(View(), p.str[k], lo + 1 + 2 * k) {
        assert LiteralByte(before, p.str[k], lo + 1 + 2 * k);
      }
    }

    /** FORK, MATCH and a jump to be patched, for a run that ends at `i - 1`. */
    method CharsetRange(rangeStart: byte, i: nat)
      requires 0 < i <= 256
      modifies this`insns
      ensures |insns| == |old(insns)| + 3
      ensures |insns| < ADDRESS_SPACE ==> old(insns) <= insns && CharsetRun(View(), (rangeStart, i - 1), |old(insns)|, 0)
    {
      var insn := InsertInsn(FORK, 0);
      var _ := InsertInsn(MATCH, RangeArg(rangeStart, i - 1));
      var _ := InsertInsn(GOTO, 0);
      PatchArg(insn, GetIp());
    }

    method CharsetCtrvm(p: Parser)
      requires p.Charset? && |actions| <= |insns|
      modifies this
      ensures Emitted(old(View()), View(), p)
    {
      hide Runs, RangeArg, RunsCode, CodeFor, CharsetCode;
      ghost var lo, rs := |insns|, Runs(p.chars, 257);
      CharsetTests(p);
      ghost var tests := View();
      var _ := InsertInsn(CAPTURE, 0);
      var id := CreateAction(CharsetAction(p.chars));
      var _ := InsertInsn(ACTION, id);
      if |insns| < ADDRESS_SPACE {
        RunsFrame(tests, View(), rs, lo + 1, lo + 3 * |rs| + 2);
        CharsetIntro(View(), p.chars, lo);
      }
    }

    /** The range tests, all jumping behind the instruction that fails. */
    method CharsetTests(p: Parser)
      requires p.Charset?
      modifies this`insns
      ensures |insns| == |old(insns)| + 3 * |Runs(p.chars, 257)| + 3
      ensures |insns| < ADDRESS_SPACE ==> old(insns) <= insns
      ensures |insns| < ADDRESS_SPACE ==> TestsCode(View(), Runs(p.chars, 257), |old(insns)|)
    {
      hide Runs, RangeArg, RunsCode;
      ghost var lo, rs := |insns|, Runs(p.chars, 257);
      var _ := InsertInsn(PUSH, 0);
      var start := GetIp();
      CollectRanges(p);
      ghost var collected := View();
      var _ := InsertInsn(MATCH, RangeArg(255, 0));
      var jump := InsertInsn(STEP, 0);
      if |insns| < ADDRESS_SPACE {
        RunsFrame(collected, View(), rs, lo + 1, 0);
      }
      PatchGotos(p, start, jump, lo);
    }

    /** Point every jump between `start` and `jump` to `jump`. */
    method PatchGotos(p: Parser, start: nat, jump: nat, ghost lo: nat)
      requires p.Charset? && |insns| == lo + 3 * |Runs(p.chars, 257)| + 3
      requires jump == Trunc16(|insns| - 1) && start == Trunc16(lo + 1)
      requires |insns| < ADDRESS_SPACE ==> RunsCode(View(), Runs(p.chars, 257), lo + 1, 0)
      requires |insns| < ADDRESS_SPACE ==> insns[jump - 1].op != GOTO
      modifies this`insns
      ensures |insns| == |old(insns)|
      ensures |insns| < ADDRESS_SPACE ==> forall k: nat :: k < |insns| && (k <= lo || k >= jump - 1) ==> insns[k] == old(insns)[k]
      ensures |insns| < ADDRESS_SPACE ==> RunsCode(View(), Runs(p.chars, 257), lo + 1, jump)
    {
      hide Runs, RangeArg;
      ghost var rs := Runs(p.chars, 257);
      ghost var before := View();
      var i := start;
      while i < jump
        invariant |insns| == |before.insns| && actions == old(actions) && (start <= i <= jump || jump < i == start)
        invariant |insns| < ADDRESS_SPACE ==> forall k: nat :: k < |insns| ==>
          insns[k] == if start <= k < i && before.insns[k].op == GOTO then Insn(GOTO, jump) else before.insns[k]
      {
        if insns[i].op == GOTO {
          PatchArg(i, jump);
        }
        i := i + 1;
      }
      if |insns| < ADDRESS_SPACE {
        forall k: nat | k < |rs| ensures CharsetRun(View(), rs[k], lo + 1 + 3 * k, jump) {
          assert CharsetRun(before, rs[k], lo + 1 + 3 * k, 0);
        }
      }
    }

    /** One range test for each maximal run of the set. */
    method CollectRanges(p: Parser)
      requires p.Charset?
      modifies this`insns
      ensures |insns| == |old(insns)| + 3 * |Runs(p.chars, 257)|
      ensures |insns| < ADDRESS_SPACE ==> old(insns) <= insns && RunsCode(View(), Runs(p.chars, 257), |old(insns)|, 0)
    {
      hide RunStart, Runs, CharsetRun, RunsCode;
      ghost var at := |insns|;
      NoRuns(View(), p.chars, at);
      var rangeStart: byte, collecting := 0, false;
      for i := 0 to 257
        invariant |insns| == at + 3 * |Runs(p.chars, i)|
        invariant collecting <==> i > 0 && i - 1 in p.chars
        invariant collecting ==> rangeStart == RunStart(p.chars, i - 1)
        invariant |insns| < ADDRESS_SPACE ==> old(insns) <= insns && RunsCode(View(), Runs(p.chars, i), at, 0)
      {
        RunStartStep(p.chars, i);
        RunsStep(p.chars, i);
        if i < 256 && i in p.chars {
          if !collecting {
            collecting, rangeStart := true, i;
          }
        } else if collecting {
          collecting := false;
          ghost var before := View();
          CharsetRange(rangeStart, i);
          if |insns| < ADDRESS_SPACE {
            RunsSnoc(before, View(), Runs(p.chars, i), (rangeStart, i - 1), at);
          }
        }
      }
    }

    lemma RunsStep(chars: set<byte>, i: nat)
      requires i < 257
      ensures Runs(chars, i + 1) == if i !in chars && i > 0 && i - 1 in chars then Runs(chars, i) + [(RunStart(chars, i - 1), i - 1)] else Runs(chars, i)
    {
    }

    lemma RunStartStep(chars: set<byte>, i: nat)
      ensures i in chars ==> RunStart(chars, i) == if i > 0 && i - 1 in chars then RunStart(chars, i - 1) else i
    {
    }

    method SequenceCtrvm(p: Parser)
      requires p.Sequence? && |actions| <= |insns|
      modifies this
      ensures Emitted(old(View()), View(), p)
      decreases p, 0
    {
      hide CodeFor, LenUpto;
      var ps := p.ps;
      ghost var lo := |insns|;
      LenUptoZero(ps);
      var _ := InsertInsn(PUSH, 0);
      for i := 0 to |ps|
        invariant |insns| == lo + 1 + LenUpto(ps, i) && |actions| <= |insns| && old(actions) <= actions
        invariant |insns| < ADDRESS_SPACE ==> old(insns) <= insns && At(View(), lo, PUSH, 0) && ElementsCode(View(), ps, i, lo + 1)
      {
        ghost var before := View();
        LenUptoStep(ps, i);
        Compile(p.ps[i]);
        if |insns| < ADDRESS_SPACE {
          ElementsFrame(before, View(), ps, i, lo + 1);
        }
      }
      ghost var before := View();
      var id := CreateAction(MakeSequence);
      var _ := InsertInsn(ACTION, id);
      if |insns| < ADDRESS_SPACE {
        ElementsFrame(before, View(), ps, |ps|, lo + 1);
        SequenceIntro(View(), ps, lo);
      }
    }

    method ChoiceCtrvm(p: Parser)
      requires p.Choice? && |actions| <= |insns|
      modifies this
      ensures Emitted(old(View()), View(), p)
      decreases p, 0
    {
      hide CodeFor, LenUpto, RangeArg;
      var ps := p.ps;
      ghost var lo := |insns|;
      var gotos := Alternatives(ps, lo);
      ghost var before := View();
      var _ := InsertInsn(MATCH, RangeArg(255, 0)); // fail
      var jump := GetIp();
      if |insns| < ADDRESS_SPACE {
        AlternativesFrame(before, View(), ps, |ps|, lo);
      }
      PatchJumps(ps, gotos, jump, lo);
      if |insns| < ADDRESS_SPACE {
        ChoiceIntro(View(), ps, lo);
      }
    }

    method Alternatives(ps: seq<Parser>, ghost lo: nat) returns (gotos: seq<nat>)
      requires lo == |insns| && |actions| <= |insns|
      modifies this
      ensures |insns| == AltStart(ps, |ps|, lo) && |actions| <= |insns| && old(actions) <= actions && |gotos| == |ps|
      ensures forall k :: 0 <= k < |ps| ==> gotos[k] < |insns|
      ensures |insns| < ADDRESS_SPACE ==>
        && old(insns) <= insns && AlternativesCode(View(), ps, |ps|, lo)
        && forall k: nat :: k < |ps| ==> gotos[k] == AltStart(ps, k + 1, lo) - 1
      decreases ps, 1
    {
      hide CodeFor, LenUpto, Len;
      LenUptoZero(ps);
      gotos := [];
      for i := 0 to |ps|
        invariant |insns| == AltStart(ps, i, lo) && |actions| <= |insns| && old(actions) <= actions && |gotos| == i
        invariant forall k :: 0 <= k < i ==> gotos[k] < |insns|
        invariant |insns| < ADDRESS_SPACE ==> forall k: nat :: k < i ==> gotos[k] == AltStart(ps, k + 1, lo) - 1
        invariant |insns| < ADDRESS_SPACE ==> old(insns) <= insns && AlternativesCode(View(), ps, i, lo)
      {
        ghost var before := View();
        LenUptoStep(ps, i);
        var goto := Alternative(ps, i, lo);
        gotos := gotos + [goto];
        if |insns| < ADDRESS_SPACE {
          AlternativesFrame(before, View(), ps, i, lo);
        }
      }
    }

    method PatchJumps(ps: seq<Parser>, gotos: seq<nat>, jump: nat, ghost lo: nat)
      requires |insns| == AltStart(ps, |ps|, lo) + 1 && |gotos| == |ps| && jump == Trunc16(|insns|)
      requires forall k :: 0 <= k < |ps| ==> gotos[k] < |insns|
      requires |insns| < ADDRESS_SPACE ==>
        && AlternativesCode(View(), ps, |ps|, lo)
        && forall k: nat :: k < |ps| ==> gotos[k] == AltStart(ps, k + 1, lo) - 1
      modifies this`insns
      ensures |insns| == |old(insns)|
      ensures |insns| < ADDRESS_SPACE ==>
        && Patched(View(), ps, |ps|, lo, jump) && insns[|insns| - 1] == old(insns)[|insns| - 1]
        && insns[..lo] == old(insns)[..lo]
    {
      hide CodeFor, LenUpto, Len;
      LenUptoMonotone(ps, 0, |ps|);
      LenUptoZero(ps);
      for i := 0 to |ps|
        invariant |insns| == |old(insns)|
        invariant |insns| < ADDRESS_SPACE ==>
          && Patched(View(), ps, i, lo, jump) && insns[|insns| - 1] == old(insns)[|insns| - 1]
          && insns[..lo] == old(insns)[..lo]
      {
        ghost var unpatched := View();
        LenUptoStep(ps, i);
        LenUptoMonotone(ps, 0, i);
        PatchArg(gotos[i], jump);
        if |insns| < ADDRESS_SPACE {
          PatchedStep(unpatched, View(), ps, i, lo, jump);
        }
      }
    }

    /** A fork over the alternative and a jump to be patched later, whose address is returned. */
    method Alternative(ps: seq<Parser>, i: nat, ghost lo: nat) returns (goto: nat)
      requires i < |ps| && |insns| == AltStart(ps, i, lo) && |actions| <= |insns|
      modifies this
      ensures |insns| == AltStart(ps, i + 1, lo) && |actions| <= |insns| && old(actions) <= actions && goto < |insns|
      ensures |insns| < ADDRESS_SPACE ==>
        && old(insns) <= insns && goto == |insns| - 1
        && CodeFor(View(), ps[i], AltStart(ps, i, lo) + 1) && AltFrame(View(), ps, i, lo, 65535)
      decreases ps, 0
    {
      hide CodeFor, LenUpto, Len;
      LenUptoStep(ps, i);
      var insn := InsertInsn(FORK, 0);
      Compile(ps[i]);
      ghost var inner := View();
      goto := InsertInsn(GOTO, 65535);
      PatchArg(insn, GetIp());
      if |insns| < ADDRESS_SPACE {
        CodeForFrame(inner, View(), ps[i], |old(insns)| + 1);
      }
    }

    method ManyCtrvm(p: Parser)
      requires p.Many? && |actions| <= |insns|
      modifies this
      ensures Emitted(old(View()), View(), p)
      decreases p, 2
    {
      hide CodeFor;
      ghost var lo := |insns|;
      var endFork, nxt := ManyHead(p);
      ghost var head := View();
      ManyTail(p, endFork, nxt, lo);
      ghost var tail := View();
      var id := CreateAction(MakeSequence);
      var _ := InsertInsn(ACTION, id);
      if |insns| < ADDRESS_SPACE {
        HeadFrame(head, View(), p, lo);
        CodeForFrame(tail, View(), p.p, ManyMid(p, lo));
        ManyIntro(View(), p, lo);
      }
    }

    /** The element, the fork back to the separator, and the patch of the fork around the loop. */
    method ManyTail(p: Parser, endFork: nat, nxt: nat, ghost lo: nat)
      requires p.Many? && |insns| == ManyMid(p, lo) && |actions| <= |insns|
      requires nxt == Trunc16(ManyNext(p, lo)) && (!p.atLeastOne ==> endFork < |insns|)
      requires |insns| < ADDRESS_SPACE && !p.atLeastOne ==> endFork == lo + 1 && insns[endFork].op == FORK
      modifies this
      ensures |insns| == ManyEnd(p, lo) && |actions| <= |insns| && old(actions) <= actions
      ensures |insns| < ADDRESS_SPACE ==>
        && CodeFor(View(), p.p, ManyMid(p, lo))
        && At(View(), ManyEnd(p, lo) - 1, FORK, ManyNext(p, lo))
        && (if p.atLeastOne then old(insns) <= insns else old(insns)[lo + 1 := Insn(FORK, ManyEnd(p, lo))] <= insns)
      decreases p, 0
    {
      hide CodeFor, Len;
      Compile(p.p);
      ghost var body := View();
      var _ := InsertInsn(FORK, nxt);
      if !p.atLeastOne {
        PatchArg(endFork, GetIp());
      }
      if |insns| < ADDRESS_SPACE {
        CodeForFrame(body, View(), p.p, ManyMid(p, lo));
      }
    }

    /** Everything up to the element: mark, fork around the loop (to be patched), jump over the separator, separator. */
    method ManyHead(p: Parser) returns (endFork: nat, nxt: nat)
      requires p.Many? && |actions| <= |insns|
      modifies this
      ensures |insns| == ManyMid(p, |old(insns)|) && |actions| <= |insns| && old(actions) <= actions
      ensures nxt == Trunc16(ManyNext(p, |old(insns)|)) && (!p.atLeastOne ==> endFork < |insns|)
      ensures |insns| < ADDRESS_SPACE ==>
        && old(insns) <= insns && (!p.atLeastOne ==> endFork == |old(insns)| + 1)
        && HeadCode(View(), p, |old(insns)|)
      decreases p, 1
    {
      hide CodeFor, Len;
      var clearToMark := CreateAction(ClearToMark);
      var gotoMid;
      endFork, gotoMid := ManyEntry(p);
      nxt := GetIp();
      ManySeparator(p, clearToMark);
      ghost var inner := View();
      PatchArg(gotoMid, GetIp());
      if |insns| < ADDRESS_SPACE && p.sep.Some? {
        CodeForFrame(inner, View(), p.sep.value, ManyNext(p, |old(insns)|) + 1);
      }
    }

    /** Mark, fork (unless an element is required) and jump, both to be patched. */
    method ManyEntry(p: Parser) returns (endFork: nat, gotoMid: nat)
      requires p.Many?
      modifies this`insns
      ensures |insns| == ManyNext(p, |old(insns)|) && gotoMid == Trunc16(|insns| - 1)
      ensures !p.atLeastOne ==> endFork == Trunc16(|old(insns)| + 1)
      ensures old(insns) <= insns && At(View(), |old(insns)|, PUSH, 0) && At(View(), |insns| - 1, GOTO, 65535)
      ensures !p.atLeastOne ==> At(View(), |old(insns)| + 1, FORK, 65535)
    {
      var _ := InsertInsn(PUSH, 0);
      endFork := 0xFFFF;
      if !p.atLeastOne {
        endFork := InsertInsn(FORK, 0xFFFF);
      }
      gotoMid := InsertInsn(GOTO, 0xFFFF);
    }

    method ManySeparator(p: Parser, clearToMark: nat)
      requires p.Many? && |actions| <= |insns| && clearToMark < ADDRESS_SPACE
      requires |insns| < ADDRESS_SPACE ==> clearToMark < |actions| && actions[clearToMark] == ClearToMark
      modifies this
      ensures |insns| == |old(insns)| + (if p.sep.Some? then Len(p.sep.value) + 2 else 0)
      ensures |actions| <= |insns| && old(actions) <= actions
      ensures |insns| < ADDRESS_SPACE ==> old(insns) <= insns
      ensures |insns| < ADDRESS_SPACE && p.sep.Some? ==>
        && At(View(), |old(insns)|, PUSH, 0)
        && CodeFor(View(), p.sep.value, |old(insns)| + 1)
        && ActAt(View(), |insns| - 1, ClearToMark)
      decreases p, 0
    {
      hide CodeFor, Len;
      if p.sep.Some? {
        var _ := InsertInsn(PUSH, 0);
        Compile(p.sep.value);
        ghost var inner := View();
        var _ := InsertInsn(ACTION, clearToMark);
        if |insns| < ADDRESS_SPACE {
          CodeForFrame(inner, View(), p.sep.value, |old(insns)| + 1);
        }
      }
    }

    method RepeatCtrvm(p: Parser)
      requires p.RepeatN? && |actions| <= |insns|
      modifies this
      ensures Emitted(old(View()), View(), p)
      decreases p, 0
    {
      hide CodeFor;
      ghost var lo := |insns|;
      var clearToMark := CreateAction(ClearToMark);
      var _ := InsertInsn(PUSH, 0);
      for i := 0 to p.n
        invariant |insns| == lo + 1 + Rep(i, Len(p.p)) && |actions| <= |insns| && old(actions) <= actions
        invariant |insns| < ADDRESS_SPACE ==> old(insns) <= insns && At(View(), lo, PUSH, 0) && CopiesCode(View(), p, i, lo + 1)
      {
        ghost var before := View();
        Compile(p.p);
        if |insns| < ADDRESS_SPACE {
          CopiesFrame(before, View(), p, i, lo + 1);
        }
      }
      ghost var before := View();
      var id := CreateAction(MakeSequence);
      var _ := InsertInsn(ACTION, id);
      if |insns| < ADDRESS_SPACE {
        CopiesFrame(before, View(), p, p.n, lo + 1);
        RepeatIntro(View(), p, lo);
      }
    }

    method OptionalCtrvm(p: Parser)
      requires p.Optional? && |actions| <= |insns|
      modifies this
      ensures Emitted(old(View()), View(), p)
      decreases p, 0
    {
      hide CodeFor, OptionalCode;
      ghost var lo := |insns|;
      ghost var fits := lo + Len(p) < ADDRESS_SPACE;
      var _ := InsertInsn(PUSH, 0);
      var insn := InsertInsn(FORK, 0);
      Compile(p.p);
      ghost var before := View();
      PatchArg(insn, GetIp());
      var id := CreateAction(OptionalAction);
      var _ := InsertInsn(ACTION, id);
      if fits {
        CodeForFrame(before, View(), p.p, lo + 2);
        OptionalIntro(View(), p, lo);
      }
    }

    /** FORK, MATCH, STEP and the jump back to `start`, for one range of white space. */
    method SpaceTest(start: nat, range: nat)
      requires start < ADDRESS_SPACE && range < ADDRESS_SPACE
      modifies this`insns
      ensures |insns| == |old(insns)| + 4
      ensures |insns| < ADDRESS_SPACE ==> old(insns) <= insns && SpaceRun(View(), start, |old(insns)|, range)
    {
      var next := InsertInsn(FORK, 0);
      var _ := InsertInsn(MATCH, range);
      var _ := InsertInsn(STEP, 0);
      var _ := InsertInsn(GOTO, start);
      PatchArg(next, GetIp());
    }

    method WhitespaceCtrvm(p: Parser)
      requires p.Whitespace? && |actions| <= |insns|
      modifies this
      ensures Emitted(old(View()), View(), p)
      decreases p, 0
    {
      hide CodeFor;
      ghost var lo := |insns|;
      var start := GetIp();
      var ranges := [RangeArg(9, 13), RangeArg(32, 32)];
      for i := 0 to 2
        invariant |insns| == lo + 4 * i && actions == old(actions)
        invariant |insns| < ADDRESS_SPACE ==> old(insns) <= insns
        invariant |insns| < ADDRESS_SPACE && i > 0 ==> SpaceRun(View(), lo, lo, ranges[0])
        invariant |insns| < ADDRESS_SPACE && i > 1 ==> SpaceRun(View(), lo, lo + 4, ranges[1])
      {
        SpaceTest(start, ranges[i]);
      }
      Compile(p.p);
      if |insns| < ADDRESS_SPACE {
        WhitespaceIntro(View(), p, lo);
      }
    }
  }

  // ----- partially emitted sequences, choices and repetitions

  ghost predicate ElementsCode(code: Code, ps: seq<Parser>, i: nat, lo: nat)
    requires i <= |ps|
  {
    forall k: nat :: k < i ==> CodeFor(code, ps[k], lo + LenUpto(ps, k))
  }

  lemma ElementsFrame(a: Code, b: Code, ps: seq<Parser>, i: nat, lo: nat)
    requires i <= |ps| && ElementsCode(a, ps, i, lo)
    requires lo + LenUpto(ps, i) <= |a.insns| && a.insns <= b.insns && a.acts <= b.acts
    ensures ElementsCode(b, ps, i, lo)
  {
    hide CodeFor, Len, LenUpto;
    forall k: nat | k < i ensures CodeFor(b, ps[k], lo + LenUpto(ps, k)) {
      LenUptoStep(ps, k);
      LenUptoMonotone(ps, k + 1, i);
      CodeForFrame(a, b, ps[k], lo + LenUpto(ps, k));
    }
  }

  lemma SequenceIntro(code: Code, ps: seq<Parser>, lo: nat)
    requires At(code, lo, PUSH, 0) && ElementsCode(code, ps, |ps|, lo + 1)
    requires ActAt(code, lo + 1 + LenUpto(ps, |ps|), MakeSequence)
    ensures CodeFor(code, Sequence(ps), lo)
  {
    hide LenUpto;
    assert SequenceCode(code, ps, lo);
  }

  /** The first `i` alternatives are there; the jumps that leave them are not patched yet. */
  ghost predicate AlternativesCode(code: Code, ps: seq<Parser>, i: nat, lo: nat)
    requires i <= |ps|
  {
    forall k: nat :: k < i ==> CodeFor(code, ps[k], AltStart(ps, k, lo) + 1) && AltFrame(code, ps, k, lo, 65535)
  }

  lemma AlternativesFrame(a: Code, b: Code, ps: seq<Parser>, i: nat, lo: nat)
    requires i <= |ps| && AlternativesCode(a, ps, i, lo)
    requires AltStart(ps, i, lo) <= |a.insns| && a.insns <= b.insns && a.acts <= b.acts
    ensures AlternativesCode(b, ps, i, lo)
  {
    hide CodeFor, Len, LenUpto;
    forall k: nat | k < i ensures CodeFor(b, ps[k], AltStart(ps, k, lo) + 1) && AltFrame(b, ps, k, lo, 65535) {
      LenUptoStep(ps, k);
      LenUptoMonotone(ps, k + 1, i);
      assert CodeFor(a, ps[k], AltStart(ps, k, lo) + 1) && AltFrame(a, ps, k, lo, 65535);
      CodeForFrame(a, b, ps[k], AltStart(ps, k, lo) + 1);
    }
  }

  /** All alternatives are there and the first `i` jumps have been patched. */
  ghost predicate Patched(code: Code, ps: seq<Parser>, i: nat, lo: nat, jump: nat) {
    forall k: nat :: k < |ps| ==>
      CodeFor(code, ps[k], AltStart(ps, k, lo) + 1) && AltFrame(code, ps, k, lo, if k < i then jump else 65535)
  }

  lemma PatchedStep(a: Code, b: Code, ps: seq<Parser>, i: nat, lo: nat, jump: nat)
    requires i < |ps| && Patched(a, ps, i, lo, jump) && AltStart(ps, |ps|, lo) <= |a.insns|
    requires a.acts == b.acts && AltStart(ps, i + 1, lo) <= |a.insns|
    requires b.insns == a.insns[AltStart(ps, i + 1, lo) - 1 := Insn(GOTO, jump)]
    ensures Patched(b, ps, i + 1, lo, jump)
  {
    hide CodeFor, AltFrame, AltStart;
    forall k: nat | k < |ps|
      ensures CodeFor(b, ps[k], AltStart(ps, k, lo) + 1)
      ensures AltFrame(b, ps, k, lo, if k < i + 1 then jump else 65535)
    {
      assert CodeFor(a, ps[k], AltStart(ps, k, lo) + 1) && AltFrame(a, ps, k, lo, if k < i then jump else 65535);
      PatchedAt(a, b, ps, i, k, lo, if k < i then jump else 65535, jump);
    }
  }

  lemma PatchedAt(a: Code, b: Code, ps: seq<Parser>, i: nat, k: nat, lo: nat, target: nat, jump: nat)
    requires i < |ps| && k < |ps| && AltStart(ps, |ps|, lo) <= |a.insns|
    requires a.acts == b.acts && AltStart(ps, i + 1, lo) <= |a.insns|
    requires b.insns == a.insns[AltStart(ps, i + 1, lo) - 1 := Insn(GOTO, jump)]
    requires CodeFor(a, ps[k], AltStart(ps, k, lo) + 1) && AltFrame(a, ps, k, lo, target)
    ensures CodeFor(b, ps[k], AltStart(ps, k, lo) + 1)
    ensures AltFrame(b, ps, k, lo, if k == i then jump else target)
  {
    hide CodeFor, Len, LenUpto;
    LenUptoStep(ps, i);
    LenUptoStep(ps, k);
    if k < i {
      LenUptoMonotone(ps, k + 1, i);
    } else if k > i {
      LenUptoMonotone(ps, i + 1, k);
    }
    CodeForFrame(a, b, ps[k], AltStart(ps, k, lo) + 1);
  }

  lemma ChoiceIntro(code: Code, ps: seq<Parser>, lo: nat)
    requires Patched(code, ps, |ps|, lo, AltStart(ps, |ps|, lo) + 1)
    requires At(code, AltStart(ps, |ps|, lo), MATCH, RangeArg(255, 0))
    ensures CodeFor(code, Choice(ps), lo)
  {
    hide LenUpto;
    assert ChoiceCode(code, ps, lo);
  }

  ghost predicate CopiesCode(code: Code, m: Parser, i: nat, lo: nat)
    requires m.RepeatN?
  {
    forall k: nat :: k < i ==> CodeFor(code, m.p, lo + Rep(k, Len(m.p)))
  }

  lemma CopiesFrame(a: Code, b: Code, m: Parser, i: nat, lo: nat)
    requires m.RepeatN? && CopiesCode(a, m, i, lo)
    requires lo + Rep(i, Len(m.p)) <= |a.insns| && a.insns <= b.insns && a.acts <= b.acts
    ensures CopiesCode(b, m, i, lo)
  {
    hide CodeFor, Len, Rep;
    forall k: nat | k < i ensures CodeFor(b, m.p, lo + Rep(k, Len(m.p))) {
      RepStep(k, i, Len(m.p));
      CodeForFrame(a, b, m.p, lo + Rep(k, Len(m.p)));
    }
  }

  lemma RepeatIntro(code: Code, m: Parser, lo: nat)
    requires m.RepeatN? && At(code, lo, PUSH, 0) && CopiesCode(code, m, m.n, lo + 1)
    requires ActAt(code, lo + 1 + Rep(m.n, Len(m.p)), MakeSequence)
    ensures CodeFor(code, m, lo)
  {
    assert RepeatCode(code, m, lo);
  }

  ghost predicate HeadCode(code: Code, m: Parser, lo: nat)
    requires m.Many?
  {
    && At(code, lo, PUSH, 0)
    && (!m.atLeastOne ==> At(code, lo + 1, FORK, 65535))
    && At(code, ManyGoto(m, lo), GOTO, ManyMid(m, lo))
    && (m.sep.Some? ==>
          && At(code, ManyNext(m, lo), PUSH, 0)
          && CodeFor(code, m.sep.value, ManyNext(m, lo) + 1)
          && ActAt(code, ManyMid(m, lo) - 1, ClearToMark))
  }

  /** What stands in front of the element survives appending and the patch of the fork around the loop. */
  lemma HeadFrame(a: Code, b: Code, m: Parser, lo: nat)
    requires m.Many? && HeadCode(a, m, lo) && |a.insns| == ManyMid(m, lo) && a.acts <= b.acts
    requires if m.atLeastOne then a.insns <= b.insns else a.insns[lo + 1 := Insn(FORK, ManyEnd(m, lo))] <= b.insns
    ensures !m.atLeastOne ==> At(b, lo + 1, FORK, ManyEnd(m, lo))
    ensures At(b, lo, PUSH, 0) && At(b, ManyGoto(m, lo), GOTO, ManyMid(m, lo))
    ensures m.sep.Some? ==>
      && At(b, ManyNext(m, lo), PUSH, 0)
      && CodeFor(b, m.sep.value, ManyNext(m, lo) + 1)
      && ActAt(b, ManyMid(m, lo) - 1, ClearToMark)
  {
    hide CodeFor, Len;
    if m.sep.Some? {
      CodeForFrame(a, b, m.sep.value, ManyNext(m, lo) + 1);
    }
  }

  lemma ManyIntro(code: Code, m: Parser, lo: nat)
    requires m.Many? && At(code, lo, PUSH, 0) && At(code, ManyGoto(m, lo), GOTO, ManyMid(m, lo))
    requires !m.atLeastOne ==> At(code, lo + 1, FORK, ManyEnd(m, lo))
    requires m.sep.Some? ==>
      && At(code, ManyNext(m, lo), PUSH, 0)
      && CodeFor(code, m.sep.value, ManyNext(m, lo) + 1)
      && ActAt(code, ManyMid(m, lo) - 1, ClearToMark)
    requires CodeFor(code, m.p, ManyMid(m, lo)) && At(code, ManyEnd(m, lo) - 1, FORK, ManyNext(m, lo))
    requires ActAt(code, ManyEnd(m, lo), MakeSequence)
    ensures CodeFor(code, m, lo)
  {
    assert ManyCode(code, m, lo);
  }

  lemma OptionalIntro(code: Code, m: Parser, lo: nat)
    requires m.Optional? && At(code, lo, PUSH, 0) && At(code, lo + 1, FORK, lo + 2 + Len(m.p))
    requires CodeFor(code, m.p, lo + 2) && ActAt(code, lo + 2 + Len(m.p), OptionalAction)
    ensures CodeFor(code, m, lo)
  {
    assert OptionalCode(code, m, lo);
  }

  lemma WhitespaceIntro(code: Code, m: Parser, lo: nat)
    requires m.Whitespace? && CodeFor(code, m.p, lo + 8)
    requires SpaceRun(code, lo, lo, RangeArg(9, 13)) && SpaceRun(code, lo, lo + 4, RangeArg(32, 32))
    ensures CodeFor(code, m, lo)
  {
    assert WhitespaceCode(code, m, lo);
  }
}
