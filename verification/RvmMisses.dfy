/** When the simulation of a choice of words returns a longest match on every input: exactly when no two words begin
    with the same byte.  Otherwise several instructions wait at offset 1, the iteration macro leaves out the last, and
    the word it belongs to is not found in full. */
module RvmMisses {
  import opened Basics
  import opened RegularLanguage
  import opened RvmCode
  import opened RvmPaths
  import opened RvmThreads
  import opened RvmCoverage
  import opened RvmLabels
  import opened RvmDeterminism
  import opened RegexSoundness
  import opened RegexBackend
  import opened Svm
  import opened SvmMachine
  import opened SparseArray

  /** A choice of words, no two of them equal, none of them empty. */
  predicate Words(p: Parser) {
    && p.Choice?
    && (forall k :: 0 <= k < |p.ps| ==> p.ps[k].Literal? && p.ps[k].str != [])
    && forall i, j :: 0 <= i < j < |p.ps| ==> p.ps[i].str != p.ps[j].str
  }

  predicate FirstBytesDiffer(p: Parser)
    requires Words(p)
  {
    forall i, j :: 0 <= i < j < |p.ps| ==> p.ps[i].str[0] != p.ps[j].str[0]
  }

  // ----- no two words begin alike

  lemma {:induction false} SomeBegins(ps: seq<Parser>, k: nat, b: byte) returns (m: nat)
    requires k <= |ps| && ChoiceRole(ps, k, b).begins
    ensures k <= m < |ps| && RoleOf(ps[m], b).begins
    decreases |ps| - k
  {
    hide RoleOf;
    if RoleOf(ps[k], b).begins {
      m := k;
    } else {
      m := SomeBegins(ps, k + 1, b);
    }
  }

  lemma DifferentWords(p: Parser)
    requires Words(p) && FirstBytesDiffer(p)
    ensures Deterministic(p)
  {
    hide ChoiceRole;
    forall b: byte ensures Clear(p, b) {
      forall k: nat | k < |p.ps| ensures !(RoleOf(p.ps[k], b).begins && ChoiceRole(p.ps, k + 1, b).begins) {
        if ChoiceRole(p.ps, k + 1, b).begins {
          var m := SomeBegins(p.ps, k + 1, b);
        }
      }
    }
  }

  // ----- the code of the words

  /** The fork to the `k`-th word; behind it stand the mark, the test of its first byte, and the STEP over that byte. */
  function WordAt(p: Parser, k: nat): nat
    requires p.Choice? && k <= |p.ps|
  {
    AltStart(p.ps, k, 0)
  }

  lemma WordsCode(code: Code, p: Parser)
    requires CodeFor(code, p, 0) && p.Choice?
    ensures ChoiceCode(code, p.ps, 0)
  {
    hide ChoiceCode;
  }

  lemma LiteralStart(code: Code, p: Parser, lo: nat)
    requires CodeFor(code, p, lo) && p.Literal? && p.str != []
    ensures At(code, lo, PUSH, 0) && LiteralByte(code, p.str[0], lo + 1) && Len(p) >= 4
  {
    hide RangeArg, LiteralByte;
    assert LiteralByte(code, p.str[0], lo + 1 + 2 * 0);
  }

  lemma WordCode(code: Code, p: Parser, k: nat)
    requires ProgramFor(code, p) && Words(p) && k < |p.ps|
    ensures var at := WordAt(p, k);
      && At(code, at, FORK, WordAt(p, k + 1)) && At(code, at + 1, PUSH, 0) && LiteralByte(code, p.ps[k].str[0], at + 2)
      && CodeFor(code, p.ps[k], at + 1) && WordAt(p, k + 1) == at + Len(p.ps[k]) + 2 <= Len(p) - 1
      && At(code, WordAt(p, k + 1) - 1, GOTO, Len(p)) && Len(p.ps[k]) >= 4
  {
    hide RangeArg, LenUpto, CodeFor, LiteralByte;
    WordsCode(code, p);
    LenUptoStep(p.ps, k);
    assert CodeFor(code, p.ps[k], AltStart(p.ps, k, 0) + 1) && AltFrame(code, p.ps, k, 0, AltStart(p.ps, |p.ps|, 0) + 1);
    LiteralStart(code, p.ps[k], AltStart(p.ps, k, 0) + 1);
  }

  lemma LastTest(code: Code, p: Parser)
    requires ProgramFor(code, p) && p.Choice?
    ensures At(code, WordAt(p, |p.ps|), MATCH, RangeArg(255, 0))
  {
    hide RangeArg, LenUpto, CodeFor;
    WordsCode(code, p);
  }

  lemma FirstWord(p: Parser)
    requires p.Choice?
    ensures WordAt(p, 0) == 0
  {
    LenUptoZero(p.ps);
  }

  lemma {:induction false} WordsApart(p: Parser, i: nat, j: nat)
    requires p.Choice? && i < j <= |p.ps|
    ensures WordAt(p, i) < WordAt(p, j)
  {
    hide LenUpto;
    LenUptoMonotone(p.ps, i, j);
  }

  // ----- offset 0

  /** An instruction that a run can be at before it has consumed a byte, if that byte is `b`. */
  ghost predicate Early(p: Parser, b: byte, ip: nat)
    requires Words(p)
  {
    exists k: nat :: k <= |p.ps| && EarlyIn(p, k, b, ip)
  }

  ghost predicate EarlyIn(p: Parser, k: nat, b: byte, ip: nat)
    requires Words(p) && k <= |p.ps|
  {
    || ip == WordAt(p, k)
    || (k < |p.ps| && WordAt(p, k) < ip <= WordAt(p, k) + 2)
    || (k < |p.ps| && ip == WordAt(p, k) + 3 && p.ps[k].str[0] == b)
  }

  ghost function EarlyAt(p: Parser, b: byte): iset<nat>
    requires Words(p)
  {
    iset ip: nat | Early(p, b, ip)
  }

  lemma EarlySuccs(code: Code, p: Parser, input: seq<byte>, k: nat, ip: nat, i: nat)
    requires ProgramFor(code, p) && Words(p) && input != [] && k <= |p.ps| && EarlyIn(p, k, input[0], ip)
    requires i < |Succs(code, input, Conf(ip, 0))| && Succs(code, input, Conf(ip, 0))[i].off == 0
    ensures Early(p, input[0], Succs(code, input, Conf(ip, 0))[i].ip)
  {
    hide ProgramFor, WordAt, RangeLow, RangeHigh, RangeArg;
    if k == |p.ps| {
      LastTest(code, p);
    } else {
      WordCode(code, p, k);
      assert EarlyIn(p, k + 1, input[0], WordAt(p, k + 1));
      assert Succs(code, input, Conf(ip, 0))[i].ip == WordAt(p, k + 1) || EarlyIn(p, k, input[0], Succs(code, input, Conf(ip, 0))[i].ip);
    }
  }

  lemma EarlyClosed(code: Code, p: Parser, input: seq<byte>)
    requires ProgramFor(code, p) && Words(p) && input != []
    ensures Closed(code, input, 0, EarlyAt(p, input[0]))
  {
    hide ProgramFor, EarlyIn, Succs;
    forall ip: nat, i: nat | ip in EarlyAt(p, input[0]) && i < |Succs(code, input, Conf(ip, 0))| && Succs(code, input, Conf(ip, 0))[i].off == 0
      ensures Succs(code, input, Conf(ip, 0))[i].ip in EarlyAt(p, input[0])
    {
      var k: nat :| k <= |p.ps| && EarlyIn(p, k, input[0], ip);
      EarlySuccs(code, p, input, k, ip, i);
    }
  }

  lemma HeadIsEarly(code: Code, p: Parser, input: seq<byte>, h: nat)
    requires ProgramFor(code, p) && WellFormed(code) && Words(p) && input != []
    requires Queued(Before(code, input, 1).heads, h)
    ensures StepIn(code, EarlyAt(p, input[0]), h)
  {
    hide ProgramFor, WellFormed, Heads, WordAt, Words, Closed, AcceptIn, StepIn, EarlyIn;
    EarlyClosed(code, p, input);
    var b := Before(code, input, 0);
    StartIsEarly(p, input[0]);
    HeadsConfined(code, input, 0, EarlyAt(p, input[0]), ForeachVisits(b.heads), None, NewOffset(code, None));
  }

  lemma StartIsEarly(p: Parser, b: byte)
    requires Words(p)
    ensures 0 in EarlyAt(p, b)
  {
    hide WordAt;
    FirstWord(p);
    assert EarlyIn(p, 0, b, 0);
  }

  /** What waits at offset 1 stands behind the first byte of a word. */
  lemma HeadOfWord(code: Code, p: Parser, input: seq<byte>, h: nat) returns (k: nat)
    requires ProgramFor(code, p) && WellFormed(code) && Words(p) && input != []
    requires Queued(Before(code, input, 1).heads, h)
    ensures k < |p.ps| && h == WordAt(p, k) + 4 && p.ps[k].str[0] == input[0]
  {
    hide ProgramFor, WellFormed, Before, WordAt, RangeArg;
    HeadIsEarly(code, p, input, h);
    k :| 0 <= k <= |p.ps| && EarlyIn(p, k, input[0], h - 1);
    if k == |p.ps| {
      LastTest(code, p);
    } else {
      WordCode(code, p, k);
    }
  }

  /** Every word that begins with the first byte waits behind that byte. */
  lemma WordWaits(code: Code, p: Parser, input: seq<byte>, k: nat)
    requires ProgramFor(code, p) && WellFormed(code) && Words(p) && input != []
    requires k < |p.ps| && p.ps[k].str[0] == input[0]
    ensures Queued(Before(code, input, 1).heads, WordAt(p, k) + 4)
  {
    hide ProgramFor, WellFormed, WordAt, Heads, Visited, Reachable;
    WordCode(code, p, k);
    WordReached(code, p, input, k);
    var at := WordAt(p, k);
    ReachableStep(code, input, Conf(at, 0), 0);
    ReachableStep(code, input, Conf(at + 1, 0), 0);
    ReachableStep(code, input, Conf(at + 2, 0), 0);
    VisitedFirst(code, input, Conf(at + 3, 0));
    OffsetExact(code, input, 0);
  }

  lemma {:induction false} WordReached(code: Code, p: Parser, input: seq<byte>, k: nat)
    requires ProgramFor(code, p) && Words(p) && k < |p.ps|
    ensures Reachable(code, input, Conf(WordAt(p, k), 0))
  {
    hide ProgramFor, WordAt, Reachable;
    if k == 0 {
      FirstWord(p);
      StartReachable(code, input);
    } else {
      WordReached(code, p, input, k - 1);
      WordCode(code, p, k - 1);
      ReachableStep(code, input, Conf(WordAt(p, k - 1), 0), 1);
    }
  }

  lemma StartReachable(code: Code, input: seq<byte>)
    ensures Reachable(code, input, Conf(0, 0))
  {
    StandStill(code, input, Conf(0, 0));
  }

  /** At offset 0 everything that a run reaches is visited. */
  lemma VisitedFirst(code: Code, input: seq<byte>, c: Conf)
    requires WellFormed(code) && c.off == 0 && Reachable(code, input, c)
    ensures Visited(code, input, c)
  {
    hide WellFormed, Reach;
    var n: nat, es :| Reach(code, input, n, Conf(0, 0), c, es);
    var heads := Before(code, input, 0).heads;
    assert ForeachVisits(heads)[0].ip == 0;
  }

  // ----- what waits at offset 1 depends on the first byte alone

  lemma {:induction false} ThreadsAlike(code: Code, u: seq<byte>, v: seq<byte>, queue: seq<Thread>, s: Progress)
    requires u != [] && v != [] && u[0] == v[0] && HasRoom(code, u, 0, s.seen, queue) && InRange(code, s.heads)
    ensures HasRoom(code, v, 0, s.seen, queue) && Threads(code, u, 0, queue, s) == Threads(code, v, 0, queue, s)
    decreases Unseen(s.seen, TopIp(queue)), Unprocessed(s.seen), |queue|
  {
    hide WellFormed, Execute, Unseen, Unprocessed, After;
    if queue != [] {
      var th := queue[|queue| - 1];
      ExecuteAlike(code, u, v, th);
      TurnKeeps(code, u, 0, s.seen, queue);
      ExecuteInside(code, u, 0, th);
      var (seen', queue') := TurnSpec(code, u, 0, s.seen, queue);
      AfterInRange(code, s, seen', TurnEffect(code, u, 0, s.seen, th));
      ThreadsAlike(code, u, v, queue', After(s, seen', TurnEffect(code, u, 0, s.seen, th)));
    }
  }

  lemma ExecuteAlike(code: Code, u: seq<byte>, v: seq<byte>, th: Thread)
    requires u != [] && v != [] && u[0] == v[0] && th.ip < |code.insns|
    ensures Execute(code, u, 0, th) == Execute(code, v, 0, th)
  {
  }

  lemma FirstAlike(code: Code, u: seq<byte>, v: seq<byte>)
    requires WellFormed(code) && u != [] && v != [] && u[0] == v[0]
    ensures Before(code, u, 1) == Before(code, v, 1)
  {
    hide StaysInside, Threads, Unseen, HasRoom;
    var start, s := Thread(Node(NOP_EVENT, Empty), 0), NewOffset(code, None);
    assert ForeachVisits([start]) == [start] && [start][..0] == [] && [start][..1] == [start];
    NoVisits(code, u, 0, s);
    NoVisits(code, v, 0, s);
    HeadsStep(code, u, 0, [start], 0, s);
    HeadsStep(code, v, 0, [start], 0, s);
    ThreadsAlike(code, u, v, [start], s);
  }

  // ----- the word that is lost

  /** A visit behind offset 1 comes from a visit of an instruction that waits there. */
  lemma {:induction false} SeenThrough(code: Code, input: seq<byte>, d: Conf) returns (h: nat, n: nat, es: seq<Event>)
    requires WellFormed(code) && d.off > 0 && Visited(code, input, d)
    ensures Queued(ForeachVisits(Before(code, input, 1).heads), h) && Reach(code, input, n, Conf(h, 1), d, es)
    decreases d.off
  {
    hide WellFormed, Heads, Reach, Before;
    var g: nat, m: nat, fs :| Queued(ForeachVisits(Before(code, input, d.off).heads), g) && Reach(code, input, m, Conf(g, d.off), d, fs);
    if d.off == 1 {
      h, n, es := g, m, fs;
    } else {
      VisitWaits(Before(code, input, d.off).heads, g);
      OffsetExact(code, input, d.off - 1);
      var c := Conf(g - 1, d.off - 1);
      h, n, es := SeenThrough(code, input, c);
      ReachSnoc(code, input, n, Conf(h, 1), c, es, 0);
      ReachConcat(code, input, n + 1, Conf(h, 1), Conf(g, d.off), es + Emits(code, c), m, d, fs);
      n, es := n + 1 + m, es + Emits(code, c) + fs;
    }
  }

  lemma VisitWaits(heads: seq<Thread>, h: nat)
    requires Queued(ForeachVisits(heads), h)
    ensures Queued(heads, h)
  {
    var t :| 0 <= t < |ForeachVisits(heads)| && ForeachVisits(heads)[t].ip == h;
    assert ForeachVisits(heads)[t] == if t == 0 then heads[0] else heads[t - 1];
  }

  /** A run from behind the first byte of a word to the end of the input means that the input is that word. */
  lemma RunIsWord(code: Code, p: Parser, input: seq<byte>, k: nat, n: nat, es: seq<Event>)
    requires ProgramFor(code, p) && Words(p) && k < |p.ps| && input != [] && p.ps[k].str[0] == input[0]
    requires Reach(code, input, n, Conf(WordAt(p, k) + 4, 1), Conf(Len(p), |input|), es)
    ensures input == p.ps[k].str
  {
    hide WordAt, Reach, CodeFor, Len, RangeArg, Pushes;
    WordCode(code, p, k);
    var lo, d := WordAt(p, k) + 1, Conf(Len(p), |input|);
    ReachCons(code, input, Conf(lo + 2, 0), 0, n, d, es);
    assert Emits(code, Conf(lo + 2, 0)) + es == es && Emits(code, Conf(lo + 1, 0)) + es == es;
    ReachCons(code, input, Conf(lo + 1, 0), 0, n + 1, d, es);
    ReachCons(code, input, Conf(lo, 0), 0, n + 2, d, es);
    var m, j, t, e1, e2 := Sound(code, p.ps[k], lo, input, n + 3, 0, d, Emits(code, Conf(lo, 0)) + es);
    var c, rest := FirstStep(code, input, n + 3 - m, Conf(lo + Len(p.ps[k]), j), d, e2);
    AcceptIsLast(code, input, n + 2 - m, c, d, rest);
  }

  /** A word that no other one equals accepts only through its own instruction at offset 1. */
  lemma NotSeen(code: Code, p: Parser, m: nat)
    requires ProgramFor(code, p) && WellFormed(code) && Words(p) && m < |p.ps|
    requires !Queued(ForeachVisits(Before(code, p.ps[m].str, 1).heads), WordAt(p, m) + 4)
    ensures !SeesFrom(code, p.ps[m].str, |p.ps[m].str|)
  {
    hide WellFormed, Before, WordAt, CodeFor, Len, Visited, Reach;
    var v := p.ps[m].str;
    if SeesFrom(code, v, |v|) {
      var o: nat :| |v| <= o && Sees(code, v, o);
      SeenAccepts(code, v, o);
      var ip: nat :| ip < |code.insns| && code.insns[ip].op == ACCEPT && Visited(code, v, Conf(ip, o));
      ProgramWellFormed(code, p);
      var h, n, es := SeenThrough(code, v, Conf(ip, o));
      VisitWaits(Before(code, v, 1).heads, h);
      var k := HeadOfWord(code, p, v, h);
      RunIsWord(code, p, v, k, n, es);
    }
  }

  lemma WordMatches(p: Parser, m: nat)
    requires Words(p) && m < |p.ps|
    ensures Matches(p, p.ps[m].str, |p.ps[m].str|)
  {
    var v := p.ps[m].str;
    assert v[0..|v|] == v;
    assert Denotes(p.ps[m], v, 0, |v|, Some(Token(TtBytes(v), 0)));
    assert Denotes(p, v, 0, |v|, Some(Token(TtBytes(v), 0)));
  }

  /** Of the instructions that wait, the last is not visited. */
  lemma LastLeftOut(heads: seq<Thread>, a: nat, b: nat) returns (h: nat)
    requires Distinct(heads) && Queued(heads, a) && Queued(heads, b) && a != b
    ensures Queued(heads, h) && !Queued(ForeachVisits(heads), h)
  {
    h := heads[|heads| - 1].ip;
    assert |heads| > 1;
    var visits := ForeachVisits(heads);
    forall t | 0 <= t < |visits| ensures visits[t].ip != h {
      assert visits[t] == heads[if t == 0 then 0 else t - 1];
    }
  }

  /** With two words that begin alike, one of the words that begin so is not found in full when it is the input. */
  lemma SimulationMisses(code: Code, p: Parser, i: nat, j: nat) returns (m: nat)
    requires ProgramFor(code, p) && WellFormed(code) && Words(p)
    requires i < j < |p.ps| && p.ps[i].str[0] == p.ps[j].str[0]
    ensures m < |p.ps| && p.ps[m].str[0] == p.ps[i].str[0] && !Longest(p, p.ps[m].str, Returned(code, p.ps[m].str))
  {
    hide ProgramFor, WellFormed, Before, WordAt, Tidy, Longest, Returned, Matches, SeesFrom;
    var u := p.ps[i].str;
    var heads := Before(code, u, 1).heads;
    WordWaits(code, p, u, i);
    WordWaits(code, p, u, j);
    WordsApart(p, i, j);
    BeforeOk(code, u, 1);
    assert Distinct(heads) by { TidyDistinct(Before(code, u, 1)); }
    var h := LastLeftOut(heads, WordAt(p, i) + 4, WordAt(p, j) + 4);
    m := HeadOfWord(code, p, u, h);
    FirstAlike(code, u, p.ps[m].str);
    NotSeen(code, p, m);
    WordMatches(p, m);
    LongestExactly(code, p, p.ps[m].str);
  }

  lemma TidyDistinct(s: Progress)
    requires Tidy(s)
    ensures Distinct(s.heads)
  {
  }

  /** For a choice of words the result is longest on every input exactly when no two words begin with the same byte. */
  lemma WordsFoundExactly(code: Code, p: Parser)
    requires ProgramFor(code, p) && WellFormed(code) && Words(p)
    ensures (forall input :: Longest(p, input, Returned(code, input))) <==> FirstBytesDiffer(p)
  {
    hide ProgramFor, WellFormed, Longest, Returned;
    if FirstBytesDiffer(p) {
      DifferentWords(p);
      forall input ensures Longest(p, input, Returned(code, input)) {
        ReturnsLongest(code, p, input);
      }
    } else {
      var i, j :| 0 <= i < j < |p.ps| && p.ps[i].str[0] == p.ps[j].str[0];
      var m := SimulationMisses(code, p, i, j);
    }
  }
}
