/** The simulation of a choice of words, followed thread by thread: which words are still alive at every offset, in the
    order in which their threads wait, and which word the parse returns. */
module RvmWords {
  import opened Basics
  import opened RegularLanguage
  import opened RvmCode
  import opened RvmPaths
  import opened RvmThreads
  import opened RvmCoverage
  import opened RegexBackend
  import opened RvmMisses
  import opened Svm
  import opened SvmMachine
  import opened SparseArray

  // ----- the words that are alive

  /** The first `k` words that begin with the byte, from the last to the first: threads that are forked run first. */
  function Starting(p: Parser, k: nat, b: byte): (r: seq<nat>)
    requires Words(p) && k <= |p.ps|
    ensures forall i :: 0 <= i < |r| ==> r[i] < k && p.ps[r[i]].str[0] == b
    ensures forall i, j :: 0 <= i < j < |r| ==> r[i] > r[j]
  {
    if k == 0 then [] else (if p.ps[k - 1].str[0] == b then [k - 1] else []) + Starting(p, k - 1, b)
  }

  /** Of several words the last in the order is lost. */
  function Visiting(ws: seq<nat>): seq<nat> {
    if |ws| <= 1 then ws else ws[..|ws| - 1]
  }

  predicate GoesOn(p: Parser, k: nat, o: nat, b: byte)
    requires Words(p) && k < |p.ps|
  {
    o < |p.ps[k].str| && p.ps[k].str[o] == b
  }

  /** The words that have the byte at offset `o`. */
  function Going(p: Parser, ws: seq<nat>, o: nat, b: byte): (r: seq<nat>)
    requires Words(p) && forall i :: 0 <= i < |ws| ==> ws[i] < |p.ps|
    ensures forall i :: 0 <= i < |r| ==> r[i] in ws && GoesOn(p, r[i], o, b)
    ensures forall k :: k in ws && GoesOn(p, k, o, b) ==> k in r
  {
    if ws == [] then []
    else
      var init, last := ws[..|ws| - 1], ws[|ws| - 1];
      assert ws == init + [last];
      Going(p, init, o, b) + if GoesOn(p, last, o, b) then [last] else []
  }

  /** The words whose threads wait at offset `o`, in order. */
  function Alive(p: Parser, input: seq<byte>, o: nat): (r: seq<nat>)
    requires Words(p) && 0 < o <= |input|
    ensures forall i :: 0 <= i < |r| ==> r[i] < |p.ps|
  {
    if o == 1 then Starting(p, |p.ps|, input[0])
    else Going(p, Visiting(Alive(p, input, o - 1)), o - 1, input[o - 1])
  }

  /** Words that are alive agree with the input so far. */
  lemma {:induction false} AliveAgrees(p: Parser, input: seq<byte>, o: nat, k: nat)
    requires Words(p) && 0 < o <= |input| && k in Alive(p, input, o)
    ensures k < |p.ps| && o <= |p.ps[k].str| && p.ps[k].str[..o] == input[..o]
  {
    hide Words, Alive;
    if o > 1 {
      AliveStep(p, input, o - 1, k);
      AliveAgrees(p, input, o - 1, k);
      OneMore(p.ps[k].str, input, o);
    } else {
      FirstByte(p, input, k);
    }
  }

  lemma AliveStep(p: Parser, input: seq<byte>, o: nat, k: nat)
    requires Words(p) && 0 < o < |input| && k in Alive(p, input, o + 1)
    ensures p.Choice? && k in Alive(p, input, o) && k < |p.ps| && p.ps[k].Literal? && GoesOn(p, k, o, input[o])
  {
  }

  lemma FirstByte(p: Parser, input: seq<byte>, k: nat)
    requires Words(p) && 0 < |input| && k in Alive(p, input, 1)
    ensures p.Choice? && k < |p.ps| && p.ps[k].Literal? && 1 <= |p.ps[k].str| && p.ps[k].str[..1] == input[..1]
  {
    assert input[..1] == [input[0]];
    assert p.ps[k].str[..1] == [p.ps[k].str[0]];
  }

  lemma OneMore(w: seq<byte>, input: seq<byte>, o: nat)
    requires 0 < o <= |w| && o <= |input| && w[..o - 1] == input[..o - 1] && w[o - 1] == input[o - 1]
    ensures w[..o] == input[..o]
  {
    assert w[..o] == w[..o - 1] + [w[o - 1]] && input[..o] == input[..o - 1] + [input[o - 1]];
  }

  ghost predicate Descending(ws: seq<nat>) {
    forall i, j :: 0 <= i < j < |ws| ==> ws[i] > ws[j]
  }

  lemma {:induction false} GoingDescends(p: Parser, ws: seq<nat>, o: nat, b: byte)
    requires Words(p) && (forall i :: 0 <= i < |ws| ==> ws[i] < |p.ps|) && Descending(ws)
    ensures Descending(Going(p, ws, o, b))
    decreases |ws|
  {
    hide Words;
    if ws != [] {
      var init := ws[..|ws| - 1];
      GoingDescends(p, init, o, b);
      forall i | 0 <= i < |Going(p, init, o, b)| ensures Going(p, init, o, b)[i] > ws[|ws| - 1] {
        assert Going(p, init, o, b)[i] in init;
      }
    }
  }

  lemma {:induction false} AliveDescends(p: Parser, input: seq<byte>, o: nat)
    requires Words(p) && 0 < o <= |input|
    ensures Descending(Alive(p, input, o))
  {
    hide Words, Going;
    if o > 1 {
      AliveDescends(p, input, o - 1);
      GoingDescends(p, Visiting(Alive(p, input, o - 1)), o - 1, input[o - 1]);
    }
  }

  /** Word `k` is complete at offset `o` and its thread is visited there. */
  ghost predicate Complete(p: Parser, input: seq<byte>, o: nat, k: nat)
    requires Words(p) && o <= |input|
  {
    o > 0 && k in Visiting(Alive(p, input, o)) && |p.ps[k].str| == o
  }

  // ----- the instructions of a word

  /** Where the thread of word `k` waits when it has stepped over `o` bytes. */
  function WordHead(p: Parser, k: nat, o: nat): nat
    requires p.Choice? && k <= |p.ps|
  {
    WordAt(p, k) + 2 + 2 * o
  }

  lemma WordByte(code: Code, p: Parser, k: nat, o: nat)
    requires ProgramFor(code, p) && Words(p) && k < |p.ps| && o < |p.ps[k].str|
    ensures LiteralByte(code, p.ps[k].str[o], WordHead(p, k, o)) && WordHead(p, k, o) + 2 < WordAt(p, k + 1) <= Len(p) - 1
  {
    hide ProgramFor, RangeArg, LenUpto, LiteralByte, CodeFor;
    WordCode(code, p, k);
    LiteralAt(code, p.ps[k], WordAt(p, k) + 1, o);
  }

  lemma LiteralAt(code: Code, p: Parser, lo: nat, o: nat)
    requires CodeFor(code, p, lo) && p.Literal? && o < |p.str|
    ensures LiteralByte(code, p.str[o], lo + 1 + 2 * o) && Len(p) == 2 * |p.str| + 2
  {
    hide RangeArg, LiteralByte;
  }

  lemma WordEnd(code: Code, p: Parser, k: nat)
    requires ProgramFor(code, p) && Words(p) && k < |p.ps|
    ensures var at := WordHead(p, k, |p.ps[k].str|);
      At(code, at, CAPTURE, 0) && At(code, at + 1, GOTO, Len(p)) && at + 2 == WordAt(p, k + 1) <= Len(p) - 1 && At(code, Len(p), ACCEPT, 0)
  {
    hide RangeArg, LenUpto, LiteralByte, CodeFor;
    WordCode(code, p, k);
    LiteralEnd(code, p.ps[k], WordAt(p, k) + 1);
  }

  lemma LiteralEnd(code: Code, p: Parser, lo: nat)
    requires CodeFor(code, p, lo) && p.Literal?
    ensures At(code, lo + 1 + 2 * |p.str|, CAPTURE, 0) && Len(p) == 2 * |p.str| + 2
  {
    hide RangeArg, LiteralByte;
  }

  // ----- one turn with a known outcome

  lemma Goes(code: Code, input: seq<byte>, off: nat, below: seq<Thread>, th: Thread, s: Progress, next: Thread)
    requires HasRoom(code, input, off, s.seen, below + [th]) && InRange(code, s.heads)
    requires s.seen[th.ip] != 1 && Execute(code, input, off, th) == Effect.Goes(next)
    ensures var s' := s.(seen := s.seen[th.ip := 1]);
      && HasRoom(code, input, off, s'.seen, below + [next])
      && Threads(code, input, off, below + [th], s) == Threads(code, input, off, below + [next], s')
  {
    hide Execute, Threads, WellFormed, Unseen;
    ThreadsStep(code, input, off, below + [th], s);
    assert (below + [th])[..|below|] == below;
  }

  lemma Dies(code: Code, input: seq<byte>, off: nat, below: seq<Thread>, th: Thread, s: Progress)
    requires HasRoom(code, input, off, s.seen, below + [th]) && InRange(code, s.heads)
    requires s.seen[th.ip] == 1 || Execute(code, input, off, th) == Effect.Dies
    ensures var s' := s.(seen := s.seen[th.ip := 1]);
      && HasRoom(code, input, off, s'.seen, below)
      && Threads(code, input, off, below + [th], s) == Threads(code, input, off, below, s')
  {
    hide Execute, Threads, WellFormed, Unseen;
    ThreadsStep(code, input, off, below + [th], s);
    assert (below + [th])[..|below|] == below;
    assert s.seen[th.ip] == 1 ==> s.seen[th.ip := 1] == s.seen;
  }

  lemma Waits(code: Code, input: seq<byte>, off: nat, below: seq<Thread>, th: Thread, s: Progress, next: Thread)
    requires HasRoom(code, input, off, s.seen, below + [th]) && InRange(code, s.heads)
    requires s.seen[th.ip] != 1 && Execute(code, input, off, th) == Effect.Waits(next)
    ensures var s' := Progress(s.seen[th.ip := 1], Save(s.heads, next), s.live + 1, s.ret);
      && HasRoom(code, input, off, s'.seen, below) && InRange(code, s'.heads)
      && Threads(code, input, off, below + [th], s) == Threads(code, input, off, below, s')
  {
    hide Execute, Threads, WellFormed, Unseen;
    ThreadsStep(code, input, off, below + [th], s);
    assert (below + [th])[..|below|] == below;
  }

  lemma Forks(code: Code, input: seq<byte>, off: nat, below: seq<Thread>, th: Thread, s: Progress, next: Thread, other: Thread)
    requires HasRoom(code, input, off, s.seen, below + [th]) && InRange(code, s.heads)
    requires s.seen[th.ip] != 1 && Execute(code, input, off, th) == Effect.Forks(next, other)
    requires next.ip < |s.seen| && other.ip < |s.seen| && s.seen[th.ip := 1][other.ip] == 0
    ensures var s' := s.(seen := s.seen[th.ip := 1][next.ip := 2]);
      && HasRoom(code, input, off, s'.seen, below + [next] + [other])
      && Threads(code, input, off, below + [th], s) == Threads(code, input, off, below + [next] + [other], s')
  {
    hide Execute, Threads, WellFormed, Unseen;
    ThreadsStep(code, input, off, below + [th], s);
    assert (below + [th])[..|below|] == below;
    assert below + [next, other] == below + [next] + [other];
  }

  lemma Accepts(code: Code, input: seq<byte>, off: nat, th: Thread, s: Progress)
    requires HasRoom(code, input, off, s.seen, [th]) && InRange(code, s.heads) && code.insns[th.ip].op == ACCEPT
    ensures var r := Threads(code, input, off, [th], s);
      r.heads == s.heads && |r.seen| == |s.seen| && forall j :: 0 <= j < |s.seen| && j != th.ip ==> r.seen[j] == s.seen[j]
  {
    hide Threads, WellFormed, Unseen;
    ThreadsStep(code, input, off, [th], s);
    assert [th][..0] == [];
    var (seen', queue') := TurnSpec(code, input, off, s.seen, [th]);
    ThreadsStep(code, input, off, [], After(s, seen', TurnEffect(code, input, off, s.seen, th)));
  }

  // ----- the threads of one word

  function Ips(ths: seq<Thread>): (r: seq<nat>)
    ensures |r| == |ths| && forall i :: 0 <= i < |ths| ==> r[i] == ths[i].ip
  {
    seq(|ths|, i requires 0 <= i < |ths| => ths[i].ip)
  }

  lemma SavedLast(heads: seq<Thread>, th: Thread)
    requires th.ip !in Ips(heads)
    ensures Ips(Save(heads, th)) == Ips(heads) + [th.ip]
  {
    forall k | 0 <= k < |heads| ensures heads[k].ip != th.ip {
      assert Ips(heads)[k] == heads[k].ip;
    }
    assert Save(heads, th) == heads + [th];
  }

  /** A thread between two bytes of a word: it steps over the next byte of the input if it is the word's, and dies if not. */
  lemma ByteRuns(code: Code, p: Parser, input: seq<byte>, o: nat, k: nat, below: seq<Thread>, th: Thread, s: Progress, off: nat) returns (s': Progress)
    requires ProgramFor(code, p) && Words(p) && k < |p.ps| && off < |input| && o < |p.ps[k].str| && th.ip == WordHead(p, k, o)
    requires HasRoom(code, input, off, s.seen, below + [th]) && InRange(code, s.heads) && WordHead(p, k, o + 1) !in Ips(s.heads)
    requires th.ip + 1 < |s.seen| && s.seen[th.ip] != 1 && s.seen[th.ip + 1] != 1
    ensures HasRoom(code, input, off, s'.seen, below) && InRange(code, s'.heads)
    ensures Threads(code, input, off, below + [th], s) == Threads(code, input, off, below, s')
    ensures Ips(s'.heads) == Ips(s.heads) + (if GoesOn(p, k, o, input[off]) then [WordHead(p, k, o + 1)] else [])
    ensures |s'.seen| == |s.seen| && s'.seen[th.ip] == 1
    ensures forall j :: 0 <= j < |s.seen| && j != th.ip && j != th.ip + 1 ==> s'.seen[j] == s.seen[j]
  {
    hide WellFormed, ProgramFor, Threads, Unseen, WordAt, Save, HasRoom, InRange;
    WordByte(code, p, k, o);
    RoomFacts(code, input, off, s.seen, below + [th]);
    if GoesOn(p, k, o, input[off]) {
      var next := th.(ip := th.ip + 1);
      var s1 := s.(seen := s.seen[th.ip := 1]);
      Goes(code, input, off, below, th, s, next);
      Waits(code, input, off, below, next, s1, next.(ip := th.ip + 2));
      SavedLast(s.heads, next.(ip := th.ip + 2));
      s' := Progress(s1.seen[next.ip := 1], Save(s1.heads, next.(ip := th.ip + 2)), s1.live + 1, s1.ret);
    } else {
      Dies(code, input, off, below, th, s);
      s' := s.(seen := s.seen[th.ip := 1]);
      assert Ips(s.heads) + [] == Ips(s.heads);
    }
  }

  /** Behind the last byte: the thread of a complete word runs to the ACCEPT and leaves the waiting threads alone. */
  lemma EndRuns(code: Code, p: Parser, input: seq<byte>, off: nat, k: nat, th: Thread, s: Progress)
    requires ProgramFor(code, p) && Words(p) && k < |p.ps| && off <= |input| && th.ip == WordHead(p, k, |p.ps[k].str|)
    requires HasRoom(code, input, off, s.seen, [th]) && InRange(code, s.heads)
    requires th.ip + 1 < |s.seen| && s.seen[th.ip] != 1 && s.seen[th.ip + 1] != 1
    ensures var r := Threads(code, input, off, [th], s);
      && r.heads == s.heads && |r.seen| == |s.seen| && r.seen[th.ip] == 1
      && forall j :: 0 <= j < |s.seen| && j != th.ip && j != th.ip + 1 && j != Len(p) ==> r.seen[j] == s.seen[j]
  {
    hide WellFormed, ProgramFor, Threads, Unseen, WordAt, HasRoom, InRange, Len;
    WordEnd(code, p, k);
    RoomFacts(code, input, off, s.seen, [th]);
    var captured := Thread(Node(Event(SVM_CAPTURE, 0, off), th.trace), th.ip + 1);
    assert [] + [th] == [th] && [] + [captured] == [captured];
    Goes(code, input, off, [], th, s, captured);
    var s1 := s.(seen := s.seen[th.ip := 1]);
    var last := captured.(ip := Len(p));
    assert [] + [last] == [last];
    Goes(code, input, off, [], captured, s1, last);
    var s2 := s1.(seen := s1.seen[captured.ip := 1]);
    Accepts(code, input, off, last, s2);
  }

  // ----- offset 0

  /** Where a thread that was forked off for word `k` is to run. */
  ghost predicate Pending(p: Parser, queue: seq<Thread>)
    requires p.Choice? && |queue| <= |p.ps|
  {
    forall i :: 0 <= i < |queue| ==> queue[i].ip == WordAt(p, i) + 1
  }

  /** The code of the first `k` words has not been run. */
  ghost predicate Fresh(p: Parser, k: nat, seen: seq<nat>)
    requires p.Choice? && k <= |p.ps|
  {
    forall i, j :: 0 <= i < k && WordAt(p, i) < j <= WordAt(p, i) + 3 && j < |seen| ==> seen[j] != 1
  }

  function HeadsOf(p: Parser, ws: seq<nat>, o: nat): (r: seq<nat>)
    requires p.Choice? && forall i :: 0 <= i < |ws| ==> ws[i] < |p.ps|
    ensures |r| == |ws| && forall i :: 0 <= i < |ws| ==> r[i] == WordHead(p, ws[i], o)
  {
    seq(|ws|, i requires 0 <= i < |ws| => WordHead(p, ws[i], o))
  }

  /** The thread of one word at offset 0. */
  lemma WordStarts(code: Code, p: Parser, input: seq<byte>, k: nat, below: seq<Thread>, th: Thread, s: Progress) returns (s': Progress)
    requires ProgramFor(code, p) && Words(p) && k < |p.ps| && input != [] && th.ip == WordAt(p, k) + 1
    requires HasRoom(code, input, 0, s.seen, below + [th]) && InRange(code, s.heads) && WordHead(p, k, 1) !in Ips(s.heads)
    requires th.ip + 2 < |s.seen| && s.seen[th.ip] != 1 && s.seen[th.ip + 1] != 1 && s.seen[th.ip + 2] != 1
    ensures HasRoom(code, input, 0, s'.seen, below) && InRange(code, s'.heads)
    ensures Threads(code, input, 0, below + [th], s) == Threads(code, input, 0, below, s')
    ensures Ips(s'.heads) == Ips(s.heads) + (if p.ps[k].str[0] == input[0] then [WordHead(p, k, 1)] else [])
    ensures |s'.seen| == |s.seen| && forall j :: 0 <= j < |s.seen| && !(WordAt(p, k) < j <= WordAt(p, k) + 3) ==> s'.seen[j] == s.seen[j]
  {
    hide WellFormed, ProgramFor, Threads, Unseen, WordAt, HasRoom, InRange, Len, Ips;
    WordCode(code, p, k);
    RoomFacts(code, input, 0, s.seen, below + [th]);
    var marked := Thread(Node(Event(SVM_PUSH, 0, 0), th.trace), th.ip + 1);
    Goes(code, input, 0, below, th, s, marked);
    var s1 := s.(seen := s.seen[th.ip := 1]);
    s' := ByteRuns(code, p, input, 0, k, below, marked, s1, 0);
  }

  lemma WordInside(code: Code, p: Parser, k: nat)
    requires ProgramFor(code, p) && Words(p) && k < |p.ps|
    ensures WordAt(p, k) + 4 < WordAt(p, k + 1) < |code.insns|
    ensures forall o: nat :: o <= |p.ps[k].str| ==> WordAt(p, k) < WordHead(p, k, o) < WordAt(p, k + 1) - 1
  {
    hide LenUpto, CodeFor, RangeArg;
    WordCode(code, p, k);
    WordEnd(code, p, k);
  }

  lemma {:induction false} WordsBefore(code: Code, p: Parser, i: nat, k: nat)
    requires ProgramFor(code, p) && Words(p) && i < k <= |p.ps|
    ensures WordAt(p, i) + 4 < WordAt(p, k)
  {
    hide LenUpto, CodeFor, RangeArg, WordAt, ProgramFor;
    WordInside(code, p, i);
    if i + 1 < k {
      WordsApart(p, i + 1, k);
    }
  }

  /** All waiting threads belong to the `k`-th word or later ones. */
  ghost predicate From(p: Parser, k: nat, heads: seq<Thread>)
    requires p.Choice? && k <= |p.ps|
  {
    forall i :: 0 <= i < |heads| ==> heads[i].ip > WordAt(p, k)
  }

  lemma StillFresh(code: Code, p: Parser, k: nat, seen: seq<nat>, seen': seq<nat>)
    requires ProgramFor(code, p) && Words(p) && k < |p.ps| && Fresh(p, k + 1, seen) && |seen'| == |seen|
    requires forall j :: 0 <= j < |seen| && !(WordAt(p, k) < j <= WordAt(p, k) + 3) ==> seen'[j] == seen[j]
    ensures Fresh(p, k, seen')
  {
    hide ProgramFor, WordAt;
    forall i, j | 0 <= i < k && WordAt(p, i) < j <= WordAt(p, i) + 3 && j < |seen'| ensures seen'[j] != 1 {
      WordsBefore(code, p, i, k);
    }
  }

  /** One more word in front. */
  lemma OneMoreHead(code: Code, p: Parser, k: nat, b: byte, heads: seq<Thread>, heads': seq<Thread>)
    requires ProgramFor(code, p) && Words(p) && k < |p.ps| && From(p, k + 1, heads)
    requires Ips(heads') == Ips(heads) + (if p.ps[k].str[0] == b then [WordHead(p, k, 1)] else [])
    ensures From(p, k, heads')
    ensures Ips(heads') + HeadsOf(p, Starting(p, k, b), 1) == Ips(heads) + HeadsOf(p, Starting(p, k + 1, b), 1)
  {
    hide ProgramFor, WordAt, WordHead, Starting;
    WordInside(code, p, k);
    StartingHeads(p, k, b);
    assert WordHead(p, k, 1) > WordAt(p, k);
    forall i | 0 <= i < |heads'| ensures heads'[i].ip > WordAt(p, k) {
      assert Ips(heads')[i] == heads'[i].ip;
      assert i < |heads| ==> Ips(heads)[i] == heads[i].ip;
    }
  }

  lemma StartingHeads(p: Parser, k: nat, b: byte)
    requires Words(p) && k < |p.ps|
    ensures HeadsOf(p, Starting(p, k + 1, b), 1) ==
      (if p.ps[k].str[0] == b then [WordHead(p, k, 1)] else []) + HeadsOf(p, Starting(p, k, b), 1)
  {
    hide WordHead;
    assert Starting(p, k + 1, b) == (if p.ps[k].str[0] == b then [k] else []) + Starting(p, k, b);
  }

  lemma NotYet(code: Code, p: Parser, k: nat, heads: seq<Thread>)
    requires ProgramFor(code, p) && Words(p) && k < |p.ps| && From(p, k + 1, heads)
    ensures WordHead(p, k, 1) !in Ips(heads)
  {
    hide ProgramFor, WordAt, WordHead;
    WordInside(code, p, k);
    assert WordHead(p, k, 1) < WordAt(p, k + 1);
    forall i | 0 <= i < |heads| ensures Ips(heads)[i] != WordHead(p, k, 1) {
      assert Ips(heads)[i] == heads[i].ip;
    }
  }

  /** The forked threads run from the last to the first. */
  lemma {:induction false} Unwind(code: Code, p: Parser, input: seq<byte>, queue: seq<Thread>, s: Progress)
    requires ProgramFor(code, p) && Words(p) && input != [] && |queue| <= |p.ps| && Pending(p, queue) && Fresh(p, |queue|, s.seen)
    requires HasRoom(code, input, 0, s.seen, queue) && InRange(code, s.heads) && From(p, |queue|, s.heads)
    ensures Ips(Threads(code, input, 0, queue, s).heads) == Ips(s.heads) + HeadsOf(p, Starting(p, |queue|, input[0]), 1)
    decreases |queue|
  {
    hide WellFormed, ProgramFor, Threads, Unseen, WordAt, HasRoom, InRange, Len, From;
    RoomFacts(code, input, 0, s.seen, queue);
    var k := |queue|;
    if k == 0 {
      ThreadsStep(code, input, 0, queue, s);
      assert Ips(s.heads) + [] == Ips(s.heads);
    } else {
      var below, th := queue[..k - 1], queue[k - 1];
      assert queue == below + [th];
      WordInside(code, p, k - 1);
      NotYet(code, p, k - 1, s.heads);
      FreshWord(p, k - 1, s.seen);
      var s' := WordStarts(code, p, input, k - 1, below, th, s);
      StillFresh(code, p, k - 1, s.seen, s'.seen);
      OneMoreHead(code, p, k - 1, input[0], s.heads, s'.heads);
      Unwind(code, p, input, below, s');
    }
  }

  lemma FreshWord(p: Parser, k: nat, seen: seq<nat>)
    requires p.Choice? && k < |p.ps| && Fresh(p, k + 1, seen)
    ensures forall j :: WordAt(p, k) < j <= WordAt(p, k) + 3 && j < |seen| ==> seen[j] != 1
  {
  }

  /** One fork after the other puts a thread for every word on the queue; behind the last one the thread dies. */
  lemma {:induction false} ForkChain(code: Code, p: Parser, input: seq<byte>, queue: seq<Thread>, th: Thread, s: Progress)
    requires ProgramFor(code, p) && Words(p) && input != [] && |queue| <= |p.ps| && Pending(p, queue) && Fresh(p, |queue|, s.seen)
    requires th.ip == WordAt(p, |queue|) && s.heads == [] && HasRoom(code, input, 0, s.seen, queue + [th])
    requires forall j :: th.ip <= j < |s.seen| ==> s.seen[j] == 0
    ensures Ips(Threads(code, input, 0, queue + [th], s).heads) == HeadsOf(p, Starting(p, |p.ps|, input[0]), 1)
    decreases |p.ps| - |queue|
  {
    hide WellFormed, ProgramFor, Threads, Unseen, WordAt, HasRoom, Len, RangeArg, RangeLow, RangeHigh;
    RoomFacts(code, input, 0, s.seen, queue + [th]);
    var k := |queue|;
    assert (queue + [th])[k] == th;
    if k == |p.ps| {
      LastTest(code, p);
      LastTestFails(code, input, th);
      Dies(code, input, 0, queue, th, s);
      FreshKept(code, p, k, s.seen, s.seen[th.ip := 1]);
      Unwind(code, p, input, queue, s.(seen := s.seen[th.ip := 1]));
      assert [] + HeadsOf(p, Starting(p, k, input[0]), 1) == HeadsOf(p, Starting(p, k, input[0]), 1);
    } else {
      WordCode(code, p, k);
      WordInside(code, p, k);
      var next, other := th.(ip := th.ip + 1), th.(ip := WordAt(p, k + 1));
      Forks(code, input, 0, queue, th, s, next, other);
      var seen' := s.seen[th.ip := 1][next.ip := 2];
      FreshMore(code, p, k, s.seen, seen');
      ForkChain(code, p, input, queue + [next], other, s.(seen := seen'));
    }
  }

  lemma LastTestFails(code: Code, input: seq<byte>, th: Thread)
    requires At(code, th.ip, MATCH, RangeArg(255, 0))
    ensures Execute(code, input, 0, th) == Effect.Dies
  {
  }

  lemma FreshKept(code: Code, p: Parser, k: nat, seen: seq<nat>, seen': seq<nat>)
    requires ProgramFor(code, p) && Words(p) && k <= |p.ps| && Fresh(p, k, seen) && |seen'| == |seen|
    requires forall j :: 0 <= j < |seen| && j < WordAt(p, k) ==> seen'[j] == seen[j]
    ensures Fresh(p, k, seen')
  {
    hide ProgramFor, WordAt;
    forall i, j | 0 <= i < k && WordAt(p, i) < j <= WordAt(p, i) + 3 && j < |seen'| ensures seen'[j] != 1 {
      WordsBefore(code, p, i, k);
    }
  }

  lemma FreshMore(code: Code, p: Parser, k: nat, seen: seq<nat>, seen': seq<nat>)
    requires ProgramFor(code, p) && Words(p) && k < |p.ps| && Fresh(p, k, seen) && WordAt(p, k) + 1 < |seen|
    requires (forall j :: WordAt(p, k) <= j < |seen| ==> seen[j] == 0) && seen' == seen[WordAt(p, k) := 1][WordAt(p, k) + 1 := 2]
    ensures Fresh(p, k + 1, seen')
  {
    hide ProgramFor, WordAt;
    FreshKept(code, p, k, seen, seen');
  }

  lemma FirstOffset(code: Code, input: seq<byte>)
    requires WellFormed(code)
    ensures var start, s := Thread(Node(NOP_EVENT, Empty), 0), NewOffset(code, None);
      && HasRoom(code, input, 0, s.seen, [start])
      && Before(code, input, 1) == Threads(code, input, 0, [start], s)
  {
    hide StaysInside, Threads, Unseen;
    var start, s := Thread(Node(NOP_EVENT, Empty), 0), NewOffset(code, None);
    OneThread(code, input, 0, s.seen, start);
    assert ForeachVisits([start]) == [start] && [start][..0] == [] && [start][..1] == [start];
    NoVisits(code, input, 0, s);
    HeadsStep(code, input, 0, [start], 0, s);
  }

  /** The first offset: one thread for each word that begins with the byte, from the last word to the first. */
  lemma FirstAlive(code: Code, p: Parser, input: seq<byte>)
    requires ProgramFor(code, p) && WellFormed(code) && Words(p) && input != []
    ensures Ips(Before(code, input, 1).heads) == HeadsOf(p, Alive(p, input, 1), 1)
  {
    hide WellFormed, ProgramFor, Threads, Unseen, HasRoom, WordAt, Before, Words;
    AreWords(p);
    FirstWord(p);
    FirstOffset(code, input);
    var start, s := Thread(Node(NOP_EVENT, Empty), 0), NewOffset(code, None);
    assert [] + [start] == [start];
    ForkChain(code, p, input, [], start, s);
  }

  // ----- the other offsets

  /** The thread of word `k`, run for the first time at an offset. */
  lemma ThreadRuns(code: Code, p: Parser, input: seq<byte>, o: nat, k: nat, th: Thread, s: Progress)
    requires ProgramFor(code, p) && Words(p) && k < |p.ps| && o < |input| && o <= |p.ps[k].str| && th.ip == WordHead(p, k, o)
    requires HasRoom(code, input, o, s.seen, [th]) && InRange(code, s.heads) && (o < |p.ps[k].str| ==> WordHead(p, k, o + 1) !in Ips(s.heads))
    requires th.ip + 1 < |s.seen| && s.seen[th.ip] != 1 && s.seen[th.ip + 1] != 1
    ensures var r := Threads(code, input, o, [th], s);
      && Ips(r.heads) == Ips(s.heads) + (if GoesOn(p, k, o, input[o]) then [WordHead(p, k, o + 1)] else [])
      && |r.seen| == |s.seen| && r.seen[th.ip] == 1
      && forall j :: 0 <= j < |s.seen| && j != th.ip && j != th.ip + 1 && j != Len(p) ==> r.seen[j] == s.seen[j]
  {
    hide WellFormed, ProgramFor, Threads, Unseen, HasRoom, InRange, Len, WordHead;
    if o == |p.ps[k].str| {
      EndRuns(code, p, input, o, k, th, s);
      assert Ips(s.heads) + [] == Ips(s.heads);
    } else {
      assert [] + [th] == [th];
      var s' := ByteRuns(code, p, input, o, k, [], th, s, o);
      ThreadsStep(code, input, o, [], s');
    }
  }

  /** Run a second time, it dies at once. */
  lemma RunsOnce(code: Code, input: seq<byte>, off: nat, th: Thread, s: Progress)
    requires HasRoom(code, input, off, s.seen, [th]) && InRange(code, s.heads) && th.ip < |s.seen| && s.seen[th.ip] == 1
    ensures Threads(code, input, off, [th], s) == s
  {
    hide WellFormed, Threads, Unseen, Execute;
    assert [] + [th] == [th] && s.seen[th.ip := 1] == s.seen;
    Dies(code, input, off, [], th, s);
    ThreadsStep(code, input, off, [], s);
  }

  /** Words whose threads wait at an offset that they can be at. */
  ghost predicate Standing(p: Parser, ws: seq<nat>, o: nat, heads: seq<Thread>)
    requires Words(p)
  {
    && Descending(ws) && (forall i :: 0 <= i < |ws| ==> ws[i] < |p.ps| && o <= |p.ps[ws[i]].str|)
    && Ips(heads) == HeadsOf(p, ws, o)
  }

  /** The number of words run when the macro has called its body `j` times. */
  function Ran(j: nat): nat {
    if j <= 1 then j else j - 1
  }

  /** After `j` calls the words run so far have stepped if they can, and the others are untouched. */
  ghost predicate Partly(p: Parser, ws: seq<nat>, o: nat, b: byte, j: nat, s: Progress)
    requires Words(p) && (forall i :: 0 <= i < |ws| ==> ws[i] < |p.ps|) && Ran(j) <= |ws|
  {
    && Ips(s.heads) == HeadsOf(p, Going(p, ws[..Ran(j)], o, b), o + 1)
    && (forall i :: Ran(j) <= i < |ws| ==> Untouched(p, ws[i], o, s.seen))
    && (j == 1 ==> WordHead(p, ws[0], o) < |s.seen| && s.seen[WordHead(p, ws[0], o)] == 1)
  }

  ghost predicate Untouched(p: Parser, k: nat, o: nat, seen: seq<nat>)
    requires p.Choice? && k < |p.ps|
  {
    var at := WordHead(p, k, o);
    at + 1 < |seen| && seen[at] != 1 && seen[at + 1] != 1
  }

  lemma Apart(code: Code, p: Parser, i: nat, k: nat, o: nat)
    requires ProgramFor(code, p) && Words(p) && i < |p.ps| && k < |p.ps| && i != k && o <= |p.ps[i].str| && o <= |p.ps[k].str|
    ensures WordHead(p, i, o) != WordHead(p, k, o) && WordHead(p, i, o) + 1 != WordHead(p, k, o) && WordHead(p, i, o) + 1 < Len(p)
  {
    hide ProgramFor, WordAt, Len;
    WordInside(code, p, i);
    WordInside(code, p, k);
    WordEnd(code, p, i);
    WordCode(code, p, i);
    if i < k {
      WordsApart2(p, i + 1, k);
    } else {
      WordsApart2(p, k + 1, i);
    }
  }

  lemma WordsApart2(p: Parser, i: nat, k: nat)
    requires p.Choice? && i <= k <= |p.ps|
    ensures WordAt(p, i) <= WordAt(p, k)
  {
    hide WordAt;
    if i < k {
      WordsApart(p, i, k);
    }
  }

  lemma NotGone(code: Code, p: Parser, ws: seq<nat>, m: nat, o: nat, b: byte, s: Progress)
    requires ProgramFor(code, p) && Words(p) && Descending(ws) && (forall i :: 0 <= i < |ws| ==> ws[i] < |p.ps|) && m < |ws|
    requires Ips(s.heads) == HeadsOf(p, Going(p, ws[..m], o, b), o + 1) && o + 1 <= |p.ps[ws[m]].str|
    ensures WordHead(p, ws[m], o + 1) !in Ips(s.heads)
  {
    hide ProgramFor, WordHead;
    var going := Going(p, ws[..m], o, b);
    var heads := HeadsOf(p, going, o + 1);
    forall i | 0 <= i < |heads| ensures heads[i] != WordHead(p, ws[m], o + 1) {
      var j :| 0 <= j < m && ws[..m][j] == going[i];
      assert ws[j] > ws[m] && GoesOn(p, going[i], o, b);
      Apart(code, p, going[i], ws[m], o + 1);
    }
  }

  lemma AreWords(p: Parser)
    requires Words(p)
    ensures p.Choice? && forall k :: 0 <= k < |p.ps| ==> p.ps[k].Literal? && p.ps[k].str != []
  {
  }

  /** The first call for word `ws[m]`. */
  lemma FreshCall(code: Code, p: Parser, input: seq<byte>, o: nat, ws: seq<nat>, m: nat, th: Thread, s: Progress)
    requires ProgramFor(code, p) && Words(p) && 0 < o < |input| && m < |ws|
    requires Descending(ws) && forall i :: 0 <= i < |ws| ==> ws[i] < |p.ps| && o <= |p.ps[ws[i]].str|
    requires Ips(s.heads) == HeadsOf(p, Going(p, ws[..m], o, input[o]), o + 1) && th.ip == WordHead(p, ws[m], o)
    requires InRange(code, s.heads) && HasRoom(code, input, o, s.seen, [th])
    requires forall i :: m <= i < |ws| ==> Untouched(p, ws[i], o, s.seen)
    ensures var r := Threads(code, input, o, [th], s);
      && Ips(r.heads) == HeadsOf(p, Going(p, ws[..m + 1], o, input[o]), o + 1)
      && (forall i :: m + 1 <= i < |ws| ==> Untouched(p, ws[i], o, r.seen))
      && th.ip < |r.seen| && r.seen[th.ip] == 1
  {
    hide WellFormed, ProgramFor, Threads, Unseen, HasRoom, InRange, Len, WordHead, Going, Words;
    AreWords(p);
    var k := ws[m];
    assert Untouched(p, k, o, s.seen);
    if o < |p.ps[k].str| {
      NotGone(code, p, ws, m, o, input[o], s);
    }
    ThreadRuns(code, p, input, o, k, th, s);
    GoingMore(p, ws, m, o, input[o]);
    var r := Threads(code, input, o, [th], s);
    forall i | m + 1 <= i < |ws| ensures Untouched(p, ws[i], o, r.seen) {
      assert Untouched(p, ws[i], o, s.seen);
      Apart(code, p, k, ws[i], o);
      Apart(code, p, ws[i], k, o);
    }
  }

  /** One call of the body. */
  lemma CallRuns(code: Code, p: Parser, input: seq<byte>, o: nat, ws: seq<nat>, heads: seq<Thread>, j: nat, s: Progress)
    requires ProgramFor(code, p) && Words(p) && 0 < o < |input| && Standing(p, ws, o, heads) && j < |ws|
    requires Partly(p, ws, o, input[o], j, s) && InRange(code, s.heads) && HasRoom(code, input, o, s.seen, [ForeachVisits(heads)[j]])
    ensures Partly(p, ws, o, input[o], j + 1, Threads(code, input, o, [ForeachVisits(heads)[j]], s))
  {
    hide WellFormed, ProgramFor, Threads, Unseen, HasRoom, InRange, Len, WordHead, ForeachVisits, Going, Words, Partly, HeadsOf;
    AreWords(p);
    ForeachVisit(heads, j);
    var th := heads[if j == 0 then 0 else j - 1];
    StandingAt(p, ws, o, heads, if j == 0 then 0 else j - 1);
    if j == 1 {
      SecondCall(p, ws, o, input[o], th, s);
      RunsOnce(code, input, o, th, s);
    } else {
      PartlyMeans(p, ws, o, input[o], j, s);
      FreshCall(code, p, input, o, ws, Ran(j), th, s);
      PartlyMade(p, ws, o, input[o], j + 1, Threads(code, input, o, [th], s));
    }
  }

  lemma StandingAt(p: Parser, ws: seq<nat>, o: nat, heads: seq<Thread>, i: nat)
    requires Words(p) && Standing(p, ws, o, heads) && i < |ws|
    ensures i < |heads| && heads[i].ip == WordHead(p, ws[i], o)
  {
    assert Ips(heads)[i] == heads[i].ip;
  }

  lemma SecondCall(p: Parser, ws: seq<nat>, o: nat, b: byte, th: Thread, s: Progress)
    requires Words(p) && (forall i :: 0 <= i < |ws| ==> ws[i] < |p.ps|) && 1 < |ws| && Partly(p, ws, o, b, 1, s) && th.ip == WordHead(p, ws[0], o)
    ensures Partly(p, ws, o, b, 2, s) && th.ip < |s.seen| && s.seen[th.ip] == 1
  {
    hide Words, Going, Untouched;
  }

  lemma PartlyMeans(p: Parser, ws: seq<nat>, o: nat, b: byte, j: nat, s: Progress)
    requires Words(p) && (forall i :: 0 <= i < |ws| ==> ws[i] < |p.ps|) && Ran(j) <= |ws| && Partly(p, ws, o, b, j, s)
    ensures Ips(s.heads) == HeadsOf(p, Going(p, ws[..Ran(j)], o, b), o + 1)
    ensures forall i :: Ran(j) <= i < |ws| ==> Untouched(p, ws[i], o, s.seen)
  {
    hide Words, Going, Untouched;
  }

  lemma PartlyMade(p: Parser, ws: seq<nat>, o: nat, b: byte, j: nat, s: Progress)
    requires Words(p) && (forall i :: 0 <= i < |ws| ==> ws[i] < |p.ps|) && 0 < Ran(j) <= |ws| && j != 2
    requires Ips(s.heads) == HeadsOf(p, Going(p, ws[..Ran(j)], o, b), o + 1)
    requires forall i :: Ran(j) <= i < |ws| ==> Untouched(p, ws[i], o, s.seen)
    requires j == 1 ==> WordHead(p, ws[0], o) < |s.seen| && s.seen[WordHead(p, ws[0], o)] == 1
    ensures Partly(p, ws, o, b, j, s)
  {
    hide Words, Going, Untouched;
  }

  lemma GoingMore(p: Parser, ws: seq<nat>, m: nat, o: nat, b: byte)
    requires Words(p) && (forall i :: 0 <= i < |ws| ==> ws[i] < |p.ps|) && m < |ws|
    ensures HeadsOf(p, Going(p, ws[..m + 1], o, b), o + 1) ==
      HeadsOf(p, Going(p, ws[..m], o, b), o + 1) + (if GoesOn(p, ws[m], o, b) then [WordHead(p, ws[m], o + 1)] else [])
  {
    hide WordHead;
    assert ws[..m + 1][..m] == ws[..m] && ws[..m + 1][m] == ws[m];
  }

  lemma {:induction false} CallsRun(code: Code, p: Parser, input: seq<byte>, o: nat, ws: seq<nat>, heads: seq<Thread>, j: nat, s: Progress)
    requires ProgramFor(code, p) && WellFormed(code) && Words(p) && 0 < o < |input| && Standing(p, ws, o, heads) && j <= |ws|
    requires Partly(p, ws, o, input[o], 0, s) && InRange(code, s.heads) && InRange(code, ForeachVisits(heads)) && |s.seen| == |code.insns|
    ensures |ForeachVisits(heads)| == |ws| && Partly(p, ws, o, input[o], j, Heads(code, input, o, ForeachVisits(heads)[..j], s))
    decreases j
  {
    hide WellFormed, ProgramFor, Threads, Heads, HasRoom, Partly, ForeachVisits, Standing;
    ForeachCount(heads);
    StandingCount(p, ws, o, heads);
    var visits := ForeachVisits(heads);
    if j == 0 {
      assert visits[..0] == [];
      NoVisits(code, input, o, s);
    } else {
      CallsRun(code, p, input, o, ws, heads, j - 1, s);
      HeadsStep(code, input, o, visits, j - 1, s);
      CallRuns(code, p, input, o, ws, heads, j - 1, Heads(code, input, o, visits[..j - 1], s));
    }
  }

  lemma StandingCount(p: Parser, ws: seq<nat>, o: nat, heads: seq<Thread>)
    requires Words(p) && Standing(p, ws, o, heads)
    ensures |ws| == |heads| && forall i :: 0 <= i < |ws| ==> ws[i] < |p.ps| && o <= |p.ps[ws[i]].str|
  {
  }

  /** From one offset to the next. */
  lemma NextAlive(code: Code, p: Parser, input: seq<byte>, o: nat, ws: seq<nat>)
    requires ProgramFor(code, p) && WellFormed(code) && Words(p) && 0 < o < |input| && Standing(p, ws, o, Before(code, input, o).heads)
    ensures forall i :: 0 <= i < |ws| ==> ws[i] < |p.ps|
    ensures Ips(Before(code, input, o + 1).heads) == HeadsOf(p, Going(p, Visiting(ws), o, input[o]), o + 1)
  {
    hide WellFormed, ProgramFor, Heads, WordHead, ForeachVisits, Going, Partly, Words, Standing, Visiting;
    AreWords(p);
    var b := Before(code, input, o);
    StandingCount(p, ws, o, b.heads);
    ForeachCount(b.heads);
    NewIsUntouched(code, p, ws, o, input[o], b.ret);
    VisitsInside(code, b.heads);
    CallsRun(code, p, input, o, ws, b.heads, |ws|, NewOffset(code, b.ret));
    assert ForeachVisits(b.heads)[..|ws|] == ForeachVisits(b.heads);
    PartlyAll(p, ws, o, input[o], Before(code, input, o + 1));
  }

  /** The threads that wait are those of the words that are alive, in this order. */
  lemma {:induction false} AliveWait(code: Code, p: Parser, input: seq<byte>, o: nat)
    requires ProgramFor(code, p) && WellFormed(code) && Words(p) && 0 < o <= |input|
    ensures Standing(p, Alive(p, input, o), o, Before(code, input, o).heads)
    decreases o
  {
    hide WellFormed, ProgramFor, Before, WordHead, Going, Words, Descending;
    AreWords(p);
    AliveDescends(p, input, o);
    forall i | 0 <= i < |Alive(p, input, o)| ensures o <= |p.ps[Alive(p, input, o)[i]].str| {
      AliveAgrees(p, input, o, Alive(p, input, o)[i]);
    }
    if o == 1 {
      FirstAlive(code, p, input);
    } else {
      AliveWait(code, p, input, o - 1);
      NextAlive(code, p, input, o - 1, Alive(p, input, o - 1));
    }
  }

  lemma VisitsInside(code: Code, heads: seq<Thread>)
    requires InRange(code, heads)
    ensures InRange(code, ForeachVisits(heads))
  {
  }

  lemma NewIsUntouched(code: Code, p: Parser, ws: seq<nat>, o: nat, b: byte, ret: Option<Trace>)
    requires ProgramFor(code, p) && Words(p) && forall i :: 0 <= i < |ws| ==> ws[i] < |p.ps| && o <= |p.ps[ws[i]].str|
    ensures Partly(p, ws, o, b, 0, NewOffset(code, ret))
  {
    hide ProgramFor, WordAt;
    assert ws[..0] == [];
    forall i | 0 <= i < |ws| ensures Untouched(p, ws[i], o, NewOffset(code, ret).seen) {
      WordInside(code, p, ws[i]);
    }
  }

  lemma PartlyAll(p: Parser, ws: seq<nat>, o: nat, b: byte, s: Progress)
    requires Words(p) && (forall i :: 0 <= i < |ws| ==> ws[i] < |p.ps|) && Partly(p, ws, o, b, |ws|, s)
    ensures Ips(s.heads) == HeadsOf(p, Going(p, Visiting(ws), o, b), o + 1)
  {
    hide Going, WordHead;
    assert ws[..Ran(|ws|)] == Visiting(ws);
  }

  // ----- what is returned

  lemma KeptWord(p: Parser, ws: seq<nat>, o: nat, heads: seq<Thread>, h: nat)
    requires Words(p) && Standing(p, ws, o, heads)
    ensures forall k :: k in Visiting(ws) ==> k < |p.ps|
    ensures Kept(heads, h) <==> exists k :: k in Visiting(ws) && WordHead(p, k, o) == h
  {
    hide WordHead;
    if Kept(heads, h) {
      var i :| 0 <= i < |heads| && heads[i].ip == h && (|heads| == 1 || i + 1 < |heads|);
      assert Ips(heads)[i] == h && Visiting(ws)[i] == ws[i];
    }
    if k :| k in Visiting(ws) && WordHead(p, k, o) == h {
      var i :| 0 <= i < |Visiting(ws)| && Visiting(ws)[i] == k;
      assert Ips(heads)[i] == heads[i].ip == h;
    }
  }

  /** Before its last byte a word does not accept. */
  lemma NotYetAccepted(code: Code, p: Parser, input: seq<byte>, o: nat, k: nat)
    requires ProgramFor(code, p) && Words(p) && k < |p.ps| && o < |p.ps[k].str|
    ensures !Leads(code, input, WordHead(p, k, o), Len(p), o)
  {
    hide ProgramFor, Reach, WordHead, Words, Len, RangeArg, RangeLow, RangeHigh;
    AreWords(p);
    if Leads(code, input, WordHead(p, k, o), Len(p), o) {
      var d := Conf(Len(p), o);
      var n: nat, es :| Reach(code, input, n, Conf(WordHead(p, k, o), o), d, es);
      WordByte(code, p, k, o);
      var c1, r1 := FirstStep(code, input, n, Conf(WordHead(p, k, o), o), d, es);
      var c2, r2 := FirstStep(code, input, n - 1, c1, d, r1);
      OffsetsGrow(code, input, n - 2, c2, d, r2);
    }
  }

  ghost predicate NoneComplete(p: Parser, input: seq<byte>, o: nat)
    requires Words(p) && o <= |input|
  {
    forall k :: !Complete(p, input, o, k)
  }

  lemma SeesWord(code: Code, p: Parser, input: seq<byte>, o: nat)
    requires ProgramFor(code, p) && WellFormed(code) && Words(p) && 0 < o <= |input|
    ensures Sees(code, input, o) <==> !NoneComplete(p, input, o)
  {
    hide WellFormed, ProgramFor, Before, WordHead, Alive, Words, Kept, Visiting, Leads;
    AreWords(p);
    AliveWait(code, p, input, o);
    var heads, ws := Before(code, input, o).heads, Alive(p, input, o);
    if Sees(code, input, o) {
      var ip := SeenAt(code, p, input, o);
      var h := KeptHead(code, input, Conf(ip, o));
      KeptWord(p, ws, o, heads, h);
      var k :| k in Visiting(ws) && WordHead(p, k, o) == h;
      VisitingIn(ws, k);
      AliveAgrees(p, input, o, k);
      if o < |p.ps[k].str| {
        NotYetAccepted(code, p, input, o, k);
      }
      assert Complete(p, input, o, k);
    }
    if k :| Complete(p, input, o, k) {
      VisitingIn(ws, k);
      CompleteSeen(code, p, input, o, k);
    }
  }

  lemma SeenAt(code: Code, p: Parser, input: seq<byte>, o: nat) returns (ip: nat)
    requires ProgramFor(code, p) && WellFormed(code) && Sees(code, input, o)
    ensures ip == Len(p) && Visited(code, input, Conf(ip, o))
  {
    hide WellFormed, Visited, CodeFor, Len;
    ip :| ip < |code.insns| && code.insns[ip].op == ACCEPT && Visited(code, input, Conf(ip, o));
    ProgramWellFormed(code, p);
  }

  lemma VisitingIn(ws: seq<nat>, k: nat)
    requires k in Visiting(ws)
    ensures k in ws
  {
  }

  lemma CompleteSeen(code: Code, p: Parser, input: seq<byte>, o: nat, k: nat)
    requires ProgramFor(code, p) && WellFormed(code) && Words(p) && 0 < o <= |input| && Complete(p, input, o, k)
    requires k < |p.ps| && Standing(p, Alive(p, input, o), o, Before(code, input, o).heads)
    ensures Sees(code, input, o)
  {
    hide WellFormed, ProgramFor, Before, WordHead, Alive, Words, Kept, Visiting, Leads, Standing, Reach, Visited, Queued;
    AreWords(p);
    var heads, h := Before(code, input, o).heads, WordHead(p, k, o);
    KeptWord(p, Alive(p, input, o), o, heads, h);
    BeforeOk(code, input, o);
    TidyOf(Before(code, input, o));
    KeptVisited(heads, h);
    QueuedVisited(code, input, Conf(h, o));
    WordEnd(code, p, k);
    VisitedStep(code, input, Conf(h, o), 0);
    VisitedStep(code, input, Conf(h + 1, o), 0);
  }

  lemma QueuedVisited(code: Code, input: seq<byte>, c: Conf)
    requires WellFormed(code) && c.off <= |input| && Queued(ForeachVisits(Before(code, input, c.off).heads), c.ip)
    ensures Visited(code, input, c)
  {
    hide WellFormed, Before, Reach, Queued;
    StandStill(code, input, c);
    assert c == Conf(c.ip, c.off);
  }

  /** The word that is complete last, up to offset `o`. */
  ghost function BestWord(p: Parser, input: seq<byte>, o: nat): Option<nat>
    requires Words(p) && o <= |input|
  {
    if o == 0 then None
    else if exists k :: Complete(p, input, o, k) then
      var k :| Complete(p, input, o, k);
      Some(k)
    else BestWord(p, input, o - 1)
  }

  lemma {:induction false} BestIs(p: Parser, input: seq<byte>, o: nat) returns (e: nat)
    requires Words(p) && o <= |input|
    ensures e <= o && forall e': nat :: e < e' <= o ==> NoneComplete(p, input, e')
    ensures match BestWord(p, input, o)
            case None => e == 0
            case Some(k) => e > 0 && Complete(p, input, e, k)
  {
    hide Words, Complete;
    e := o;
    if o > 0 && NoneComplete(p, input, o) {
      e := BestIs(p, input, o - 1);
    }
  }

  ghost function WordResult(p: Parser, k: nat): ParseResult
    requires Words(p) && k < |p.ps|
  {
    ParseResult(Some(Token(TtBytes(p.ps[k].str), 0)), 8 * |p.ps[k].str|)
  }

  lemma NotEmptyWord(code: Code, p: Parser, input: seq<byte>)
    requires ProgramFor(code, p) && WellFormed(code) && Words(p)
    ensures !Sees(code, input, 0)
  {
    hide WellFormed, ProgramFor, Sees, AcceptsAt;
    if Sees(code, input, 0) {
      SeenAccepts(code, input, 0);
      AcceptsMatches(code, p, input, 0);
      var t :| Denotes(p, input, 0, 0, t);
      var k := MatchedWord(p, input, 0, t);
    }
  }

  lemma MatchedWord(p: Parser, input: seq<byte>, j: nat, t: Option<Token>) returns (k: nat)
    requires Words(p) && j <= |input| && Denotes(p, input, 0, j, t)
    ensures k < |p.ps| && p.ps[k].str == input[..j] && t == Some(Token(TtBytes(p.ps[k].str), 0))
  {
    k :| 0 <= k < |p.ps| && Denotes(p.ps[k], input, 0, j, t);
    assert input[0..j] == input[..j];
  }

  /** For every choice of words and every input: the result is the word that is complete last among those alive. */
  lemma ReturnsWord(code: Code, p: Parser, input: seq<byte>)
    requires ProgramFor(code, p) && WellFormed(code) && Words(p)
    ensures match BestWord(p, input, |input|)
            case None => Returned(code, input) == None
            case Some(k) => k < |p.ps| && Returned(code, input) == Some(WordResult(p, k))
  {
    hide WellFormed, ProgramFor, Simulated, RunSpec, Sees, Complete, AcceptedHere, Words, Denotes, Events, Reversed;
    AreWords(p);
    SimulatedExact(code, input);
    NotEmptyWord(code, p, input);
    var tr := Simulated(code, input);
    if tr == None {
      BestSeen(code, p, input, 0);
    } else {
      var off: nat :| off < |input| + 1 && Sees(code, input, off) && AcceptedHere(code, input, off, tr.value)
        && forall o: nat :: off < o < |input| + 1 ==> !Sees(code, input, o);
      var t := ReturnedAt(code, p, input, off);
      var j := MatchedWord(p, input, off, t);
      BestSeen(code, p, input, off);
      var k := BestWord(p, input, |input|).value;
      CompleteIs(p, input, off, k);
      WordIs(p, j, k);
    }
  }

  /** The last offset at which an ACCEPT is visited is where the best word is complete. */
  lemma BestSeen(code: Code, p: Parser, input: seq<byte>, off: nat)
    requires ProgramFor(code, p) && WellFormed(code) && Words(p) && off <= |input| && (off > 0 ==> Sees(code, input, off))
    requires forall o: nat :: off < o <= |input| ==> !Sees(code, input, o)
    ensures match BestWord(p, input, |input|)
            case None => off == 0
            case Some(k) => off > 0 && Complete(p, input, off, k)
  {
    hide WellFormed, ProgramFor, Sees, Complete, Words, BestWord;
    var e := BestIs(p, input, |input|);
    if e > off {
      SeesWord(code, p, input, e);
    } else if off > e {
      SeesWord(code, p, input, off);
    }
  }

  lemma WordIs(p: Parser, j: nat, k: nat)
    requires Words(p) && j < |p.ps| && k < |p.ps| && p.ps[j].str == p.ps[k].str
    ensures j == k
  {
  }

  lemma CompleteIs(p: Parser, input: seq<byte>, o: nat, k: nat)
    requires Words(p) && 0 < o <= |input| && Complete(p, input, o, k)
    ensures k < |p.ps| && p.ps[k].str == input[..o]
  {
    hide Words;
    VisitingIn(Alive(p, input, o), k);
    AliveAgrees(p, input, o, k);
  }

  // ----- words that begin alike

  /** Words that begin with `b` differ in their second byte, if they have one. */
  predicate SecondBytesDiffer(p: Parser, b: byte)
    requires Words(p)
  {
    forall i, j :: 0 <= i < j < |p.ps| && p.ps[i].str[0] == b == p.ps[j].str[0] ==>
      |p.ps[i].str| == 1 || |p.ps[j].str| == 1 || p.ps[i].str[1] != p.ps[j].str[1]
  }

  /** The first word of the choice that begins with `b`, which is not the only one. */
  predicate FirstOfSeveral(p: Parser, b: byte, m: nat)
    requires Words(p)
  {
    && m < |p.ps| && p.ps[m].str[0] == b && (forall i :: 0 <= i < m ==> p.ps[i].str[0] != b)
    && exists j :: m < j < |p.ps| && p.ps[j].str[0] == b
  }

  lemma {:induction false} StartingHas(p: Parser, k: nat, b: byte, i: nat)
    requires Words(p) && i < k <= |p.ps| && p.ps[i].str[0] == b
    ensures i in Starting(p, k, b)
  {
    hide Words;
    AreWords(p);
    if i < k - 1 {
      StartingHas(p, k - 1, b, i);
    }
  }

  /** The first of several words that begin alike is left out at offset 1, and the others are visited. */
  lemma FirstLeftOut(p: Parser, input: seq<byte>, m: nat, k: nat)
    requires Words(p) && input != [] && FirstOfSeveral(p, input[0], m) && k < |p.ps| && p.ps[k].str[0] == input[0]
    ensures k in Visiting(Alive(p, input, 1)) <==> k != m
  {
    hide Words, Starting;
    AreWords(p);
    var b, ws := input[0], Starting(p, |p.ps|, input[0]);
    var j :| m < j < |p.ps| && p.ps[j].str[0] == b;
    StartingHas(p, |p.ps|, b, m);
    StartingHas(p, |p.ps|, b, j);
    StartingHas(p, |p.ps|, b, k);
    assert Alive(p, input, 1) == ws;
    forall i | 0 <= i < |ws| ensures ws[i] >= m {
      assert p.ps[ws[i]].str[0] == b;
    }
    LeastIsLast(ws, m, j, k);
  }

  lemma LeastIsLast(ws: seq<nat>, m: nat, j: nat, k: nat)
    requires Descending(ws) && m in ws && j in ws && k in ws && j > m && forall i :: 0 <= i < |ws| ==> ws[i] >= m
    ensures k in Visiting(ws) <==> k != m
  {
    var last := |ws| - 1;
    assert ws[last] == m && last > 0;
    var ik :| 0 <= ik < |ws| && ws[ik] == k;
    if k != m {
      assert Visiting(ws)[ik] == k;
    }
  }

  lemma {:induction false} LostStaysLost(p: Parser, input: seq<byte>, o: nat, k: nat)
    requires Words(p) && 1 < o <= |input| && k in Alive(p, input, o)
    ensures k in Visiting(Alive(p, input, 1))
  {
    hide Words;
    if o > 2 {
      AliveStep(p, input, o - 1, k);
      LostStaysLost(p, input, o - 1, k);
    }
  }

  /** It is not returned, not even for itself. */
  lemma FirstIsLost(code: Code, p: Parser, b: byte, m: nat)
    requires ProgramFor(code, p) && WellFormed(code) && Words(p) && FirstOfSeveral(p, b, m)
    ensures Returned(code, p.ps[m].str) != Some(WordResult(p, m)) && !Longest(p, p.ps[m].str, Returned(code, p.ps[m].str))
  {
    hide WellFormed, ProgramFor, Words, Returned, Alive, Visiting, Starting, FirstOfSeveral;
    AreWords(p);
    FirstIs(p, b, m);
    var input := p.ps[m].str;
    ReturnsWord(code, p, input);
    var e := BestIs(p, input, |input|);
    WordMatches(p, m);
    if BestWord(p, input, |input|).Some? {
      var k := BestWord(p, input, |input|).value;
      CompleteIs(p, input, e, k);
      if e == |input| {
        assert input[..e] == input;
        WordIs(p, k, m);
        FirstLeftOut(p, input, m, m);
        if e > 1 {
          VisitingIn(Alive(p, input, e), m);
          LostStaysLost(p, input, e, m);
        }
      }
    }
  }

  lemma FirstIs(p: Parser, b: byte, m: nat)
    requires Words(p) && FirstOfSeveral(p, b, m)
    ensures m < |p.ps| && p.ps[m].str[0] == b
  {
    hide Words;
  }

  /** With different second bytes, a word that is not left out is soon alone. */
  lemma {:induction false} SoonAlone(p: Parser, m: nat, k: nat, o: nat)
    requires Words(p) && k < |p.ps| && k != m && FirstOfSeveral(p, p.ps[k].str[0], m) && SecondBytesDiffer(p, p.ps[k].str[0])
    requires 1 < o <= |p.ps[k].str|
    ensures Alive(p, p.ps[k].str, o) == [k]
  {
    hide Words, Starting, FirstOfSeveral, Going, SecondBytesDiffer;
    AreWords(p);
    var input := p.ps[k].str;
    AliveDescends(p, input, o);
    if o == 2 {
      FirstLeftOut(p, input, m, k);
    } else {
      SoonAlone(p, m, k, o - 1);
    }
    OnlyWord(p, input, o, k);
  }

  lemma OnlyWord(p: Parser, input: seq<byte>, o: nat, k: nat)
    requires Words(p) && k < |p.ps| && input == p.ps[k].str && 1 < o <= |input| && SecondBytesDiffer(p, input[0])
    requires k in Visiting(Alive(p, input, o - 1)) && Descending(Alive(p, input, o))
    ensures Alive(p, input, o) == [k]
  {
    hide Words, Starting, FirstOfSeveral, Visiting, SecondBytesDiffer;
    AreWords(p);
    var ws := Alive(p, input, o);
    assert GoesOn(p, k, o - 1, input[o - 1]) && k in ws;
    forall i | 0 <= i < |ws| ensures ws[i] == k {
      AliveAgrees(p, input, o, ws[i]);
      SecondDecides(p, input, o, k, ws[i]);
    }
    AllTheSame(ws, k);
  }

  lemma AllTheSame(ws: seq<nat>, k: nat)
    requires Descending(ws) && k in ws && forall i :: 0 <= i < |ws| ==> ws[i] == k
    ensures ws == [k]
  {
    var first, last := ws[0], ws[|ws| - 1];
    assert first == last;
  }

  lemma SecondDecides(p: Parser, input: seq<byte>, o: nat, k: nat, j: nat)
    requires Words(p) && k < |p.ps| && j < |p.ps| && input == p.ps[k].str && 1 < o <= |input| && SecondBytesDiffer(p, input[0])
    requires o <= |p.ps[j].str| && p.ps[j].str[..o] == input[..o]
    ensures j == k
  {
    hide Words;
    AreWords(p);
    assert p.ps[j].str[..o][0] == input[..o][0] && p.ps[j].str[..o][1] == input[..o][1];
  }

  /** With different second bytes exactly the first of the words that begin alike is lost. */
  lemma OthersAreFound(code: Code, p: Parser, m: nat, k: nat)
    requires ProgramFor(code, p) && WellFormed(code) && Words(p) && k < |p.ps| && k != m
    requires FirstOfSeveral(p, p.ps[k].str[0], m) && SecondBytesDiffer(p, p.ps[k].str[0])
    ensures Returned(code, p.ps[k].str) == Some(WordResult(p, k))
  {
    hide WellFormed, ProgramFor, Words, Returned, Alive, Starting, FirstOfSeveral, SecondBytesDiffer;
    AreWords(p);
    var input := p.ps[k].str;
    ReturnsWord(code, p, input);
    if |input| == 1 {
      FirstLeftOut(p, input, m, k);
    } else {
      SoonAlone(p, m, k, |input|);
    }
    assert Complete(p, input, |input|, k);
    var e := BestIs(p, input, |input|);
    assert e < |input| ==> NoneComplete(p, input, |input|);
    CompleteIs(p, input, e, BestWord(p, input, |input|).value);
    assert input[..e] == input;
    WordIs(p, BestWord(p, input, |input|).value, k);
  }
}
