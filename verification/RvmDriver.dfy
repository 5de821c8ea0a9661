/** The thread simulation as it runs: two sparse arrays of waiting threads that change places at every
    offset, one mark for each instruction, and a queue of threads. */
module RvmDriver {
  import opened Basics
  import opened RvmCode
  import opened Svm
  import opened RvmPaths
  import opened RvmThreads
  import opened SvmMachine
  import opened SparseArray

  /** The threads that wait in a sparse array, in the order of its iteration. */
  ghost function Waiting(heads: SparseArray<Trace>): (r: seq<Thread>)
    requires heads.Valid()
    reads heads, heads.elems, heads.indices, heads.contents
    ensures |r| == |heads.Order()| && forall k :: 0 <= k < |r| ==> r[k] == Thread(heads.At(heads.Order()[k]), heads.Order()[k])
  {
    seq(heads.used, k requires 0 <= k < heads.used && heads.Valid() reads heads, heads.elems, heads.indices, heads.contents =>
      Thread(heads.At(heads.Order()[k]), heads.Order()[k]))
  }

  /** A thread that stepped waits for the next offset; it replaces one that waits at the same instruction. */
  method SaveThread(th: Thread, headsN: SparseArray<Trace>)
    requires headsN.Valid() && th.ip < headsN.Capacity()
    modifies headsN, headsN.elems, headsN.indices, headsN.contents
    ensures headsN.Valid() && Waiting(headsN) == Save(old(Waiting(headsN)), th)
  {
    ghost var before := Waiting(headsN);
    headsN.Set(th.ip, th.trace);
    assert th.ip in old(headsN.Order()) <==> exists k :: 0 <= k < |before| && before[k].ip == th.ip;
  }

  method Turn(code: Code, input: seq<byte>, off: nat, seen: array<nat>, queue: array<Thread>, top: nat)
    returns (top': nat, effect: Effect)
    requires WellFormed(code) && off <= |input|
    requires seen.Length == queue.Length == |code.insns| && 0 < top <= queue.Length
    requires queue[top - 1].ip < |code.insns|
    requires |TurnSpec(code, input, off, seen[..], queue[..top]).1| <= queue.Length
    modifies seen, queue
    ensures top' <= queue.Length
    ensures (seen[..], queue[..top']) == TurnSpec(code, input, off, old(seen[..]), old(queue[..top]))
    ensures effect == TurnEffect(code, input, off, old(seen[..]), old(queue[top - 1]))
  {
    top', effect := top, Dies;
    var th := queue[top - 1];
    assert StaysInside(code, th.ip);
    ghost var seen0, queue0 := seen[..], queue[..top];
    assert queue0[..top - 1] == queue[..top - 1];
    if seen[th.ip] == 1 {
      top' := top - 1; // kill thread
      return;
    }
    seen[th.ip] := 1;
    effect := Execute(code, input, off, th);
    match effect {
      case Goes(next) =>
        queue[top - 1] := next;
        assert queue[..top'] == queue0[..top - 1] + [next];
      case Forks(next, other) =>
        queue[top - 1] := next;
        if seen[other.ip] == 0 {
          assert |TurnSpec(code, input, off, seen0, queue0).1| == top + 1;
          seen[next.ip] := 2;
          queue[top] := other;
          top' := top + 1;
          assert queue[..top'] == queue0[..top - 1] + [next, other];
        } else {
          assert queue[..top'] == queue0[..top - 1] + [next];
        }
      case _ => top' := top - 1;
    }
  }

  /** Run the thread `start` and everything it forks at offset `off`, until no thread is left there.
      `seen` marks instructions 0 unseen, 1 processed, 2 queued; threads that STEP go to `headsN`. */
  method RunThreads(code: Code, input: seq<byte>, off: nat, start: Thread, seen: array<nat>, queue: array<Thread>,
                    headsN: SparseArray<Trace>, live0: nat, ret0: Option<Trace>)
    returns (live: nat, ret: Option<Trace>)
    requires WellFormed(code) && off <= |input| && start.ip < |code.insns|
    requires seen.Length == queue.Length == |code.insns|
    requires headsN.Valid() && headsN.Capacity() == |code.insns|
    requires seen != headsN.elems && seen != headsN.indices && queue as object != headsN.contents
    modifies seen, queue, headsN, headsN.elems, headsN.indices, headsN.contents
    ensures headsN.Valid()
    ensures HasRoom(code, input, off, old(seen[..]), [start]) && InRange(code, old(Waiting(headsN)))
    ensures Progress(seen[..], Waiting(headsN), live, ret)
         == Threads(code, input, off, [start], old(Progress(seen[..], Waiting(headsN), live0, ret0)))
  {
    hide *;
    live, ret := live0, ret0;
    queue[0] := start;
    var top := 1;
    UnseenFits(seen[..], start.ip);
    WaitingInRange(code, headsN);
    OneThread(code, input, off, seen[..], start);
    assert queue[..1] == [start];
    ghost var goal := Threads(code, input, off, [start], Progress(seen[..], Waiting(headsN), live0, ret0));
    while top > 0
      invariant 0 <= top <= queue.Length && headsN.Valid()
      invariant HasRoom(code, input, off, seen[..], queue[..top]) && InRange(code, Waiting(headsN))
      invariant Threads(code, input, off, queue[..top], Progress(seen[..], Waiting(headsN), live, ret)) == goal
      decreases Unseen(seen[..], TopIp(queue[..top])), Unprocessed(seen[..]), top
    {
      ThreadsStep(code, input, off, queue[..top], Progress(seen[..], Waiting(headsN), live, ret));
      TurnKeeps(code, input, off, seen[..], queue[..top]);
      top, live, ret := TurnAndSave(code, input, off, seen, queue, top, headsN, live, ret);
    }
    ThreadsStep(code, input, off, queue[..top], Progress(seen[..], Waiting(headsN), live, ret));
  }

  /** One turn, and what becomes of the thread. */
  method TurnAndSave(code: Code, input: seq<byte>, off: nat, seen: array<nat>, queue: array<Thread>, top: nat,
                     headsN: SparseArray<Trace>, live0: nat, ret0: Option<Trace>)
    returns (top': nat, live: nat, ret: Option<Trace>)
    requires headsN.Valid() && headsN.Capacity() == |code.insns|
    requires seen != headsN.elems && seen != headsN.indices && queue as object != headsN.contents
    requires seen.Length == queue.Length == |code.insns| && 0 < top <= queue.Length
    requires HasRoom(code, input, off, seen[..], queue[..top])
    requires |TurnSpec(code, input, off, seen[..], queue[..top]).1| <= queue.Length
    modifies seen, queue, headsN, headsN.elems, headsN.indices, headsN.contents
    ensures headsN.Valid() && top' <= queue.Length
    ensures (seen[..], queue[..top']) == TurnSpec(code, input, off, old(seen[..]), old(queue[..top]))
    ensures Progress(seen[..], Waiting(headsN), live, ret)
         == After(old(Progress(seen[..], Waiting(headsN), live0, ret0)), seen[..],
                  TurnEffect(code, input, off, old(seen[..]), old(queue[..top][top - 1])))
  {
    hide WellFormed, Execute, TurnSpec, Save, Unseen;
    assert queue[top - 1] == queue[..top][top - 1];
    live, ret := live0, ret0;
    ExecuteInside(code, input, off, queue[top - 1]);
    var effect;
    top', effect := Turn(code, input, off, seen, queue, top);
    match effect {
      case Accepts(tr) => ret := Some(tr);
      case Waits(next) =>
        live := live + 1;
        SaveThread(next, headsN);
      case _ =>
    }
  }

  lemma WaitingInRange(code: Code, heads: SparseArray<Trace>)
    requires heads.Valid() && heads.Capacity() == |code.insns|
    ensures InRange(code, Waiting(heads))
  {
  }

  /** The entries of the array are these threads. */
  ghost predicate StillWaiting(heads: SparseArray<Trace>, waiting: seq<Thread>)
    reads heads, heads.elems, heads.contents
  {
    && heads.used == |waiting| <= heads.elems.Length
    && forall j :: 0 <= j < |waiting| ==>
         heads.elems[j] < heads.contents.Length && waiting[j] == Thread(heads.contents[heads.elems[j]], heads.elems[j])
  }

  method Entry(heads: SparseArray<Trace>, k: nat, ghost waiting: seq<Thread>) returns (ip: nat, tr: Trace)
    requires StillWaiting(heads, waiting) && k < |waiting|
    ensures Thread(tr, ip) == waiting[k]
  {
    ip := heads.elems[k];
    tr := heads.contents[ip];
  }

  /** The body of the loop over the waiting threads. */
  method RunHead(code: Code, input: seq<byte>, off: nat, th: Thread, headsN: SparseArray<Trace>, seen: array<nat>, queue: array<Thread>,
                 live0: nat, ret0: Option<Trace>, ghost visits: seq<Thread>, ghost k: nat, ghost s: Progress)
    returns (live: nat, ret: Option<Trace>)
    requires WellFormed(code) && off <= |input| && seen.Length == queue.Length == |code.insns|
    requires headsN.Valid() && headsN.Capacity() == |code.insns| && {seen, queue} !! headsN.Repr()
    requires InRange(code, visits) && k < |visits| && visits[k] == th && |s.seen| == |code.insns| && InRange(code, s.heads)
    requires Progress(seen[..], Waiting(headsN), live0, ret0) == Heads(code, input, off, visits[..k], s)
    modifies seen, queue, headsN, headsN.elems, headsN.indices, headsN.contents
    ensures headsN.Valid()
    ensures Progress(seen[..], Waiting(headsN), live, ret) == Heads(code, input, off, visits[..k + 1], s)
  {
    hide WellFormed, Threads, Heads, Waiting, HasRoom;
    HeadsStep(code, input, off, visits, k, s);
    live, ret := RunThreads(code, input, off, th, seen, queue, headsN, live0, ret0);
  }

  /** The iteration macro: the loop variables are refreshed from the entry at the counter before the counter moves on. */
  method Foreach(code: Code, input: seq<byte>, off: nat, headsP: SparseArray<Trace>, headsN: SparseArray<Trace>,
                 seen: array<nat>, queue: array<Thread>, ret0: Option<Trace>, ghost waiting: seq<Thread>, ghost s: Progress)
    returns (live: nat, ret: Option<Trace>)
    requires WellFormed(code) && off <= |input| && seen.Length == queue.Length == |code.insns|
    requires headsN.Valid() && headsN.Capacity() == |code.insns| && {seen, queue} !! headsN.Repr()
    requires headsP.Repr() !! headsN.Repr() && {seen, queue} !! headsP.Repr()
    requires StillWaiting(headsP, waiting) && InRange(code, waiting) && |s.seen| == |code.insns| && InRange(code, s.heads)
    requires Progress(seen[..], Waiting(headsN), 0, ret0) == s
    modifies seen, queue, headsN, headsN.elems, headsN.indices, headsN.contents
    ensures headsN.Valid()
    ensures Progress(seen[..], Waiting(headsN), live, ret) == Heads(code, input, off, ForeachVisits(waiting), s)
  {
    hide WellFormed, HasRoom, Threads, Heads, Waiting, ForeachVisits, StillWaiting;
    live, ret := 0, ret0;
    ghost var visits := ForeachVisits(waiting);
    ForeachCount(waiting);
    UsedIs(headsP, waiting);
    VisitsInRange(code, waiting);
    assert visits[..0] == [];
    NoVisits(code, input, off, s);
    var k: nat, ip: nat, tr := 0, 0, Empty;
    if headsP.used > 0 {
      ip, tr := Entry(headsP, 0, waiting);
    }
    while k < headsP.used
      invariant k <= headsP.used == |waiting| && headsN.Valid() && StillWaiting(headsP, waiting)
      invariant k < headsP.used ==> Thread(tr, ip) == waiting[if k == 0 then 0 else k - 1]
      invariant Progress(seen[..], Waiting(headsN), live, ret) == Heads(code, input, off, visits[..k], s)
    {
      ForeachVisit(waiting, k);
      live, ret := RunHead(code, input, off, Thread(tr, ip), headsN, seen, queue, live, ret, visits, k, s);
      ip, tr := Entry(headsP, k, waiting);
      k := k + 1;
    }
    assert visits[..k] == visits;
  }

  lemma UsedIs(heads: SparseArray<Trace>, waiting: seq<Thread>)
    requires StillWaiting(heads, waiting)
    ensures heads.used == |waiting|
  {
  }

  lemma VisitsInRange(code: Code, waiting: seq<Thread>)
    requires InRange(code, waiting)
    ensures InRange(code, ForeachVisits(waiting))
  {
  }

  /** Run the threads that wait at offset `off`, as far as the iteration macro finds them. */
  method RunHeads(code: Code, input: seq<byte>, off: nat, headsP: SparseArray<Trace>, headsN: SparseArray<Trace>,
                  seen: array<nat>, queue: array<Thread>, ret0: Option<Trace>)
    returns (live: nat, ret: Option<Trace>)
    requires WellFormed(code) && off <= |input| && seen.Length == queue.Length == |code.insns|
    requires headsN.Valid() && headsP.Valid() && headsN.Capacity() == headsP.Capacity() == |code.insns|
    requires headsN.Repr() !! headsP.Repr() && {seen, queue} !! headsN.Repr() && {seen, queue} !! headsP.Repr()
    requires headsN.Order() == []
    modifies seen, queue, headsN.Repr()
    ensures headsN.Valid() && InRange(code, old(Waiting(headsP)))
    ensures Progress(seen[..], Waiting(headsN), live, ret)
         == Heads(code, input, off, ForeachVisits(old(Waiting(headsP))), NewOffset(code, ret0))
  {
    hide WellFormed, HasRoom, Threads, Heads, Waiting, ForeachVisits;
    WaitingInRange(code, headsP);
    ClearMarks(seen);
    ghost var waiting := Waiting(headsP);
    assert Waiting(headsN) == [];
    assert StillWaiting(headsP, waiting);
    live, ret := Foreach(code, input, off, headsP, headsN, seen, queue, ret0, waiting, NewOffset(code, ret0));
  }

  /** No instruction seen yet. */
  method ClearMarks(seen: array<nat>)
    modifies seen
    ensures seen[..] == seq(seen.Length, _ => 0)
  {
    for k := 0 to seen.Length
      invariant forall i :: 0 <= i < k ==> seen[i] == 0
    {
      seen[k] := 0;
    }
  }

  /** Step through the input; threads that stepped at one offset run at the next. */
  method RunOffsets(code: Code, input: seq<byte>, heads0: SparseArray<Trace>, heads1: SparseArray<Trace>,
                    seen: array<nat>, queue: array<Thread>) returns (ret: Option<Trace>)
    requires WellFormed(code) && seen.Length == queue.Length == |code.insns|
    requires heads0.Valid() && heads1.Valid() && heads0.Capacity() == heads1.Capacity() == |code.insns|
    requires heads0.Repr() !! heads1.Repr() && {seen, queue} !! heads0.Repr() && {seen, queue} !! heads1.Repr()
    modifies seen, queue, heads0.Repr(), heads1.Repr()
    ensures InRange(code, old(Waiting(heads0)))
    ensures ret == Offsets(code, input, 0, old(Waiting(heads0)), 1, None)
  {
    hide WellFormed, Heads;
    WaitingInRange(code, heads0);
    ret := None;
    var headsN, headsP := heads0, heads1;
    var live := 1;
    ghost var goal := Offsets(code, input, 0, Waiting(heads0), 1, None);
    for off := 0 to |input| + 1
      invariant {headsN, headsP} == {heads0, heads1} && headsN != headsP
      invariant headsN.Valid() && headsP.Valid() && InRange(code, Waiting(headsN))
      invariant Offsets(code, input, off, Waiting(headsN), live, ret) == goal
    {
      headsN, headsP := headsP, headsN;
      headsN.Clear();
      assert Waiting(headsN) == [];
      if live == 0 {
        break;
      }
      live, ret := RunHeads(code, input, off, headsP, headsN, seen, queue, ret);
    }
  }

  /** The replay of the trace the simulation finds. */
  method Run(code: Code, input: seq<byte>) returns (r: Option<ParseResult>)
    requires WellFormed(code)
    ensures var tr := Simulated(code, input);
      r == if tr == None then None else RunSpec(code.acts, input, [], Reversed(Events(tr.value)))
  {
    var length := |code.insns|;
    var headsN := new SparseArray<Trace>(length);
    var headsP := new SparseArray<Trace>(length);
    var seen := new nat[length];
    var queue := new Thread[length](_ => Thread(Empty, 0));
    headsN.Set(0, Node(NOP_EVENT, Empty)); // initial thread
    assert Waiting(headsN) == [Thread(Node(NOP_EVENT, Empty), 0)];
    var retTrace := RunOffsets(code, input, headsN, headsP, seen, queue);
    if retTrace == None {
      return None;
    }
    var inverted := InvertTrace(retTrace.value);
    r := RunTrace(code.acts, input, inverted);
  }
}
