/** The thread simulation as a function: which threads are alive at each input offset, why they stop,
    and why a trace that accepts was recorded on a run of the program. */
module RvmThreads {
  import opened Basics
  import opened RvmCode
  import opened Svm
  import opened RvmPaths
  import opened SvmMachine
  import opened SparseArray

  /** What the simulation relies on: control never leaves the program. */
  ghost predicate WellFormed(code: Code) {
    && |code.insns| > 0
    && forall k :: 0 <= k < |code.insns| ==> StaysInside(code, k)
  }

  ghost predicate StaysInside(code: Code, k: nat)
    requires k < |code.insns|
  {
    var insn := code.insns[k];
    && (insn.op == FORK || insn.op == GOTO ==> insn.arg < |code.insns|)
    && (insn.op != ACCEPT && insn.op != GOTO ==> k + 1 < |code.insns|)
  }

  datatype Thread = Thread(trace: Trace, ip: nat)

  const NOP_EVENT := Event(SVM_NOP, 0, 0)

  /** The trace `tr` was recorded on a run from the first instruction at offset 0 to `c`. */
  ghost predicate OnPath(code: Code, input: seq<byte>, tr: Trace, c: Conf) {
    exists n: nat, es :: Reach(code, input, n, Conf(0, 0), c, es) && Events(tr) == Reversed([NOP_EVENT] + es)
  }

  /** The trace `tr` was recorded on such a run, and then an ACCEPT was executed at `c`. */
  ghost predicate AcceptedAt(code: Code, input: seq<byte>, tr: Trace, c: Conf) {
    && c.ip < |code.insns| && code.insns[c.ip].op == ACCEPT
    && exists n: nat, es ::
         && Reach(code, input, n, Conf(0, 0), c, es)
         && Events(tr) == Reversed([NOP_EVENT] + es + [Event(SVM_ACCEPT, 0, c.off)])
  }

  function Record(tr: Trace, es: seq<Event>): Trace {
    if es == [] then tr else Node(es[0], tr)
  }

  lemma ReversedSnoc(s: seq<Event>, e: Event)
    ensures Reversed(s + [e]) == [e] + Reversed(s)
  {
    ReversedConcat(s, [e]);
    assert [e][1..] == [];
  }

  lemma OnPathStep(code: Code, input: seq<byte>, tr: Trace, c: Conf, k: nat)
    requires OnPath(code, input, tr, c) && k < |Succs(code, input, c)|
    ensures OnPath(code, input, Record(tr, Emits(code, c)), Succs(code, input, c)[k])
  {
    hide Reach, Succs, Reversed;
    var n: nat, es :| Reach(code, input, n, Conf(0, 0), c, es) && Events(tr) == Reversed([NOP_EVENT] + es);
    ReachSnoc(code, input, n, Conf(0, 0), c, es, k);
    var e := Emits(code, c);
    assert [NOP_EVENT] + (es + e) == [NOP_EVENT] + es + e;
    if e == [] {
      assert [NOP_EVENT] + es + e == [NOP_EVENT] + es;
    } else {
      assert e == [e[0]];
      ReversedSnoc([NOP_EVENT] + es, e[0]);
    }
  }

  lemma OnPathAccept(code: Code, input: seq<byte>, tr: Trace, c: Conf)
    requires OnPath(code, input, tr, c) && c.ip < |code.insns| && code.insns[c.ip].op == ACCEPT
    ensures AcceptedAt(code, input, Record(tr, Emits(code, c)), c)
  {
    hide Reach, Succs, Reversed;
    var n: nat, es :| Reach(code, input, n, Conf(0, 0), c, es) && Events(tr) == Reversed([NOP_EVENT] + es);
    ReversedSnoc([NOP_EVENT] + es, Event(SVM_ACCEPT, 0, c.off));
  }

  // ----- why the thread loop stops

  /** Instructions not seen at this offset, apart from the one the top thread is about to execute. */
  ghost function Unseen(seen: seq<nat>, top: Option<nat>): set<nat> {
    set k: nat | k in Below(|seen|) && seen[k] == 0 && top != Some(k)
  }

  /** Instructions not processed at this offset; a fork may put a processed one back. */
  ghost function Unprocessed(seen: seq<nat>): set<nat> {
    set k: nat | k in Below(|seen|) && seen[k] != 1
  }

  ghost function TopIp(queue: seq<Thread>): Option<nat> {
    if queue == [] then None else Some(queue[|queue| - 1].ip)
  }

  /** One more thread fits in the queue, because the instruction it starts at was unseen. */
  lemma ForkFits(seen: seq<nat>, seen': seq<nat>, ip: nat, arg: nat)
    requires ip < |seen| && arg < |seen| && |seen'| == |seen| && ip + 1 < |seen|
    requires seen[ip] != 1 && seen[ip := 1][arg] == 0
    requires seen' == seen[ip := 1][ip + 1 := 2]
    ensures Unseen(seen', Some(arg)) < Unseen(seen, Some(ip))
    ensures |Unseen(seen', Some(arg))| < |Unseen(seen, Some(ip))|
  {
    assert arg != ip && arg in Unseen(seen, Some(ip)) && arg !in Unseen(seen', Some(arg));
    SubsetSize(Unseen(seen', Some(arg)), Unseen(seen, Some(ip)));
  }

  /** What executing one instruction does to a thread. */
  datatype Effect =
    | Dies
    | Goes(th: Thread)
    | Forks(th: Thread, other: Thread)
    | Waits(th: Thread)
    | Accepts(trace: Trace)

  function Execute(code: Code, input: seq<byte>, off: nat, th: Thread): Effect
    requires th.ip < |code.insns| && off <= |input|
  {
    var ch := if off == |input| then 0 else input[off];
    var arg := code.insns[th.ip].arg;
    match code.insns[th.ip].op
    case ACCEPT => Accepts(Node(Event(SVM_ACCEPT, 0, off), th.trace))
    case MATCH =>
      if ch < RangeLow(arg) || ch > RangeHigh(arg) then Dies else Goes(Thread(th.trace, th.ip + 1))
    case GOTO => Goes(Thread(th.trace, arg))
    case FORK => Forks(Thread(th.trace, th.ip + 1), Thread(th.trace, arg))
    case PUSH => Goes(Thread(Node(Event(SVM_PUSH, 0, off), th.trace), th.ip + 1))
    case ACTION => Goes(Thread(Node(Event(SVM_ACTION, arg, off), th.trace), th.ip + 1))
    case CAPTURE => Goes(Thread(Node(Event(SVM_CAPTURE, 0, off), th.trace), th.ip + 1))
    case EOF => if off != |input| then Dies else Goes(Thread(th.trace, th.ip + 1))
    case STEP => Waits(Thread(th.trace, th.ip + 1))
  }

  ghost predicate ThreadOk(code: Code, input: seq<byte>, off: nat, th: Thread) {
    th.ip < |code.insns| && OnPath(code, input, th.trace, Conf(th.ip, off))
  }

  ghost predicate Accepted(code: Code, input: seq<byte>, tr: Trace) {
    exists off: nat :: off <= |input| && AcceptedHere(code, input, off, tr)
  }

  lemma ExecuteOnPath(code: Code, input: seq<byte>, off: nat, th: Thread)
    requires WellFormed(code) && off <= |input| && ThreadOk(code, input, off, th)
    ensures
      match Execute(code, input, off, th)
      case Dies => true
      case Goes(next) => ThreadOk(code, input, off, next)
      case Forks(next, other) => ThreadOk(code, input, off, next) && ThreadOk(code, input, off, other) && next.ip == th.ip + 1
      case Waits(next) => next.ip < |code.insns| && (off < |input| ==> ThreadOk(code, input, off + 1, next))
      case Accepts(tr) => AcceptedAt(code, input, tr, Conf(th.ip, off))
  {
    hide Reach, OnPath, AcceptedAt, Events, RangeLow, RangeHigh;
    var c := Conf(th.ip, off);
    assert StaysInside(code, th.ip);
    if code.insns[th.ip].op == ACCEPT {
      OnPathAccept(code, input, th.trace, c);
    }
    var succs := Succs(code, input, c);
    if |succs| > 0 {
      OnPathStep(code, input, th.trace, c, 0);
    }
    if |succs| > 1 {
      OnPathStep(code, input, th.trace, c, 1);
    }
  }

  /** The queue of threads, last first to run, and the marks after one turn of the thread loop. */
  ghost function TurnSpec(code: Code, input: seq<byte>, off: nat, seen: seq<nat>, queue: seq<Thread>): (seq<nat>, seq<Thread>)
    requires WellFormed(code) && off <= |input| && |seen| == |code.insns| && |queue| > 0
    requires queue[|queue| - 1].ip < |code.insns|
  {
    var th := queue[|queue| - 1];
    var below := queue[..|queue| - 1];
    var seen1 := seen[th.ip := 1];
    assert StaysInside(code, th.ip);
    if seen[th.ip] == 1 then (seen, below)
    else
      match Execute(code, input, off, th)
      case Dies => (seen1, below)
      case Accepts(_) => (seen1, below)
      case Waits(_) => (seen1, below)
      case Goes(next) => (seen1, below + [next])
      case Forks(next, other) =>
        if seen1[other.ip] == 0 then (seen1[next.ip := 2], below + [next, other]) else (seen1, below + [next])
  }

  ghost predicate InRange(code: Code, ths: seq<Thread>) {
    forall t :: 0 <= t < |ths| ==> ths[t].ip < |code.insns|
  }

  /** The thread loop may go on: the queue has room for every thread that can still be forked. */
  ghost predicate HasRoom(code: Code, input: seq<byte>, off: nat, seen: seq<nat>, queue: seq<Thread>) {
    && WellFormed(code) && off <= |input| && |seen| == |code.insns| && InRange(code, queue)
    && |queue| + |Unseen(seen, TopIp(queue))| <= |seen|
  }

  lemma RoomFacts(code: Code, input: seq<byte>, off: nat, seen: seq<nat>, queue: seq<Thread>)
    requires HasRoom(code, input, off, seen, queue)
    ensures WellFormed(code) && off <= |input| && |seen| == |code.insns| && InRange(code, queue)
  {
  }

  lemma ExecuteInside(code: Code, input: seq<byte>, off: nat, th: Thread)
    requires WellFormed(code) && off <= |input| && th.ip < |code.insns|
    ensures
      match Execute(code, input, off, th)
      case Goes(next) => next.ip < |code.insns|
      case Forks(next, other) => next.ip < |code.insns| && other.ip < |code.insns| && next.ip == th.ip + 1
      case Waits(next) => next.ip < |code.insns|
      case _ => true
  {
    assert StaysInside(code, th.ip);
  }

  /** A turn keeps the queue within the program's length, and lowers the measure. */
  lemma TurnKeeps(code: Code, input: seq<byte>, off: nat, seen: seq<nat>, queue: seq<Thread>)
    requires HasRoom(code, input, off, seen, queue) && queue != []
    ensures var (seen', queue') := TurnSpec(code, input, off, seen, queue);
      && HasRoom(code, input, off, seen', queue')
      && Unseen(seen', TopIp(queue')) <= Unseen(seen, TopIp(queue))
      && (Unseen(seen', TopIp(queue')) == Unseen(seen, TopIp(queue)) ==>
            || Unprocessed(seen') < Unprocessed(seen)
            || (Unprocessed(seen') == Unprocessed(seen) && |queue'| < |queue|))
  {
    hide Execute, Unseen, Unprocessed, WellFormed;
    var th := queue[|queue| - 1];
    ExecuteInside(code, input, off, th);
    var (seen', queue') := TurnSpec(code, input, off, seen, queue);
    if |queue'| > |queue| {
      ForkFits(seen, seen', th.ip, queue'[|queue|].ip);
    } else {
      Shrinks(seen, seen', queue, queue');
    }
  }

  lemma UnseenFits(seen: seq<nat>, ip: nat)
    requires ip < |seen|
    ensures 1 + |Unseen(seen, Some(ip))| <= |seen|
  {
    assert ip in Below(|seen|);
    SubsetSize(Unseen(seen, Some(ip)), Below(|seen|) - {ip});
    assert |Below(|seen|) - {ip}| == |seen| - 1;
  }

  lemma OneThread(code: Code, input: seq<byte>, off: nat, seen: seq<nat>, th: Thread)
    requires WellFormed(code) && off <= |input| && |seen| == |code.insns| && th.ip < |code.insns|
    ensures HasRoom(code, input, off, seen, [th])
  {
    UnseenFits(seen, th.ip);
  }

  /** Apart from a fork, a turn of the loop never makes the unseen set grow. */
  lemma Shrinks(seen: seq<nat>, seen': seq<nat>, queue: seq<Thread>, queue': seq<Thread>)
    requires |queue| > 0 && |seen| == |seen'| && |queue'| <= |queue|
    requires var ip := queue[|queue| - 1].ip; ip < |seen| && seen' == seen[ip := 1]
    ensures Unseen(seen', TopIp(queue')) <= Unseen(seen, TopIp(queue))
    ensures |Unseen(seen', TopIp(queue'))| <= |Unseen(seen, TopIp(queue))|
    ensures seen[queue[|queue| - 1].ip] != 1 ==> Unprocessed(seen') < Unprocessed(seen)
  {
    var ip := queue[|queue| - 1].ip;
    SubsetSize(Unseen(seen', TopIp(queue')), Unseen(seen, TopIp(queue)));
    if seen[ip] != 1 {
      assert ip in Unprocessed(seen) && ip !in Unprocessed(seen');
    }
  }

  // ----- all threads of one offset, and all offsets

  /** The marks on instructions, the threads that wait for the next offset, how often a thread stepped, and the
      trace that accepted last. */
  datatype Progress = Progress(seen: seq<nat>, heads: seq<Thread>, live: nat, ret: Option<Trace>)

  /** A thread that steps replaces the one that waits at the same instruction. */
  function Save(heads: seq<Thread>, th: Thread): (r: seq<Thread>)
    ensures |heads| <= |r| && forall k :: 0 <= k < |r| ==> r[k] in heads || r[k] == th
    ensures th in r && forall k :: 0 <= k < |heads| ==> r[k].ip == heads[k].ip
  {
    if exists k :: 0 <= k < |heads| && heads[k].ip == th.ip then
      var r := seq(|heads|, k requires 0 <= k < |heads| => if heads[k].ip == th.ip then th else heads[k]);
      var k :| 0 <= k < |heads| && heads[k].ip == th.ip;
      assert r[k] == th;
      r
    else heads + [th]
  }

  /** What the turn in `TurnSpec` does besides. */
  function TurnEffect(code: Code, input: seq<byte>, off: nat, seen: seq<nat>, th: Thread): Effect
    requires off <= |input| && |seen| == |code.insns| && th.ip < |code.insns|
  {
    if seen[th.ip] == 1 then Dies else Execute(code, input, off, th)
  }

  function After(s: Progress, seen: seq<nat>, effect: Effect): Progress {
    match effect
    case Accepts(tr) => s.(seen := seen, ret := Some(tr))
    case Waits(next) => s.(seen := seen, heads := Save(s.heads, next), live := s.live + 1)
    case _ => s.(seen := seen)
  }

  /** Run the queued threads and everything they fork at offset `off`, until no thread is left there. */
  ghost function Threads(code: Code, input: seq<byte>, off: nat, queue: seq<Thread>, s: Progress): (r: Progress)
    requires HasRoom(code, input, off, s.seen, queue) && InRange(code, s.heads)
    ensures |r.seen| == |code.insns| && InRange(code, r.heads)
    decreases Unseen(s.seen, TopIp(queue)), Unprocessed(s.seen), |queue|
  {
    if queue == [] then s
    else
      var th := queue[|queue| - 1];
      var (seen', queue') := TurnSpec(code, input, off, s.seen, queue);
      TurnKeeps(code, input, off, s.seen, queue);
      ExecuteInside(code, input, off, th);
      Threads(code, input, off, queue', After(s, seen', TurnEffect(code, input, off, s.seen, th)))
  }

  lemma ThreadsStep(code: Code, input: seq<byte>, off: nat, queue: seq<Thread>, s: Progress)
    requires HasRoom(code, input, off, s.seen, queue) && InRange(code, s.heads)
    ensures queue == [] ==> Threads(code, input, off, queue, s) == s
    ensures queue != [] ==>
      var (seen', queue') := TurnSpec(code, input, off, s.seen, queue);
      var s' := After(s, seen', TurnEffect(code, input, off, s.seen, queue[|queue| - 1]));
      && HasRoom(code, input, off, s'.seen, queue') && InRange(code, s'.heads)
      && Threads(code, input, off, queue, s) == Threads(code, input, off, queue', s')
      && |queue'| <= |s.seen|
  {
    hide WellFormed, TurnSpec, Execute;
    if queue != [] {
      TurnKeeps(code, input, off, s.seen, queue);
      ExecuteInside(code, input, off, queue[|queue| - 1]);
    }
  }

  /** Run waiting threads one after the other; the marks are kept in between. */
  ghost function Heads(code: Code, input: seq<byte>, off: nat, visits: seq<Thread>, s: Progress): (r: Progress)
    requires WellFormed(code) && off <= |input| && InRange(code, visits) && |s.seen| == |code.insns| && InRange(code, s.heads)
    ensures |r.seen| == |code.insns| && InRange(code, r.heads)
  {
    if visits == [] then s
    else
      var before := Heads(code, input, off, visits[..|visits| - 1], s);
      UnseenFits(before.seen, visits[|visits| - 1].ip);
      Threads(code, input, off, [visits[|visits| - 1]], before)
  }

  lemma NoVisits(code: Code, input: seq<byte>, off: nat, s: Progress)
    requires WellFormed(code) && off <= |input| && |s.seen| == |code.insns| && InRange(code, s.heads)
    ensures Heads(code, input, off, [], s) == s
  {
  }

  lemma HeadsStep(code: Code, input: seq<byte>, off: nat, visits: seq<Thread>, k: nat, s: Progress)
    requires WellFormed(code) && off <= |input| && InRange(code, visits) && |s.seen| == |code.insns| && InRange(code, s.heads)
    requires k < |visits|
    ensures var before := Heads(code, input, off, visits[..k], s);
      && HasRoom(code, input, off, before.seen, [visits[k]])
      && Heads(code, input, off, visits[..k + 1], s) == Threads(code, input, off, [visits[k]], before)
  {
    hide WellFormed, Unseen, Threads;
    UnseenFits(Heads(code, input, off, visits[..k], s).seen, visits[k].ip);
    assert visits[..k + 1][..k] == visits[..k];
  }

  /** No instruction seen yet, no thread waiting. */
  function NewOffset(code: Code, ret: Option<Trace>): Progress {
    Progress(seq(|code.insns|, _ => 0), [], 0, ret)
  }

  /** From offset `off` on, as far as the iteration macro finds the threads that wait. */
  ghost function Offsets(code: Code, input: seq<byte>, off: nat, heads: seq<Thread>, live: nat, ret: Option<Trace>): Option<Trace>
    requires WellFormed(code) && InRange(code, heads)
    decreases |input| + 1 - off
  {
    if off > |input| || live == 0 then ret
    else
      var s := Heads(code, input, off, ForeachVisits(heads), NewOffset(code, ret));
      Offsets(code, input, off + 1, s.heads, s.live, s.ret)
  }

  /** The trace the simulation returns. */
  ghost function Simulated(code: Code, input: seq<byte>): Option<Trace>
    requires WellFormed(code)
  {
    Offsets(code, input, 0, [Thread(Node(NOP_EVENT, Empty), 0)], 1, None)
  }

  // ----- a trace that is returned stems from a run

  /** Every waiting thread is at an instruction behind a STEP that a run passes at this offset. */
  ghost predicate HeadsOk(code: Code, input: seq<byte>, off: nat, heads: seq<Thread>) {
    forall k :: 0 <= k < |heads| ==> ThreadOk(code, input, off, heads[k]) && IsHead(code, input, off, heads[k].ip)
  }

  /** A run gets to instruction `ip` at offset `off` by a STEP, or begins there. */
  ghost predicate IsHead(code: Code, input: seq<byte>, off: nat, ip: nat) {
    if off == 0 then ip == 0
    else off <= |input| && 0 < ip <= |code.insns| && code.insns[ip - 1].op == STEP && Reachable(code, input, Conf(ip - 1, off - 1))
  }

  ghost predicate Reachable(code: Code, input: seq<byte>, c: Conf) {
    exists n: nat, es :: Reach(code, input, n, Conf(0, 0), c, es)
  }

  ghost predicate AcceptedHere(code: Code, input: seq<byte>, off: nat, tr: Trace) {
    exists ip: nat :: AcceptedAt(code, input, tr, Conf(ip, off))
  }

  ghost predicate ProgressOk(code: Code, input: seq<byte>, off: nat, ret: Option<Trace>, s: Progress) {
    && (off < |input| ==> HeadsOk(code, input, off + 1, s.heads))
    && (s.ret == ret || (s.ret.Some? && AcceptedHere(code, input, off, s.ret.value)))
  }

  lemma OnPathReachable(code: Code, input: seq<byte>, tr: Trace, c: Conf)
    requires OnPath(code, input, tr, c)
    ensures Reachable(code, input, c)
  {
    hide Reach, Events, Reversed;
  }

  /** What a thread on a path does stays on paths. */
  lemma AfterOk(code: Code, input: seq<byte>, off: nat, ret: Option<Trace>, s: Progress, seen: seq<nat>, th: Thread)
    requires WellFormed(code) && off <= |input| && ThreadOk(code, input, off, th) && ProgressOk(code, input, off, ret, s)
    ensures ProgressOk(code, input, off, ret, After(s, seen, Execute(code, input, off, th)))
    ensures ProgressOk(code, input, off, ret, After(s, seen, Dies))
  {
    hide OnPath, AcceptedAt, Reachable, WellFormed;
    ExecuteOnPath(code, input, off, th);
    ExecuteInside(code, input, off, th);
    OnPathReachable(code, input, th.trace, Conf(th.ip, off));
  }

  lemma {:induction false} ThreadsSound(code: Code, input: seq<byte>, off: nat, queue: seq<Thread>, ret: Option<Trace>, s: Progress)
    requires HasRoom(code, input, off, s.seen, queue) && InRange(code, s.heads)
    requires (forall t :: 0 <= t < |queue| ==> ThreadOk(code, input, off, queue[t])) && ProgressOk(code, input, off, ret, s)
    ensures ProgressOk(code, input, off, ret, Threads(code, input, off, queue, s))
    decreases Unseen(s.seen, TopIp(queue)), Unprocessed(s.seen), |queue|
  {
    hide ThreadOk, ProgressOk, WellFormed, Execute, Unseen, Unprocessed, After;
    if queue != [] {
      var th := queue[|queue| - 1];
      TurnKeeps(code, input, off, s.seen, queue);
      ExecuteOnPath(code, input, off, th);
      ExecuteInside(code, input, off, th);
      var (seen', queue') := TurnSpec(code, input, off, s.seen, queue);
      AfterOk(code, input, off, ret, s, seen', th);
      AfterInRange(code, s, seen', TurnEffect(code, input, off, s.seen, th));
      ThreadsSound(code, input, off, queue', ret, After(s, seen', TurnEffect(code, input, off, s.seen, th)));
    }
  }

  lemma AfterInRange(code: Code, s: Progress, seen: seq<nat>, effect: Effect)
    requires InRange(code, s.heads) && (effect.Waits? ==> effect.th.ip < |code.insns|)
    ensures InRange(code, After(s, seen, effect).heads) && After(s, seen, effect).seen == seen
  {
  }

  lemma {:induction false} HeadsSound(code: Code, input: seq<byte>, off: nat, visits: seq<Thread>, ret: Option<Trace>, s: Progress)
    requires WellFormed(code) && off <= |input| && InRange(code, visits) && |s.seen| == |code.insns| && InRange(code, s.heads)
    requires (forall t :: 0 <= t < |visits| ==> ThreadOk(code, input, off, visits[t])) && ProgressOk(code, input, off, ret, s)
    ensures ProgressOk(code, input, off, ret, Heads(code, input, off, visits, s))
  {
    hide ThreadOk, ProgressOk, WellFormed;
    if visits != [] {
      var last := visits[|visits| - 1];
      HeadsSound(code, input, off, visits[..|visits| - 1], ret, s);
      var before := Heads(code, input, off, visits[..|visits| - 1], s);
      UnseenFits(before.seen, last.ip);
      ThreadsSound(code, input, off, [last], ret, before);
    }
  }

  /** One offset after the other; only the start of an offset is looked at. */
  lemma OffsetSound(code: Code, input: seq<byte>, off: nat, heads: seq<Thread>, ret: Option<Trace>)
    requires WellFormed(code) && off <= |input| && InRange(code, heads) && HeadsOk(code, input, off, heads)
    ensures ProgressOk(code, input, off, ret, Heads(code, input, off, ForeachVisits(heads), NewOffset(code, ret)))
  {
    hide ThreadOk, WellFormed, IsHead;
    HeadsSound(code, input, off, ForeachVisits(heads), ret, NewOffset(code, ret));
  }

  lemma {:induction false} OffsetsSound(code: Code, input: seq<byte>, off: nat, heads: seq<Thread>, live: nat, ret: Option<Trace>)
    requires WellFormed(code) && InRange(code, heads) && (off <= |input| ==> HeadsOk(code, input, off, heads))
    requires ret.Some? ==> Accepted(code, input, ret.value)
    ensures var r := Offsets(code, input, off, heads, live, ret); r.Some? ==> Accepted(code, input, r.value)
    decreases |input| + 1 - off
  {
    hide HeadsOk, WellFormed, AcceptedAt;
    if off <= |input| && live > 0 {
      var s := Heads(code, input, off, ForeachVisits(heads), NewOffset(code, ret));
      OffsetSound(code, input, off, heads, ret);
      OffsetsSound(code, input, off + 1, s.heads, s.live, s.ret);
    }
  }

  /** A trace that the simulation returns was recorded on a run from the first instruction to an ACCEPT. */
  lemma SimulatedSound(code: Code, input: seq<byte>)
    requires WellFormed(code)
    ensures Simulated(code, input).Some? ==> Accepted(code, input, Simulated(code, input).value)
  {
    FirstHead(code, input);
    OffsetsSound(code, input, 0, [Thread(Node(NOP_EVENT, Empty), 0)], 1, None);
  }

  lemma FirstHead(code: Code, input: seq<byte>)
    requires WellFormed(code)
    ensures HeadsOk(code, input, 0, [Thread(Node(NOP_EVENT, Empty), 0)])
  {
    assert Reach(code, input, 0, Conf(0, 0), Conf(0, 0), []);
    assert Events(Node(NOP_EVENT, Empty)) == [NOP_EVENT] == Reversed([NOP_EVENT] + []);
    assert OnPath(code, input, Node(NOP_EVENT, Empty), Conf(0, 0));
  }

  /** Some run from the first instruction at offset 0 reaches an ACCEPT at `c`, recording `es` on the way. */
  ghost predicate AcceptingRun(code: Code, input: seq<byte>, es: seq<Event>, c: Conf) {
    && c.ip < |code.insns| && code.insns[c.ip].op == ACCEPT && c.off <= |input|
    && exists n: nat :: Reach(code, input, n, Conf(0, 0), c, es)
  }

  /** The whole trace of such a run, oldest event first. */
  ghost function FullTrace(es: seq<Event>, c: Conf): seq<Event> {
    [NOP_EVENT] + es + [Event(SVM_ACCEPT, 0, c.off)]
  }

  lemma RunOfAccepted(code: Code, input: seq<byte>, off: nat, tr: Trace) returns (es: seq<Event>, c: Conf)
    requires off <= |input| && AcceptedHere(code, input, off, tr)
    ensures AcceptingRun(code, input, es, c) && c.off == off && Events(tr) == Reversed(FullTrace(es, c))
  {
    hide Reach, Reversed, Events;
    var ip: nat :| AcceptedAt(code, input, tr, Conf(ip, off));
    c := Conf(ip, off);
    var n: nat, fs :| Reach(code, input, n, Conf(0, 0), c, fs) && Events(tr) == Reversed([NOP_EVENT] + fs + [Event(SVM_ACCEPT, 0, c.off)]);
    es := fs;
  }

  lemma {:induction false} ReversedTwice(s: seq<Event>)
    ensures Reversed(Reversed(s)) == s
  {
    if s != [] {
      ReversedSnoc(Reversed(s[1..]), s[0]);
      ReversedTwice(s[1..]);
    }
  }
}
