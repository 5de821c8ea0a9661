/** What the simulation finds: the last offset at which it visits an ACCEPT, where the iteration macro decides what it
    visits; while at most one instruction waits at every offset, that is every instruction that a run reaches. */
module RvmCoverage {
  import opened Basics
  import opened RvmCode
  import opened Svm
  import opened RvmPaths
  import opened RvmThreads
  import opened SvmMachine
  import opened SparseArray

  ghost predicate Queued(ths: seq<Thread>, ip: nat) {
    exists t :: 0 <= t < |ths| && ths[t].ip == ip
  }

  /** The instruction has been processed at this offset, or is going to be. */
  ghost predicate Covered(seen: seq<nat>, queue: seq<Thread>, ip: nat) {
    (ip < |seen| && seen[ip] == 1) || Queued(queue, ip)
  }

  /** Everything that processing instruction `k` leads to has been taken care of. */
  ghost predicate Done(code: Code, input: seq<byte>, off: nat, k: nat, queue: seq<Thread>, s: Progress)
    requires k < |code.insns|
  {
    match code.insns[k].op
    case STEP => Queued(s.heads, k + 1)
    case ACCEPT => s.ret.Some? && AcceptedHere(code, input, off, s.ret.value)
    case _ => forall i :: 0 <= i < |Succs(code, input, Conf(k, off))| ==> Covered(s.seen, queue, Succs(code, input, Conf(k, off))[i].ip)
  }

  /** A mark other than 0 and 1 stands for a queued thread. */
  ghost predicate Marked(seen: seq<nat>, queue: seq<Thread>) {
    forall k :: 0 <= k < |seen| && seen[k] != 0 && seen[k] != 1 ==> Queued(queue, k)
  }

  ghost predicate Tracked(code: Code, input: seq<byte>, off: nat, queue: seq<Thread>, s: Progress) {
    && |s.seen| == |code.insns| && Marked(s.seen, queue)
    && forall k :: 0 <= k < |s.seen| && s.seen[k] == 1 ==> Done(code, input, off, k, queue, s)
  }

  ghost predicate Distinct(heads: seq<Thread>) {
    forall i, j :: 0 <= i < j < |heads| ==> heads[i].ip != heads[j].ip
  }

  /** What holds of the waiting threads whatever else happens. */
  ghost predicate Tidy(s: Progress) {
    Distinct(s.heads) && (s.live == 0 ==> s.heads == [])
  }

  // ----- one turn

  lemma CoverKept(seen: seq<nat>, queue: seq<Thread>, seen': seq<nat>, queue': seq<Thread>, ip: nat)
    requires |queue| > 0 && |seen'| == |seen| && Covered(seen, queue, ip)
    requires var th := queue[|queue| - 1];
      && th.ip < |seen| && (forall t :: 0 <= t < |queue| - 1 ==> queue[t] in queue')
      && forall k :: 0 <= k < |seen| ==> (k == th.ip ==> seen'[k] == 1 || Queued(queue', k)) && (seen[k] == 1 ==> seen'[k] == 1 || Queued(queue', k))
    ensures Covered(seen', queue', ip)
  {
  }

  /** The turn itself: nothing that was covered gets lost, and the marks keep their meaning. */
  lemma TurnCovers(code: Code, input: seq<byte>, off: nat, seen: seq<nat>, queue: seq<Thread>, ip: nat)
    requires HasRoom(code, input, off, seen, queue) && queue != [] && Covered(seen, queue, ip)
    ensures var (seen', queue') := TurnSpec(code, input, off, seen, queue); Covered(seen', queue', ip)
  {
    hide Execute, WellFormed, Unseen;
    var th := queue[|queue| - 1];
    var (seen', queue') := TurnSpec(code, input, off, seen, queue);
    ExecuteInside(code, input, off, th);
    assert forall t :: 0 <= t < |queue| - 1 ==> queue'[t] == queue[t];
    assert seen[th.ip] != 1 && Execute(code, input, off, th).Forks? && |queue'| == |queue| + 1 ==> queue'[|queue| - 1].ip == th.ip + 1;
    CoverKept(seen, queue, seen', queue', ip);
  }

  lemma TurnMarks(code: Code, input: seq<byte>, off: nat, seen: seq<nat>, queue: seq<Thread>)
    requires HasRoom(code, input, off, seen, queue) && queue != [] && Marked(seen, queue)
    ensures var (seen', queue') := TurnSpec(code, input, off, seen, queue); Marked(seen', queue')
  {
    hide Execute, WellFormed, Unseen;
    var (seen', queue') := TurnSpec(code, input, off, seen, queue);
    forall k | 0 <= k < |seen'| && seen'[k] != 0 && seen'[k] != 1 ensures Queued(queue', k) {
      ExecuteInside(code, input, off, queue[|queue| - 1]);
      if |queue'| == |queue| + 1 && k == queue'[|queue| - 1].ip {
      } else {
        assert seen[k] == seen'[k] && Queued(queue, k);
        TurnCovers(code, input, off, seen, queue, k);
      }
    }
  }

  /** The instruction just processed. */
  lemma TurnDoes(code: Code, input: seq<byte>, off: nat, queue: seq<Thread>, s: Progress)
    requires HasRoom(code, input, off, s.seen, queue) && queue != [] && Marked(s.seen, queue)
    requires s.seen[queue[|queue| - 1].ip] != 1 && ThreadOk(code, input, off, queue[|queue| - 1])
    ensures var th := queue[|queue| - 1];
      var (seen', queue') := TurnSpec(code, input, off, s.seen, queue);
      Done(code, input, off, th.ip, queue', After(s, seen', TurnEffect(code, input, off, s.seen, th)))
  {
    hide Unseen, OnPath, AcceptedAt, Save;
    var th := queue[|queue| - 1];
    var (seen', queue') := TurnSpec(code, input, off, s.seen, queue);
    ExecuteOnPath(code, input, off, th);
    ExecuteInside(code, input, off, th);
    var s' := After(s, seen', Execute(code, input, off, th));
    match Execute(code, input, off, th)
    case Waits(next) => SaveHolds(s.heads, next);
    case Goes(next) => assert queue'[|queue| - 1] == next;
    case Forks(next, other) =>
      assert queue'[|queue| - 1] == next && Queued(queue', next.ip);
      if |queue'| == |queue| + 1 {
        assert queue'[|queue|] == other;
      } else if other.ip != th.ip {
        assert Covered(s.seen, queue, other.ip);
        TurnCovers(code, input, off, s.seen, queue, other.ip);
      }
    case _ =>
  }

  lemma SaveHolds(heads: seq<Thread>, th: Thread)
    ensures Queued(Save(heads, th), th.ip)
    ensures forall ip :: Queued(heads, ip) ==> Queued(Save(heads, th), ip)
  {
  }

  /** What has been done stays done: traces that accept here are replaced by traces that accept here only. */
  lemma DoneKept(code: Code, input: seq<byte>, off: nat, k: nat, queue: seq<Thread>, s: Progress)
    requires HasRoom(code, input, off, s.seen, queue) && queue != [] && ThreadOk(code, input, off, queue[|queue| - 1])
    requires k < |code.insns| && Done(code, input, off, k, queue, s)
    ensures var th := queue[|queue| - 1];
      var (seen', queue') := TurnSpec(code, input, off, s.seen, queue);
      Done(code, input, off, k, queue', After(s, seen', TurnEffect(code, input, off, s.seen, th)))
  {
    hide Unseen, OnPath, AcceptedAt, Save, Execute, TurnSpec, Covered, WellFormed, Queued, Succs, HasRoom;
    var th := queue[|queue| - 1];
    RoomFacts(code, input, off, s.seen, queue);
    var (seen', queue') := TurnSpec(code, input, off, s.seen, queue);
    var effect := TurnEffect(code, input, off, s.seen, th);
    ExecuteOnPath(code, input, off, th);
    if effect.Waits? {
      SaveHolds(s.heads, effect.th);
    }
    forall i | 0 <= i < |Succs(code, input, Conf(k, off))| && Covered(s.seen, queue, Succs(code, input, Conf(k, off))[i].ip)
      ensures Covered(seen', queue', Succs(code, input, Conf(k, off))[i].ip)
    {
      TurnCovers(code, input, off, s.seen, queue, Succs(code, input, Conf(k, off))[i].ip);
    }
  }

  lemma TurnSeen(code: Code, input: seq<byte>, off: nat, seen: seq<nat>, queue: seq<Thread>, k: nat)
    requires HasRoom(code, input, off, seen, queue) && queue != [] && k < |seen|
    ensures var (seen', queue') := TurnSpec(code, input, off, seen, queue);
      |seen'| == |seen| && (seen'[k] == 1 ==> seen[k] == 1 || (k == queue[|queue| - 1].ip && seen[k] != 1))
  {
    hide Execute, Unseen;
    ExecuteInside(code, input, off, queue[|queue| - 1]);
  }

  lemma TurnTracks(code: Code, input: seq<byte>, off: nat, queue: seq<Thread>, s: Progress)
    requires HasRoom(code, input, off, s.seen, queue) && queue != [] && ThreadOk(code, input, off, queue[|queue| - 1])
    requires Tracked(code, input, off, queue, s)
    ensures var th := queue[|queue| - 1];
      var (seen', queue') := TurnSpec(code, input, off, s.seen, queue);
      Tracked(code, input, off, queue', After(s, seen', TurnEffect(code, input, off, s.seen, th)))
  {
    hide TurnSpec, Done, Marked, ThreadOk, HasRoom, WellFormed, Execute;
    RoomFacts(code, input, off, s.seen, queue);
    TurnMarks(code, input, off, s.seen, queue);
    var th := queue[|queue| - 1];
    var (seen', queue') := TurnSpec(code, input, off, s.seen, queue);
    var s' := After(s, seen', TurnEffect(code, input, off, s.seen, th));
    TurnSeen(code, input, off, s.seen, queue, 0);
    forall k | 0 <= k < |seen'| && seen'[k] == 1 ensures Done(code, input, off, k, queue', s') {
      TurnSeen(code, input, off, s.seen, queue, k);
      if s.seen[k] == 1 {
        DoneKept(code, input, off, k, queue, s);
      } else {
        TurnDoes(code, input, off, queue, s);
      }
    }
  }

  lemma AfterTidy(s: Progress, seen: seq<nat>, effect: Effect)
    requires Tidy(s)
    ensures Tidy(After(s, seen, effect))
  {
    if effect.Waits? {
      SaveDistinct(s.heads, effect.th);
    }
  }

  lemma SaveDistinct(heads: seq<Thread>, th: Thread)
    requires Distinct(heads)
    ensures Distinct(Save(heads, th))
  {
  }

  /** What was covered before is processed when no thread is left. */
  lemma {:induction false} ThreadsTrack(code: Code, input: seq<byte>, off: nat, queue: seq<Thread>, s: Progress)
    requires HasRoom(code, input, off, s.seen, queue) && InRange(code, s.heads)
    requires (forall t :: 0 <= t < |queue| ==> ThreadOk(code, input, off, queue[t]))
    requires Tracked(code, input, off, queue, s) && Tidy(s)
    ensures var r := Threads(code, input, off, queue, s);
      Tracked(code, input, off, [], r) && Tidy(r) && forall ip :: Covered(s.seen, queue, ip) ==> Covered(r.seen, [], ip)
    decreases Unseen(s.seen, TopIp(queue)), Unprocessed(s.seen), |queue|
  {
    hide ThreadOk, WellFormed, Execute, Unseen, Unprocessed, After, Tracked, Tidy, Covered;
    if queue != [] {
      var th := queue[|queue| - 1];
      TurnKeeps(code, input, off, s.seen, queue);
      ExecuteOnPath(code, input, off, th);
      ExecuteInside(code, input, off, th);
      var (seen', queue') := TurnSpec(code, input, off, s.seen, queue);
      var effect := TurnEffect(code, input, off, s.seen, th);
      AfterInRange(code, s, seen', effect);
      AfterTidy(s, seen', effect);
      TurnTracks(code, input, off, queue, s);
      ThreadsTrack(code, input, off, queue', After(s, seen', effect));
      forall ip | Covered(s.seen, queue, ip) ensures Covered(seen', queue', ip) {
        TurnCovers(code, input, off, s.seen, queue, ip);
      }
    }
  }

  lemma {:induction false} HeadsTrack(code: Code, input: seq<byte>, off: nat, visits: seq<Thread>, s: Progress)
    requires WellFormed(code) && off <= |input| && InRange(code, visits) && |s.seen| == |code.insns| && InRange(code, s.heads)
    requires (forall t :: 0 <= t < |visits| ==> ThreadOk(code, input, off, visits[t]))
    requires Tracked(code, input, off, [], s) && Tidy(s)
    ensures var r := Heads(code, input, off, visits, s);
      Tracked(code, input, off, [], r) && Tidy(r) && forall t :: 0 <= t < |visits| ==> Covered(r.seen, [], visits[t].ip)
  {
    hide ThreadOk, WellFormed, Unseen, Tidy, Threads, Done;
    if visits != [] {
      var last, others := visits[|visits| - 1], visits[..|visits| - 1];
      var before := Heads(code, input, off, others, s);
      HeadsTrack(code, input, off, others, s);
      UnseenFits(before.seen, last.ip);
      assert Tracked(code, input, off, [last], before) by {
        forall k | 0 <= k < |before.seen| && before.seen[k] == 1 ensures Done(code, input, off, k, [last], before) {
          DoneMore(code, input, off, k, last, before);
        }
      }
      ThreadsTrack(code, input, off, [last], before);
      assert [last][0] == last && Covered(before.seen, [last], last.ip);
      forall t | 0 <= t < |visits| - 1 ensures Covered(before.seen, [last], visits[t].ip) {
        assert visits[t] == others[t];
      }
    }
  }

  lemma DoneMore(code: Code, input: seq<byte>, off: nat, k: nat, th: Thread, s: Progress)
    requires k < |code.insns| && Done(code, input, off, k, [], s)
    ensures Done(code, input, off, k, [th], s)
  {
    hide Succs, AcceptedAt;
  }

  // ----- one offset

  lemma FirstTurn(code: Code, input: seq<byte>, n: nat, c: Conf, d: Conf, es: seq<Event>) returns (k: nat, rest: seq<Event>)
    requires Reach(code, input, n, c, d, es) && n > 0
    ensures k < |Succs(code, input, c)| && Reach(code, input, n - 1, Succs(code, input, c)[k], d, rest)
  {
    hide Emits, Succs;
    rest := es[|Emits(code, c)|..];
    k :| 0 <= k < |Succs(code, input, c)| && Reach(code, input, n - 1, Succs(code, input, c)[k], d, rest);
  }

  /** Only STEP moves on in the input. */
  lemma OnlyStepMoves(code: Code, input: seq<byte>, c: Conf, k: nat)
    requires k < |Succs(code, input, c)|
    ensures c.ip < |code.insns|
    ensures if code.insns[c.ip].op == STEP then Succs(code, input, c)[k] == Conf(c.ip + 1, c.off + 1) && c.off < |input|
            else Succs(code, input, c)[k].off == c.off && code.insns[c.ip].op != ACCEPT
  {
  }

  lemma {:induction false} OffsetsGrow(code: Code, input: seq<byte>, n: nat, c: Conf, d: Conf, es: seq<Event>)
    requires Reach(code, input, n, c, d, es)
    ensures c.off <= d.off
    decreases n
  {
    hide Emits, Succs;
    if n > 0 {
      var k, rest := FirstTurn(code, input, n, c, d, es);
      OnlyStepMoves(code, input, c, k);
      OffsetsGrow(code, input, n - 1, Succs(code, input, c)[k], d, rest);
    }
  }

  /** With no thread left at an offset, everything a processed instruction leads to there has been processed. */
  lemma {:induction false} Spread(code: Code, input: seq<byte>, n: nat, c: Conf, d: Conf, es: seq<Event>, s: Progress)
    requires Tracked(code, input, c.off, [], s) && Covered(s.seen, [], c.ip) && c.off == d.off
    requires Reach(code, input, n, c, d, es)
    ensures Covered(s.seen, [], d.ip)
    decreases n
  {
    hide Emits, Succs, Marked;
    if n > 0 {
      var k, rest := FirstTurn(code, input, n, c, d, es);
      OnlyStepMoves(code, input, c, k);
      OffsetsGrow(code, input, n - 1, Succs(code, input, c)[k], d, rest);
      assert Done(code, input, c.off, c.ip, [], s);
      Spread(code, input, n - 1, Succs(code, input, c)[k], d, rest, s);
    } else {
      assert c == d;
    }
  }

  /** A run to an offset passes one of the instructions that wait there. */
  lemma {:induction false} PassesHead(code: Code, input: seq<byte>, h: nat, m: nat, fs: seq<Event>, n: nat, c: Conf, d: Conf, es: seq<Event>)
    returns (h': nat, m': nat, fs': seq<Event>)
    requires c.off <= |input| && Reachable(code, input, c)
    requires IsHead(code, input, c.off, h) && Reach(code, input, m, Conf(h, c.off), c, fs) && Reach(code, input, n, c, d, es)
    ensures IsHead(code, input, d.off, h') && Reach(code, input, m', Conf(h', d.off), d, fs') && d.off <= |input|
    decreases n
  {
    hide Reach, Emits, Succs, Reachable;
    if n == 0 {
      NoTurn(code, input, c, d, es);
      h', m', fs' := h, m, fs;
    } else {
      var k, rest := FirstTurn(code, input, n, c, d, es);
      OnlyStepMoves(code, input, c, k);
      ReachableStep(code, input, c, k);
      var next := Succs(code, input, c)[k];
      if code.insns[c.ip].op == STEP {
        StandStill(code, input, next);
        h', m', fs' := PassesHead(code, input, next.ip, 0, [], n - 1, next, d, rest);
      } else {
        ReachSnoc(code, input, m, Conf(h, c.off), c, fs, k);
        h', m', fs' := PassesHead(code, input, h, m + 1, fs + Emits(code, c), n - 1, next, d, rest);
      }
    }
  }

  lemma NoTurn(code: Code, input: seq<byte>, c: Conf, d: Conf, es: seq<Event>)
    requires Reach(code, input, 0, c, d, es)
    ensures c == d
  {
  }

  lemma StandStill(code: Code, input: seq<byte>, c: Conf)
    ensures Reach(code, input, 0, c, c, [])
  {
  }

  lemma ReachableStep(code: Code, input: seq<byte>, c: Conf, k: nat)
    requires Reachable(code, input, c) && k < |Succs(code, input, c)|
    ensures Reachable(code, input, Succs(code, input, c)[k])
  {
    hide Reach, Succs;
    var n: nat, es :| Reach(code, input, n, Conf(0, 0), c, es);
    ReachSnoc(code, input, n, Conf(0, 0), c, es, k);
  }

  lemma HeadOnTheWay(code: Code, input: seq<byte>, d: Conf) returns (h: nat, m: nat, fs: seq<Event>)
    requires Reachable(code, input, d)
    ensures IsHead(code, input, d.off, h) && Reach(code, input, m, Conf(h, d.off), d, fs) && d.off <= |input|
  {
    hide Reach;
    StandStill(code, input, Conf(0, 0));
    var n: nat, es :| Reach(code, input, n, Conf(0, 0), d, es);
    h, m, fs := PassesHead(code, input, 0, 0, [], n, Conf(0, 0), d, es);
  }

  // ----- visits lead nowhere else

  /** What the instructions in `inside` lead to at this offset is in `inside` too. */
  ghost predicate Closed(code: Code, input: seq<byte>, off: nat, inside: iset<nat>) {
    forall k: nat, i: nat :: k in inside && i < |Succs(code, input, Conf(k, off))| && Succs(code, input, Conf(k, off))[i].off == off
      ==> Succs(code, input, Conf(k, off))[i].ip in inside
  }

  ghost predicate StepIn(code: Code, inside: iset<nat>, ip: nat) {
    0 < ip <= |code.insns| && code.insns[ip - 1].op == STEP && ip - 1 in inside
  }

  ghost predicate AcceptIn(code: Code, inside: iset<nat>) {
    exists k: nat :: k < |code.insns| && code.insns[k].op == ACCEPT && k in inside
  }

  /** Everything that was processed, waits or accepted stems from `inside`. */
  ghost predicate Confined(code: Code, inside: iset<nat>, queue: seq<Thread>, ret: Option<Trace>, s: Progress) {
    && (forall t :: 0 <= t < |queue| ==> queue[t].ip in inside)
    && (forall k: nat :: k < |s.seen| && s.seen[k] == 1 ==> k in inside)
    && (forall t :: 0 <= t < |s.heads| ==> StepIn(code, inside, s.heads[t].ip))
    && (s.ret == ret || AcceptIn(code, inside))
  }

  /** What one instruction does to a thread is what the runs allow. */
  lemma ExecuteFollows(code: Code, input: seq<byte>, off: nat, th: Thread, inside: iset<nat>)
    requires th.ip < |code.insns| && off <= |input| && th.ip in inside && Closed(code, input, off, inside)
    ensures
      match Execute(code, input, off, th)
      case Goes(next) => next.ip in inside
      case Forks(next, other) => next.ip in inside && other.ip in inside
      case Waits(next) => StepIn(code, inside, next.ip)
      case Accepts(_) => AcceptIn(code, inside)
      case Dies => true
  {
    hide RangeLow, RangeHigh;
    var succs := Succs(code, input, Conf(th.ip, off));
    assert |succs| > 0 && succs[0].off == off ==> succs[0].ip in inside;
    assert |succs| > 1 && succs[1].off == off ==> succs[1].ip in inside;
  }

  lemma TurnConfined(code: Code, input: seq<byte>, off: nat, inside: iset<nat>, queue: seq<Thread>, ret: Option<Trace>, s: Progress)
    requires HasRoom(code, input, off, s.seen, queue) && queue != [] && Closed(code, input, off, inside)
    requires Confined(code, inside, queue, ret, s)
    ensures var (seen', queue') := TurnSpec(code, input, off, s.seen, queue);
      Confined(code, inside, queue', ret, After(s, seen', TurnEffect(code, input, off, s.seen, queue[|queue| - 1])))
  {
    hide Execute, WellFormed, Unseen, Closed, AcceptIn, StepIn;
    ExecuteFollows(code, input, off, queue[|queue| - 1], inside);
    ExecuteInside(code, input, off, queue[|queue| - 1]);
  }

  lemma {:induction false} ThreadsConfined(code: Code, input: seq<byte>, off: nat, inside: iset<nat>,
                                           queue: seq<Thread>, ret: Option<Trace>, s: Progress)
    requires HasRoom(code, input, off, s.seen, queue) && InRange(code, s.heads) && Closed(code, input, off, inside)
    requires Confined(code, inside, queue, ret, s)
    ensures Confined(code, inside, [], ret, Threads(code, input, off, queue, s))
    decreases Unseen(s.seen, TopIp(queue)), Unprocessed(s.seen), |queue|
  {
    hide WellFormed, Execute, Unseen, Unprocessed, After, Confined, Closed;
    if queue != [] {
      var th := queue[|queue| - 1];
      TurnKeeps(code, input, off, s.seen, queue);
      ExecuteInside(code, input, off, th);
      var (seen', queue') := TurnSpec(code, input, off, s.seen, queue);
      AfterInRange(code, s, seen', TurnEffect(code, input, off, s.seen, th));
      TurnConfined(code, input, off, inside, queue, ret, s);
      ThreadsConfined(code, input, off, inside, queue', ret, After(s, seen', TurnEffect(code, input, off, s.seen, th)));
    }
  }

  lemma {:induction false} HeadsConfined(code: Code, input: seq<byte>, off: nat, inside: iset<nat>,
                                         visits: seq<Thread>, ret: Option<Trace>, s: Progress)
    requires WellFormed(code) && off <= |input| && InRange(code, visits) && |s.seen| == |code.insns| && InRange(code, s.heads)
    requires Closed(code, input, off, inside) && Confined(code, inside, visits, ret, s)
    ensures Confined(code, inside, [], ret, Heads(code, input, off, visits, s))
  {
    hide WellFormed, Closed, Unseen, Threads, AcceptIn, StepIn;
    if visits != [] {
      var last, others := visits[|visits| - 1], visits[..|visits| - 1];
      HeadsConfined(code, input, off, inside, others, ret, s);
      var before := Heads(code, input, off, others, s);
      UnseenFits(before.seen, last.ip);
      ThreadsConfined(code, input, off, inside, [last], ret, before);
    }
  }

  // ----- what the simulation visits

  /** The state in which the simulation enters offset `off`, if it is not stopped before. */
  ghost function Before(code: Code, input: seq<byte>, off: nat): (s: Progress)
    requires WellFormed(code) && off <= |input| + 1
    ensures InRange(code, s.heads)
  {
    if off == 0 then Progress(NewOffset(code, None).seen, [Thread(Node(NOP_EVENT, Empty), 0)], 1, None)
    else
      var s := Before(code, input, off - 1);
      Heads(code, input, off - 1, ForeachVisits(s.heads), NewOffset(code, s.ret))
  }

  /** A run leads to `c` that begins at an instruction the iteration macro hands out at the offset of `c`. */
  ghost predicate Visited(code: Code, input: seq<byte>, c: Conf)
    requires WellFormed(code)
  {
    c.off <= |input| && exists h: nat, n: nat, es ::
      Queued(ForeachVisits(Before(code, input, c.off).heads), h) && Reach(code, input, n, Conf(h, c.off), c, es)
  }

  ghost function VisitedAt(code: Code, input: seq<byte>, off: nat): iset<nat>
    requires WellFormed(code)
  {
    iset ip: nat | Visited(code, input, Conf(ip, off))
  }

  /** An ACCEPT is visited at `off`. */
  ghost predicate Sees(code: Code, input: seq<byte>, off: nat)
    requires WellFormed(code)
  {
    exists ip: nat :: ip < |code.insns| && code.insns[ip].op == ACCEPT && Visited(code, input, Conf(ip, off))
  }

  lemma {:induction false} BeforeOk(code: Code, input: seq<byte>, off: nat)
    requires WellFormed(code) && off <= |input| + 1
    ensures Tidy(Before(code, input, off))
    ensures off <= |input| ==> HeadsOk(code, input, off, Before(code, input, off).heads)
  {
    hide WellFormed, Heads, IsHead, ThreadOk, Marked, Done;
    if off == 0 {
      FirstHead(code, input);
    } else {
      BeforeOk(code, input, off - 1);
      var s := Before(code, input, off - 1);
      OffsetSound(code, input, off - 1, s.heads, s.ret);
      NewIsTracked(code, input, off - 1, s.ret);
      HeadsTrack(code, input, off - 1, ForeachVisits(s.heads), NewOffset(code, s.ret));
    }
  }

  /** Every visited instruction is processed. */
  lemma VisitedProcessed(code: Code, input: seq<byte>, off: nat)
    requires WellFormed(code) && off <= |input|
    ensures var s := Before(code, input, off + 1);
      Tracked(code, input, off, [], s) && forall ip: nat :: ip in VisitedAt(code, input, off) ==> Covered(s.seen, [], ip)
  {
    hide WellFormed, Heads, IsHead, ThreadOk, Marked, Done, Reach, Succs, Tidy, Covered;
    BeforeOk(code, input, off);
    var b, s := Before(code, input, off), Before(code, input, off + 1);
    NewIsTracked(code, input, off, b.ret);
    HeadsTrack(code, input, off, ForeachVisits(b.heads), NewOffset(code, b.ret));
    forall ip: nat | ip in VisitedAt(code, input, off) ensures Covered(s.seen, [], ip) {
      VisitedCovered(code, input, off, ip, s);
    }
  }

  lemma VisitedCovered(code: Code, input: seq<byte>, off: nat, ip: nat, s: Progress)
    requires WellFormed(code) && Visited(code, input, Conf(ip, off)) && Tracked(code, input, off, [], s)
    requires forall h: nat :: Queued(ForeachVisits(Before(code, input, off).heads), h) ==> Covered(s.seen, [], h)
    ensures Covered(s.seen, [], ip)
  {
    hide WellFormed, Before, Tracked, Reach, Covered, Queued;
    var h: nat, n: nat, es :| Queued(ForeachVisits(Before(code, input, off).heads), h) && Reach(code, input, n, Conf(h, off), Conf(ip, off), es);
    Spread(code, input, n, Conf(h, off), Conf(ip, off), es, s);
  }

  /** Everything that is processed, waits or accepts stems from visited instructions. */
  lemma OnlyVisited(code: Code, input: seq<byte>, off: nat)
    requires WellFormed(code) && off <= |input|
    ensures Confined(code, VisitedAt(code, input, off), [], Before(code, input, off).ret, Before(code, input, off + 1))
  {
    hide WellFormed, Heads, Confined, Closed, Visited;
    var b := Before(code, input, off);
    VisitedClosed(code, input, off);
    VisitsConfined(code, input, off);
    HeadsConfined(code, input, off, VisitedAt(code, input, off), ForeachVisits(b.heads), b.ret, NewOffset(code, b.ret));
  }

  lemma NewIsTracked(code: Code, input: seq<byte>, off: nat, ret: Option<Trace>)
    ensures Tracked(code, input, off, [], NewOffset(code, ret)) && Tidy(NewOffset(code, ret))
  {
    hide Succs, AcceptedAt;
  }

  lemma VisitedClosed(code: Code, input: seq<byte>, off: nat)
    requires WellFormed(code) && off <= |input|
    ensures Closed(code, input, off, VisitedAt(code, input, off))
  {
    hide WellFormed, Succs, Visited;
    forall k: nat, i: nat | Visited(code, input, Conf(k, off)) && i < |Succs(code, input, Conf(k, off))| && Succs(code, input, Conf(k, off))[i].off == off
      ensures Visited(code, input, Conf(Succs(code, input, Conf(k, off))[i].ip, off))
    {
      VisitedStep(code, input, Conf(k, off), i);
      assert Succs(code, input, Conf(k, off))[i] == Conf(Succs(code, input, Conf(k, off))[i].ip, off);
    }
  }

  lemma VisitedStep(code: Code, input: seq<byte>, c: Conf, i: nat)
    requires WellFormed(code) && Visited(code, input, c) && i < |Succs(code, input, c)| && Succs(code, input, c)[i].off == c.off
    ensures Visited(code, input, Succs(code, input, c)[i])
  {
    hide WellFormed, Succs, Reach, Before;
    var h: nat, n: nat, es :| Queued(ForeachVisits(Before(code, input, c.off).heads), h) && Reach(code, input, n, Conf(h, c.off), c, es);
    ReachSnoc(code, input, n, Conf(h, c.off), c, es, i);
  }

  lemma VisitsConfined(code: Code, input: seq<byte>, off: nat)
    requires WellFormed(code) && off <= |input|
    ensures var b := Before(code, input, off);
      Confined(code, VisitedAt(code, input, off), ForeachVisits(b.heads), b.ret, NewOffset(code, b.ret))
  {
    hide WellFormed, Reach, Before;
    var visits := ForeachVisits(Before(code, input, off).heads);
    forall t | 0 <= t < |visits| ensures Visited(code, input, Conf(visits[t].ip, off)) {
      StandStill(code, input, Conf(visits[t].ip, off));
      assert Queued(visits, visits[t].ip);
    }
  }

  /** One offset of the simulation, exactly: what waits next stands behind the visited STEPs, and the trace for an
      accepting run changes exactly when an ACCEPT is visited. */
  lemma OffsetExact(code: Code, input: seq<byte>, off: nat)
    requires WellFormed(code) && off <= |input|
    ensures var b, s := Before(code, input, off), Before(code, input, off + 1);
      && (forall h: nat :: Queued(s.heads, h) <==>
            0 < h <= |code.insns| && code.insns[h - 1].op == STEP && Visited(code, input, Conf(h - 1, off)))
      && if Sees(code, input, off) then s.ret.Some? && AcceptedHere(code, input, off, s.ret.value) else s.ret == b.ret
  {
    hide WellFormed, Before, Visited, AcceptedHere, Marked;
    VisitedProcessed(code, input, off);
    OnlyVisited(code, input, off);
    var s := Before(code, input, off + 1);
    forall h: nat | 0 < h <= |code.insns| && code.insns[h - 1].op == STEP && Visited(code, input, Conf(h - 1, off))
      ensures Queued(s.heads, h)
    {
      assert h - 1 in VisitedAt(code, input, off) && Covered(s.seen, [], h - 1);
      assert s.seen[h - 1] == 1 && Done(code, input, off, h - 1, [], s);
    }
    if Sees(code, input, off) {
      var ip: nat :| ip < |code.insns| && code.insns[ip].op == ACCEPT && Visited(code, input, Conf(ip, off));
      assert ip in VisitedAt(code, input, off) && Covered(s.seen, [], ip);
      assert s.seen[ip] == 1 && Done(code, input, off, ip, [], s);
    }
  }

  /** Of the offsets below `bound` at which an ACCEPT is visited, `ret` is a trace for the last. */
  ghost predicate LastSeen(code: Code, input: seq<byte>, bound: nat, ret: Option<Trace>)
    requires WellFormed(code)
  {
    match ret
    case None => forall o: nat :: o < bound ==> !Sees(code, input, o)
    case Some(tr) =>
      exists off: nat :: off < bound && Sees(code, input, off) && AcceptedHere(code, input, off, tr)
        && forall o: nat :: off < o < bound ==> !Sees(code, input, o)
  }

  lemma {:induction false} BeforeLastSeen(code: Code, input: seq<byte>, off: nat)
    requires WellFormed(code) && off <= |input| + 1
    ensures LastSeen(code, input, off, Before(code, input, off).ret)
  {
    hide WellFormed, Sees, AcceptedHere, Heads;
    if off > 0 {
      BeforeLastSeen(code, input, off - 1);
      OffsetExact(code, input, off - 1);
    }
  }

  /** Stopping when no instruction waits changes nothing. */
  lemma {:induction false} OffsetsBefore(code: Code, input: seq<byte>, off: nat)
    requires WellFormed(code) && off <= |input| + 1
    ensures var s := Before(code, input, off);
      Offsets(code, input, off, s.heads, s.live, s.ret) == Before(code, input, |input| + 1).ret
    decreases |input| + 1 - off
  {
    hide WellFormed, Heads;
    if off <= |input| {
      OffsetsBefore(code, input, off + 1);
      BeforeOk(code, input, off);
      var s := Before(code, input, off);
      if s.live == 0 {
        NoVisits(code, input, off, NewOffset(code, s.ret));
        assert Before(code, input, off + 1) == NewOffset(code, s.ret);
      }
    }
  }

  /** Without any condition: the simulation returns the trace of an accepting run for the last offset at which
      it visits an ACCEPT, and none if it visits none. */
  lemma SimulatedExact(code: Code, input: seq<byte>)
    requires WellFormed(code)
    ensures LastSeen(code, input, |input| + 1, Simulated(code, input))
  {
    hide WellFormed, Heads, LastSeen, Offsets;
    OffsetsBefore(code, input, 0);
    BeforeLastSeen(code, input, |input| + 1);
  }

  // ----- a single head

  /** Never more than one instruction waits. */
  ghost predicate SingleHead(code: Code, input: seq<byte>) {
    forall off: nat, a: nat, b: nat :: IsHead(code, input, off, a) && IsHead(code, input, off, b) ==> a == b
  }

  ghost predicate AcceptsAt(code: Code, input: seq<byte>, off: nat) {
    exists ip: nat :: ip < |code.insns| && code.insns[ip].op == ACCEPT && Reachable(code, input, Conf(ip, off))
  }

  /** What is visited is reached by a run from the first instruction. */
  lemma VisitedReachable(code: Code, input: seq<byte>, c: Conf)
    requires WellFormed(code) && Visited(code, input, c)
    ensures Reachable(code, input, c)
  {
    hide WellFormed, Reach, Before, OnPath;
    BeforeOk(code, input, c.off);
    var heads := Before(code, input, c.off).heads;
    var h: nat, m: nat, fs :| Queued(ForeachVisits(heads), h) && Reach(code, input, m, Conf(h, c.off), c, fs);
    var t :| 0 <= t < |ForeachVisits(heads)| && ForeachVisits(heads)[t].ip == h;
    assert ForeachVisits(heads)[t] in heads;
    OnPathReachable(code, input, ForeachVisits(heads)[t].trace, Conf(h, c.off));
    var n: nat, es :| Reach(code, input, n, Conf(0, 0), Conf(h, c.off), es);
    ReachConcat(code, input, n, Conf(0, 0), Conf(h, c.off), es, m, c, fs);
  }

  lemma SeenAccepts(code: Code, input: seq<byte>, off: nat)
    requires WellFormed(code) && Sees(code, input, off)
    ensures AcceptsAt(code, input, off) && off <= |input|
  {
    hide WellFormed, Reachable;
    var ip: nat :| ip < |code.insns| && code.insns[ip].op == ACCEPT && Visited(code, input, Conf(ip, off));
    VisitedReachable(code, input, Conf(ip, off));
  }

  lemma OneOnly(code: Code, input: seq<byte>, off: nat, a: nat, b: nat)
    requires SingleHead(code, input) && IsHead(code, input, off, a) && IsHead(code, input, off, b)
    ensures a == b
  {
    hide IsHead;
  }

  /** While at most one instruction waits at every offset, every reachable instruction is visited. */
  lemma {:induction false} SingleVisits(code: Code, input: seq<byte>, d: Conf)
    requires WellFormed(code) && SingleHead(code, input) && Reachable(code, input, d)
    ensures Visited(code, input, d)
    decreases d.off, 1
  {
    hide WellFormed, Reach, Before, IsHead, Reachable;
    var h, m, fs := HeadOnTheWay(code, input, d);
    SingleWaits(code, input, d.off, h);
  }

  lemma {:induction false} SingleWaits(code: Code, input: seq<byte>, off: nat, h: nat)
    requires WellFormed(code) && SingleHead(code, input) && off <= |input| && IsHead(code, input, off, h)
    ensures Queued(ForeachVisits(Before(code, input, off).heads), h)
    decreases off, 0
  {
    hide WellFormed, Before, Reachable, Visited, SingleHead, ForeachVisits;
    AllVisited(code, input, off);
    if off > 0 {
      SingleVisits(code, input, Conf(h - 1, off - 1));
      OffsetExact(code, input, off - 1);
    } else {
      FirstWaits(code, input);
    }
  }

  lemma AllVisited(code: Code, input: seq<byte>, off: nat)
    requires WellFormed(code) && SingleHead(code, input) && off <= |input|
    ensures ForeachVisits(Before(code, input, off).heads) == Before(code, input, off).heads
  {
    hide WellFormed, Before, IsHead, SingleHead;
    var heads := Before(code, input, off).heads;
    BeforeOk(code, input, off);
    if |heads| > 1 {
      OneOnly(code, input, off, heads[0].ip, heads[1].ip);
    }
  }

  lemma FirstWaits(code: Code, input: seq<byte>)
    requires WellFormed(code)
    ensures Queued(Before(code, input, 0).heads, 0)
  {
    hide WellFormed;
    assert Before(code, input, 0).heads[0].ip == 0;
  }

  // ----- which runs are followed

  /** The instruction waits, and it waits alone or is not the last in the order of the array. */
  ghost predicate Kept(heads: seq<Thread>, h: nat) {
    exists i :: 0 <= i < |heads| && heads[i].ip == h && (|heads| == 1 || i + 1 < |heads|)
  }

  lemma KeptVisited(heads: seq<Thread>, h: nat)
    requires Distinct(heads)
    ensures Queued(ForeachVisits(heads), h) <==> Kept(heads, h)
  {
    hide ForeachVisits;
    ForeachCount(heads);
    var visits := ForeachVisits(heads);
    if Queued(visits, h) {
      var k :| 0 <= k < |visits| && visits[k].ip == h;
      ForeachVisit(heads, k);
      assert heads[if k == 0 then 0 else k - 1].ip == h;
    }
    if Kept(heads, h) {
      var i :| 0 <= i < |heads| && heads[i].ip == h && (|heads| == 1 || i + 1 < |heads|);
      ForeachReaches(heads, i);
      var k :| 0 <= k < |visits| && visits[k] == heads[i];
    }
  }

  ghost predicate Leads(code: Code, input: seq<byte>, h: nat, ip: nat, off: nat) {
    exists n: nat, es :: Reach(code, input, n, Conf(h, off), Conf(ip, off), es)
  }

  /** A run to `d` that enters every offset `o` at instruction `hs[o]`. */
  ghost predicate Enters(code: Code, input: seq<byte>, hs: seq<nat>, d: Conf) {
    && |hs| == d.off + 1 && hs[0] == 0 && Leads(code, input, hs[d.off], d.ip, d.off)
    && forall o: nat :: o < d.off ==> StepsTo(code, input, hs[o], hs[o + 1], o)
  }

  ghost predicate StepsTo(code: Code, input: seq<byte>, h: nat, next: nat, off: nat) {
    0 < next <= |code.insns| && code.insns[next - 1].op == STEP && Leads(code, input, h, next - 1, off)
  }

  /** No instruction at which the run enters an offset is the last of several that wait. */
  ghost predicate AllKept(code: Code, input: seq<byte>, hs: seq<nat>)
    requires WellFormed(code) && |hs| <= |input| + 1
  {
    forall o :: 0 <= o < |hs| ==> Kept(Before(code, input, o).heads, hs[o])
  }

  /** Exactly the runs that are never left behind last of several are followed. */
  lemma VisitedExactly(code: Code, input: seq<byte>, d: Conf)
    requires WellFormed(code) && d.off <= |input|
    ensures Visited(code, input, d) <==> exists hs :: Enters(code, input, hs, d) && AllKept(code, input, hs)
  {
    hide WellFormed, AllKept, Visited, Leads, StepsTo;
    if Visited(code, input, d) {
      var hs := VisitedEnters(code, input, d);
    }
    forall hs | Enters(code, input, hs, d) && AllKept(code, input, hs) ensures Visited(code, input, d) {
      KeptIsVisited(code, input, hs, d);
    }
  }

  lemma {:induction false} VisitedEnters(code: Code, input: seq<byte>, d: Conf) returns (hs: seq<nat>)
    requires WellFormed(code) && d.off <= |input| && Visited(code, input, d)
    ensures Enters(code, input, hs, d) && AllKept(code, input, hs)
    decreases d.off
  {
    hide WellFormed, Before, Leads, Kept, Visited;
    var h := KeptHead(code, input, d);
    if d.off == 0 {
      FirstKept(code, input, h);
      hs := [0];
    } else {
      OffsetExact(code, input, d.off - 1);
      KeptQueued(Before(code, input, d.off).heads, h);
      var before := VisitedEnters(code, input, Conf(h - 1, d.off - 1));
      hs := before + [h];
      forall o: nat | o < d.off ensures StepsTo(code, input, hs[o], hs[o + 1], o) {
        assert o < d.off - 1 ==> StepsTo(code, input, before[o], before[o + 1], o);
      }
    }
  }

  lemma KeptHead(code: Code, input: seq<byte>, d: Conf) returns (h: nat)
    requires WellFormed(code) && Visited(code, input, d)
    ensures Kept(Before(code, input, d.off).heads, h) && Leads(code, input, h, d.ip, d.off)
  {
    hide WellFormed, Before, Reach, Kept, Queued;
    var n: nat, es;
    h, n, es :| Queued(ForeachVisits(Before(code, input, d.off).heads), h) && Reach(code, input, n, Conf(h, d.off), d, es);
    assert d == Conf(d.ip, d.off);
    BeforeOk(code, input, d.off);
    TidyOf(Before(code, input, d.off));
    KeptVisited(Before(code, input, d.off).heads, h);
  }

  lemma KeptQueued(heads: seq<Thread>, h: nat)
    requires Kept(heads, h)
    ensures Queued(heads, h)
  {
  }

  lemma FirstKept(code: Code, input: seq<byte>, h: nat)
    requires WellFormed(code) && Kept(Before(code, input, 0).heads, h)
    ensures h == 0
  {
  }

  lemma {:induction false} KeptIsVisited(code: Code, input: seq<byte>, hs: seq<nat>, d: Conf)
    requires WellFormed(code) && d.off <= |input| && Enters(code, input, hs, d) && AllKept(code, input, hs)
    ensures Visited(code, input, d)
    decreases d.off
  {
    hide WellFormed, Before, Reach, Kept, Queued;
    BeforeOk(code, input, d.off);
    TidyOf(Before(code, input, d.off));
    KeptVisited(Before(code, input, d.off).heads, hs[d.off]);
    var n: nat, es :| Reach(code, input, n, Conf(hs[d.off], d.off), Conf(d.ip, d.off), es);
    assert d == Conf(d.ip, d.off);
  }

  lemma TidyOf(s: Progress)
    requires Tidy(s)
    ensures Distinct(s.heads)
  {
  }
}
