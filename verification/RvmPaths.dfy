/** Runs of a regex program as paths between configurations, with the trace each path records. */
module RvmPaths {
  import opened Basics
  import opened RvmCode
  import opened Svm

  /** A thread: the next instruction and the input offset. */
  datatype Conf = Conf(ip: nat, off: nat)

  /** What an instruction appends to the trace. */
  function Emits(code: Code, c: Conf): seq<Event> {
    if c.ip >= |code.insns| then []
    else
      match code.insns[c.ip].op
      case PUSH => [Event(SVM_PUSH, 0, c.off)]
      case ACTION => [Event(SVM_ACTION, code.insns[c.ip].arg, c.off)]
      case CAPTURE => [Event(SVM_CAPTURE, 0, c.off)]
      case ACCEPT => [Event(SVM_ACCEPT, 0, c.off)]
      case _ => []
  }

  /** The byte a thread looks at; past the end of the input the machine looks at a zero. */
  function Look(input: seq<byte>, off: nat): byte {
    if off < |input| then input[off] else 0
  }

  function Succs(code: Code, input: seq<byte>, c: Conf): seq<Conf> {
    if c.ip >= |code.insns| then []
    else
      var next := Conf(c.ip + 1, c.off);
      var arg := code.insns[c.ip].arg;
      match code.insns[c.ip].op
      case ACCEPT => []
      case GOTO => [Conf(arg, c.off)]
      case FORK => [next, Conf(arg, c.off)]
      case PUSH => [next]
      case ACTION => [next]
      case CAPTURE => [next]
      case EOF => if c.off == |input| then [next] else []
      case MATCH => if RangeLow(arg) <= Look(input, c.off) <= RangeHigh(arg) then [next] else []
      case STEP => if c.off < |input| then [Conf(c.ip + 1, c.off + 1)] else []
  }

  /** Some run of exactly `n` steps from `c` to `d` records `es`. */
  ghost predicate Reach(code: Code, input: seq<byte>, n: nat, c: Conf, d: Conf, es: seq<Event>)
    decreases n
  {
    if n == 0 then c == d && es == []
    else
      var e := Emits(code, c);
      var rest := n - 1;
      && e <= es
      && exists k :: 0 <= k < |Succs(code, input, c)|
                     && Reach(code, input, rest, Succs(code, input, c)[k], d, es[|e|..])
  }

  lemma {:induction false} ReachConcat(code: Code, input: seq<byte>, n: nat, a: Conf, b: Conf, es: seq<Event>,
                                       m: nat, c: Conf, fs: seq<Event>)
    requires Reach(code, input, n, a, b, es) && Reach(code, input, m, b, c, fs)
    ensures Reach(code, input, n + m, a, c, es + fs)
    decreases n
  {
    hide Emits, Succs;
    if n == 0 {
      assert es + fs == fs;
    } else {
      var e := Emits(code, a);
      var k :| 0 <= k < |Succs(code, input, a)| && Reach(code, input, n - 1, Succs(code, input, a)[k], b, es[|e|..]);
      ReachConcat(code, input, n - 1, Succs(code, input, a)[k], b, es[|e|..], m, c, fs);
      assert (es + fs)[|e|..] == es[|e|..] + fs;
    }
  }

  lemma ReachOne(code: Code, input: seq<byte>, c: Conf, k: nat)
    requires k < |Succs(code, input, c)|
    ensures Reach(code, input, 1, c, Succs(code, input, c)[k], Emits(code, c))
  {
    hide Emits, Succs;
    var e := Emits(code, c);
    assert e[|e|..] == [];
    assert Reach(code, input, 0, Succs(code, input, c)[k], Succs(code, input, c)[k], e[|e|..]);
  }

  lemma ReachSnoc(code: Code, input: seq<byte>, n: nat, a: Conf, b: Conf, es: seq<Event>, k: nat)
    requires Reach(code, input, n, a, b, es) && k < |Succs(code, input, b)|
    ensures Reach(code, input, n + 1, a, Succs(code, input, b)[k], es + Emits(code, b))
  {
    hide *;
    ReachOne(code, input, b, k);
    ReachConcat(code, input, n, a, b, es, 1, Succs(code, input, b)[k], Emits(code, b));
  }

  lemma ReachCons(code: Code, input: seq<byte>, c: Conf, k: nat, n: nat, d: Conf, es: seq<Event>)
    requires k < |Succs(code, input, c)| && Reach(code, input, n, Succs(code, input, c)[k], d, es)
    ensures Reach(code, input, n + 1, c, d, Emits(code, c) + es)
  {
    hide *;
    ReachOne(code, input, c, k);
    ReachConcat(code, input, 1, c, Succs(code, input, c)[k], Emits(code, c), n, d, es);
  }

  /** The first step of a nonempty run. */
  lemma FirstStep(code: Code, input: seq<byte>, n: nat, c: Conf, d: Conf, es: seq<Event>) returns (c': Conf, rest: seq<Event>)
    requires Reach(code, input, n, c, d, es) && c != d
    ensures n > 0 && c' in Succs(code, input, c)
    ensures es == Emits(code, c) + rest && Reach(code, input, n - 1, c', d, rest)
  {
    hide Emits, Succs;
    var e := Emits(code, c);
    var k :| 0 <= k < |Succs(code, input, c)| && Reach(code, input, n - 1, Succs(code, input, c)[k], d, es[|e|..]);
    c', rest := Succs(code, input, c)[k], es[|e|..];
  }
}
