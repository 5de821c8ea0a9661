/** The stack machine that replays a trace: what each action does to the token stack.
    The top of the stack is the last element.  `None` stands for a failed assertion,
    or for an action that reports failure. */
module Svm {
  import opened Basics
  import opened RvmCode

  datatype EventOp = SVM_PUSH | SVM_NOP | SVM_ACTION | SVM_CAPTURE | SVM_ACCEPT

  datatype Event = Event(op: EventOp, arg: nat, pos: nat)

  /** Tokens above the topmost mark; the whole stack when there is no mark. */
  function CountToMark(s: seq<Token>): (n: nat)
    ensures n <= |s|
    ensures forall k :: |s| - n <= k < |s| ==> s[k].kind != TtMark
    ensures n < |s| ==> s[|s| - 1 - n].kind == TtMark
  {
    if s == [] || s[|s| - 1].kind == TtMark then 0
    else CountToMark(s[..|s| - 1]) + 1
  }

  /** Big-endian value of a byte string, wrapped to the width of `uint64_t`. */
  function BytesValue(bs: seq<byte>): (n: nat)
    ensures n < 0x1_0000_0000_0000_0000
    ensures |bs| == 1 ==> n == bs[0]
  {
    if bs == [] then 0
    else (BytesValue(bs[..|bs| - 1]) * 256 + bs[|bs| - 1]) % 0x1_0000_0000_0000_0000
  }

  function ApplyAction(a: Action, s: seq<Token>): Option<seq<Token>> {
    var n := CountToMark(s);
    match a
    case ClearToMark =>
      if n == |s| then None else Some(s[..|s| - 1 - n])
    case MakeSequence =>
      if n == |s| then None
      else Some(s[..|s| - 1 - n] + [Token(TtSequence(Somes(s[|s| - n..])), s[|s| - 1 - n].index)])
    case OptionalAction =>
      if s == [] then None
      else
        var top := s[|s| - 1];
        if top.kind == TtMark then Some(s[..|s| - 1] + [top.(kind := TtNone)])
        else if |s| == 1 || s[|s| - 2].kind != TtMark then None
        else Some(s[..|s| - 2] + [top])
    case ChAction(_) => ReplaceByValue(s)
    case CharsetAction(_) => ReplaceByValue(s)
  }

  function ReplaceByValue(s: seq<Token>): Option<seq<Token>> {
    if s == [] || !s[|s| - 1].kind.TtBytes? then None
    else Some(s[..|s| - 1] + [Token(TtUint(BytesValue(s[|s| - 1].kind.bytes)), s[|s| - 1].index)])
  }

  function ApplyEvent(acts: seq<Action>, input: seq<byte>, s: seq<Token>, e: Event): Option<seq<Token>> {
    match e.op
    case SVM_PUSH => Some(s + [Token(TtMark, e.pos)])
    case SVM_NOP => Some(s)
    case SVM_ACTION => if e.arg < |acts| then ApplyAction(acts[e.arg], s) else None
    case SVM_CAPTURE =>
      if s == [] || s[|s| - 1].kind != TtMark || !(s[|s| - 1].index <= e.pos <= |input|) then None
      else
        var top := s[|s| - 1];
        Some(s[..|s| - 1] + [Token(TtBytes(input[top.index..e.pos]), top.index)])
    case SVM_ACCEPT => Some(s)
  }

  function Replay(acts: seq<Action>, input: seq<byte>, s: seq<Token>, es: seq<Event>): Option<seq<Token>>
    decreases |es|
  {
    if es == [] then Some(s)
    else
      var r := ApplyEvent(acts, input, s, es[0]);
      if r == None then None else Replay(acts, input, r.value, es[1..])
  }

  lemma {:induction false} ReplayConcat(acts: seq<Action>, input: seq<byte>, s: seq<Token>, es: seq<Event>, fs: seq<Event>)
    ensures Replay(acts, input, s, es + fs) ==
      var r := Replay(acts, input, s, es);
      if r == None then None else Replay(acts, input, r.value, fs)
    decreases |es|
  {
    hide ApplyEvent;
    if es == [] {
      assert es + fs == fs;
    } else {
      assert (es + fs)[1..] == es[1..] + fs;
      var r := ApplyEvent(acts, input, s, es[0]);
      if r != None {
        ReplayConcat(acts, input, r.value, es[1..], fs);
      }
    }
  }

  ghost predicate MarkFree(s: seq<Token>) {
    forall k :: 0 <= k < |s| ==> s[k].kind != TtMark
  }

  /** Replaying `es` on any stack puts `toks` on top and leaves what was there alone. */
  ghost predicate Pushes(acts: seq<Action>, input: seq<byte>, es: seq<Event>, toks: seq<Token>) {
    && MarkFree(toks)
    && forall s :: Replay(acts, input, s, es) == Some(s + toks)
  }

  lemma PushesNothing(acts: seq<Action>, input: seq<byte>)
    ensures Pushes(acts, input, [], [])
  {
    forall s ensures Replay(acts, input, s, []) == Some(s + []) {
      assert s + [] == s;
    }
  }

  lemma {:induction false} PushesConcat(acts: seq<Action>, input: seq<byte>,
                                        es: seq<Event>, ts: seq<Token>, fs: seq<Event>, us: seq<Token>)
    requires Pushes(acts, input, es, ts) && Pushes(acts, input, fs, us)
    ensures Pushes(acts, input, es + fs, ts + us)
  {
    forall s ensures Replay(acts, input, s, es + fs) == Some(s + (ts + us)) {
      ReplayConcat(acts, input, s, es, fs);
      assert s + ts + us == s + (ts + us);
    }
  }

  /** A mark, what `es` pushes, and then one action on the result. */
  lemma {:induction false} FramedReplay(acts: seq<Action>, input: seq<byte>, s: seq<Token>,
                                        i: nat, es: seq<Event>, toks: seq<Token>, last: Event)
    requires Pushes(acts, input, es, toks)
    ensures Replay(acts, input, s, [Event(SVM_PUSH, 0, i)] + es + [last])
         == ApplyEvent(acts, input, s + [Token(TtMark, i)] + toks, last)
  {
    var push := [Event(SVM_PUSH, 0, i)];
    var marked := s + [Token(TtMark, i)];
    ReplayOne(acts, input, s, push[0]);
    ReplayConcat(acts, input, s, push + es, [last]);
    ReplayConcat(acts, input, s, push, es);
    ReplayOne(acts, input, marked + toks, last);
  }

  lemma ReplayOne(acts: seq<Action>, input: seq<byte>, s: seq<Token>, e: Event)
    ensures Replay(acts, input, s, [e]) == ApplyEvent(acts, input, s, e)
  {
    hide ApplyEvent;
    var r := ApplyEvent(acts, input, s, e);
    assert [e][1..] == [];
    if r != None {
      assert Replay(acts, input, r.value, []) == r;
    }
  }

  lemma CountFrame(s: seq<Token>, mark: Token, toks: seq<Token>)
    requires mark.kind == TtMark && MarkFree(toks)
    ensures CountToMark(s + [mark] + toks) == |toks|
  {
    var whole := s + [mark] + toks;
    assert whole[|s|] == mark;
    assert forall k :: 0 <= k < |toks| ==> whole[|s| + 1 + k] == toks[k];
  }

  lemma {:induction false} PushesSequence(acts: seq<Action>, input: seq<byte>, i: nat, es: seq<Event>, toks: seq<Token>, last: Event)
    requires Pushes(acts, input, es, toks)
    requires last.op == SVM_ACTION && last.arg < |acts| && acts[last.arg] == MakeSequence
    ensures Pushes(acts, input, [Event(SVM_PUSH, 0, i)] + es + [last], [Token(TtSequence(Somes(toks)), i)])
  {
    hide Replay;
    var mark := Token(TtMark, i);
    forall s ensures Replay(acts, input, s, [Event(SVM_PUSH, 0, i)] + es + [last])
                  == Some(s + [Token(TtSequence(Somes(toks)), i)])
    {
      FramedReplay(acts, input, s, i, es, toks, last);
      CountFrame(s, mark, toks);
      var whole := s + [mark] + toks;
      assert whole[..|whole| - 1 - |toks|] == s && whole[|whole| - |toks|..] == toks;
    }
  }

  lemma {:induction false} PushesCleared(acts: seq<Action>, input: seq<byte>, i: nat, es: seq<Event>, toks: seq<Token>, last: Event)
    requires Pushes(acts, input, es, toks)
    requires last.op == SVM_ACTION && last.arg < |acts| && acts[last.arg] == ClearToMark
    ensures Pushes(acts, input, [Event(SVM_PUSH, 0, i)] + es + [last], [])
  {
    hide Replay;
    var mark := Token(TtMark, i);
    forall s ensures Replay(acts, input, s, [Event(SVM_PUSH, 0, i)] + es + [last]) == Some(s + []) {
      FramedReplay(acts, input, s, i, es, toks, last);
      CountFrame(s, mark, toks);
      var whole := s + [mark] + toks;
      assert whole[..|whole| - 1 - |toks|] == s;
      assert s + [] == s;
    }
  }

  lemma {:induction false} PushesOptional(acts: seq<Action>, input: seq<byte>, i: nat, es: seq<Event>, t: Option<Token>, last: Event)
    requires Pushes(acts, input, es, Toks(t))
    requires last.op == SVM_ACTION && last.arg < |acts| && acts[last.arg] == OptionalAction
    ensures Pushes(acts, input, [Event(SVM_PUSH, 0, i)] + es + [last],
                   [if t.Some? then t.value else Token(TtNone, i)])
  {
    hide Replay;
    var mark := Token(TtMark, i);
    var res := if t.Some? then t.value else Token(TtNone, i);
    assert t.Some? ==> Toks(t)[0].kind != TtMark;
    forall s ensures Replay(acts, input, s, [Event(SVM_PUSH, 0, i)] + es + [last]) == Some(s + [res]) {
      FramedReplay(acts, input, s, i, es, Toks(t), last);
      var whole := s + [mark] + Toks(t);
      if t.Some? {
        assert whole[|whole| - 2] == mark && whole[..|whole| - 2] == s;
      } else {
        assert whole == s + [mark] && whole[..|whole| - 1] == s;
      }
    }
  }

  /** Mark, capture: the bytes between the two positions. */
  lemma {:induction false} PushesCapture(acts: seq<Action>, input: seq<byte>, i: nat, j: nat)
    requires i <= j <= |input|
    ensures Pushes(acts, input, [Event(SVM_PUSH, 0, i), Event(SVM_CAPTURE, 0, j)], [Token(TtBytes(input[i..j]), i)])
  {
    hide Replay;
    PushesNothing(acts, input);
    forall s ensures Replay(acts, input, s, [Event(SVM_PUSH, 0, i), Event(SVM_CAPTURE, 0, j)])
                  == Some(s + [Token(TtBytes(input[i..j]), i)])
    {
      var push, last := Event(SVM_PUSH, 0, i), Event(SVM_CAPTURE, 0, j);
      FramedReplay(acts, input, s, i, [], [], last);
      assert [push] + [] + [last] == [push, last];
      var whole := s + [Token(TtMark, i)] + [];
      assert whole == s + [Token(TtMark, i)] && whole[..|whole| - 1] == s;
    }
  }

  lemma {:induction false} PushesChar(acts: seq<Action>, input: seq<byte>, i: nat, last: Event)
    requires i < |input|
    requires last.op == SVM_ACTION && last.arg < |acts|
    requires acts[last.arg].ChAction? || acts[last.arg].CharsetAction?
    ensures Pushes(acts, input, [Event(SVM_PUSH, 0, i), Event(SVM_CAPTURE, 0, i + 1), last], [Token(TtUint(input[i]), i)])
  {
    hide Replay;
    PushesCapture(acts, input, i, i + 1);
    var es := [Event(SVM_PUSH, 0, i), Event(SVM_CAPTURE, 0, i + 1)];
    var bytes := Token(TtBytes(input[i..i + 1]), i);
    forall s ensures Replay(acts, input, s, es + [last]) == Some(s + [Token(TtUint(input[i]), i)]) {
      ReplayConcat(acts, input, s, es, [last]);
      ReplayOne(acts, input, s + [bytes], last);
      assert (s + [bytes])[..|s|] == s;
      assert input[i..i + 1] == [input[i]];
    }
    assert es + [last] == [Event(SVM_PUSH, 0, i), Event(SVM_CAPTURE, 0, i + 1), last];
  }
}
