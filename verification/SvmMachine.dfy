/** The stack machine as it runs: a growable token stack that the actions edit in place. */
module SvmMachine {
  import opened Basics
  import opened RvmCode
  import opened Svm

  /** The result of a parse: the token left on the stack, if any, and the bits consumed. */
  datatype ParseResult = ParseResult(ast: Option<Token>, bitLength: nat)

  /** A trace, newest node first while parsing and oldest first after inversion. */
  datatype Trace = Empty | Node(event: Event, next: Trace)

  function Events(t: Trace): seq<Event> {
    if t.Empty? then [] else [t.event] + Events(t.next)
  }

  function Reversed(s: seq<Event>): seq<Event> {
    if s == [] then [] else Reversed(s[1..]) + [s[0]]
  }

  lemma {:induction false} ReversedConcat(s: seq<Event>, t: seq<Event>)
    ensures Reversed(s + t) == Reversed(t) + Reversed(s)
  {
    if s == [] {
      assert s + t == t;
    } else {
      ReversedConcat(s[1..], t);
      assert (s + t)[1..] == s[1..] + t;
    }
  }

  method InvertTrace(trace: Trace) returns (r: Trace)
    ensures Events(r) == Reversed(Events(trace))
  {
    if trace.Empty? || trace.next.Empty? {
      return trace;
    }
    var last, rest := Empty, trace;
    while !rest.Empty?
      invariant Reversed(Events(trace)) == Reversed(Events(rest)) + Events(last)
      decreases rest
    {
      last, rest := Node(rest.event, last), rest.next;
    }
    r := last;
  }

  /** What a replay from stack `s` returns: it ends at the first ACCEPT. */
  function RunSpec(acts: seq<Action>, input: seq<byte>, s: seq<Token>, es: seq<Event>): Option<ParseResult>
    decreases |es|
  {
    if es == [] then None
    else if es[0].op == SVM_ACCEPT then
      if |s| <= 1 then Some(ParseResult(if |s| == 1 then Some(s[0]) else None, es[0].pos * 8)) else None
    else
      var r := ApplyEvent(acts, input, s, es[0]);
      if r == None then None else RunSpec(acts, input, r.value, es[1..])
  }

  /** A trace that ends in its only ACCEPT returns what replaying the rest leaves behind. */
  lemma {:induction false} RunSpecOfReplay(acts: seq<Action>, input: seq<byte>, s: seq<Token>, es: seq<Event>, pos: nat, t: Option<Token>)
    requires forall k :: 0 <= k < |es| ==> es[k].op != SVM_ACCEPT
    requires Replay(acts, input, s, es) == Some(Toks(t))
    ensures RunSpec(acts, input, s, es + [Event(SVM_ACCEPT, 0, pos)]) == Some(ParseResult(t, pos * 8))
    decreases |es|
  {
    hide ApplyEvent;
    var all := es + [Event(SVM_ACCEPT, 0, pos)];
    if es != [] {
      assert all[0] == es[0] && all[1..] == es[1..] + [Event(SVM_ACCEPT, 0, pos)];
      RunSpecOfReplay(acts, input, ApplyEvent(acts, input, s, es[0]).value, es[1..], pos, t);
    }
  }

  class SvmContext {
    var stack: array<Token>
    var count: nat

    constructor ()
      ensures Valid() && Contents() == [] && fresh(this) && fresh(stack)
    {
      stack, count := new Token[16](_ => Token(TtNone, 0)), 0;
    }

    ghost predicate Valid()
      reads this
    {
      count < stack.Length
    }

    ghost function Contents(): seq<Token>
      requires Valid()
      reads this, stack
    {
      stack[..count]
    }

    /** Room for `addl` more tokens; the capacity doubles at most once. */
    method EnsureCap(addl: nat)
      requires Valid() && addl <= 1
      modifies this
      ensures Valid() && count + addl < stack.Length && count == old(count)
      ensures stack == old(stack) || fresh(stack)
      ensures Contents() == old(Contents())
    {
      if count + addl >= stack.Length {
        var bigger := new Token[stack.Length * 2](_ => Token(TtNone, 0));
        forall k | 0 <= k < count {
          bigger[k] := stack[k];
        }
        stack := bigger;
      }
    }

    method PushMark(pos: nat)
      requires Valid()
      modifies this, stack
      ensures Valid() && (stack == old(stack) || fresh(stack))
      ensures Contents() == old(Contents()) + [Token(TtMark, pos)]
    {
      EnsureCap(1);
      stack[count] := Token(TtMark, pos);
      count := count + 1;
    }

    method Capture(input: seq<byte>, pos: nat) returns (ok: bool)
      requires Valid()
      modifies stack
      ensures Valid()
      ensures var r := ApplyEvent([], input, old(Contents()), Event(SVM_CAPTURE, 0, pos));
              ok == r.Some? && (ok ==> Contents() == r.value)
    {
      if count == 0 || stack[count - 1].kind != TtMark {
        return false;
      }
      var top := stack[count - 1];
      if !(top.index <= pos <= |input|) {
        return false;
      }
      stack[count - 1] := Token(TtBytes(input[top.index..pos]), top.index);
      ok := true;
    }

    method CountToMarkLoop() returns (ctm: nat)
      requires Valid()
      ensures ctm == CountToMark(Contents())
    {
      ctm := 0;
      while ctm < count
        invariant ctm <= count
        invariant CountToMark(Contents()) == ctm + CountToMark(stack[..count - ctm])
      {
        var s := stack[..count - ctm];
        if stack[count - 1 - ctm].kind == TtMark {
          assert s[|s| - 1] == stack[count - 1 - ctm];
          return;
        }
        assert s[..|s| - 1] == stack[..count - (ctm + 1)];
        ctm := ctm + 1;
      }
      return count;
    }

    method DoMakeSequence() returns (ok: bool)
      requires Valid()
      modifies this`count, stack
      ensures Valid()
      ensures var r := ApplyAction(MakeSequence, old(Contents()));
              ok == r.Some? && (ok ==> Contents() == r.value)
    {
      var n := CountToMarkLoop();
      if n == count {
        return false;
      }
      var elems: seq<Option<Token>> := [];
      for i := 0 to n
        invariant elems == Somes(stack[count - n..count - n + i])
      {
        elems := elems + [Some(stack[count - n + i])];
      }
      var mark := count - 1 - n;
      ghost var s := Contents();
      assert elems == Somes(s[|s| - n..]) by {
        assert stack[count - n..count] == s[|s| - n..];
      }
      stack[mark] := Token(TtSequence(elems), stack[mark].index);
      count := count - n;
      assert Contents() == s[..mark] + [Token(TtSequence(elems), s[mark].index)];
      ok := true;
    }

    method DoClearToMark() returns (ok: bool)
      requires Valid()
      modifies this`count
      ensures Valid()
      ensures var r := ApplyAction(ClearToMark, old(Contents()));
              ok == r.Some? && (ok ==> Contents() == r.value)
    {
      ghost var s := Contents();
      while count > 0
        invariant Valid() && count <= |s| && Contents() == s[..count]
        invariant CountToMark(s) == |s| - count + CountToMark(s[..count])
      {
        count := count - 1;
        ghost var t := s[..count + 1];
        assert t[..|t| - 1] == s[..count] && t[|t| - 1] == s[count];
        if stack[count].kind == TtMark {
          return true;
        }
      }
      ok := false;
    }

    method DoOptional() returns (ok: bool)
      requires Valid()
      modifies this`count, stack
      ensures Valid()
      ensures var r := ApplyAction(OptionalAction, old(Contents()));
              ok == r.Some? && (ok ==> Contents() == r.value)
    {
      if count == 0 {
        return false;
      }
      if stack[count - 1].kind == TtMark {
        stack[count - 1] := stack[count - 1].(kind := TtNone);
      } else {
        if count == 1 || stack[count - 2].kind != TtMark {
          return false;
        }
        count := count - 1;
        stack[count - 1] := stack[count];
      }
      ok := true;
    }

    /** The big-endian value of the bytes on top replaces them. */
    method DoChar() returns (ok: bool)
      requires Valid()
      modifies stack
      ensures Valid()
      ensures var r := ReplaceByValue(old(Contents()));
              ok == r.Some? && (ok ==> Contents() == r.value)
    {
      if count == 0 || !stack[count - 1].kind.TtBytes? {
        return false;
      }
      var bytes := stack[count - 1].kind.bytes;
      var res: nat := 0;
      for i := 0 to |bytes|
        invariant res == BytesValue(bytes[..i])
      {
        assert bytes[..i + 1][..i] == bytes[..i];
        res := (res * 256 + bytes[i]) % 0x1_0000_0000_0000_0000;
      }
      assert bytes[..|bytes|] == bytes;
      stack[count - 1] := Token(TtUint(res), stack[count - 1].index);
      ok := true;
    }

    method Act(a: Action) returns (ok: bool)
      requires Valid()
      modifies this`count, stack
      ensures Valid()
      ensures var r := ApplyAction(a, old(Contents()));
              ok == r.Some? && (ok ==> Contents() == r.value)
    {
      match a
      case ClearToMark => ok := DoClearToMark();
      case MakeSequence => ok := DoMakeSequence();
      case OptionalAction => ok := DoOptional();
      case ChAction(_) => ok := DoChar();
      case CharsetAction(_) => ok := DoChar();
    }
  }

  /** A failed assertion aborts the original; here it ends the replay without a result. */
  method RunTrace(acts: seq<Action>, input: seq<byte>, trace: Trace) returns (r: Option<ParseResult>)
    ensures r == RunSpec(acts, input, [], Events(trace))
  {
    hide ApplyAction;
    var ctx := new SvmContext();
    var cur := trace;
    while !cur.Empty?
      invariant ctx.Valid() && fresh(ctx) && fresh(ctx.stack)
      invariant RunSpec(acts, input, [], Events(trace)) == RunSpec(acts, input, ctx.Contents(), Events(cur))
      decreases cur
    {
      var e := cur.event;
      var ok := true;
      match e.op {
        case SVM_PUSH => ctx.PushMark(e.pos);
        case SVM_NOP =>
        case SVM_ACTION =>
          if e.arg >= |acts| {
            return None;
          }
          ok := ctx.Act(acts[e.arg]);
        case SVM_CAPTURE => ok := ctx.Capture(input, e.pos);
        case SVM_ACCEPT =>
          if ctx.count > 1 {
            return None;
          }
          return Some(ParseResult(if ctx.count == 1 then Some(ctx.stack[0]) else None, e.pos * 8));
      }
      if !ok {
        return None;
      }
      cur := cur.next;
    }
    r := None;
  }
}
