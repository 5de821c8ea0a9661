/** Parsers that look at most one byte ahead, and the effect of cutting their input into chunks. */
module Chunking {
  import opened Basics
  import opened ByteStream

  /** What the next byte is: present, past the end of the input, or not delivered yet. */
  datatype Look = Byte(b: byte) | EndOfInput | Starved

  /** Wait for input, or go on with a new control state, possibly past the byte looked at. */
  datatype Reaction<C> = Wait | React(next: C, consume: bool, run: bool)

  datatype Point<C> = Point(ctrl: C, at: nat, running: bool)

  function LookAt(text: seq<byte>, at: nat, final: bool): Look {
    if at < |text| then Byte(text[at]) else if final then EndOfInput else Starved
  }

  /** The next byte of a stream. */
  function LookOf(input: Stream): Look {
    if input.index < |input.input| then Byte(input.input[input.index])
    else if input.lastChunk then EndOfInput
    else Starved
  }

  /** `text` is what has been delivered so far; the stream shows the end of it. */
  ghost predicate Shows(input: Stream, text: seq<byte>) {
    input.pos + |input.input| == |text| && input.input == text[input.pos..]
  }

  lemma LookIsLookAt(input: Stream, text: seq<byte>)
    requires ValidStream(input) && Shows(input, text)
    ensures LookOf(input) == LookAt(text, Position(input), input.lastChunk)
  {
  }

  /** Only a missing byte makes the parser wait; what it does without the byte it would do with any;
      and it goes past bytes only. */
  ghost predicate OneByteAhead<C(!new)>(step: (C, nat, Look) -> Reaction<C>) {
    && (forall c, at, look :: step(c, at, Starved).React? ==> step(c, at, look) == step(c, at, Starved))
    && (forall c, at, look: Look :: !look.Starved? ==> step(c, at, look).React?)
    && (forall c, at, look: Look :: !look.Byte? && step(c, at, look).React? ==> !step(c, at, look).consume)
  }

  function Moved<C>(p: Point<C>, r: Reaction<C>): Point<C>
    requires r.React?
  {
    Point(r.next, if r.consume then p.at + 1 else p.at, r.run)
  }

  /** At most `n` rounds on the bytes delivered so far. */
  function Run<C>(step: (C, nat, Look) -> Reaction<C>, text: seq<byte>, final: bool, n: nat, p: Point<C>): Point<C>
    decreases n
  {
    if n == 0 || !p.running then p
    else
      var r := step(p.ctrl, p.at, LookAt(text, p.at, final));
      if r.Wait? then p else Run(step, text, final, n - 1, Moved(p, r))
  }

  ghost predicate Settled<C>(step: (C, nat, Look) -> Reaction<C>, text: seq<byte>, final: bool, p: Point<C>) {
    !p.running || step(p.ctrl, p.at, LookAt(text, p.at, final)).Wait?
  }

  /** The parser stops or asks for more within `n` rounds. */
  ghost predicate Halts<C>(step: (C, nat, Look) -> Reaction<C>, text: seq<byte>, final: bool, n: nat, p: Point<C>) {
    Settled(step, text, final, Run(step, text, final, n, p))
  }

  lemma {:induction false} RunOn<C>(step: (C, nat, Look) -> Reaction<C>, text: seq<byte>, final: bool, m: nat, n: nat, p: Point<C>)
    ensures Run(step, text, final, m + n, p) == Run(step, text, final, n, Run(step, text, final, m, p))
    decreases m
  {
    if m > 0 && p.running {
      var r := step(p.ctrl, p.at, LookAt(text, p.at, final));
      if r.React? {
        RunOn(step, text, final, m - 1, n, Moved(p, r));
      }
    }
  }

  /** A settled parser does not move, so only enough rounds matter, not how many. */
  lemma EnoughRounds<C>(step: (C, nat, Look) -> Reaction<C>, text: seq<byte>, final: bool, m: nat, n: nat, p: Point<C>)
    requires Halts(step, text, final, m, p) && m <= n
    ensures Run(step, text, final, n, p) == Run(step, text, final, m, p)
  {
    RunOn(step, text, final, m, n - m, p);
  }

  lemma Parked<C>(step: (C, nat, Look) -> Reaction<C>, text: seq<byte>, final: bool, n: nat, p: Point<C>)
    requires !p.running
    ensures Run(step, text, final, n, p) == p
  {
  }

  /** One more round of a run that has not stopped. */
  lemma OneMore<C>(step: (C, nat, Look) -> Reaction<C>, text: seq<byte>, final: bool, i: nat, p: Point<C>)
    ensures Run(step, text, final, 0, p) == p
    ensures var q := Run(step, text, final, i, p);
      var r := step(q.ctrl, q.at, LookAt(text, q.at, final));
      q.running && r.React? ==> Run(step, text, final, i + 1, p) == Moved(q, r)
  {
    RunOn(step, text, final, i, 1, p);
    var q := Run(step, text, final, i, p);
    var r := step(q.ctrl, q.at, LookAt(text, q.at, final));
    if q.running && r.React? {
      assert Run(step, text, final, 0, Moved(q, r)) == Moved(q, r);
    }
  }

  lemma {:induction false} StaysInside<C(!new)>(step: (C, nat, Look) -> Reaction<C>, text: seq<byte>, final: bool, n: nat, p: Point<C>)
    requires OneByteAhead(step) && p.at <= |text|
    ensures p.at <= Run(step, text, final, n, p).at <= |text|
    decreases n
  {
    if n > 0 && p.running {
      var look := LookAt(text, p.at, final);
      var r := step(p.ctrl, p.at, look);
      if r.React? {
        assert look.Byte? || !r.consume;
        StaysInside(step, text, final, n - 1, Moved(p, r));
      }
    }
  }

  /** A run on a part of the input is the beginning of the run on all of it. */
  lemma {:induction false} RunOnPrefix<C(!new)>(step: (C, nat, Look) -> Reaction<C>, text: seq<byte>, more: seq<byte>, final: bool, n: nat, p: Point<C>)
    returns (m: nat)
    requires OneByteAhead(step)
    ensures m <= n && Run(step, text, false, n, p) == Run(step, text + more, final, m, p)
    ensures m == n || Settled(step, text, false, Run(step, text, false, n, p))
    decreases n
  {
    if n == 0 || !p.running {
      m := 0;
    } else {
      var look, more' := LookAt(text, p.at, false), LookAt(text + more, p.at, final);
      var r := step(p.ctrl, p.at, look);
      if r.Wait? {
        m := 0;
      } else {
        assert step(p.ctrl, p.at, more') == r;
        var m' := RunOnPrefix(step, text, more, final, n - 1, Moved(p, r));
        m := m' + 1;
      }
    }
  }

  /** So it settles when the whole run does, and the whole run continues from there. */
  lemma RunInTwo<C(!new)>(step: (C, nat, Look) -> Reaction<C>, text: seq<byte>, more: seq<byte>, final: bool, n: nat, p: Point<C>)
    requires OneByteAhead(step) && Halts(step, text + more, final, n, p)
    ensures Halts(step, text, false, n, p)
    ensures Halts(step, text + more, final, n, Run(step, text, false, n, p))
    ensures Run(step, text + more, final, n, Run(step, text, false, n, p)) == Run(step, text + more, final, n, p)
  {
    var all := text + more;
    var m := RunOnPrefix(step, text, more, final, n, p);
    var mid := Run(step, text, false, n, p);
    RunOn(step, all, final, m, n - m, p);
    EnoughRounds(step, all, final, n - m, n, mid);
    if m == n {
      assert Settled(step, all, final, mid);
      var look, more' := LookAt(text, mid.at, false), LookAt(all, mid.at, final);
      assert mid.running ==> step(mid.ctrl, mid.at, more').Wait?;
    }
  }

  function Flatten(chunks: seq<seq<byte>>): seq<byte> {
    if chunks == [] then [] else Flatten(chunks[..|chunks| - 1]) + chunks[|chunks| - 1]
  }

  lemma FlattenSnoc(chunks: seq<seq<byte>>, chunk: seq<byte>)
    ensures Flatten(chunks + [chunk]) == Flatten(chunks) + chunk
  {
    assert (chunks + [chunk])[..|chunks|] == chunks;
  }

  /** Where the parser is after some chunks, none of them known to be the last. */
  function Fed<C>(step: (C, nat, Look) -> Reaction<C>, chunks: seq<seq<byte>>, n: nat, p: Point<C>): Point<C>
    decreases |chunks|
  {
    if chunks == [] then p
    else Run(step, Flatten(chunks), false, n, Fed(step, chunks[..|chunks| - 1], n, p))
  }

  lemma FedSnoc<C>(step: (C, nat, Look) -> Reaction<C>, chunks: seq<seq<byte>>, chunk: seq<byte>, n: nat, p: Point<C>)
    ensures Fed(step, chunks + [chunk], n, p) == Run(step, Flatten(chunks) + chunk, false, n, Fed(step, chunks, n, p))
  {
    assert (chunks + [chunk])[..|chunks|] == chunks;
    FlattenSnoc(chunks, chunk);
  }

  /** However a beginning of the input is cut, after its chunks the parser is on the way of the run over the whole. */
  lemma {:induction false} FedIsOnTheWay<C(!new)>(step: (C, nat, Look) -> Reaction<C>, chunks: seq<seq<byte>>, more: seq<byte>, n: nat, p: Point<C>)
    requires OneByteAhead(step) && Halts(step, Flatten(chunks) + more, true, n, p)
    ensures var all, q := Flatten(chunks) + more, Fed(step, chunks, n, p);
      Run(step, all, true, n, q) == Run(step, all, true, n, p) && Halts(step, all, true, n, q)
    decreases |chunks|
  {
    hide Run, OneByteAhead;
    if chunks != [] {
      var init, last := chunks[..|chunks| - 1], chunks[|chunks| - 1];
      assert Flatten(chunks) + more == Flatten(init) + (last + more);
      FedIsOnTheWay(step, init, last + more, n, p);
      RunInTwo(step, Flatten(chunks), more, true, n, Fed(step, init, n, p));
    }
  }

  /** Every stage of feeding chunks settles, when the run over the whole input does. */
  lemma EveryChunkSettles<C(!new)>(step: (C, nat, Look) -> Reaction<C>, chunks: seq<seq<byte>>, k: nat, n: nat, p: Point<C>)
    requires OneByteAhead(step) && Halts(step, Flatten(chunks), true, n, p) && k < |chunks|
    ensures Halts(step, Flatten(chunks[..k + 1]), false, n, Fed(step, chunks[..k], n, p))
  {
    hide Run, OneByteAhead;
    var more := FlattenSplit(chunks, k + 1);
    assert chunks[..k + 1] == chunks[..k] + [chunks[k]];
    FlattenSnoc(chunks[..k], chunks[k]);
    assert Flatten(chunks) == Flatten(chunks[..k]) + (chunks[k] + more);
    FedIsOnTheWay(step, chunks[..k], chunks[k] + more, n, p);
    RunInTwo(step, Flatten(chunks[..k + 1]), more, true, n, Fed(step, chunks[..k], n, p));
  }

  lemma {:induction false} FlattenSplit(chunks: seq<seq<byte>>, k: nat) returns (more: seq<byte>)
    requires k <= |chunks|
    ensures Flatten(chunks) == Flatten(chunks[..k]) + more
    decreases |chunks|
  {
    if k == |chunks| {
      assert chunks[..k] == chunks;
      more := [];
    } else {
      var init := chunks[..|chunks| - 1];
      var more' := FlattenSplit(init, k);
      assert init[..k] == chunks[..k];
      more := more' + chunks[|chunks| - 1];
    }
  }
}
