/** The predictive parser over a whole input and, with one byte of lookahead, over chunks. */
module LlParse {
  import opened Basics
  import opened ByteStream
  import opened Chunking
  import opened Grammar
  import opened StringMap
  import opened LlDriver

  // ----- with one byte of lookahead the driver is a machine

  /** What the driver keeps besides its input; None once the parse has failed. */
  datatype Control = Control(stack: seq<Entry>, vals: Option<Vals>)

  /** A row for k = 1: every entry is for one byte or for the end of the input. */
  ghost predicate OneByteRow(m: StringMap<seq<Symbol>>) {
    m.epsilon == None && forall b :: b in m.branches ==> m.branches[b].epsilon.Some?
  }

  ghost predicate OneByte(tab: Table) {
    forall id: nat :: id in tab ==> OneByteRow(tab[id])
  }

  /** A stream that shows no more than the next byte. */
  function Glimpse(at: nat, look: Look): Stream {
    match look
    case Byte(b) => Stream([b], at, 0, false, false)
    case EndOfInput => Stream([], at, 0, false, true)
    case Starved => Stream([], at, 0, false, false)
  }

  function LlReaction(g: Grammar, tab: Table, h: Hooks, c: Control, at: nat, look: Look): Reaction<Control> {
    if c.vals == None then React(c, false, false)
    else
      var (c', status) := Round(g, tab, h, LlConfig(c.stack, c.vals.value, Glimpse(at, look)));
      var next := Control(c'.stack, if status.NoParse? then None else Some(c'.vals));
      match status
      case Continue => React(next, c'.input.index == 1, true)
      case Complete => React(next, false, false)
      case NoParse => React(next, c'.input.index == 1, false)
      case OutOfInput => if look.Starved? then Wait else React(c, false, false)
  }

  function LlMachine(g: Grammar, tab: Table, h: Hooks): (Control, nat, Look) -> Reaction<Control> {
    (c, at: nat, look) => LlReaction(g, tab, h, c, at, look)
  }


  /** Such a row is decided by the next byte. */
  lemma RowLooksOneAhead(m: StringMap<seq<Symbol>>, input: Stream)
    requires OneByteRow(m) && ValidStream(input)
    ensures var seen := Glimpse(Position(input), LookOf(input));
      Lookahead(m, input.input[input.index..], input.lastChunk) == Lookahead(m, seen.input[seen.index..], seen.lastChunk)
  {
    var ahead := input.input[input.index..];
    if ahead != [] {
      assert ahead[1..] == input.input[input.index + 1..];
      assert [ahead[0]][0..] == [ahead[0]];
    }
  }

  function PointOf(c: LlConfig, status: Status): Point<Control> {
    Point(Control(c.stack, if status.NoParse? then None else Some(c.vals)), Position(c.input), status.Continue? || status.OutOfInput?)
  }

  /** The outcome of a round, apart from the stream itself. */
  function Outcome(c: LlConfig, r: (LlConfig, Status)): (seq<Entry>, Vals, Status, int) {
    (r.0.stack, r.0.vals, r.1, Position(r.0.input) - Position(c.input))
  }

  lemma SamePredict(tab: Table, id: nat, c: LlConfig, input: Stream)
    requires OneByte(tab) && ValidStream(c.input) && input == Glimpse(Position(c.input), LookOf(c.input)) && c.stack != []
    ensures var rest := c.(stack := c.stack[1..]);
      Outcome(c, Predict(tab, id, c, rest)) == Outcome(c, Predict(tab, id, c.(input := input), rest.(input := input)))
    ensures Predict(tab, id, c, c.(stack := c.stack[1..])).1 == OutOfInput ==> LookOf(c.input).Starved?
  {
    if id in tab {
      RowLooksOneAhead(tab[id], c.input);
    }
  }

  lemma SameMatch(g: Grammar, h: Hooks, x: Symbol, c: LlConfig, input: Stream)
    requires ValidStream(c.input) && input == Glimpse(Position(c.input), LookOf(c.input)) && c.stack != []
    ensures var rest := c.(stack := c.stack[1..]);
      Outcome(c, MatchByte(g, h, x, c, rest)) == Outcome(c, MatchByte(g, h, x, c.(input := input), rest.(input := input)))
    ensures MatchByte(g, h, x, c, c.(stack := c.stack[1..])).1 == OutOfInput ==> LookOf(c.input).Starved?
  {
    hide Finish, Matches;
  }

  /** A round on the whole stream does what a round does that sees the next byte only. */
  lemma SameRound(g: Grammar, tab: Table, h: Hooks, c: LlConfig)
    requires OneByte(tab) && ValidStream(c.input)
    ensures Outcome(c, Round(g, tab, h, c)) == Outcome(c, Round(g, tab, h, c.(input := Glimpse(Position(c.input), LookOf(c.input)))))
    ensures Round(g, tab, h, c).1 == OutOfInput ==> LookOf(c.input).Starved?
  {
    hide Finish, Predict, MatchByte, OneByte, Glimpse;
    if c.stack != [] && c.stack[0].Sym? {
      var x := c.stack[0].x;
      if x.Nt? {
        SamePredict(tab, x.id, c, Glimpse(Position(c.input), LookOf(c.input)));
      }
      SameMatch(g, h, x, c, Glimpse(Position(c.input), LookOf(c.input)));
    }
    GlimpsePosition(Position(c.input), LookOf(c.input));
  }

  lemma GlimpsePosition(at: nat, look: Look)
    ensures Position(Glimpse(at, look)) == at && ValidStream(Glimpse(at, look)) && LookOf(Glimpse(at, look)) == look
    ensures Glimpse(at, look).pos == at && Glimpse(at, look).index == 0
  {
  }

  lemma StarvedStays(g: Grammar, tab: Table, h: Hooks, c: LlConfig)
    requires Round(g, tab, h, c).1 == OutOfInput
    ensures Round(g, tab, h, c).0 == c.(input := Round(g, tab, h, c).0.input)
    ensures ValidStream(c.input) ==> Position(Round(g, tab, h, c).0.input) == Position(c.input)
  {
    hide Finish;
  }

  lemma RoundIsReaction(g: Grammar, tab: Table, h: Hooks, c: LlConfig)
    requires OneByte(tab) && ValidStream(c.input)
    ensures var (c', status) := Round(g, tab, h, c);
      var p := PointOf(c, Continue);
      var r := LlReaction(g, tab, h, p.ctrl, p.at, LookOf(c.input));
      if r.Wait? then status == OutOfInput && LookOf(c.input).Starved? && PointOf(c', status) == p
      else status != OutOfInput && Moved(p, r) == PointOf(c', status)
  {
    hide Round, OneByte, Glimpse;
    SameRound(g, tab, h, c);
    var (c', status) := Round(g, tab, h, c);
    if status == OutOfInput {
      StarvedStays(g, tab, h, c);
    }
    var seen := Glimpse(Position(c.input), LookOf(c.input));
    GlimpsePosition(Position(c.input), LookOf(c.input));
    RoundMoves(g, tab, h, c);
    RoundMoves(g, tab, h, c.(input := seen));
  }

  /** A round consumes at most one byte, and none at the end of its input or when it completes the parse. */
  lemma RoundMoves(g: Grammar, tab: Table, h: Hooks, c: LlConfig)
    requires ValidStream(c.input)
    ensures var (c', status) := Round(g, tab, h, c);
      && Position(c.input) <= Position(c'.input) <= Position(c.input) + 1
      && (status == Complete || !LookOf(c.input).Byte? ==> Position(c'.input) == Position(c.input))
      && c'.input.pos == c.input.pos
  {
    hide Finish, Matches;
  }

  lemma LlLooksOneAhead(g: Grammar, tab: Table, h: Hooks)
    requires OneByte(tab)
    ensures OneByteAhead(LlMachine(g, tab, h))
  {
    hide Round, OneByte;
    forall c: Control, at: nat, look: Look
      ensures LlReaction(g, tab, h, c, at, Starved).React? ==> LlReaction(g, tab, h, c, at, look) == LlReaction(g, tab, h, c, at, Starved)
      ensures !look.Starved? ==> LlReaction(g, tab, h, c, at, look).React?
      ensures !look.Byte? && LlReaction(g, tab, h, c, at, look).React? ==> !LlReaction(g, tab, h, c, at, look).consume
    {
      if c.vals.Some? {
        var blind, seen := LlConfig(c.stack, c.vals.value, Glimpse(at, Starved)), LlConfig(c.stack, c.vals.value, Glimpse(at, look));
        RoundMoves(g, tab, h, seen);
        if Round(g, tab, h, blind).1 != OutOfInput {
          BlindRound(g, tab, h, blind, seen.input);
        }
      }
    }
  }

  /** What a round does without its byte it does with any. */
  lemma BlindRound(g: Grammar, tab: Table, h: Hooks, c: LlConfig, input: Stream)
    requires OneByte(tab) && ValidStream(input) && input.index == 0 && c.input == Stream([], input.pos, 0, false, false)
    requires !input.overrun && Round(g, tab, h, c).1 != OutOfInput
    ensures var (c', status) := Round(g, tab, h, c);
      var (c'', status') := Round(g, tab, h, c.(input := input));
      status == status' && c'.stack == c''.stack && c'.vals == c''.vals && c'.input.index == c''.input.index == 0
  {
    hide Finish, Matches;
  }

  /** Several rounds are a run of the machine. */
  lemma {:induction false} RoundsAreRun(g: Grammar, tab: Table, h: Hooks, n: nat, c: LlConfig, text: seq<byte>)
    requires OneByte(tab) && ValidStream(c.input) && Shows(c.input, text)
    ensures var (c', status) := Rounds(g, tab, h, n, c);
      && Run(LlMachine(g, tab, h), text, c.input.lastChunk, n, PointOf(c, Continue)) == PointOf(c', status)
      && ValidStream(c'.input) && Shows(c'.input, text) && c'.input.lastChunk == c.input.lastChunk
      && (status == OutOfInput ==> !c.input.lastChunk && Position(c'.input) == |text|)
    decreases n
  {
    hide Round, OneByte, LlReaction;
    if n > 0 {
      var (c', status) := Round(g, tab, h, c);
      LookIsLookAt(c.input, text);
      RoundIsReaction(g, tab, h, c);
      RoundStream(g, tab, h, c);
      RoundMoves(g, tab, h, c);
      RoundValid(g, tab, h, c);
      if status == Continue {
        RoundsAreRun(g, tab, h, n - 1, c', text);
      }
    }
  }

  lemma RoundValid(g: Grammar, tab: Table, h: Hooks, c: LlConfig)
    requires ValidStream(c.input)
    ensures ValidStream(Round(g, tab, h, c).0.input)
  {
    hide Finish, Matches;
  }

  lemma HaltsInRounds(g: Grammar, tab: Table, h: Hooks, n: nat, c: LlConfig, text: seq<byte>)
    requires OneByte(tab) && ValidStream(c.input) && Shows(c.input, text)
    requires Halts(LlMachine(g, tab, h), text, c.input.lastChunk, n, PointOf(c, Continue))
    ensures !Rounds(g, tab, h, n + 1, c).1.Continue?
    ensures Run(LlMachine(g, tab, h), text, c.input.lastChunk, n, PointOf(c, Continue)) ==
      PointOf(Rounds(g, tab, h, n + 1, c).0, Rounds(g, tab, h, n + 1, c).1)
  {
    hide Round, OneByte, LlReaction, Rounds;
    RoundsAreRun(g, tab, h, n, c, text);
    RoundsAreRun(g, tab, h, n + 1, c, text);
    OneMoreRound(g, tab, h, n, c);
    EnoughRounds(LlMachine(g, tab, h), text, c.input.lastChunk, n, n + 1, PointOf(c, Continue));
    var (c', status) := Rounds(g, tab, h, n, c);
    if status == Continue {
      LookIsLookAt(c'.input, text);
      RoundIsReaction(g, tab, h, c');
    }
  }

  // ----- whole inputs and chunks

  function LlResult(p: Point<Control>): Option<Result> {
    if p.ctrl.vals.Some? && p.ctrl.vals.value != [] && p.ctrl.stack == []
    then Some(Result(p.ctrl.vals.value[0], p.at * 8))
    else None
  }

  function LlStart(start: nat): Point<Control> {
    Point(Control([Sym(Nt(start))], Some([])), 0, true)
  }

  function WholeInput(start: nat, input: seq<byte>): LlConfig {
    LlConfig([Sym(Nt(start))], [], Stream(input, 0, 0, false, true))
  }

  /** A parse of `text` that stopped: the value is that of a derivation of the part consumed. */
  ghost predicate ParsesPrefix(g: Grammar, start: nat, h: Hooks, text: seq<byte>, r: Result) {
    exists k: nat :: r.bitLength == 8 * k && k <= |text| && IsParse(g, start, h, text[..k], k == |text|, [r.ast])
  }

  /** The driver has read `text` and nothing else. */
  ghost predicate HasRead(d: Driver, input: Stream, text: seq<byte>)
    reads d
  {
    (input.lastChunk ==> Shows(input, text)) && (d.vals.Some? ==> d.text <= text)
  }

  ghost function PointOfDriver(d: Driver, input: Stream, running: bool): Point<Control>
    reads d
  {
    Point(Control(d.stack, d.vals), Position(input), running)
  }

  /** `llk_parse_finish_`. */
  method GetResult(d: Driver, ghost input: Stream, ghost text: seq<byte>, bitLength: nat) returns (r: Option<Result>)
    requires d.Valid(input) && HasRead(d, input, text) && (d.vals.Some? ==> d.stack == []) && bitLength == Position(input) * 8
    ensures r == LlResult(PointOfDriver(d, input, false))
    ensures r.Some? ==> ParsesPrefix(d.g, d.start, d.hooks, text, r.value)
  {
    hide Sound, Fits, IsParse;
    if d.vals == None {
      return None;
    }
    CompleteIsParse(d.g, d.start, d.hooks, d.Now(input), d.z, d.text, d.ends);
    ConsumedPart(d.g, d.start, d.hooks, d.Now(input), d.z, d.text, d.ends, text);
    assert d.vals.value == [d.vals.value[0]];
    r := Some(Result(d.vals.value[0], bitLength));
  }

  lemma ConsumedPart(g: Grammar, start: nat, h: Hooks, c: LlConfig, z: Zipper, read: seq<byte>, ends: nat, text: seq<byte>)
    requires Sound(g, start, h, c, z, read, ends) && (c.input.lastChunk ==> Shows(c.input, text)) && read <= text
    requires IsParse(g, start, h, read, c.input.overrun && c.input.lastChunk, c.vals)
    ensures Position(c.input) <= |text| && IsParse(g, start, h, text[..Position(c.input)], Position(c.input) == |text|, c.vals) && |c.vals| == 1
  {
    hide Spine, IsDerivation, Value, Yield;
    assert read == text[..Position(c.input)];
  }

  /** `h_llk_parse`, for any lookahead. */
  method Parse(g: Grammar, tab: Table, hooks: Hooks, start: nat, input: seq<byte>, ghost n: nat) returns (r: Option<Result>)
    requires Fits(g, start, tab) && !Rounds(g, tab, hooks, n, WholeInput(start, input)).1.Continue?
    ensures var (c, status) := Rounds(g, tab, hooks, n, WholeInput(start, input));
      r == LlResult(PointOf(c, status))
    ensures r.Some? ==> ParsesPrefix(g, start, hooks, input, r.value)
  {
    hide Sound, Fits, Rounds, ParsesPrefix;
    var stream := Stream(input, 0, 0, false, true);
    var d := new Driver(g, tab, hooks, start, stream);
    var status;
    stream, status := d.ParseChunk(stream, n);
    NotStarved(g, tab, hooks, n, WholeInput(start, input));
    DriverRead(d, stream, input);
    r := GetResult(d, stream, input, Position(stream) * 8);
  }

  lemma {:induction false} NotStarved(g: Grammar, tab: Table, h: Hooks, n: nat, c: LlConfig)
    requires c.input.lastChunk
    ensures Rounds(g, tab, h, n, c).1 != OutOfInput
  {
    hide Round;
    if n > 0 {
      LastNotStarved(g, tab, h, c);
      RoundStream(g, tab, h, c);
      NotStarved(g, tab, h, n - 1, Round(g, tab, h, c).0);
    }
  }

  lemma LastNotStarved(g: Grammar, tab: Table, h: Hooks, c: LlConfig)
    requires c.input.lastChunk
    ensures Round(g, tab, h, c).1 != OutOfInput
  {
    hide Finish, Matches;
    if c.stack != [] && c.stack[0].Sym? && c.stack[0].x.Nt? && c.stack[0].x.id in tab && c.input.index <= |c.input.input| {
      var k := LookaheadFinds(tab[c.stack[0].x.id], c.input.input[c.input.index..], true);
    }
  }

  lemma DriverRead(d: Driver, input: Stream, text: seq<byte>)
    requires d.Valid(input) && Shows(input, text) && input.pos == 0
    ensures HasRead(d, input, text)
  {
    hide Fits, Spine;
  }

  /** `h_llk_parse_chunk`: continue with the next chunk. */
  method ParseChunk(d: Driver, ghost prev: Stream, chunk: Stream, ghost text: seq<byte>, ghost n: nat) returns (stream: Stream, done: bool)
    requires d.Valid(prev) && d.vals.Some? && OneByte(d.tab) && !prev.lastChunk && d.text <= text
    requires chunk.pos == Position(prev) && chunk.index == 0 && !chunk.overrun && Shows(chunk, text)
    requires Halts(LlMachine(d.g, d.tab, d.hooks), text, chunk.lastChunk, n, PointOfDriver(d, chunk, true))
    modifies d
    ensures d.Valid(stream) && HasRead(d, stream, text) && stream.lastChunk == chunk.lastChunk
    ensures stream.pos == chunk.pos && stream.index <= |stream.input|
    ensures (done <==> d.vals == None || d.stack == []) && (chunk.lastChunk ==> done) && (!done ==> Position(stream) == |text|)
    ensures PointOfDriver(d, stream, !done) == Run(LlMachine(d.g, d.tab, d.hooks), text, chunk.lastChunk, n, old(PointOfDriver(d, chunk, true)))
  {
    hide Sound, Fits, Rounds, LlReaction, OneByte;
    SoundElsewhere(d, prev, chunk);
    ghost var c := d.Now(chunk);
    HaltsInRounds(d.g, d.tab, d.hooks, n, c, text);
    RoundsAreRun(d.g, d.tab, d.hooks, n + 1, c, text);
    var status;
    ghost var text0 := d.text;
    stream, status := d.ParseChunk(chunk, n + 1);
    if d.vals.Some? {
      TextRead(d, stream, text0, text);
    }
    done := d.vals == None || d.stack == [];
  }

  lemma SoundElsewhere(d: Driver, prev: Stream, chunk: Stream)
    requires d.Valid(prev) && d.vals.Some? && !prev.lastChunk
    requires chunk.pos == Position(prev) && chunk.index == 0 && !chunk.overrun
    ensures d.Valid(chunk) && |d.text| == chunk.pos
  {
    hide Fits, Spine, StackOf;
  }

  lemma TextRead(d: Driver, stream: Stream, text0: seq<byte>, text: seq<byte>)
    requires d.Valid(stream) && d.vals.Some? && text0 <= text && text0 <= d.text && |text0| == stream.pos && Shows(stream, text)
    ensures d.text <= text
  {
    hide Fits, Spine, StackOf;
    assert d.text == d.text[..stream.pos] + d.text[stream.pos..];
  }
}
