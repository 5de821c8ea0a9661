/** Driving the shift/reduce engine over a whole input and over chunks. */
module LrParse {
  import opened Basics
  import opened ByteStream
  import opened Chunking
  import opened Grammar
  import opened LrTable
  import opened LrEngine

  /** What the engine keeps besides its input. */
  datatype Control = Control(state: Target, stack: seq<Frame>)

  /** One round of the engine at position `at` of the input. */
  function LrReaction(rows: Rows, h: Hooks, c: Control, at: nat, look: Look): Reaction<Control> {
    if !c.state.State? || c.state.n >= |rows.forAll| || c.state.n >= |rows.tmap| then React(c, false, false)
    else if rows.forAll[c.state.n].Some? then
      // a shift would have to look at the input
      if rows.forAll[c.state.n].value.Shift? then React(c, false, false)
      else Execute(rows, h, c, at, look, rows.forAll[c.state.n])
    else
      match look
      case Starved => Wait
      case Byte(b) => Execute(rows, h, c, at, look, Get(rows.tmap[c.state.n], Char(b)))
      case EndOfInput => Execute(rows, h, c, at, look, Get(rows.tmap[c.state.n], End))
  }

  function Execute(rows: Rows, h: Hooks, c: Control, at: nat, look: Look, action: Option<Action>): (r: Reaction<Control>)
    ensures r.React?
  {
    match action
    case None => React(c, false, false)
    case Some(Conflict(_)) => React(c, false, false)
    case Some(Shift(next)) =>
      var value := if look.Byte? then Some(Token(TtUint(look.b), at)) else None;
      React(Control(next, c.stack + [Frame(c.state, value)]), look.Byte?, true)
    case Some(Reduce(lhs, rhs)) =>
      var (c', run) := ReduceSpec(rows, h, Config(c.state, c.stack, Stream([], at, 0, false, true)), lhs, rhs);
      React(Control(c'.state, c'.stack), false, run)
  }

  function LrMachine(rows: Rows, h: Hooks): (Control, nat, Look) -> Reaction<Control> {
    (c, at: nat, look) => LrReaction(rows, h, c, at, look)
  }

  /** Reductions for any lookahead leave the input alone, and everything else waits for its byte. */
  lemma LrLooksOneAhead(rows: Rows, h: Hooks)
    ensures OneByteAhead(LrMachine(rows, h))
  {
    hide ReduceSpec;
  }

  function ControlOf(c: Config): Control {
    Control(c.state, c.stack)
  }

  function PointOf(c: Config, run: bool): Point<Control> {
    Point(ControlOf(c), Position(c.input), run)
  }

  /** A reduction depends on the position only, and leaves the input alone. */
  lemma ReduceAtPosition(rows: Rows, h: Hooks, c: Config, input: Stream, lhs: nat, rhs: seq<Symbol>)
    requires Position(input) == Position(c.input)
    ensures ReduceSpec(rows, h, c, lhs, rhs).0.input == c.input
    ensures ControlOf(ReduceSpec(rows, h, c, lhs, rhs).0) == ControlOf(ReduceSpec(rows, h, c.(input := input), lhs, rhs).0)
    ensures ReduceSpec(rows, h, c, lhs, rhs).1 == ReduceSpec(rows, h, c.(input := input), lhs, rhs).1
  {
    hide Finish;
  }

  /** The engine's round on its stream is a round of the machine. */
  lemma StepIsReaction(start: nat, rows: Rows, h: Hooks, c: Config, action: Option<Action>)
    requires ValidStream(c.input) && c.state.State? && c.state.n < |rows.forAll| && c.state.n < |rows.tmap|
    requires rows.forAll[c.state.n].Some? ==> rows.forAll[c.state.n].value.Reduce?
    requires c.input.overrun ==> c.input.lastChunk
    requires TerminalLookup(rows, c.state.n, c.input) == Found(action)
    ensures var r := LrReaction(rows, h, ControlOf(c), Position(c.input), LookOf(c.input));
      var (c', run) := StepSpec(rows, h, c, action);
      r.React? && PointOf(c', run) == Moved(PointOf(c, true), r)
  {
    hide ReduceSpec;
    if action.Some? && action.value.Reduce? {
      ReduceAtPosition(rows, h, c, Stream([], Position(c.input), 0, false, true), action.value.lhs, action.value.rhs);
    }
  }

  /** In a fit table a reduction for any lookahead is a reduction. */
  lemma ForAllReduces(e: Engine)
    requires e.Valid() && !e.rejected && e.state.State?
    ensures e.state.n < |e.rows.forAll| == |e.rows.tmap|
    ensures e.rows.forAll[e.state.n].Some? ==> e.rows.forAll[e.state.n].value.Reduce?
  {
    hide Sound, LrAutomaton.IsDfa, ShiftsOk;
    InRange(e.g, e.start, e.dfa, e.rows, e.hooks, e.Now(), e.hist);
    assert RowOk(e.start, e.dfa, e.rows, e.state.n);
  }

  /** A lookup that needs input is a waiting machine, at the end of what was delivered. */
  lemma WaitIsSettled(e: Engine, text: seq<byte>)
    requires ValidStream(e.input) && Shows(e.input, text) && e.state.State? && e.state.n < |e.rows.forAll| == |e.rows.tmap|
    requires TerminalLookup(e.rows, e.state.n, e.input).NeedInput?
    ensures Settled(LrMachine(e.rows, e.hooks), text, e.input.lastChunk, PointOf(e.Now(), true))
    ensures !e.input.lastChunk && Position(e.input) == |text|
  {
  }

  /** Run the engine until it stops or needs input that its chunk does not have.  `n` bounds the rounds; such
      a bound exists for every run that ends, and a table may well let the engine run for ever. */
  method Drive(e: Engine, ghost text: seq<byte>, ghost n: nat) returns (run: bool)
    requires e.Valid() && !e.rejected && e.state.State? && Shows(e.input, text)
    requires Halts(LrMachine(e.rows, e.hooks), text, e.input.lastChunk, n, PointOf(e.Now(), true))
    modifies e
    ensures e.Valid() && (run ==> !e.rejected && e.state.State?)
    ensures Shows(e.input, text) && e.input.lastChunk == old(e.input).lastChunk && e.input.pos == old(e.input).pos
    ensures PointOf(e.Now(), run) == Run(LrMachine(e.rows, e.hooks), text, e.input.lastChunk, n, old(PointOf(e.Now(), true)))
    ensures run ==> !e.input.lastChunk && Position(e.input) == |text|
    ensures old(e.hist.text) <= e.hist.text
  {
    hide LrReaction, StepSpec, Setting, Sound, Run;
    ghost var machine, p0, final := LrMachine(e.rows, e.hooks), PointOf(e.Now(), true), e.input.lastChunk;
    ghost var i := 0;
    run := true;
    OneMore(machine, text, final, 0, p0);
    while run
      invariant e.Valid() && (run ==> !e.rejected && e.state.State?)
      invariant Shows(e.input, text) && e.input.lastChunk == final && e.input.pos == old(e.input).pos
      invariant i <= n && PointOf(e.Now(), run) == Run(machine, text, final, i, p0)
      invariant old(e.hist.text) <= e.hist.text
      decreases n - i
    {
      ghost var c := e.Now();
      var look := e.Lookup();
      LookIsLookAt(e.input, text);
      if look.NeedInput? {
        WaitIsSettled(e, text);
        EnoughRounds(machine, text, final, i, n, p0);
        return;
      }
      ForAllReduces(e);
      StepIsReaction(e.start, e.rows, e.hooks, c, look.action);
      if i == n {
        assert false;
      }
      OneMore(machine, text, final, i, p0);
      run := e.Step(look.action);
      i := i + 1;
      if e.input.overrun && !e.input.lastChunk {
        assert false;
      }
    }
    EnoughRounds(machine, text, final, i, n, p0);
  }

  // ----- whole inputs and chunks

  /** The result of a run that has stopped. */
  function LrResult(p: Point<Control>): Option<Result> {
    if p.ctrl.state.Success? && p.ctrl.stack != []
    then Some(Result(p.ctrl.stack[|p.ctrl.stack| - 1].value, p.at * 8))
    else None
  }

  function LrStart(): Point<Control> {
    Point(Control(State(0), []), 0, true)
  }

  /** The engine has read `text` and nothing else. */
  ghost predicate HasRead(e: Engine, text: seq<byte>)
    reads e
  {
    e.hist.text <= text && (e.input.lastChunk ==> Shows(e.input, text))
  }

  /** A parse of `text` that stopped: the value is that of a derivation of the part consumed. */
  ghost predicate ParsesPrefix(g: Grammar, start: nat, h: Hooks, text: seq<byte>, r: Result) {
    exists k: nat :: r.bitLength == 8 * k && k <= |text| && IsParse(g, start, h, text[..k], k == |text|, r)
  }

  lemma ResultParses(e: Engine, text: seq<byte>, r: Result)
    requires e.Valid() && HasRead(e, text) && r.bitLength == Position(e.input) * 8
    requires IsParse(e.g, e.start, e.hooks, e.hist.text, e.input.overrun && e.input.lastChunk, r)
    ensures ParsesPrefix(e.g, e.start, e.hooks, text, r)
  {
    hide Setting, Sound, IsDerivation, Eval, Yield;
    var k := Position(e.input);
    assert e.hist.text == text[..k];
    var t, ends :| IsDerivation(e.g, t) && Root(t) == Nt(e.start) && Yield(t) == Chars(text[..k]) + Ends(ends)
      && (ends > 0 ==> e.input.overrun && e.input.lastChunk) && Eval(e.hooks, t, 0) == Some(r.ast);
    assert IsParse(e.g, e.start, e.hooks, text[..k], k == |text|, r);
  }

  /** `h_lr_parse`. */
  method Parse(rows: Rows, hooks: Hooks, input: seq<byte>, ghost g: Grammar, ghost start: nat, ghost dfa: LrAutomaton.Dfa, ghost n: nat)
    returns (r: Option<Result>)
    requires Setting(g, start, dfa, rows) && Halts(LrMachine(rows, hooks), input, true, n, LrStart())
    ensures r == LrResult(Run(LrMachine(rows, hooks), input, true, n, LrStart()))
    ensures r.Some? ==> ParsesPrefix(g, start, hooks, input, r.value)
  {
    hide Setting, Sound, IsParse, ParsesPrefix, Run, LrReaction;
    var e := new Engine(rows, hooks, Stream(input, 0, 0, false, true), g, start, dfa);
    var run := Drive(e, input, n);
    r := GetResult(e, input);
  }

  method GetResult(e: Engine, ghost text: seq<byte>) returns (r: Option<Result>)
    requires e.Valid() && HasRead(e, text)
    ensures r == LrResult(PointOf(e.Now(), false))
    ensures r.Some? ==> ParsesPrefix(e.g, e.start, e.hooks, text, r.value)
  {
    hide Setting, IsParse, ParsesPrefix;
    r := e.GetResult();
    if r.Some? {
      ResultParses(e, text, r.value);
    }
  }

  /** `h_lr_parse_chunk`: continue with the next chunk, of which the engine has not seen anything yet. */
  method ParseChunk(e: Engine, stream: Stream, ghost text: seq<byte>, ghost n: nat) returns (done: bool)
    requires e.Valid() && !e.rejected && e.state.State? && !e.input.lastChunk
    requires stream.pos == Position(e.input) && stream.index == 0 && !stream.overrun
    requires e.hist.text <= text && Shows(stream, text)
    requires Halts(LrMachine(e.rows, e.hooks), text, stream.lastChunk, n, PointOf(e.Now(), true))
    modifies e
    ensures e.Valid() && (!done ==> !e.rejected && e.state.State? && !e.input.lastChunk)
    ensures e.input.pos == stream.pos && e.input.lastChunk == stream.lastChunk
    ensures HasRead(e, text) && (stream.lastChunk ==> done) && (!done ==> Position(e.input) == |text|)
    ensures PointOf(e.Now(), !done) == Run(LrMachine(e.rows, e.hooks), text, stream.lastChunk, n, old(PointOf(e.Now(), true)))
  {
    hide Setting, Run, LrReaction, LrMachine;
    SoundElsewhere(e, stream);
    e.input := stream;
    var run := Drive(e, text, n);
    done := !run;
  }

  lemma SoundElsewhere(e: Engine, stream: Stream)
    requires e.Valid() && !e.rejected && e.state.State? && !e.input.lastChunk
    requires stream.pos == Position(e.input) && stream.index == 0 && !stream.overrun
    ensures InputOk(stream, e.hist) && Sound(e.g, e.start, e.dfa, e.hooks, e.Now().(input := stream), e.hist)
  {
    hide Setting, TreesOk;
    assert Numbers(Trail(e.Now())) == Numbers(Trail(e.Now().(input := stream)));
  }
}
