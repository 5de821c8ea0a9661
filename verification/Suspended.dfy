/** Parsing an input that arrives in chunks. */
module Suspended {
  import opened Basics
  import opened ByteStream
  import opened Chunking
  import opened Grammar
  import LlDriver
  import LlParse
  import LrAutomaton
  import LrEngine
  import LrParse
  import LrTable

  /** A compiled parser of one of the backends that can be suspended. */
  datatype Parser =
    | LrParser(rows: LrTable.Rows, hooks: Hooks)
    | LlParser(g: Grammar, tab: LlDriver.Table, llHooks: Hooks, start: nat)

  /** The table stems from a grammar; for the LL backend with one byte of lookahead. */
  ghost predicate Compiled(p: Parser, g: Grammar, start: nat, dfa: LrAutomaton.Dfa) {
    match p
    case LrParser(rows, _) => LrEngine.Setting(g, start, dfa, rows)
    case LlParser(g', tab, _, start') => g' == g && start' == start && LlDriver.Fits(g, start, tab) && LlParse.OneByte(tab)
  }

  /** Where a parser is. */
  datatype Place = LrAt(lr: Point<LrParse.Control>) | LlAt(ll: Point<LlParse.Control>)

  ghost predicate PlaceOf(p: Parser, at: Place) {
    p.LrParser? <==> at.LrAt?
  }

  function Start(p: Parser): Place {
    if p.LrParser? then LrAt(LrParse.LrStart()) else LlAt(LlParse.LlStart(p.start))
  }

  function RunFrom(p: Parser, text: seq<byte>, final: bool, n: nat, at: Place): Place
    requires PlaceOf(p, at)
  {
    match p
    case LrParser(rows, hooks) => LrAt(Run(LrParse.LrMachine(rows, hooks), text, final, n, at.lr))
    case LlParser(g, tab, hooks, _) => LlAt(Run(LlParse.LlMachine(g, tab, hooks), text, final, n, at.ll))
  }

  ghost predicate Stops(p: Parser, text: seq<byte>, final: bool, n: nat, at: Place)
    requires PlaceOf(p, at)
  {
    match p
    case LrParser(rows, hooks) => Halts(LrParse.LrMachine(rows, hooks), text, final, n, at.lr)
    case LlParser(g, tab, hooks, _) => Halts(LlParse.LlMachine(g, tab, hooks), text, final, n, at.ll)
  }

  /** Where the parser is after the chunks. */
  function After(p: Parser, chunks: seq<seq<byte>>, n: nat): (at: Place)
    ensures PlaceOf(p, at)
  {
    match p
    case LrParser(rows, hooks) => LrAt(Fed(LrParse.LrMachine(rows, hooks), chunks, n, LrParse.LrStart()))
    case LlParser(g, tab, hooks, start) => LlAt(Fed(LlParse.LlMachine(g, tab, hooks), chunks, n, LlParse.LlStart(start)))
  }

  function ResultAt(at: Place): Option<Result> {
    match at
    case LrAt(lr) => LrParse.LrResult(lr)
    case LlAt(ll) => LlParse.LlResult(ll)
  }

  /** The result of parsing the whole text at once. */
  function WholeResult(p: Parser, text: seq<byte>, n: nat): Option<Result> {
    ResultAt(RunFrom(p, text, true, n, Start(p)))
  }

  /** A result stands for a derivation of the consumed part of the text. */
  ghost predicate Derived(p: Parser, g: Grammar, start: nat, text: seq<byte>, r: Result) {
    match p
    case LrParser(_, hooks) => LrParse.ParsesPrefix(g, start, hooks, text, r)
    case LlParser(_, _, hooks, _) => LlParse.ParsesPrefix(g, start, hooks, text, r)
  }

  /** `h_parse__m`: one run over the whole input. */
  method Parse(p: Parser, input: seq<byte>, ghost g: Grammar, ghost start: nat, ghost dfa: LrAutomaton.Dfa, ghost n: nat)
    returns (r: Option<Result>)
    requires Compiled(p, g, start, dfa) && Stops(p, input, true, n, Start(p))
    ensures r == WholeResult(p, input, n)
    ensures r.Some? ==> Derived(p, g, start, input, r.value)
  {
    hide LrEngine.Setting, LlDriver.Fits, LlParse.OneByte, Run, LrParse.ParsesPrefix, LlParse.ParsesPrefix, LlDriver.Rounds;
    match p
    case LrParser(rows, hooks) => r := LrParse.Parse(rows, hooks, input, g, start, dfa, n);
    case LlParser(g0, tab, hooks, start0) =>
      LlParse.HaltsInRounds(g, tab, hooks, n, LlParse.WholeInput(start, input), input);
      r := LlParse.Parse(g0, tab, hooks, start0, input, n + 1);
  }

  class SuspendedParser {
    const parser: Parser
    var engine: LrEngine.Engine?
    var driver: LlDriver.Driver?
    var done: bool
    var pos: nat
    var bitOffset: nat
    ghost const g: Grammar
    ghost const start: nat
    ghost const dfa: LrAutomaton.Dfa
    ghost const n: nat
    ghost var chunks: seq<seq<byte>>
    ghost var last: Stream

    ghost predicate Valid()
      reads this, engine, driver
    {
      && Compiled(parser, g, start, dfa) && bitOffset == 0 && pos == Position(last) && !last.lastChunk
      && (!done ==> pos == |Flatten(chunks)|)
      && if parser.LrParser? then engine != null && LrValid(engine) else driver != null && LlValid(driver)
    }

    ghost predicate LrValid(e: LrEngine.Engine)
      requires parser.LrParser?
      reads this, e
    {
      && e.Valid() && e.rows == parser.rows && e.hooks == parser.hooks && e.g == g && e.start == start && e.dfa == dfa
      && e.input == last && LrParse.HasRead(e, Flatten(chunks))
      && LrAt(LrParse.PointOf(e.Now(), !done)) == After(parser, chunks, n)
      && (!done ==> !e.rejected && e.state.State?)
    }

    ghost predicate LlValid(d: LlDriver.Driver)
      requires parser.LlParser?
      reads this, d
    {
      && d.Valid(last) && d.g == parser.g && d.tab == parser.tab && d.hooks == parser.llHooks && d.start == parser.start
      && LlParse.HasRead(d, last, Flatten(chunks))
      && LlAt(LlParse.PointOfDriver(d, last, !done)) == After(parser, chunks, n)
      && (done <==> d.vals == None || d.stack == [])
    }

    /** `h_parse_start`. */
    constructor (p: Parser, ghost g: Grammar, ghost start: nat, ghost dfa: LrAutomaton.Dfa, ghost n: nat)
      requires Compiled(p, g, start, dfa)
      ensures Valid() && chunks == [] && parser == p
      ensures (engine != null ==> fresh(engine)) && (driver != null ==> fresh(driver))
      ensures this.g == g && this.start == start && this.dfa == dfa && this.n == n
    {
      hide LrEngine.Setting, LrEngine.Sound, LlDriver.Fits, LlDriver.Sound, LlParse.OneByte, Fed, Flatten;
      NothingYet(p, n);
      var stream := Stream([], 0, 0, false, false);
      parser, this.g, this.start, this.dfa, this.n := p, g, start, dfa, n;
      done, pos, bitOffset, chunks, last := false, 0, 0, [], stream;
      engine, driver := null, null;
      if p.LrParser? {
        engine := new LrEngine.Engine(p.rows, p.hooks, stream, g, start, dfa);
      } else {
        driver := new LlDriver.Driver(p.g, p.tab, p.llHooks, p.start, stream);
      }
    }

    /** `h_parse_chunk`. */
    method ParseChunk(input: seq<byte>) returns (isDone: bool)
      requires Valid()
      requires Stops(parser, Flatten(chunks) + input, false, n, After(parser, chunks, n))
      modifies this, engine, driver
      ensures Valid() && chunks == old(chunks) + [input] && engine == old(engine) && driver == old(driver)
      ensures isDone == done
    {
      hide LrEngine.Setting, LrEngine.Sound, LlDriver.Fits, LlDriver.Sound, LlParse.OneByte, Run, Fed, Flatten, LrParse.LrMachine, LlParse.LlMachine;
      hide LrParse.ParsesPrefix, LlParse.ParsesPrefix, LrParse.LrReaction, LlParse.LlReaction, Reading;
      ghost var text := Flatten(chunks) + input;
      FlattenSnoc(chunks, input);
      AfterOneMore(parser, chunks, input, n);
      chunks := chunks + [input];
      if done {
        ParkedPlace(parser, text, false, n, old(After(parser, chunks, n)));
        return true;
      }
      var stream := Stream(input, pos, 0, false, false);
      if parser.LrParser? {
        done := LrParse.ParseChunk(engine, stream, text, n);
        stream := engine.input;
      } else {
        stream, done := LlParse.ParseChunk(driver, last, stream, text, n);
      }
      pos := pos + stream.index;
      last := stream;
      isDone := done;
    }

    /** `h_parse_finish`: signal the end of the input, then take the result. */
    method Finish() returns (r: Option<Result>)
      requires Valid() && Stops(parser, Flatten(chunks), true, n, After(parser, chunks, n))
      modifies this, engine, driver
      ensures r == old(ResultAt(RunFrom(parser, Flatten(chunks), true, n, After(parser, chunks, n))))
      ensures r.Some? ==> Derived(parser, g, start, old(Flatten(chunks)), r.value)
    {
      hide LrEngine.Setting, LrEngine.Sound, LlDriver.Fits, LlDriver.Sound, LlParse.OneByte, Run, Fed, Flatten, LrParse.LrMachine, LlParse.LlMachine;
      hide LrParse.ParsesPrefix, LlParse.ParsesPrefix, LrParse.LrReaction, LlParse.LlReaction, Reading;
      ghost var text := Flatten(chunks);
      if !done {
        StaysAtEnd(parser, g, start, dfa, text, n, After(parser, chunks, n));
        var empty := Stream([], pos, 0, false, true);
        if parser.LrParser? {
          done := LrParse.ParseChunk(engine, empty, text, n);
          last := engine.input;
        } else {
          last, done := LlParse.ParseChunk(driver, last, empty, text, n);
        }
      } else {
        ParkedPlace(parser, text, true, n, After(parser, chunks, n));
      }
      if parser.LrParser? {
        r := LrParse.GetResult(engine, text);
      } else {
        r := LlParse.GetResult(driver, last, text, pos * 8 + bitOffset);
      }
      if r.Some? {
        r := Some(r.value.(bitLength := pos * 8 + bitOffset));
      }
    }
  }

  lemma NothingYet(p: Parser, n: nat)
    ensures After(p, [], n) == Start(p) && Flatten([]) == []
  {
  }

  function Running(at: Place): bool {
    if at.LrAt? then at.lr.running else at.ll.running
  }

  function Offset(at: Place): nat {
    if at.LrAt? then at.lr.at else at.ll.at
  }

  lemma ParkedPlace(p: Parser, text: seq<byte>, final: bool, n: nat, at: Place)
    requires PlaceOf(p, at) && !Running(at)
    ensures RunFrom(p, text, final, n, at) == at
  {
    hide Run;
    match p
    case LrParser(rows, hooks) => Parked(LrParse.LrMachine(rows, hooks), text, final, n, at.lr);
    case LlParser(g, tab, hooks, _) => Parked(LlParse.LlMachine(g, tab, hooks), text, final, n, at.ll);
  }

  lemma LooksOneAhead(p: Parser, g: Grammar, start: nat, dfa: LrAutomaton.Dfa)
    requires Compiled(p, g, start, dfa)
    ensures match p
            case LrParser(rows, hooks) => OneByteAhead(LrParse.LrMachine(rows, hooks))
            case LlParser(g, tab, hooks, _) => OneByteAhead(LlParse.LlMachine(g, tab, hooks))
  {
    hide LrEngine.Setting, LlDriver.Fits, LlParse.OneByte, OneByteAhead;
    match p
    case LrParser(rows, hooks) => LrParse.LrLooksOneAhead(rows, hooks);
    case LlParser(g, tab, hooks, _) => LlParse.LlLooksOneAhead(g, tab, hooks);
  }

  lemma StaysAtEnd(p: Parser, g: Grammar, start: nat, dfa: LrAutomaton.Dfa, text: seq<byte>, n: nat, at: Place)
    requires Compiled(p, g, start, dfa) && PlaceOf(p, at) && Offset(at) == |text|
    ensures Offset(RunFrom(p, text, true, n, at)) == |text|
  {
    hide LrEngine.Setting, LlDriver.Fits, LlParse.OneByte, OneByteAhead, Run;
    LooksOneAhead(p, g, start, dfa);
    match p
    case LrParser(rows, hooks) => StaysInside(LrParse.LrMachine(rows, hooks), text, true, n, at.lr);
    case LlParser(g, tab, hooks, _) => StaysInside(LlParse.LlMachine(g, tab, hooks), text, true, n, at.ll);
  }

  lemma AfterOneMore(p: Parser, chunks: seq<seq<byte>>, input: seq<byte>, n: nat)
    ensures After(p, chunks + [input], n) == RunFrom(p, Flatten(chunks) + input, false, n, After(p, chunks, n))
  {
    hide Run;
    match p
    case LrParser(rows, hooks) => FedSnoc(LrParse.LrMachine(rows, hooks), chunks, input, n, LrParse.LrStart());
    case LlParser(g, tab, hooks, start) => FedSnoc(LlParse.LlMachine(g, tab, hooks), chunks, input, n, LlParse.LlStart(start));
  }

  /** Every chunk leaves the parser on the way of the run over the whole input. */
  lemma ChunksDoNotMatter(p: Parser, g: Grammar, start: nat, dfa: LrAutomaton.Dfa, chunks: seq<seq<byte>>, n: nat)
    requires Compiled(p, g, start, dfa) && Stops(p, Flatten(chunks), true, n, Start(p))
    ensures RunFrom(p, Flatten(chunks), true, n, After(p, chunks, n)) == RunFrom(p, Flatten(chunks), true, n, Start(p))
    ensures Stops(p, Flatten(chunks), true, n, After(p, chunks, n))
    ensures forall k :: 0 <= k < |chunks| ==> Stops(p, Flatten(chunks[..k + 1]), false, n, After(p, chunks[..k], n))
  {
    hide LrEngine.Setting, LlDriver.Fits, LlParse.OneByte, OneByteAhead, Run, Fed, Flatten;
    LooksOneAhead(p, g, start, dfa);
    assert Flatten(chunks) + [] == Flatten(chunks);
    match p {
      case LrParser(rows, hooks) =>
        FedIsOnTheWay(LrParse.LrMachine(rows, hooks), chunks, [], n, LrParse.LrStart());
        forall k | 0 <= k < |chunks| ensures Stops(p, Flatten(chunks[..k + 1]), false, n, After(p, chunks[..k], n)) {
          EveryChunkSettles(LrParse.LrMachine(rows, hooks), chunks, k, n, LrParse.LrStart());
        }
      case LlParser(g, tab, hooks, start) =>
        FedIsOnTheWay(LlParse.LlMachine(g, tab, hooks), chunks, [], n, LlParse.LlStart(start));
        forall k | 0 <= k < |chunks| ensures Stops(p, Flatten(chunks[..k + 1]), false, n, After(p, chunks[..k], n)) {
          EveryChunkSettles(LlParse.LlMachine(g, tab, hooks), chunks, k, n, LlParse.LlStart(start));
        }
    }
  }

  /** Feeding the chunks and finishing has the result of parsing the whole input at once. */
  method ParseInChunks(p: Parser, chunks: seq<seq<byte>>, ghost g: Grammar, ghost start: nat, ghost dfa: LrAutomaton.Dfa, ghost n: nat)
    returns (r: Option<Result>)
    requires Compiled(p, g, start, dfa) && Stops(p, Flatten(chunks), true, n, Start(p))
    ensures r == WholeResult(p, Flatten(chunks), n)
    ensures r.Some? ==> Derived(p, g, start, Flatten(chunks), r.value)
  {
    hide Compiled, Stops, RunFrom, After, Fed, Flatten, Derived, ResultAt;
    ChunksDoNotMatter(p, g, start, dfa, chunks, n);
    var s := new SuspendedParser(p, g, start, dfa, n);
    for i := 0 to |chunks|
      invariant s.Valid() && s.chunks == chunks[..i] && s.parser == p && s.n == n && s.g == g && s.start == start
      invariant fresh(s) && (s.engine != null ==> fresh(s.engine)) && (s.driver != null ==> fresh(s.driver))
    {
      FlattenSnoc(chunks[..i], chunks[i]);
      assert chunks[..i + 1] == chunks[..i] + [chunks[i]];
      var _ := s.ParseChunk(chunks[i]);
    }
    assert chunks[..|chunks|] == chunks;
    r := s.Finish();
  }
}
