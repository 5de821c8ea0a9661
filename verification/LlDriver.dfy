/** The predictive parser: a stack of symbols, cut into frames by marks.  Whatever the table, as long as its
    entries are productions of their nonterminal, the frames are the spine of a derivation tree. */
module LlDriver {
  import opened Basics
  import opened ByteStream
  import opened Grammar
  import opened Nullable
  import opened StringMap

  type Vals = seq<Option<Token>>

  // ----- the value of a derivation tree

  /** A set of bytes is matched like a single byte; sequences have lost their position. */
  function Value(g: Grammar, h: Hooks, t: Tree, start: nat): Option<Option<Token>>
    decreases t, 1
  {
    match t
    case Leaf(Char(c)) => Some(Some(Token(TtUint(c), start)))
    case Leaf(_) => Some(None)
    case Node(nt, kids) =>
      if nt < |g| && g[nt].CharsetRule? then
        if |kids| == 1 && kids[0].Leaf? && kids[0].sym.Char? then Finish(h, nt, Token(TtUint(kids[0].sym.c), start)) else None
      else
        var vals := AllValues(g, h, kids, start);
        if vals == None then None else Finish(h, nt, Token(TtSequence(vals.value), 0))
  }

  function AllValues(g: Grammar, h: Hooks, ts: seq<Tree>, start: nat): (r: Option<Vals>)
    ensures r.Some? ==> |r.value| == |ts|
    decreases ts, 0
  {
    if ts == [] then Some([])
    else
      var init := ts[..|ts| - 1];
      var vals := AllValues(g, h, init, start);
      var last := Value(g, h, ts[|ts| - 1], start + Width(Yields(init)));
      if vals == None || last == None then None else Some(vals.value + [last.value])
  }

  lemma AllValuesSnoc(g: Grammar, h: Hooks, ts: seq<Tree>, t: Tree, start: nat)
    ensures AllValues(g, h, ts + [t], start) ==
      var vals := AllValues(g, h, ts, start);
      var last := Value(g, h, t, start + Width(Yields(ts)));
      if vals == None || last == None then None else Some(vals.value + [last.value])
    ensures Yields(ts + [t]) == Yields(ts) + Yield(t)
  {
    hide Value, Yield, Width;
    var all := ts + [t];
    assert all[..|all| - 1] == ts && all[|all| - 1] == t;
  }

  // ----- tables and configurations

  type Table = map<nat, StringMap<seq<Symbol>>>

  /** Every entry of a row is a production of the row's nonterminal, and the nonterminals that can be met have rows. */
  ghost predicate Fits(g: Grammar, start: nat, tab: Table) {
    && Covered(g, tab.Keys, Nt(start)) && ClosedUnder(g, tab.Keys)
    && (forall id: nat, str, end :: id in tab && At(tab[id], str, end).Some? ==> IsProduction(g, id, At(tab[id], str, end).value))
  }

  /** Below a mark lie the nonterminal whose production is being matched, and the values accumulated before it. */
  datatype Entry = Sym(x: Symbol) | Mark | Saved(vals: Vals)

  datatype LlConfig = LlConfig(stack: seq<Entry>, vals: Vals, input: Stream)

  datatype Status = Continue | NoParse | OutOfInput | Complete

  function Syms(xs: seq<Symbol>): (r: seq<Entry>)
    ensures |r| == |xs| && forall k :: 0 <= k < |xs| ==> r[k] == Sym(xs[k])
  {
    seq(|xs|, k requires 0 <= k < |xs| => Sym(xs[k]))
  }

  /** One turn of the loop. */
  function Round(g: Grammar, tab: Table, h: Hooks, c: LlConfig): (LlConfig, Status) {
    if c.stack == [] then (c, Complete)
    else
      var rest := c.(stack := c.stack[1..]);
      match c.stack[0]
      case Mark =>
        if |rest.stack| >= 2 && rest.stack[0].Sym? && rest.stack[0].x.Nt? && rest.stack[1].Saved? then
          Deliver(Finish(h, rest.stack[0].x.id, Token(TtSequence(c.vals), 0)),
                  LlConfig(rest.stack[2..], rest.stack[1].vals, c.input))
        else (rest, NoParse)
      case Sym(Nt(id)) =>
        if id < |g| && g[id].ChoiceRule? then Predict(tab, id, c, rest)
        else MatchByte(g, h, c.stack[0].x, c, rest)
      case Sym(_) => MatchByte(g, h, c.stack[0].x, c, rest)
      case Saved(_) => (rest, NoParse)
  }

  /** Append the value of what has been parsed, unless its validation failed. */
  function Deliver(value: Option<Option<Token>>, c: LlConfig): (LlConfig, Status) {
    if value == None then (c, NoParse) else (c.(vals := c.vals + [value.value]), Continue)
  }

  function Predict(tab: Table, id: nat, c: LlConfig, rest: LlConfig): (r: (LlConfig, Status))
    ensures rest.input == c.input ==> r.0.input == c.input
  {
    if id !in tab || c.input.index > |c.input.input| then (rest, NoParse)
    else
      match Lookahead(tab[id], c.input.input[c.input.index..], c.input.lastChunk)
      case NeedInput => (c, OutOfInput)
      case Found(None) => (rest, NoParse)
      case Found(Some(p)) => (LlConfig(Syms(p) + [Mark, Sym(Nt(id)), Saved(c.vals)] + rest.stack, [], c.input), Continue)
  }

  function Matches(g: Grammar, x: Symbol, b: byte): bool {
    match x
    case Char(c) => b == c
    case Nt(id) => id < |g| && g[id].CharsetRule? && b in g[id].chars
    case End => false
  }

  /** Consume a byte, or the end marker at the end of the input. */
  function MatchByte(g: Grammar, h: Hooks, x: Symbol, c: LlConfig, rest: LlConfig): (LlConfig, Status) {
    var (b, after) := ReadByte(c.input);
    var tok := Token(TtUint(b), Position(c.input));
    if x == End then
      if !after.overrun then (rest.(input := after), NoParse)
      else if !after.lastChunk then (c.(input := after), OutOfInput)
      else Deliver(Some(None), rest.(input := after))
    else if after.overrun then if after.lastChunk then (rest.(input := after), NoParse) else (c.(input := after), OutOfInput)
    else if !Matches(g, x, b) then (rest.(input := after), NoParse)
    else Deliver(if x.Nt? then Finish(h, x.id, tok) else Some(Some(tok)), rest.(input := after))
  }

  // ----- the spine of the derivation

  /** The frames from the innermost one down: the trees of the symbols already matched, and the symbols to come. */
  datatype Zipper = Bottom(kids: seq<Tree>, rest: seq<Symbol>) | Inner(below: Zipper, nt: nat, kids: seq<Tree>, rest: seq<Symbol>)

  function Text(z: Zipper): seq<Symbol> {
    (if z.Inner? then Text(z.below) else []) + Yields(z.kids)
  }

  /** Where the innermost frame begins. */
  function Begin(z: Zipper): nat {
    if z.Inner? then Width(Text(z.below)) else 0
  }

  function ValsOf(g: Grammar, h: Hooks, z: Zipper): Option<Vals> {
    AllValues(g, h, z.kids, Begin(z))
  }

  /** `hole` is what the frame above is about to contribute. */
  ghost predicate Spine(g: Grammar, start: nat, h: Hooks, z: Zipper, hole: seq<Symbol>)
    decreases z
  {
    && (forall k :: 0 <= k < |z.kids| ==> IsDerivation(g, z.kids[k]))
    && ValsOf(g, h, z).Some?
    && match z
       case Bottom(kids, rest) => Roots(kids) + hole + rest == [Nt(start)]
       case Inner(below, nt, kids, rest) =>
         IsProduction(g, nt, Roots(kids) + hole + rest) && g[nt].ChoiceRule? && Spine(g, start, h, below, [Nt(nt)])
  }

  function StackOf(g: Grammar, h: Hooks, z: Zipper): seq<Entry> {
    Syms(z.rest) +
    match z
    case Bottom(_, _) => []
    case Inner(below, nt, _, _) =>
      [Mark, Sym(Nt(nt)), Saved(if ValsOf(g, h, below).Some? then ValsOf(g, h, below).value else [])] + StackOf(g, h, below)
  }

  /** The invariant of the driver. */
  ghost predicate Sound(g: Grammar, start: nat, h: Hooks, c: LlConfig, z: Zipper, text: seq<byte>, ends: nat) {
    && Spine(g, start, h, z, []) && c.stack == StackOf(g, h, z) && Some(c.vals) == ValsOf(g, h, z)
    && Text(z) == Chars(text) + Ends(ends) && Reading(c.input, text, ends)
  }

  // ----- what a round does to the spine

  function Grown(z: Zipper, t: Tree): Zipper {
    if z.Bottom? then Bottom(z.kids + [t], z.rest) else Inner(z.below, z.nt, z.kids + [t], z.rest)
  }

  lemma EmptyFrame(g: Grammar, h: Hooks, start: nat)
    ensures Yields([]) == [] && AllValues(g, h, [], start) == Some([])
  {
  }

  /** Popping the symbol to come from the innermost frame makes room for its tree. */
  lemma MakeRoom(g: Grammar, start: nat, h: Hooks, z: Zipper, z': Zipper)
    requires Spine(g, start, h, z, []) && z.rest != []
    requires z' == if z.Bottom? then Bottom(z.kids, z.rest[1..]) else Inner(z.below, z.nt, z.kids, z.rest[1..])
    ensures Spine(g, start, h, z', [z.rest[0]])
    ensures Text(z') == Text(z) && Begin(z') == Begin(z) && ValsOf(g, h, z') == ValsOf(g, h, z)
    ensures StackOf(g, h, z) == [Sym(z.rest[0])] + StackOf(g, h, z')
  {
    hide IsProduction, AllValues, IsDerivation, Yields, Width;
    assert Roots(z.kids) + [] + z.rest == Roots(z.kids) + [z.rest[0]] + z'.rest;
    assert Syms(z.rest) == [Sym(z.rest[0])] + Syms(z'.rest);
  }

  lemma OpenKeeps(g: Grammar, start: nat, h: Hooks, z: Zipper, nt: nat, rhs: seq<Symbol>)
    requires Spine(g, start, h, z, [Nt(nt)]) && IsProduction(g, nt, rhs) && g[nt].ChoiceRule?
    ensures var z' := Inner(z, nt, [], rhs);
      && Spine(g, start, h, z', []) && Text(z') == Text(z) && ValsOf(g, h, z') == Some([])
      && StackOf(g, h, z') == Syms(rhs) + [Mark, Sym(Nt(nt)), Saved(ValsOf(g, h, z).value)] + StackOf(g, h, z)
  {
    hide IsProduction, AllValues, IsDerivation, Yields, Width;
    var z' := Inner(z, nt, [], rhs);
    EmptyFrame(g, h, Begin(z'));
    assert Roots([]) + [] + rhs == rhs;
    assert Text(z) + [] == Text(z);
    SomeVals(g, start, h, z, [Nt(nt)]);
  }

  lemma SomeVals(g: Grammar, start: nat, h: Hooks, z: Zipper, hole: seq<Symbol>)
    requires Spine(g, start, h, z, hole)
    ensures ValsOf(g, h, z).Some?
  {
  }

  /** A finished tree takes its place in the frame that waits for it. */
  lemma GrowKeeps(g: Grammar, start: nat, h: Hooks, z: Zipper, t: Tree, value: Option<Token>)
    requires Spine(g, start, h, z, [Root(t)]) && IsDerivation(g, t)
    requires Value(g, h, t, Width(Text(z))) == Some(value)
    ensures var z' := Grown(z, t);
      && Spine(g, start, h, z', []) && Text(z') == Text(z) + Yield(t)
      && ValsOf(g, h, z') == Some(ValsOf(g, h, z).value + [value]) && StackOf(g, h, z') == StackOf(g, h, z)
  {
    hide IsProduction, Value, AllValues, IsDerivation, Yields, Yield, Width, Root;
    var z' := Grown(z, t);
    GrowValues(g, h, z, t, value);
    assert Roots(z'.kids) + [] + z.rest == Roots(z.kids) + [Root(t)] + z.rest;
  }

  lemma GrowValues(g: Grammar, h: Hooks, z: Zipper, t: Tree, value: Option<Token>)
    requires ValsOf(g, h, z).Some? && Value(g, h, t, Width(Text(z))) == Some(value)
    ensures Text(Grown(z, t)) == Text(z) + Yield(t)
    ensures ValsOf(g, h, Grown(z, t)) == Some(ValsOf(g, h, z).value + [value])
  {
    hide Value, AllValues, Yields, Yield, Width;
    AllValuesSnoc(g, h, z.kids, t, Begin(z));
    WidthConcat(if z.Inner? then Text(z.below) else [], Yields(z.kids));
    EmptyWidth();
    assert [] + Yields(z.kids) == Yields(z.kids) && [] + Yields(z.kids + [t]) == Yields(z.kids + [t]);
  }

  lemma EmptyWidth()
    ensures Width([]) == 0
  {
  }

  // ----- every round keeps the invariant

  lemma PredictKeeps(g: Grammar, start: nat, tab: Table, h: Hooks, c: LlConfig, z: Zipper, text: seq<byte>, ends: nat, id: nat)
    returns (z': Zipper)
    requires Fits(g, start, tab) && Sound(g, start, h, c, z, text, ends)
    requires z.rest != [] && z.rest[0] == Nt(id) && id < |g| && g[id].ChoiceRule?
    requires Predict(tab, id, c, c.(stack := c.stack[1..])).1.Continue?
    ensures Sound(g, start, h, Predict(tab, id, c, c.(stack := c.stack[1..])).0, z', text, ends)
  {
    hide IsProduction, AllValues, IsDerivation, Yields, Width, Spine, StackOf, Reading, Chars, Ends;
    var ahead := c.input.input[c.input.index..];
    var p := Lookahead(tab[id], ahead, c.input.lastChunk).value.value;
    var k := LookaheadFinds(tab[id], ahead, c.input.lastChunk);
    assert IsProduction(g, id, p);
    var low := if z.Bottom? then Bottom(z.kids, z.rest[1..]) else Inner(z.below, z.nt, z.kids, z.rest[1..]);
    MakeRoom(g, start, h, z, low);
    OpenKeeps(g, start, h, low, id, p);
    z' := Inner(low, id, [], p);
    assert c.stack[1..] == StackOf(g, h, low);
  }

  /** The tree of a matched terminal or set of bytes. */
  function Matched(x: Symbol, b: byte): Tree {
    if x.Nt? then Node(x.id, [Leaf(Char(b))]) else if x.End? then Leaf(End) else Leaf(Char(b))
  }

  lemma MatchedTree(g: Grammar, h: Hooks, x: Symbol, b: byte, start: nat)
    requires x == End || Matches(g, x, b)
    ensures var t := Matched(x, b);
      && IsDerivation(g, t) && Root(t) == x && Yield(t) == [if x == End then End else Char(b)]
      && Value(g, h, t, start) ==
         if x == End then Some(None) else if x.Nt? then Finish(h, x.id, Token(TtUint(b), start)) else Some(Some(Token(TtUint(b), start)))
  {
    hide Finish;
    var kids := [Leaf(Char(b))];
    assert Roots(kids) == [Char(b)];
    assert kids[..0] == [] && Yields([]) + Yield(kids[0]) == [Char(b)];
  }

  lemma TextWidth(z: Zipper, text: seq<byte>, ends: nat)
    requires Text(z) == Chars(text) + Ends(ends)
    ensures Width(Text(z)) == |text|
  {
    hide Text;
    WidthConcat(Chars(text), Ends(ends));
    WidthOfChars(text);
    WidthOfEnds(ends);
  }

  lemma TextGrows(text: seq<byte>, ends: nat, b: byte)
    ensures Chars(text) + Ends(ends) + [End] == Chars(text) + Ends(ends + 1)
    ensures Chars(text) + Ends(0) + [Char(b)] == Chars(text + [b]) + Ends(0)
  {
    assert Ends(ends + 1) == Ends(ends) + [End];
    assert Chars(text + [b]) == Chars(text) + [Char(b)];
  }

  lemma MatchKeeps(g: Grammar, start: nat, h: Hooks, c: LlConfig, z: Zipper, text: seq<byte>, ends: nat)
    returns (z': Zipper, text': seq<byte>, ends': nat)
    requires Sound(g, start, h, c, z, text, ends) && z.rest != []
    requires MatchByte(g, h, z.rest[0], c, c.(stack := c.stack[1..])).1.Continue?
    ensures Sound(g, start, h, MatchByte(g, h, z.rest[0], c, c.(stack := c.stack[1..])).0, z', text', ends')
    ensures text <= text'
  {
    hide IsProduction, AllValues, IsDerivation, Yields, Width, Spine, StackOf, Reading, Chars, Ends, Text, Value, Finish;
    var x := z.rest[0];
    var (b, after) := ReadByte(c.input);
    var low := if z.Bottom? then Bottom(z.kids, z.rest[1..]) else Inner(z.below, z.nt, z.kids, z.rest[1..]);
    MakeRoom(g, start, h, z, low);
    TextWidth(z, text, ends);
    ReadingOn(c.input, text, ends);
    MatchedTree(g, h, x, b, |text|);
    ReadingPosition(c.input, text, ends);
    var value := MatchByte(g, h, x, c, c.(stack := c.stack[1..])).0.vals[|c.vals|];
    GrowKeeps(g, start, h, low, Matched(x, b), value);
    TextGrows(text, ends, b);
    z' := Grown(low, Matched(x, b));
    text', ends' := if x == End then text else text + [b], if x == End then ends + 1 else ends;
    assert c.stack[1..] == StackOf(g, h, low);
  }

  /** A byte is matched exactly where it is the symbol on top or in the set that is, and a validation does not fail. */
  lemma ByteMatched(g: Grammar, tab: Table, h: Hooks, c: LlConfig, x: Symbol, b: byte)
    requires c.stack != [] && c.stack[0] == Sym(x) && (x.Nt? ==> x.id < |g| && g[x.id].CharsetRule?)
    requires c.input.index < |c.input.input| && c.input.input[c.input.index] == b && !c.input.overrun
    ensures Round(g, tab, h, c).1.Continue? <==>
      x == Char(b) || (x.Nt? && IsProduction(g, x.id, [Char(b)]) && Finish(h, x.id, Token(TtUint(b), Position(c.input))).Some?)
    ensures var (c', status) := Round(g, tab, h, c);
      status.Continue? ==> c'.input == c.input.(index := c.input.index + 1) && c'.stack == c.stack[1..] && |c'.vals| == |c.vals| + 1
  {
    hide Finish;
  }

  lemma ReadingPosition(input: Stream, text: seq<byte>, ends: nat)
    requires Reading(input, text, ends)
    ensures Position(input) == |text|
  {
  }

  lemma CloseKeeps(g: Grammar, start: nat, h: Hooks, c: LlConfig, z: Zipper, text: seq<byte>, ends: nat, value: Option<Token>)
    requires Sound(g, start, h, c, z, text, ends) && z.Inner? && z.rest == []
    requires Finish(h, z.nt, Token(TtSequence(c.vals), 0)) == Some(value)
    ensures ValsOf(g, h, z.below).Some?
    ensures c.stack == [Mark, Sym(Nt(z.nt)), Saved(ValsOf(g, h, z.below).value)] + StackOf(g, h, z.below)
    ensures Sound(g, start, h, LlConfig(StackOf(g, h, z.below), ValsOf(g, h, z.below).value + [value], c.input),
                  Grown(z.below, Node(z.nt, z.kids)), text, ends)
  {
    hide IsProduction, AllValues, IsDerivation, Yields, Width, Reading, Chars, Ends, Value, Finish;
    var t := Node(z.nt, z.kids);
    SomeVals(g, start, h, z.below, [Nt(z.nt)]);
    assert Syms([]) == [];
    ClosedTree(g, h, z);
    GrowKeeps(g, start, h, z.below, t, value);
  }

  lemma ClosedTree(g: Grammar, h: Hooks, z: Zipper)
    requires z.Inner? && z.rest == [] && IsProduction(g, z.nt, Roots(z.kids) + [] + z.rest) && g[z.nt].ChoiceRule?
    requires forall k :: 0 <= k < |z.kids| ==> IsDerivation(g, z.kids[k])
    requires ValsOf(g, h, z).Some?
    ensures var t := Node(z.nt, z.kids);
      && IsDerivation(g, t) && Yield(t) == Yields(z.kids) && Root(t) == Nt(z.nt)
      && Value(g, h, t, Width(Text(z.below))) == Finish(h, z.nt, Token(TtSequence(ValsOf(g, h, z).value), 0))
  {
    hide Finish, IsProduction, AllValues, Yields, Width;
    assert Roots(z.kids) + [] + z.rest == Roots(z.kids);
  }

  /** Every successful round extends the derivation. */
  lemma RoundKeeps(g: Grammar, start: nat, tab: Table, h: Hooks, c: LlConfig, z: Zipper, text: seq<byte>, ends: nat)
    returns (z': Zipper, text': seq<byte>, ends': nat)
    requires Fits(g, start, tab) && Sound(g, start, h, c, z, text, ends) && Round(g, tab, h, c).1.Continue?
    ensures Sound(g, start, h, Round(g, tab, h, c).0, z', text', ends') && text <= text'
  {
    hide Sound, Predict, MatchByte, Finish, Fits;
    text', ends' := text, ends;
    StackTop(g, start, h, c, z, text, ends);
    if z.rest == [] {
      var value := Finish(h, z.nt, Token(TtSequence(c.vals), 0)).value;
      CloseKeeps(g, start, h, c, z, text, ends, value);
      z' := Grown(z.below, Node(z.nt, z.kids));
      assert c.stack[1..][2..] == StackOf(g, h, z.below);
    } else if z.rest[0].Nt? && z.rest[0].id < |g| && g[z.rest[0].id].ChoiceRule? {
      z' := PredictKeeps(g, start, tab, h, c, z, text, ends, z.rest[0].id);
    } else {
      z', text', ends' := MatchKeeps(g, start, h, c, z, text, ends);
    }
  }

  lemma StackTop(g: Grammar, start: nat, h: Hooks, c: LlConfig, z: Zipper, text: seq<byte>, ends: nat)
    requires Sound(g, start, h, c, z, text, ends)
    ensures z.rest != [] ==> c.stack != [] && c.stack[0] == Sym(z.rest[0])
    ensures z.rest == [] && z.Bottom? <==> c.stack == []
    ensures z.rest == [] && z.Inner? ==> ValsOf(g, h, z.below).Some? && |c.stack| >= 3
    ensures z.rest == [] && z.Inner? ==> c.stack[..3] == [Mark, Sym(Nt(z.nt)), Saved(ValsOf(g, h, z.below).value)]
    ensures Reading(c.input, text, ends)
  {
    hide IsProduction, AllValues, IsDerivation, Reading, Text, ValsOf;
    if z.Inner? {
      SomeVals(g, start, h, z.below, [Nt(z.nt)]);
    }
  }

  // ----- the driver

  /** At most `n` rounds. */
  function Rounds(g: Grammar, tab: Table, h: Hooks, n: nat, c: LlConfig): (LlConfig, Status) {
    if n == 0 then (c, Continue)
    else
      var (c', status) := Round(g, tab, h, c);
      if status.Continue? then Rounds(g, tab, h, n - 1, c') else (c', status)
  }

  lemma {:induction false} OneMoreRound(g: Grammar, tab: Table, h: Hooks, n: nat, c: LlConfig)
    ensures var (c', status) := Rounds(g, tab, h, n, c);
      Rounds(g, tab, h, n + 1, c) == if status.Continue? then Round(g, tab, h, c') else (c', status)
  {
    hide Round;
    if n > 0 {
      var (c', status) := Round(g, tab, h, c);
      if status.Continue? {
        OneMoreRound(g, tab, h, n - 1, c');
      }
    } else {
      assert forall c' :: Rounds(g, tab, h, 0, c') == (c', Continue);
    }
  }

  lemma {:induction false} MoreRounds(g: Grammar, tab: Table, h: Hooks, m: nat, n: nat, c: LlConfig)
    requires m <= n && !Rounds(g, tab, h, m, c).1.Continue?
    ensures Rounds(g, tab, h, n, c) == Rounds(g, tab, h, m, c)
  {
    hide Round;
    if m > 0 {
      var (c', status) := Round(g, tab, h, c);
      if status.Continue? {
        MoreRounds(g, tab, h, m - 1, n - 1, c');
      }
    }
  }

  /** `r` is the value of a derivation of a prefix of the input; end markers are derived at its very end only. */
  ghost predicate IsParse(g: Grammar, start: nat, h: Hooks, consumed: seq<byte>, atEnd: bool, vals: Vals) {
    exists t, ends ::
      && IsDerivation(g, t) && Root(t) == Nt(start)
      && Yield(t) == Chars(consumed) + Ends(ends)
      && (ends > 0 ==> atEnd)
      && |vals| == 1 && Value(g, h, t, 0) == Some(vals[0])
  }

  lemma CompleteIsParse(g: Grammar, start: nat, h: Hooks, c: LlConfig, z: Zipper, text: seq<byte>, ends: nat)
    requires Sound(g, start, h, c, z, text, ends) && c.stack == []
    ensures IsParse(g, start, h, text, c.input.overrun && c.input.lastChunk, c.vals)
  {
    hide IsDerivation, Value, Yield, Chars, Ends;
    StackTop(g, start, h, c, z, text, ends);
    assert |Roots(z.kids)| == |Roots(z.kids) + [] + z.rest| == 1;
    var t := z.kids[0];
    assert z.kids == [] + [t];
    assert Root(t) == (Roots(z.kids) + [] + z.rest)[0];
    AllValuesSnoc(g, h, [], t, 0);
    EmptyFrame(g, h, 0);
    EmptyWidth();
    assert [] + Yield(t) == Yield(t) && [] + Yields([t]) == Yields([t]);
    assert Yield(t) == Chars(text) + Ends(ends);
  }

  class Driver {
    const g: Grammar
    const tab: Table
    const hooks: Hooks
    const start: nat
    var stack: seq<Entry>
    /** The values of the production being matched; None once the parse has failed. */
    var vals: Option<Vals>
    ghost var z: Zipper
    ghost var text: seq<byte>
    ghost var ends: nat

    ghost function Now(input: Stream): LlConfig
      requires vals.Some?
      reads this
    {
      LlConfig(stack, vals.value, input)
    }

    ghost predicate Valid(input: Stream)
      reads this
    {
      Fits(g, start, tab) && (vals.Some? ==> Sound(g, start, hooks, Now(input), z, text, ends) && Rowed(g, tab, stack))
    }

    constructor (g: Grammar, tab: Table, hooks: Hooks, start: nat, ghost input: Stream)
      requires Fits(g, start, tab) && input.pos == input.index == 0 && !input.overrun
      ensures Valid(input) && stack == [Sym(Nt(start))] && vals == Some([])
      ensures this.g == g && this.tab == tab && this.hooks == hooks && this.start == start
      ensures text == [] && ends == 0
    {
      this.g, this.tab, this.hooks, this.start := g, tab, hooks, start;
      stack, vals := [Sym(Nt(start))], Some([]);
      z, text, ends := Bottom([], [Nt(start)]), [], 0;
      new;
      hide ClosedUnder;
      EmptyFrame(g, hooks, 0);
      assert Roots([]) + [] + [Nt(start)] == [Nt(start)];
      assert Syms([Nt(start)]) + [] == [Sym(Nt(start))];
      assert Chars([]) + Ends(0) == [] && [] + Yields([]) == [];
    }

    /** The symbols of a production, the first one on top. */
    method PushProduction(p: seq<Symbol>)
      modifies this`stack
      ensures stack == Syms(p) + old(stack)
    {
      var i := |p|;
      while i > 0
        invariant 0 <= i <= |p| && stack == Syms(p[i..]) + old(stack)
      {
        i := i - 1;
        assert Syms(p[i..]) == [Sym(p[i])] + Syms(p[i + 1..]);
        stack := [Sym(p[i])] + stack;
      }
      assert p[0..] == p;
    }

    /** Open a frame for the production the lookahead selects. */
    method PredictNext(id: nat, stream: Stream) returns (status: Status)
      requires vals.Some? && id in tab && ValidStream(stream)
      modifies this`stack, this`vals
      ensures var (c', st) := Predict(tab, id, LlConfig([Sym(Nt(id))] + old(stack), old(vals).value, stream), LlConfig(old(stack), old(vals).value, stream));
        status == st && stack == c'.stack && vals == if st == NoParse then None else Some(c'.vals)
    {
      // look up the applicable production in the parse table
      var p := GetLookahead(tab[id], stream);
      if p == Found(None) {
        vals := None;
        return NoParse;
      } else if p == NeedInput {
        stack := [Sym(Nt(id))] + stack; // try this symbol again next time
        return OutOfInput;
      }
      // push a stack frame
      stack := [Saved(vals.value)] + stack; // save the current partial value
      stack := [Sym(Nt(id))] + stack; // save the nonterminal
      stack := [Mark] + stack; // frame delimiter
      assert stack == [Mark, Sym(Nt(id)), Saved(vals.value)] + old(stack);
      vals := Some([]);
      PushProduction(p.value.value);
      assert stack == Syms(p.value.value) + [Mark, Sym(Nt(id)), Saved(old(vals).value)] + old(stack);
      status := Continue;
    }

    /** One turn of the loop. */
    method Turn(stream: Stream) returns (after: Stream, status: Status)
      requires Valid(stream) && vals.Some? && stack != []
      modifies this`stack, this`vals
      ensures var (c', st) := Round(g, tab, hooks, old(Now(stream)));
        status == st && after == c'.input && stack == c'.stack && vals == if st == NoParse then None else Some(c'.vals)
    {
      hide Sound, Fits, Finish, Predict, Rowed;
      StackTop(g, start, hooks, Now(stream), z, text, ends);
      RowExists(g, tab, stack);
      assert ValidStream(stream);
      var x := stack[0]; // pop the top of the stack for inspection
      stack := stack[1..];
      after, status := stream, Continue;
      if x.Sym? && x.x.Nt? && x.x.id < |g| && g[x.x.id].ChoiceRule? {
        assert [x] + stack == old(stack);
        status := PredictNext(x.x.id, stream);
        return;
      }
      var tok: Option<Option<Token>>;
      if x.Mark? {
        // wrap the accumulated result; recover the nonterminal and the values before it
        var nt, saved := stack[0].x.id, stack[1].vals;
        tok := Finish(hooks, nt, Token(TtSequence(vals.value), 0));
        stack, vals := stack[2..], Some(saved);
      } else {
        var index := Position(stream);
        var input;
        input, after := ReadByte(stream).0, ReadByte(stream).1;
        if x.x == End {
          if !after.overrun {
            vals := None;
            return after, NoParse;
          } else if !after.lastChunk {
            stack := [x] + stack;
            return after, OutOfInput;
          }
          tok := Some(None);
        } else {
          if after.overrun {
            if after.lastChunk {
              vals := None;
              return after, NoParse;
            }
            stack := [x] + stack;
            return after, OutOfInput;
          }
          if !Matches(g, x.x, input) {
            vals := None;
            return after, NoParse;
          }
          tok := if x.x.Nt? then Finish(hooks, x.x.id, Token(TtUint(input), index)) else Some(Some(Token(TtUint(input), index)));
        }
      }
      if tok == None {
        vals := None; // validation failed
        return after, NoParse;
      }
      vals := Some(vals.value + [tok.value]);
    }

    /** Run until the stack is empty, the parse fails, or more input is needed.  The buffer that carries lookahead
        over chunk boundaries is not modelled; one byte of lookahead or a single chunk does not use it.
        `n` bounds the rounds; such a bound exists for every run that ends. */
    method ParseChunk(chunk: Stream, ghost n: nat) returns (stream: Stream, status: Status)
      requires Valid(chunk) && vals.Some?
      requires !Rounds(g, tab, hooks, n, Now(chunk)).1.Continue?
      modifies this
      ensures Valid(stream) && old(text) <= text && stream.input == chunk.input && stream.pos == chunk.pos && stream.lastChunk == chunk.lastChunk
      ensures var (c', st) := Rounds(g, tab, hooks, n, old(Now(chunk)));
        status == st && stream == c'.input && stack == c'.stack && vals == if st == NoParse then None else Some(c'.vals)
      ensures status.Complete? <==> vals.Some? && stack == []
    {
      hide Round, Sound, Fits, Rowed;
      stream, status := chunk, Continue;
      ghost var i := 0;
      while vals.Some? && stack != [] && status == Continue
        invariant i <= n && Valid(stream) && old(text) <= text
        invariant var (c', st) := Rounds(g, tab, hooks, i, old(Now(chunk)));
          status == st && stream == c'.input && stack == c'.stack && vals == if st == NoParse then None else Some(c'.vals)
        invariant status != Complete && (status == OutOfInput ==> stack != [])
        invariant stream.input == chunk.input && stream.pos == chunk.pos && stream.lastChunk == chunk.lastChunk
        decreases n - i
      {
        ghost var c := Now(stream);
        OneMoreRound(g, tab, hooks, i, old(Now(chunk)));
        RoundStream(g, tab, hooks, c);
        RoundRowed(g, start, tab, hooks, c);
        stream, status := Turn(stream);
        if status == Continue {
          ghost var z', text', ends' := RoundKeeps(g, start, tab, hooks, c, z, text, ends);
          z, text, ends := z', text', ends';
        } else if status == OutOfInput {
          StarvedKeeps(g, start, tab, hooks, c, z, text, ends);
        }
        if i == n {
          assert false;
        }
        i := i + 1;
      }
      if status == Continue {
        // when we empty the stack, the parse is complete
        OneMoreRound(g, tab, hooks, i, old(Now(chunk)));
        EmptyStack(g, tab, hooks, Now(stream));
        status := Complete;
        i := i + 1;
      }
      MoreRounds(g, tab, hooks, i, n, old(Now(chunk)));
    }
  }

  lemma EmptyStack(g: Grammar, tab: Table, h: Hooks, c: LlConfig)
    ensures c.stack == [] ==> Round(g, tab, h, c) == (c, Complete)
    ensures c.stack != [] ==> Round(g, tab, h, c).1 != Complete
  {
  }

  lemma RoundStream(g: Grammar, tab: Table, h: Hooks, c: LlConfig)
    ensures var c' := Round(g, tab, h, c).0;
      c'.input.input == c.input.input && c'.input.pos == c.input.pos && c'.input.lastChunk == c.input.lastChunk
    ensures c.stack != [] ==> Round(g, tab, h, c).1 != Complete
  {
    hide Finish;
  }

  /** Without the byte it needs the driver stays where it is. */
  lemma StarvedKeeps(g: Grammar, start: nat, tab: Table, h: Hooks, c: LlConfig, z: Zipper, text: seq<byte>, ends: nat)
    requires Sound(g, start, h, c, z, text, ends) && Round(g, tab, h, c).1 == OutOfInput
    ensures Sound(g, start, h, Round(g, tab, h, c).0, z, text, ends) && Round(g, tab, h, c).0.stack != []
  {
    hide Finish, Spine, Text, StackOf, ValsOf;
  }

  /** The nonterminals on the stack have rows. */
  ghost predicate Rowed(g: Grammar, tab: Table, stack: seq<Entry>) {
    forall k :: 0 <= k < |stack| && stack[k].Sym? ==> Covered(g, tab.Keys, stack[k].x)
  }

  lemma RowExists(g: Grammar, tab: Table, stack: seq<Entry>)
    requires Rowed(g, tab, stack) && stack != []
    ensures stack[0].Sym? && stack[0].x.Nt? && IsChoice(g, stack[0].x.id) ==> stack[0].x.id in tab
  {
  }

  lemma RoundRowed(g: Grammar, start: nat, tab: Table, h: Hooks, c: LlConfig)
    requires Fits(g, start, tab) && Rowed(g, tab, c.stack)
    ensures Rowed(g, tab, Round(g, tab, h, c).0.stack)
  {
    hide Finish, Matches, Lookahead, IsProduction;
    if c.stack != [] && c.stack[0].Sym? && c.stack[0].x.Nt? && IsChoice(g, c.stack[0].x.id) {
      PredictRowed(g, start, tab, c.stack[0].x.id, c);
    }
  }

  lemma PredictRowed(g: Grammar, start: nat, tab: Table, id: nat, c: LlConfig)
    requires Fits(g, start, tab) && Rowed(g, tab, c.stack) && c.stack != [] && c.stack[0] == Sym(Nt(id)) && IsChoice(g, id)
    ensures Rowed(g, tab, Predict(tab, id, c, c.(stack := c.stack[1..])).0.stack)
  {
    hide Lookahead, IsProduction;
    if Predict(tab, id, c, c.(stack := c.stack[1..])).1.Continue? {
      var ahead := c.input.input[c.input.index..];
      var p := Lookahead(tab[id], ahead, c.input.lastChunk).value.value;
      var k := LookaheadFinds(tab[id], ahead, c.input.lastChunk);
      assert IsProduction(g, id, p);
      assert Covered(g, tab.Keys, Nt(id));
    }
  }
}
