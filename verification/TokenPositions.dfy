/** The tokens of a result: without reshaping and actions, its byte tokens from left to right are the bytes of the text
    parsed, every one at its position. */
module TokenPositions {
  import opened Basics
  import opened ByteStream
  import opened Grammar
  import LlDriver
  import LlParse
  import LrEngine
  import LrParse

  /** The byte tokens in a value, from left to right. */
  function Leaves(v: Option<Token>): seq<Token>
    decreases v, 1
  {
    if v == None then []
    else
      match v.value.kind
      case TtUint(_) => [v.value]
      case TtSequence(vals) => LeavesAll(vals)
      case _ => []
  }

  function LeavesAll(vals: seq<Option<Token>>): seq<Token>
    decreases vals, 0
  {
    if vals == [] then [] else LeavesAll(vals[..|vals| - 1]) + Leaves(vals[|vals| - 1])
  }

  /** Values are not changed: there may be validations. */
  ghost predicate Plain(h: Hooks) {
    h.reshape == map[] && h.action == map[]
  }

  /** A token for every byte. */
  function ByteTokens(text: seq<byte>): seq<Token> {
    seq(|text|, i requires 0 <= i < |text| => Token(TtUint(text[i]), i))
  }

  /** A token for every byte among the symbols, the first of which stands at position `at`. */
  function TokensOf(y: seq<Symbol>, at: nat): seq<Token> {
    if y == [] then []
    else
      var init, last := y[..|y| - 1], y[|y| - 1];
      TokensOf(init, at) + if last.Char? then [Token(TtUint(last.c), at + Width(init))] else []
  }

  lemma {:induction false} TokensConcat(a: seq<Symbol>, b: seq<Symbol>, at: nat)
    ensures TokensOf(a + b, at) == TokensOf(a, at) + TokensOf(b, at + Width(a))
    decreases |b|
  {
    if b == [] {
      assert a + b == a;
    } else {
      var init, last := b[..|b| - 1], b[|b| - 1];
      assert (a + b)[..|a + b| - 1] == a + init && (a + b)[|a + b| - 1] == last;
      TokensConcat(a, init, at);
      WidthConcat(a, init);
    }
  }

  lemma {:induction false} TextTokens(text: seq<byte>)
    ensures TokensOf(Chars(text), 0) == ByteTokens(text)
    decreases |text|
  {
    if text != [] {
      var init := text[..|text| - 1];
      assert Chars(text)[..|text| - 1] == Chars(init);
      TextTokens(init);
      WidthOfChars(init);
    }
  }

  lemma {:induction false} NoTokens(ends: nat, at: nat)
    ensures TokensOf(Ends(ends), at) == []
    decreases ends
  {
    if ends > 0 {
      assert Ends(ends)[..ends - 1] == Ends(ends - 1);
      NoTokens(ends - 1, at);
    }
  }

  lemma SentenceTokens(text: seq<byte>, ends: nat)
    ensures TokensOf(Chars(text) + Ends(ends), 0) == ByteTokens(text)
  {
    TokensConcat(Chars(text), Ends(ends), 0);
    TextTokens(text);
    NoTokens(ends, Width(Chars(text)));
  }

  lemma KidsTokens(kids: seq<Tree>, at: nat)
    requires kids != []
    ensures var init, last := kids[..|kids| - 1], kids[|kids| - 1];
      TokensOf(Yields(kids), at) == TokensOf(Yields(init), at) + TokensOf(Yield(last), at + Width(Yields(init)))
  {
    hide TokensOf, Yield, Width;
    TokensConcat(Yields(kids[..|kids| - 1]), Yield(kids[|kids| - 1]), at);
  }

  lemma LeafTokens(x: Symbol, at: nat)
    ensures TokensOf([x], at) == if x.Char? then [Token(TtUint(x.c), at)] else []
  {
    assert [x][..0] == [];
  }

  // ----- the shift/reduce parser

  lemma {:induction false} EvalLeaves(h: Hooks, t: Tree, at: nat)
    requires Plain(h) && LrEngine.Eval(h, t, at).Some?
    ensures Leaves(LrEngine.Eval(h, t, at).value) == TokensOf(Yield(t), at)
    decreases t, 1
  {
    hide TokensOf, LeavesAll, LrEngine.EvalAll, Yields, Width;
    if t.Leaf? {
      LeafTokens(t.sym, at);
    } else {
      EvalAllLeaves(h, t.kids, at);
    }
  }

  lemma {:induction false} EvalAllLeaves(h: Hooks, kids: seq<Tree>, at: nat)
    requires Plain(h) && LrEngine.EvalAll(h, kids, at).Some?
    ensures LeavesAll(LrEngine.EvalAll(h, kids, at).value) == TokensOf(Yields(kids), at)
    decreases kids, 0
  {
    hide TokensOf, Leaves, LrEngine.Eval, Yields, Width;
    if kids == [] {
      NoKidsTokens(at);
    } else {
      var init, last := kids[..|kids| - 1], kids[|kids| - 1];
      KidsTokens(kids, at);
      EvalAllLeaves(h, init, at);
      EvalLeaves(h, last, at + Width(Yields(init)));
    }
  }

  lemma NoKidsTokens(at: nat)
    ensures TokensOf(Yields([]), at) == []
  {
  }

  /** The byte tokens of a result of the shift/reduce parser. */
  lemma LrTokens(g: Grammar, start: nat, h: Hooks, text: seq<byte>, r: Result)
    requires LrParse.ParsesPrefix(g, start, h, text, r) && Plain(h)
    ensures r.bitLength / 8 <= |text| && Leaves(r.ast) == ByteTokens(text[..r.bitLength / 8])
  {
    hide LrEngine.Eval, Yield, IsDerivation, Leaves, ByteTokens;
    var k: nat :| r.bitLength == 8 * k && k <= |text| && LrEngine.IsParse(g, start, h, text[..k], k == |text|, r);
    var t, ends :| IsDerivation(g, t) && Root(t) == Nt(start) && Yield(t) == Chars(text[..k]) + Ends(ends) && LrEngine.Eval(h, t, 0) == Some(r.ast);
    EvalLeaves(h, t, 0);
    SentenceTokens(text[..k], ends);
  }

  // ----- the predictive parser

  lemma {:induction false} ValueLeaves(g: Grammar, h: Hooks, t: Tree, at: nat)
    requires Plain(h) && LlDriver.Value(g, h, t, at).Some?
    ensures Leaves(LlDriver.Value(g, h, t, at).value) == TokensOf(Yield(t), at)
    decreases t, 1
  {
    hide TokensOf, LeavesAll, LlDriver.AllValues, Yields, Width;
    if t.Leaf? {
      LeafTokens(t.sym, at);
    } else if t.nt < |g| && g[t.nt].CharsetRule? {
      OnlyKid(t.kids[0]);
      assert t.kids == [t.kids[0]];
      LeafTokens(t.kids[0].sym, at);
    } else {
      ValuesLeaves(g, h, t.kids, at);
    }
  }

  lemma OnlyKid(t: Tree)
    ensures Yields([t]) == Yield(t)
  {
    hide Yield;
    assert [t][..0] == [];
  }

  lemma {:induction false} ValuesLeaves(g: Grammar, h: Hooks, kids: seq<Tree>, at: nat)
    requires Plain(h) && LlDriver.AllValues(g, h, kids, at).Some?
    ensures LeavesAll(LlDriver.AllValues(g, h, kids, at).value) == TokensOf(Yields(kids), at)
    decreases kids, 0
  {
    hide TokensOf, Leaves, LlDriver.Value, Yields, Width;
    if kids == [] {
      NoKidsTokens(at);
    } else {
      var init, last := kids[..|kids| - 1], kids[|kids| - 1];
      KidsTokens(kids, at);
      ValuesLeaves(g, h, init, at);
      ValueLeaves(g, h, last, at + Width(Yields(init)));
    }
  }

  /** The byte tokens of a result of the predictive parser. */
  lemma LlTokens(g: Grammar, start: nat, h: Hooks, text: seq<byte>, r: Result)
    requires LlParse.ParsesPrefix(g, start, h, text, r) && Plain(h)
    ensures r.bitLength / 8 <= |text| && Leaves(r.ast) == ByteTokens(text[..r.bitLength / 8])
  {
    hide LlDriver.Value, Yield, IsDerivation, Leaves, ByteTokens;
    var k: nat :| r.bitLength == 8 * k && k <= |text| && LlDriver.IsParse(g, start, h, text[..k], k == |text|, [r.ast]);
    var t, ends :| IsDerivation(g, t) && Root(t) == Nt(start) && Yield(t) == Chars(text[..k]) + Ends(ends) && LlDriver.Value(g, h, t, 0) == Some(r.ast);
    ValueLeaves(g, h, t, 0);
    SentenceTokens(text[..k], ends);
  }
}
