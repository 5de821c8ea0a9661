/** What the predictive parser does with a sentence: it walks along a derivation tree as long as the lookups find the
    productions of the tree. */
module LlSentences {
  import opened Basics
  import opened ByteStream
  import opened Chunking
  import opened Grammar
  import opened Languages
  import opened LlDriver
  import opened LlParse
  import opened Nullable
  import opened StringMap
  import opened Texts

  // ----- runs of rounds

  lemma {:induction false} RoundsOn(g: Grammar, tab: Table, h: Hooks, m: nat, n: nat, c: LlConfig)
    requires Rounds(g, tab, h, m, c).1.Continue?
    ensures Rounds(g, tab, h, m + n, c) == Rounds(g, tab, h, n, Rounds(g, tab, h, m, c).0)
    decreases m
  {
    hide Round;
    if m > 0 {
      RoundsOn(g, tab, h, m - 1, n, Round(g, tab, h, c).0);
    }
  }

  lemma RoundsOnce(g: Grammar, tab: Table, h: Hooks, c: LlConfig)
    ensures Rounds(g, tab, h, 1, c) == Round(g, tab, h, c)
  {
    hide Round;
    OneMoreRound(g, tab, h, 0, c);
  }

  // ----- the fate of a tree

  /** The parser passes the tree, rejects it, or goes astray with another production. */
  datatype Fate = Passes | Fails | Strays

  /** What becomes of a tree behind which `rest` is still to come; it begins at `at`. */
  ghost function FateOf(g: Grammar, tab: Table, h: Hooks, t: Tree, rest: seq<Symbol>, at: nat): Fate
    decreases t, 0, 0
  {
    match t
    case Leaf(_) => Passes
    case Node(nt, kids) =>
      if nt < |g| && g[nt].CharsetRule? then if Value(g, h, t, at) == None then Fails else Passes
      else if nt !in tab then Fails
      else
        var r := Lookahead(tab[nt], BytesOf(Yield(t) + rest), true);
        if r == Found(None) then Fails
        else if r != Found(Some(Roots(kids))) then Strays
        else
          var f := FateAll(g, tab, h, kids, 0, rest, at);
          if f.Passes? && Value(g, h, t, at) == None then Fails else f
  }

  /** The trees from the `i`-th on. */
  ghost function FateAll(g: Grammar, tab: Table, h: Hooks, kids: seq<Tree>, i: nat, rest: seq<Symbol>, at: nat): Fate
    decreases kids, 1, |kids| - i
  {
    if i >= |kids| then Passes
    else
      var f := FateOf(g, tab, h, kids[i], Yields(kids[i + 1..]) + rest, at + Width(Yields(kids[..i])));
      if f.Passes? then FateAll(g, tab, h, kids, i + 1, rest, at) else f
  }

  // ----- the walk

  /** A stream that shows the whole input, read up to `at`. */
  ghost predicate On(input: Stream, text: seq<byte>, at: nat) {
    && input.input == text && input.pos == 0 && input.index == at <= |text| && input.lastChunk
    && (input.overrun ==> at == |text|)
  }

  /** Where a tree has been passed, its value is the last one, its bytes have been read, and its symbol is gone. */
  ghost predicate Walked(g: Grammar, tab: Table, h: Hooks, t: Tree, c: LlConfig, stack: seq<Entry>, text: seq<byte>, at: nat, fate: Fate, n: nat) {
    var (c', status) := Rounds(g, tab, h, n, c);
    match fate
    case Passes =>
      var v := Value(g, h, t, at);
      v.Some? && status.Continue? && c'.stack == stack && c'.vals == c.vals + [v.value] && On(c'.input, text, at + Width(Yield(t)))
    case Fails => status.NoParse?
    case Strays => true
  }

  lemma WalkLeaf(g: Grammar, tab: Table, h: Hooks, x: Symbol, c: LlConfig, stack: seq<Entry>, text: seq<byte>, at: nat, rest: seq<Symbol>)
    requires !x.Nt? && c.stack == [Sym(x)] + stack && On(c.input, text, at) && Left(text, at, [x] + rest)
    ensures Walked(g, tab, h, Leaf(x), c, stack, text, at, Passes, 1)
  {
    hide Left;
    LeftNext(text, at, x, rest);
    RoundsOnce(g, tab, h, c);
    assert c.stack[1..] == stack;
    OneWidth(x);
  }

  lemma WalkCharset(g: Grammar, tab: Table, h: Hooks, t: Tree, c: LlConfig, stack: seq<Entry>, text: seq<byte>, at: nat, rest: seq<Symbol>)
    requires IsDerivation(g, t) && t.Node? && g[t.nt].CharsetRule? && c.stack == [Sym(Root(t))] + stack
    requires On(c.input, text, at) && Left(text, at, Yield(t) + rest)
    ensures Walked(g, tab, h, t, c, stack, text, at, if Value(g, h, t, at) == None then Fails else Passes, 1)
  {
    hide Left, Finish;
    var kid := t.kids[0];
    assert t.kids == [kid] && Root(kid) == Roots(t.kids)[0];
    assert IsDerivation(g, kid);
    assert t.kids[..0] == [] && Yields(t.kids) == [] + Yield(kid) == [kid.sym];
    LeftNext(text, at, kid.sym, rest);
    RoundsOnce(g, tab, h, c);
    OneWidth(kid.sym);
    assert c.stack[1..] == stack;
  }

  /** The same for all kids, with their values in the frame. */
  ghost predicate WalkedAll(g: Grammar, tab: Table, h: Hooks, kids: seq<Tree>, c: LlConfig, stack: seq<Entry>, text: seq<byte>, at: nat, fate: Fate, n: nat) {
    var (c', status) := Rounds(g, tab, h, n, c);
    match fate
    case Passes =>
      var vs := AllValues(g, h, kids, at);
      vs.Some? && status.Continue? && c'.stack == stack && c'.vals == vs.value && On(c'.input, text, at + Width(Yields(kids)))
    case Fails => status.NoParse?
    case Strays => true
  }

  lemma {:induction false} WalkTree(g: Grammar, tab: Table, h: Hooks, t: Tree, c: LlConfig, stack: seq<Entry>, text: seq<byte>, at: nat, rest: seq<Symbol>)
    returns (n: nat)
    requires IsDerivation(g, t) && c.stack == [Sym(Root(t))] + stack
    requires On(c.input, text, at) && Left(text, at, Yield(t) + rest)
    ensures Walked(g, tab, h, t, c, stack, text, at, FateOf(g, tab, h, t, rest, at), n)
    decreases t, 0, 0
  {
    hide Left, Finish, FateAll, Lookahead, Yield, Yields, Width, Walked, Rounds, On;
    if t.Leaf? {
      n := 1;
      assert Yield(t) == [t.sym] by { LeafYield(t.sym); }
      WalkLeaf(g, tab, h, t.sym, c, stack, text, at, rest);
    } else if g[t.nt].CharsetRule? {
      n := 1;
      WalkCharset(g, tab, h, t, c, stack, text, at, rest);
    } else {
      LeftBytes(text, at, Yield(t) + rest);
      var r := if t.nt in tab then Lookahead(tab[t.nt], text[at..], true) else Found(None);
      if r == Found(None) {
        n := 1;
        WalkNowhere(g, tab, h, t, c, stack, text, at);
      } else if r == Found(Some(Roots(t.kids))) {
        WalkDown(g, tab, h, t, c, stack, text, at);
        var frame := [Mark, Sym(Nt(t.nt)), Saved(c.vals)] + stack;
        var c1 := LlConfig(Syms(Roots(t.kids)) + frame, [], c.input);
        NodeYield(t.nt, t.kids);
        FirstKid(g, h, t.kids, frame, at, rest);
        assert On(c1.input, text, at + Width(Yields(t.kids[..0])));
        var m := WalkAll(g, tab, h, t.kids, 0, c1, frame, text, at, rest);
        n := WalkUp(g, tab, h, t, c, c1, stack, text, at, FateAll(g, tab, h, t.kids, 0, rest, at), m);
      } else {
        n := 0;
        assert Walked(g, tab, h, t, c, stack, text, at, Strays, n) by { Straying(g, tab, h, t, c, stack, text, at, n); }
      }
    }
  }

  lemma Straying(g: Grammar, tab: Table, h: Hooks, t: Tree, c: LlConfig, stack: seq<Entry>, text: seq<byte>, at: nat, n: nat)
    ensures Walked(g, tab, h, t, c, stack, text, at, Strays, n)
  {
  }

  lemma FirstKid(g: Grammar, h: Hooks, kids: seq<Tree>, frame: seq<Entry>, at: nat, rest: seq<Symbol>)
    ensures Syms(Roots(kids[0..])) + frame == Syms(Roots(kids)) + frame && AllValues(g, h, kids[..0], at) == Some([])
    ensures Width(Yields(kids[..0])) == 0 && Yields(kids[0..]) == Yields(kids)
  {
    assert kids[0..] == kids && kids[..0] == [];
  }

  /** The lookup finds nothing. */
  lemma WalkNowhere(g: Grammar, tab: Table, h: Hooks, t: Tree, c: LlConfig, stack: seq<Entry>, text: seq<byte>, at: nat)
    requires t.Node? && t.nt < |g| && g[t.nt].ChoiceRule? && c.stack == [Sym(Root(t))] + stack && On(c.input, text, at)
    requires t.nt in tab ==> Lookahead(tab[t.nt], text[at..], true) == Found(None)
    ensures Walked(g, tab, h, t, c, stack, text, at, Fails, 1)
  {
    hide Lookahead;
    RoundsOnce(g, tab, h, c);
  }

  /** The lookup finds the production of the tree. */
  lemma WalkDown(g: Grammar, tab: Table, h: Hooks, t: Tree, c: LlConfig, stack: seq<Entry>, text: seq<byte>, at: nat)
    requires t.Node? && t.nt < |g| && g[t.nt].ChoiceRule? && c.stack == [Sym(Root(t))] + stack && On(c.input, text, at)
    requires t.nt in tab && Lookahead(tab[t.nt], text[at..], true) == Found(Some(Roots(t.kids)))
    ensures Rounds(g, tab, h, 1, c) ==
      (LlConfig(Syms(Roots(t.kids)) + ([Mark, Sym(Nt(t.nt)), Saved(c.vals)] + stack), [], c.input), Continue)
  {
    hide Lookahead;
    RoundsOnce(g, tab, h, c);
    assert c.stack[1..] == stack;
    assert Syms(Roots(t.kids)) + [Mark, Sym(Nt(t.nt)), Saved(c.vals)] + stack == Syms(Roots(t.kids)) + ([Mark, Sym(Nt(t.nt)), Saved(c.vals)] + stack);
  }

  /** Behind the kids the frame is closed. */
  lemma WalkUp(g: Grammar, tab: Table, h: Hooks, t: Tree, c: LlConfig, c1: LlConfig, stack: seq<Entry>, text: seq<byte>, at: nat, fate: Fate, m: nat)
    returns (n: nat)
    requires t.Node? && t.nt < |g| && g[t.nt].ChoiceRule? && Rounds(g, tab, h, 1, c) == (c1, Continue)
    requires WalkedAll(g, tab, h, t.kids, c1, [Mark, Sym(Nt(t.nt)), Saved(c.vals)] + stack, text, at, fate, m)
    ensures Walked(g, tab, h, t, c, stack, text, at, if fate.Passes? && Value(g, h, t, at) == None then Fails else fate, n)
  {
    hide Finish, Rounds, AllValues;
    RoundsOn(g, tab, h, 1, m, c);
    n := 1 + m;
    if fate.Passes? {
      var c2 := Rounds(g, tab, h, m, c1).0;
      RoundsOn(g, tab, h, 1 + m, 1, c);
      RoundsOnce(g, tab, h, c2);
      n := 1 + m + 1;
      assert c2.stack[1..][2..] == stack;
    }
  }

  lemma {:induction false} WalkAll(g: Grammar, tab: Table, h: Hooks, kids: seq<Tree>, i: nat, c: LlConfig, stack: seq<Entry>, text: seq<byte>, at: nat, rest: seq<Symbol>)
    returns (n: nat)
    requires i <= |kids| && c.stack == Syms(Roots(kids[i..])) + stack && AllValues(g, h, kids[..i], at) == Some(c.vals)
    requires On(c.input, text, at + Width(Yields(kids[..i]))) && Left(text, at + Width(Yields(kids[..i])), Yields(kids[i..]) + rest)
    requires forall k :: 0 <= k < |kids| ==> IsDerivation(g, kids[k])
    ensures WalkedAll(g, tab, h, kids, c, stack, text, at, FateAll(g, tab, h, kids, i, rest, at), n)
    decreases kids, 1, |kids| - i
  {
    hide Left, Finish, FateOf, Yield, Yields, Width, Value, AllValues, Rounds, On, Walked, IsDerivation;
    if i == |kids| {
      n := 0;
      NoRounds(g, tab, h, c);
      assert kids[..i] == kids && Syms(Roots(kids[i..])) == [];
    } else {
      var t, at' := kids[i], at + Width(Yields(kids[..i]));
      NextKid(kids, i, rest);
      NextSyms(kids, i, stack);
      assert c.stack == [Sym(Root(t))] + (Syms(Roots(kids[i + 1..])) + stack);
      var m := WalkTree(g, tab, h, t, c, Syms(Roots(kids[i + 1..])) + stack, text, at', Yields(kids[i + 1..]) + rest);
      var fate := FateOf(g, tab, h, t, Yields(kids[i + 1..]) + rest, at');
      if fate.Passes? {
        WalkedOn(g, tab, h, kids, i, c, stack, text, at, m);
        var c1 := Rounds(g, tab, h, m, c).0;
        LeftAfter(text, at', Yield(t), Yields(kids[i + 1..]) + rest);
        var k := WalkAll(g, tab, h, kids, i + 1, c1, stack, text, at, rest);
        RoundsOn(g, tab, h, m, k, c);
        n := m + k;
      } else {
        n := m;
        WalkedOff(g, tab, h, t, kids, c, Syms(Roots(kids[i + 1..])) + stack, stack, text, at', at, fate, n);
      }
    }
  }

  lemma NoRounds(g: Grammar, tab: Table, h: Hooks, c: LlConfig)
    ensures Rounds(g, tab, h, 0, c) == (c, Continue)
  {
  }

  lemma WalkedOff(g: Grammar, tab: Table, h: Hooks, t: Tree, kids: seq<Tree>, c: LlConfig, stack: seq<Entry>, stack': seq<Entry>, text: seq<byte>,
                  at: nat, at': nat, fate: Fate, n: nat)
    requires Walked(g, tab, h, t, c, stack, text, at, fate, n) && !fate.Passes?
    ensures WalkedAll(g, tab, h, kids, c, stack', text, at', fate, n)
  {
    hide Rounds;
  }

  lemma NextSyms(kids: seq<Tree>, i: nat, stack: seq<Entry>)
    requires i < |kids|
    ensures Syms(Roots(kids[i..])) + stack == [Sym(Root(kids[i]))] + (Syms(Roots(kids[i + 1..])) + stack)
  {
    var tail := kids[i..];
    assert Roots(tail) == [Root(kids[i])] + Roots(kids[i + 1..]);
    assert Syms(Roots(tail)) == [Sym(Root(kids[i]))] + Syms(Roots(kids[i + 1..]));
  }

  lemma WalkedOn(g: Grammar, tab: Table, h: Hooks, kids: seq<Tree>, i: nat, c: LlConfig, stack: seq<Entry>, text: seq<byte>, at: nat, m: nat)
    requires i < |kids| && AllValues(g, h, kids[..i], at) == Some(c.vals)
    requires Walked(g, tab, h, kids[i], c, Syms(Roots(kids[i + 1..])) + stack, text, at + Width(Yields(kids[..i])), Passes, m)
    ensures var (c1, status) := Rounds(g, tab, h, m, c);
      && status.Continue? && c1.stack == Syms(Roots(kids[i + 1..])) + stack && AllValues(g, h, kids[..i + 1], at) == Some(c1.vals)
      && On(c1.input, text, at + Width(Yields(kids[..i + 1])))
  {
    hide Yield, Yields, Width, Rounds, Value, AllValues, On;
    NextKid(kids, i, []);
    AllValuesSnoc(g, h, kids[..i], kids[i], at);
    assert kids[..i + 1] == kids[..i] + [kids[i]];
  }

  /** The whole input: the parser returns the value of the tree if it passes it, and nothing if it rejects it. */
  lemma SentenceParsed(g: Grammar, start: nat, tab: Table, h: Hooks, t: Tree, text: seq<byte>, ends: nat) returns (n: nat)
    requires IsDerivation(g, t) && Root(t) == Nt(start) && Yield(t) == Chars(text) + Ends(ends)
    ensures var (c, status) := Rounds(g, tab, h, n, WholeInput(start, text));
      match FateOf(g, tab, h, t, [], 0)
      case Passes => !status.Continue? && Value(g, h, t, 0).Some? && LlResult(PointOf(c, status)) == Some(Result(Value(g, h, t, 0).value, 8 * |text|))
      case Fails => !status.Continue? && LlResult(PointOf(c, status)) == None
      case Strays => true
  {
    hide Yield, Yields, Rounds, Value, FateOf, IsDerivation;
    var c := WholeInput(start, text);
    assert text[0..] == text && Yield(t) + [] == Yield(t);
    assert c.stack == [Sym(Root(t))] + [];
    assert Left(text, 0, Yield(t) + []);
    n := WalkTree(g, tab, h, t, c, [], text, 0, []);
    if FateOf(g, tab, h, t, [], 0).Passes? {
      TextWidthOf(text, ends);
      RoundsOn(g, tab, h, n, 1, c);
      RoundsOnce(g, tab, h, Rounds(g, tab, h, n, c).0);
      assert Rounds(g, tab, h, n + 1, c).1 == Complete;
      n := n + 1;
    }
  }
}
