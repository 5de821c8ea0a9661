/** Sentences as the bytes of a text, with end markers behind them at most, and what is left of a text. */
module Texts {
  import opened Basics
  import opened Grammar
  import opened Languages

  /** The symbols are those of a text, possibly with end markers behind it. */
  ghost predicate IsText(y: seq<Symbol>) {
    exists text, ends: nat :: y == Chars(text) + Ends(ends)
  }

  /** The bytes in front of the first end marker. */
  function BytesOf(y: seq<Symbol>): seq<byte> {
    if y == [] || !y[0].Char? then [] else [y[0].c] + BytesOf(y[1..])
  }

  lemma {:induction false} BytesOfText(text: seq<byte>, ends: nat)
    ensures BytesOf(Chars(text) + Ends(ends)) == text
    decreases |text|
  {
    var y := Chars(text) + Ends(ends);
    if text == [] {
      assert y == Ends(ends);
    } else {
      BytesOfText(text[1..], ends);
      assert y[1..] == Chars(text[1..]) + Ends(ends);
    }
  }

  /** What is left of the text. */
  ghost predicate Left(text: seq<byte>, at: nat, y: seq<Symbol>) {
    at <= |text| && exists ends: nat :: y == Chars(text[at..]) + Ends(ends)
  }

  lemma LeftNext(text: seq<byte>, at: nat, x: Symbol, rest: seq<Symbol>)
    requires Left(text, at, [x] + rest)
    ensures x.End? ==> at == |text| && Left(text, at, rest)
    ensures x.Char? ==> at < |text| && text[at] == x.c && Left(text, at + 1, rest)
    ensures !x.Nt?
  {
    var y := [x] + rest;
    var ends: nat :| y == Chars(text[at..]) + Ends(ends);
    assert y[0] == x && y[1..] == rest;
    if at < |text| {
      assert y[0] == Char(text[at]);
      assert rest == Chars(text[at + 1..]) + Ends(ends);
    } else {
      assert y == Ends(ends);
      assert rest == Ends(ends - 1) == Chars(text[at..]) + Ends(ends - 1);
    }
  }

  lemma {:induction false} LeftAfter(text: seq<byte>, at: nat, y: seq<Symbol>, rest: seq<Symbol>)
    requires Left(text, at, y + rest)
    ensures Left(text, at + Width(y), rest)
    decreases |y|
  {
    hide Left;
    if y == [] {
      assert y + rest == rest;
    } else {
      assert y + rest == [y[0]] + (y[1..] + rest);
      LeftNext(text, at, y[0], y[1..] + rest);
      WidthConcat([y[0]], y[1..]);
      assert [y[0]] + y[1..] == y && [y[0]][..0] == [];
      LeftAfter(text, if y[0].Char? then at + 1 else at, y[1..], rest);
    }
  }

  lemma OneWidth(x: Symbol)
    ensures Width([x]) == if x.Char? then 1 else 0
  {
    assert [x][..0] == [];
  }

  lemma LeftBytes(text: seq<byte>, at: nat, y: seq<Symbol>)
    requires Left(text, at, y)
    ensures at <= |text| && BytesOf(y) == text[at..]
  {
    var ends: nat :| y == Chars(text[at..]) + Ends(ends);
    BytesOfText(text[at..], ends);
  }

  lemma TextWidthOf(text: seq<byte>, ends: nat)
    ensures Width(Chars(text) + Ends(ends)) == |text|
  {
    WidthConcat(Chars(text), Ends(ends));
    WidthOfChars(text);
    WidthOfEnds(ends);
  }

  function NextOf(y: seq<Symbol>): Symbol {
    if y == [] then End else y[0]
  }

  lemma SplitYields(kids: seq<Tree>, i: nat)
    requires i < |kids|
    ensures Yields(kids) == Yields(kids[..i]) + Yield(kids[i]) + Yields(kids[i + 1..])
  {
    hide Yield, Yields;
    var tail := kids[i..];
    assert tail[0] == kids[i] && tail[1..] == kids[i + 1..];
    assert kids == kids[..i] + tail;
    YieldsConcat(kids[..i], tail);
    YieldsFront(tail);
    YieldsOfOne(kids[i]);
  }

  lemma LeafYield(x: Symbol)
    ensures Yield(Leaf(x)) == [x]
  {
  }

  lemma NodeYield(nt: nat, kids: seq<Tree>)
    ensures Yield(Node(nt, kids)) == Yields(kids)
  {
  }

  lemma NextKid(kids: seq<Tree>, i: nat, rest: seq<Symbol>)
    requires i < |kids|
    ensures Yields(kids[i..]) + rest == Yield(kids[i]) + (Yields(kids[i + 1..]) + rest)
    ensures Width(Yields(kids[..i + 1])) == Width(Yields(kids[..i])) + Width(Yield(kids[i]))
    ensures kids[..i + 1] == kids[..i] + [kids[i]] && Roots(kids[..i + 1]) == Roots(kids[..i]) + [Root(kids[i])]
  {
    hide Yield, Yields, Width;
    var tail := kids[i..];
    assert tail[0] == kids[i] && tail[1..] == kids[i + 1..];
    YieldsFront(tail);
    YieldsOfOne(kids[i]);
    assert kids[..i + 1] == kids[..i] + [kids[i]];
    YieldsConcat(kids[..i], [kids[i]]);
    WidthConcat(Yields(kids[..i]), Yield(kids[i]));
  }

  /** The text is derived from the start symbol, up to end markers behind it. */
  ghost predicate IsSentence(g: Grammar, start: nat, t: Tree, text: seq<byte>) {
    IsDerivation(g, t) && Root(t) == Nt(start) && exists ends: nat :: Yield(t) == Chars(text) + Ends(ends)
  }
}
