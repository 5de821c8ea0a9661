/** Context-free grammars in desugared form, and their derivation trees. */
module Grammar {
  import opened Basics

  /** The end-of-input marker, a byte, or a nonterminal named by its number. */
  datatype Symbol = End | Char(c: byte) | Nt(id: nat)

  /** A nonterminal is a list of alternative productions or a set of single bytes. */
  datatype Rule = ChoiceRule(prods: seq<seq<Symbol>>) | CharsetRule(chars: set<byte>)

  type Grammar = seq<Rule>

  ghost predicate IsProduction(g: Grammar, lhs: nat, rhs: seq<Symbol>) {
    && lhs < |g|
    && match g[lhs]
       case ChoiceRule(prods) => rhs in prods
       case CharsetRule(chars) => |rhs| == 1 && rhs[0].Char? && rhs[0].c in chars
  }

  /** Every nonterminal that occurs has a rule. */
  ghost predicate Complete(g: Grammar) {
    forall lhs: nat, rhs: seq<Symbol>, k :: IsProduction(g, lhs, rhs) && 0 <= k < |rhs| && rhs[k].Nt? ==> rhs[k].id < |g|
  }

  /** The start symbol has productions and occurs in none. */
  ghost predicate Augmented(g: Grammar, start: nat) {
    && start < |g| && g[start].ChoiceRule?
    && forall lhs: nat, rhs :: IsProduction(g, lhs, rhs) ==> Nt(start) !in rhs
  }

  // ----- derivation trees

  datatype Tree = Leaf(sym: Symbol) | Node(nt: nat, kids: seq<Tree>)

  function Root(t: Tree): Symbol {
    if t.Leaf? then t.sym else Nt(t.nt)
  }

  function Roots(ts: seq<Tree>): (r: seq<Symbol>)
    ensures |r| == |ts| && forall k :: 0 <= k < |ts| ==> r[k] == Root(ts[k])
  {
    seq(|ts|, k requires 0 <= k < |ts| => Root(ts[k]))
  }

  /** Leaves are terminals and every inner node applies a production. */
  ghost predicate IsDerivation(g: Grammar, t: Tree) {
    match t
    case Leaf(sym) => !sym.Nt?
    case Node(nt, kids) => IsProduction(g, nt, Roots(kids)) && forall k :: 0 <= k < |kids| ==> IsDerivation(g, kids[k])
  }

  /** The terminals at the leaves, in order. */
  function Yield(t: Tree): seq<Symbol>
    decreases t
  {
    match t
    case Leaf(sym) => [sym]
    case Node(_, kids) => Yields(kids)
  }

  function Yields(ts: seq<Tree>): seq<Symbol>
    decreases ts
  {
    if ts == [] then [] else Yields(ts[..|ts| - 1]) + Yield(ts[|ts| - 1])
  }

  lemma {:induction false} YieldsConcat(ts: seq<Tree>, us: seq<Tree>)
    ensures Yields(ts + us) == Yields(ts) + Yields(us)
    decreases |us|
  {
    hide Yield;
    if us == [] {
      assert ts + us == ts;
    } else {
      var init := us[..|us| - 1];
      assert (ts + us)[..|ts + us| - 1] == ts + init;
      YieldsConcat(ts, init);
    }
  }

  /** The number of bytes among some terminals. */
  function Width(syms: seq<Symbol>): nat {
    if syms == [] then 0 else Width(syms[..|syms| - 1]) + if syms[|syms| - 1].Char? then 1 else 0
  }

  lemma {:induction false} WidthConcat(a: seq<Symbol>, b: seq<Symbol>)
    ensures Width(a + b) == Width(a) + Width(b)
    decreases |b|
  {
    if b == [] {
      assert a + b == a;
    } else {
      assert (a + b)[..|a + b| - 1] == a + b[..|b| - 1];
      WidthConcat(a, b[..|b| - 1]);
    }
  }

  function Chars(bs: seq<byte>): (r: seq<Symbol>)
    ensures |r| == |bs| && forall k :: 0 <= k < |bs| ==> r[k] == Char(bs[k])
  {
    seq(|bs|, k requires 0 <= k < |bs| => Char(bs[k]))
  }

  function Ends(n: nat): (r: seq<Symbol>)
    ensures |r| == n && forall k :: 0 <= k < n ==> r[k] == End
  {
    seq(n, _ => End)
  }

  lemma {:induction false} WidthOfChars(text: seq<byte>)
    ensures Width(Chars(text)) == |text|
    decreases |text|
  {
    if text != [] {
      var init := text[..|text| - 1];
      WidthOfChars(init);
      assert Chars(text)[..|text| - 1] == Chars(init);
    }
  }

  lemma {:induction false} WidthOfEnds(n: nat)
    ensures Width(Ends(n)) == 0
  {
    if n > 0 {
      WidthOfEnds(n - 1);
      assert Ends(n)[..n - 1] == Ends(n - 1);
    }
  }

  // ----- semantic values

  /** The functions attached to a nonterminal; a missing key is a NULL pointer in the original. */
  datatype Hooks = Hooks(
    reshape: map<nat, Token -> Option<Token>>,
    pred: map<nat, Option<Token> -> bool>,
    action: map<nat, Option<Token> -> Option<Token>>)

  /** Reshape (keeping the position), validation, semantic action.  The outer None is a failed validation. */
  function Finish(h: Hooks, nt: nat, tok: Token): Option<Option<Token>> {
    var shaped :=
      if nt !in h.reshape then Some(tok)
      else
        var v := h.reshape[nt](tok);
        if v.Some? then Some(v.value.(index := tok.index)) else None;
    if nt in h.pred && !h.pred[nt](shaped) then None
    else Some(if nt in h.action then h.action[nt](shaped) else shaped)
  }
}
