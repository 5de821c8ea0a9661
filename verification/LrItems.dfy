/** LR(0) items, their closure, and the worklist that computes it. */
module LrItems {
  import opened Basics
  import opened Grammar

  datatype Item = Item(lhs: nat, rhs: seq<Symbol>, mark: nat)

  function AfterMark(it: Item): Option<Symbol> {
    if it.mark < |it.rhs| then Some(it.rhs[it.mark]) else None
  }

  ghost predicate IsItem(g: Grammar, it: Item) {
    it.mark <= |it.rhs| && IsProduction(g, it.lhs, it.rhs)
  }

  /** All items of the grammar; there are finitely many. */
  ghost function Universe(g: Grammar): (u: set<Item>)
    ensures forall it :: it in u <==> IsItem(g, it)
  {
    var choice := set a: nat, k: nat, m: nat | a < |g| && g[a].ChoiceRule? && k < |g[a].prods| && m <= |g[a].prods[k]|
                  :: Item(a, g[a].prods[k], m);
    var chars := set a: nat, c: byte, m: nat | a < |g| && g[a].CharsetRule? && c in g[a].chars && m <= 1
                 :: Item(a, [Char(c)], m);
    assert forall it :: IsItem(g, it) && g[it.lhs].CharsetRule? ==> it.rhs == [Char(it.rhs[0].c)];
    choice + chars
  }

  /** Everything that may start where `it` is about to read a nonterminal belongs to `s`. */
  ghost predicate Expanded(g: Grammar, s: set<Item>, it: Item) {
    AfterMark(it).Some? && AfterMark(it).value.Nt? ==>
      forall rhs :: IsProduction(g, AfterMark(it).value.id, rhs) ==> Item(AfterMark(it).value.id, rhs, 0) in s
  }

  ghost predicate Closed(g: Grammar, s: set<Item>) {
    forall it :: it in s ==> Expanded(g, s, it)
  }

  /** The least closed set around `s`. */
  ghost function Closure(g: Grammar, s: set<Item>): set<Item> {
    set it | it in Universe(g) + s && forall t :: s <= t && Closed(g, t) ==> it in t
  }

  lemma ClosureLeast(g: Grammar, s: set<Item>, r: set<Item>)
    requires s <= r && Closed(g, r) && r <= Universe(g) + s
    requires forall t :: s <= t && Closed(g, t) ==> r <= t
    ensures r == Closure(g, s)
  {
  }

  lemma ClosureProperties(g: Grammar, s: set<Item>)
    ensures s <= Closure(g, s) && Closed(g, Closure(g, s)) && Closure(g, s) <= Universe(g) + s
  {
    var c := Closure(g, s);
    forall it, rhs | it in c && AfterMark(it).Some? && AfterMark(it).value.Nt? && IsProduction(g, AfterMark(it).value.id, rhs)
      ensures Item(AfterMark(it).value.id, rhs, 0) in c
    {
      var added := Item(AfterMark(it).value.id, rhs, 0);
      assert added in Universe(g);
      forall t | s <= t && Closed(g, t) ensures added in t {
        assert Expanded(g, t, it);
      }
    }
  }

  /** An item of a closure that was not there before stands at the start of a production, and some
      item of the closure is about to read its left-hand side. */
  lemma ClosureOrigin(g: Grammar, s: set<Item>, it: Item) returns (from: Item)
    requires it in Closure(g, s) && it !in s
    ensures it.mark == 0 && from in Closure(g, s) && AfterMark(from) == Some(Nt(it.lhs))
  {
    hide Universe;
    var c := Closure(g, s);
    ClosureProperties(g, s);
    var t := set x | x in c && (x in s || (x.mark == 0 && exists y :: y in c && AfterMark(y) == Some(Nt(x.lhs))));
    forall x | x in t ensures Expanded(g, t, x) {
      assert Expanded(g, c, x);
    }
    assert it in t;
    from :| from in c && AfterMark(from) == Some(Nt(it.lhs));
  }

  /** The productions of a nonterminal as the expansion loops enumerate them: a charset contributes
      one single-byte production for every member, in increasing order. */
  function Productions(g: Grammar, id: nat): (ps: seq<seq<Symbol>>)
    requires id < |g|
    ensures forall rhs :: rhs in ps <==> IsProduction(g, id, rhs)
  {
    match g[id]
    case ChoiceRule(prods) => prods
    case CharsetRule(chars) =>
      CharProductionsComplete(chars);
      CharProductions(chars, 256)
  }

  function CharProductions(chars: set<byte>, n: nat): seq<seq<Symbol>>
    requires n <= 256
  {
    if n == 0 then []
    else CharProductions(chars, n - 1) + if n - 1 in chars then [[Char(n - 1)]] else []
  }

  lemma {:induction false} CharProductionsUpto(chars: set<byte>, n: nat, rhs: seq<Symbol>)
    requires n <= 256
    ensures rhs in CharProductions(chars, n) <==> |rhs| == 1 && rhs[0].Char? && rhs[0].c in chars && rhs[0].c < n
  {
    if n > 0 {
      CharProductionsUpto(chars, n - 1, rhs);
      assert rhs == [Char(n - 1)] <==> |rhs| == 1 && rhs[0] == Char(n - 1);
    }
  }

  lemma CharProductionsComplete(chars: set<byte>)
    ensures forall rhs: seq<Symbol> :: rhs in CharProductions(chars, 256) <==> |rhs| == 1 && rhs[0].Char? && rhs[0].c in chars
  {
    forall rhs: seq<Symbol> ensures rhs in CharProductions(chars, 256) <==> |rhs| == 1 && rhs[0].Char? && rhs[0].c in chars {
      CharProductionsUpto(chars, 256, rhs);
    }
  }

  /** Grow `items` to its closure.  New items of a charset read a byte next and need no further work. */
  method ExpandToClosure(g: Grammar, items: set<Item>) returns (r: set<Item>)
    requires Complete(g) && forall it :: it in items ==> IsItem(g, it)
    ensures r == Closure(g, items)
  {
    hide Universe, Productions, Closure;
    r := items;
    var work := ItemList(items);
    while work != []
      invariant items <= r <= Universe(g) && forall it :: it in work ==> it in r
      invariant forall it :: it in r ==> it in work || Expanded(g, r, it)
      invariant forall t :: items <= t && Closed(g, t) ==> r <= t
      decreases Universe(g) - r, |work|
    {
      var item := work[0];
      work := work[1..];
      ghost var r0 := r;
      var sym := AfterMark(item);
      if sym.Some? && sym.value.Nt? {
        assert IsItem(g, item);
        r, work := AddProductions(g, item, r, work);
      }
      assert forall it :: it in r0 && it != item && it !in work ==> Expanded(g, r0, it);
    }
    assert Closed(g, r);
    ClosureLeast(g, items, r);
  }

  method ItemList(items: set<Item>) returns (list: seq<Item>)
    ensures forall it :: it in list <==> it in items
  {
    list := [];
    var rest := items;
    while rest != {}
      invariant rest <= items && forall it :: it in list <==> it in items - rest
      decreases rest
    {
      var it :| it in rest;
      list, rest := [it] + list, rest - {it};
    }
  }

  /** The items for the symbol `item` is about to read; those of a choice that are new join the worklist. */
  method AddProductions(g: Grammar, item: Item, items: set<Item>, work: seq<Item>) returns (r: set<Item>, w: seq<Item>)
    requires Complete(g) && AfterMark(item).Some? && AfterMark(item).value.Nt? && AfterMark(item).value.id < |g|
    ensures items <= r && Expanded(g, r, item)
    ensures forall it :: it in r - items ==>
      it.lhs == AfterMark(item).value.id && it.mark == 0 && IsProduction(g, it.lhs, it.rhs)
    ensures |work| <= |w| && work == w[|w| - |work|..]
    ensures forall it :: it in w <==> it in work || (it in r - items && g[it.lhs].ChoiceRule?)
    ensures r == items ==> w == work
  {
    hide Productions;
    var id := AfterMark(item).value.id;
    var prods := Productions(g, id);
    r, w := items, work;
    for k := 0 to |prods|
      invariant items <= r && forall rhs :: rhs in prods[..k] ==> Item(id, rhs, 0) in r
      invariant forall it :: it in r - items ==> it.lhs == id && it.mark == 0 && it.rhs in prods
      invariant |work| <= |w| && work == w[|w| - |work|..]
      invariant forall it :: it in w <==> it in work || (it in r - items && g[it.lhs].ChoiceRule?)
      invariant r == items ==> w == work
    {
      var it := Item(id, prods[k], 0);
      if it !in r && g[id].ChoiceRule? {
        w := [it] + w;
      }
      r := r + {it};
    }
    assert prods[..|prods|] == prods;
  }
}
