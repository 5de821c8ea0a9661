/** The packrat backend.  Whenever direct evaluation of a parser ends, the memoising parser has the same result. */
module Packrat {
  import opened Basics
  import opened Bits
  import opened BitReader
  import opened BitLaws
  import opened Combinators
  import opened Matching

  datatype Key = Key(parser: nat, s: Input)

  /** A result, or the mark of a parse in progress. */
  datatype CacheValue = Left(rule: nat, s: Input) | Right(res: Res, s: Input)

  type Cache = map<Key, CacheValue>

  predicate InProgress(cache: Cache, k: Key) {
    k in cache && cache[k].Left?
  }

  /** Results are those of direct evaluation; what is in progress cannot be told with the bound `n`. */
  ghost predicate CacheOk(g: seq<Parser>, cache: Cache, n: nat) {
    && (forall k :: k in cache && cache[k].Right? ==> Known(g, k, Out(cache[k].res, cache[k].s)))
    && (forall k :: InProgress(cache, k) ==> Direct(g, n, k.parser, k.s) == None)
  }

  ghost predicate Known(g: seq<Parser>, k: Key, out: Out) {
    exists n :: Direct(g, n, k.parser, k.s) == Some(out)
  }

  /** Entries are not lost, and the same parses are in progress. */
  ghost predicate Grown(old0: Cache, new0: Cache) {
    old0.Keys <= new0.Keys && forall k :: InProgress(old0, k) <==> InProgress(new0, k)
  }

  lemma {:induction false} CacheOkLess(g: seq<Parser>, cache: Cache, n: nat, m: nat)
    requires CacheOk(g, cache, n) && m <= n
    ensures CacheOk(g, cache, m)
  {
    hide Direct;
    forall k | InProgress(cache, k) ensures Direct(g, m, k.parser, k.s) == None {
      if Direct(g, m, k.parser, k.s).Some? {
        DirectStable(g, m, n, k.parser, k.s);
        assert false;
      }
    }
  }

  /** A cache that grew at a smaller bound is fit for the larger one as well. */
  lemma CacheOkAgain(g: seq<Parser>, cache: Cache, cache': Cache, n: nat, m: nat)
    requires CacheOk(g, cache, n) && CacheOk(g, cache', m) && Grown(cache, cache')
    ensures CacheOk(g, cache', n)
  {
    hide Direct;
  }

  /** The least bound that suffices. */
  lemma {:induction false} LeastBound(g: seq<Parser>, n: nat, id: nat, s: Input) returns (m: nat)
    requires Direct(g, n, id, s).Some?
    ensures 0 < m <= n && Direct(g, m, id, s) == Direct(g, n, id, s) && Direct(g, m - 1, id, s) == None
    decreases n
  {
    hide Raw;
    if Direct(g, n - 1, id, s) == None {
      m := n;
    } else {
      DirectUnique(g, n - 1, n, id, s);
      m := LeastBound(g, n - 1, id, s);
    }
  }

  lemma Begun(g: seq<Parser>, cache: Cache, n: nat, m: nat, k: Key)
    requires CacheOk(g, cache, n) && m <= n && Direct(g, m, k.parser, k.s) == None
    ensures CacheOk(g, cache[k := Left(k.parser, k.s)], m)
  {
    hide Direct;
    CacheOkLess(g, cache, n, m);
  }

  lemma Finished(g: seq<Parser>, cache: Cache, begun: Cache, cache': Cache, n: nat, m: nat, k: Key, out: Out)
    requires CacheOk(g, cache, n) && CacheOk(g, cache', m) && Grown(begun, cache') && !InProgress(cache, k)
    requires begun == cache || begun == cache[k := Left(k.parser, k.s)]
    requires Direct(g, n, k.parser, k.s) == Some(out)
    ensures var done := cache'[k := Right(out.res, out.s)]; CacheOk(g, done, n) && Grown(cache, done)
  {
    hide Direct;
    var done := cache'[k := Right(out.res, out.s)];
    forall j ensures InProgress(cache, j) <==> InProgress(done, j) {
      if j != k {
        assert InProgress(begun, j) <==> InProgress(cache', j);
      }
    }
    forall j | j in done && done[j].Right? ensures Known(g, j, Out(done[j].res, done[j].s)) {
      assert j != k ==> Known(g, j, Out(cache'[j].res, cache'[j].s));
    }
  }

  class ParseState {
    const g: seq<Parser>
    var cache: Cache
    var inputStream: Input
    var lrStack: seq<nat>
    /** Heads of growing left recursions, by position; there are none without left recursion. */
    var recursionHeads: map<Input, nat>

    ghost predicate Valid(n: nat)
      reads this
    {
      recursionHeads == map[] && CacheOk(g, cache, n)
    }

    constructor (g: seq<Parser>, input: Input)
      ensures this.g == g && cache == map[] && inputStream == input && lrStack == [] && recursionHeads == map[]
    {
      this.g, cache, inputStream, lrStack, recursionHeads := g, map[], input, [], map[];
    }

    /** `recall`: nothing is special about a position that has no head. */
    method Recall(k: Key) returns (cached: Option<CacheValue>)
      requires recursionHeads == map[]
      ensures cached == if k in cache then Some(cache[k]) else None
    {
      cached := if k in cache then Some(cache[k]) else None;
      if k.s in recursionHeads {
        assert false;
      }
    }

    /** `h_do_parse`. */
    method DoParse(id: nat, ghost n: nat) returns (r: Res)
      requires Valid(n) && Direct(g, n, id, inputStream).Some?
      modifies this
      ensures Valid(n) && Grown(old(cache), cache) && lrStack == old(lrStack)
      ensures Direct(g, n, id, old(inputStream)) == Some(Out(r, inputStream)) && Admits(g, id, old(inputStream), Out(r, inputStream))
      decreases n, 0
    {
      hide Direct, Raw, CacheOk, Admits;
      AdmitsExactly(g, id, inputStream, Direct(g, n, id, inputStream).value);
      DirectInside(g, n, id, inputStream);
      var key := Key(id, inputStream);
      NotInProgress(g, cache, n, key);
      var m := None;
      if g[id].Higher() {
        m := Recall(key);
      }
      ghost var cache0 := cache;
      if m == None {
        ghost var least := LeastBound(g, n, id, inputStream);
        if g[id].Higher() {
          // cache a dummy result
          lrStack := [id] + lrStack;
          Begun(g, cache, n, least - 1, key);
          cache := cache[key := Left(id, inputStream)];
        } else {
          CacheOkLess(g, cache, n, least - 1);
        }
        ghost var begun := cache;
        DirectIsGuarded(g, least, id, inputStream);
        r := Perform(g[id], least - 1);
        ghost var cache1 := cache;
        if g[id].Higher() {
          lrStack := lrStack[1..];
          // update the cached value to our new position
          cache := cache[key := cache[key].(s := inputStream)];
        }
        Finished(g, cache0, begun, cache1, n, least - 1, key, Out(r, inputStream));
        cache := cache[key := Right(r, inputStream)];
        assert cache == cache1[key := Right(r, inputStream)];
      } else {
        // it exists
        Recalled(g, cache, n, key);
        inputStream := m.value.s;
        if m.value.Left? {
          assert false; // left recursion
        } else {
          r := m.value.res;
        }
      }
    }

    /** `perform_lowlevel_parse`: overrun is always failure. */
    method Perform(p: Parser, ghost n: nat) returns (r: Res)
      requires Valid(n) && Raw(g, n, p, inputStream).Some?
      modifies this
      ensures Valid(n) && Grown(old(cache), cache) && lrStack == old(lrStack)
      ensures Guarded(Raw(g, n, p, old(inputStream)).value) == Out(r, inputStream)
      decreases n, 9
    {
      hide Direct, Raw, CacheOk;
      r := Parse(p, n);
      if inputStream.overrun {
        r := Fail;
      }
    }

    /** The `parse` function of a parser. */
    method Parse(p: Parser, ghost n: nat) returns (r: Res)
      requires Valid(n) && Raw(g, n, p, inputStream).Some?
      modifies this
      ensures Valid(n) && Grown(old(cache), cache) && lrStack == old(lrStack)
      ensures Raw(g, n, p, old(inputStream)) == Some(Out(r, inputStream))
      decreases n, 8
    {
      hide Direct, CacheOk, NextByte, Next, TokenFrom, SkipSpace, Reorder, InSequence, FirstOf, Picked, Repeat, PermTail, PermTry;
      match p
      case Ch(c) => r := ParseCh(c);
      case Charset(chars) => r := ParseCharset(chars);
      case BytesToken(str) => r := ParseToken(str);
      case BitField(length, signed) => r := ParseBits(length, signed);
      case End => r := if inputStream.index == |inputStream.input| then Ok(None) else Fail;
      case Epsilon => r := Ok(None);
      case Nothing => r := Fail;
      case Sequence(ps) => r := ParseSequence(ps, n);
      case Choice(ps) => r := ParseChoice(ps, n);
      case Many(_, _, _, _) => r := ParseMany(p, n);
      case Optional(q) => r := ParseOptional(q, n);
      case Whitespace(q) => r := ParseWhitespace(q, n);
      case Ignore(q) => r := ParseIgnore(q, n);
      case IgnoreSeq(ps, which) => r := ParseIgnoreSeq(ps, which, n);
      case And(q) => r := ParseAnd(q, n);
      case Not(q) => r := ParseNot(q, n);
      case Xor(q1, q2) => r := ParseXor(q1, q2, n);
      case Indirect(q) => r := DoParse(q, n);
      case AttrBool(q, pred) => r := ParseAttrBool(q, pred, n);
      case Action(q, action) => r := ParseAction(q, action, n);
      case WithEndianness(order, q) => r := ParseEndianness(order, q, n);
      case Permutation(ps) => r := ParsePermutation(ps, n);
    }

    // ----- parsers without children

    method ReadByte() returns (b: byte)
      modifies this`inputStream
      ensures (b, inputStream) == NextByte(old(inputStream))
    {
      var v, s := ReadBits(inputStream, 8, false);
      b, inputStream := v % 256, s;
    }

    method ParseCh(c: byte) returns (r: Res)
      modifies this`inputStream
      ensures Raw(g, 0, Ch(c), old(inputStream)) == Some(Out(r, inputStream))
    {
      hide NextByte;
      var b := ReadByte();
      r := if c == b then Ok(Tok(TtUint(b))) else Fail;
    }

    method ParseCharset(chars: set<byte>) returns (r: Res)
      modifies this`inputStream
      ensures Raw(g, 0, Charset(chars), old(inputStream)) == Some(Out(r, inputStream))
    {
      hide NextByte;
      var b := ReadByte();
      r := if b in chars then Ok(Tok(TtUint(b))) else Fail;
    }

    method ParseToken(str: seq<byte>) returns (r: Res)
      modifies this`inputStream
      ensures Out(r, inputStream) == TokenFrom(str, str, old(inputStream))
    {
      hide NextByte;
      assert str[0..] == str;
      for i := 0 to |str|
        invariant TokenFrom(str[i..], str, inputStream) == TokenFrom(str, str, old(inputStream))
      {
        assert str[i..][1..] == str[i + 1..];
        var c := ReadByte();
        if str[i] != c {
          return Fail;
        }
      }
      r := Ok(Tok(TtBytes(str)));
    }

    method ParseBits(length: width, signed: bool) returns (r: Res)
      modifies this`inputStream
      ensures Raw(g, 0, BitField(length, signed), old(inputStream)) == Some(Out(r, inputStream))
    {
      hide Read, ValidInput;
      var v, s := ReadBits(inputStream, length, signed);
      inputStream := s;
      r := Ok(Tok(if signed then TtSint(v) else TtUint(if v < 0 then v % Pow2(64) else v)));
    }

    // ----- combinators

    method ParseSequence(ps: seq<nat>, ghost n: nat) returns (r: Res)
      requires Valid(n) && InSequence(g, n, ps, [], inputStream).Some?
      modifies this
      ensures Valid(n) && Grown(old(cache), cache) && lrStack == old(lrStack)
      ensures InSequence(g, n, ps, [], old(inputStream)) == Some(Out(r, inputStream))
      decreases n, 5
    {
      hide Direct, CacheOk;
      var acc: seq<Option<Token>> := [];
      assert ps[0..] == ps;
      for i := 0 to |ps|
        invariant Valid(n) && Grown(old(cache), cache) && lrStack == old(lrStack)
        invariant InSequence(g, n, ps[i..], acc, inputStream) == InSequence(g, n, ps, [], old(inputStream))
      {
        assert ps[i..][1..] == ps[i + 1..];
        var tmp := DoParse(ps[i], n);
        // if the interim parse fails, the whole thing fails
        if tmp.Fail? {
          return Fail;
        }
        if tmp.ast.Some? {
          acc := acc + [tmp.ast];
        }
      }
      r := Ok(Tok(TtSequence(acc)));
    }

    method ParseChoice(ps: seq<nat>, ghost n: nat) returns (r: Res)
      requires Valid(n) && FirstOf(g, n, ps, inputStream, inputStream).Some?
      modifies this
      ensures Valid(n) && Grown(old(cache), cache) && lrStack == old(lrStack)
      ensures FirstOf(g, n, ps, old(inputStream), old(inputStream)) == Some(Out(r, inputStream))
      decreases n, 5
    {
      hide Direct, CacheOk;
      var backup := inputStream;
      assert ps[0..] == ps;
      for i := 0 to |ps|
        invariant Valid(n) && Grown(old(cache), cache) && lrStack == old(lrStack)
        invariant FirstOf(g, n, ps[i..], backup, inputStream) == FirstOf(g, n, ps, backup, backup)
        invariant i == 0 ==> inputStream == backup
      {
        assert ps[i..][1..] == ps[i + 1..];
        if i != 0 {
          inputStream := backup;
        }
        var tmp := DoParse(ps[i], n);
        if tmp.Ok? {
          return tmp;
        }
      }
      // nothing succeeded, so fail
      r := Fail;
    }

    method ParseIgnoreSeq(ps: seq<nat>, which: nat, ghost n: nat) returns (r: Res)
      requires Valid(n) && Picked(g, n, ps, which, Fail, inputStream).Some?
      modifies this
      ensures Valid(n) && Grown(old(cache), cache) && lrStack == old(lrStack)
      ensures Picked(g, n, ps, which, Fail, old(inputStream)) == Some(Out(r, inputStream))
      decreases n, 5
    {
      hide Direct, CacheOk, Picked;
      r := Fail;
      assert ps[0..] == ps;
      ghost var left := which;
      for i := 0 to |ps|
        invariant Valid(n) && Grown(old(cache), cache) && lrStack == old(lrStack)
        invariant if i <= which then left == which - i else left >= |ps| - i
        invariant Picked(g, n, ps[i..], left, r, inputStream) == Picked(g, n, ps, which, Fail, old(inputStream))
      {
        assert ps[i..][1..] == ps[i + 1..];
        PickedStep(g, n, ps[i..], left, r, inputStream);
        var tmp := DoParse(ps[i], n);
        if tmp.Fail? {
          return Fail;
        } else if i == which {
          r := tmp;
        }
        left := if left == 0 then |ps| - i else left - 1;
      }
      PickedStep(g, n, ps[|ps|..], left, r, inputStream);
    }

    method ParseMany(p: Parser, ghost n: nat) returns (r: Res)
      requires p.Many? && Valid(n) && Repeat(g, n, p.p, p.sep, p.count, p.minP, 0, [], inputStream).Some?
      modifies this
      ensures Valid(n) && Grown(old(cache), cache) && lrStack == old(lrStack)
      ensures Repeat(g, n, p.p, p.sep, p.count, p.minP, 0, [], old(inputStream)) == Some(Out(r, inputStream))
      decreases n, 5
    {
      hide Direct, CacheOk, Repeat;
      var acc: seq<Option<Token>> := [];
      var count := 0;
      ghost var m: nat := n;
      ghost var whole := Repeat(g, n, p.p, p.sep, p.count, p.minP, 0, [], inputStream);
      while p.minP || p.count > count
        invariant m <= n && Valid(m) && Grown(old(cache), cache) && lrStack == old(lrStack)
        invariant Repeat(g, m, p.p, p.sep, p.count, p.minP, count, acc, inputStream) == whole
        decreases m
      {
        RepeatStep(g, m, p, count, acc, inputStream);
        var bak := inputStream;
        var failed := false;
        if count > 0 && p.sep.Some? {
          var sep := DoParse(p.sep.value, m);
          failed := sep.Fail?;
        }
        var elem := Fail;
        if !failed {
          elem := DoParse(p.p, m);
        }
        if elem.Fail? {
          inputStream := bak;
          CacheOkAgain(g, old(cache), cache, n, m);
          if count >= p.count {
            return Ok(Tok(TtSequence(acc)));
          }
          return Fail;
        }
        if elem.ast.Some? {
          acc := acc + [elem.ast];
        }
        count := count + 1;
        m := m - 1;
        CacheOkLess(g, cache, m + 1, m);
      }
      RepeatStep(g, m, p, count, acc, inputStream);
      CacheOkAgain(g, old(cache), cache, n, m);
      r := Ok(Tok(TtSequence(acc)));
    }

    method ParseOptional(q: nat, ghost n: nat) returns (r: Res)
      requires Valid(n) && Direct(g, n, q, inputStream).Some?
      modifies this
      ensures Valid(n) && Grown(old(cache), cache) && lrStack == old(lrStack)
      ensures Raw(g, n, Optional(q), old(inputStream)) == Some(Out(r, inputStream))
      decreases n, 5
    {
      hide Direct, CacheOk;
      var bak := inputStream;
      r := DoParse(q, n);
      if r.Fail? {
        inputStream := bak;
        r := Ok(Tok(TtNone));
      }
    }

    method ParseWhitespace(q: nat, ghost n: nat) returns (r: Res)
      requires Valid(n) && Direct(g, n, q, SkipSpace(inputStream)).Some?
      modifies this
      ensures Valid(n) && Grown(old(cache), cache) && lrStack == old(lrStack)
      ensures Direct(g, n, q, SkipSpace(old(inputStream))) == Some(Out(r, inputStream))
      decreases n, 5
    {
      hide Direct, CacheOk, NextByte, Unread;
      var bak := inputStream;
      var c;
      var more := true;
      while more
        invariant more ==> SkipSpace(inputStream) == SkipSpace(old(inputStream))
        invariant !more ==> bak == SkipSpace(old(inputStream))
        invariant cache == old(cache) && lrStack == old(lrStack) && recursionHeads == old(recursionHeads)
        decreases more, |Unread(inputStream)|
      {
        bak := inputStream;
        ReadTakes(inputStream);
        c := ReadByte();
        more := !inputStream.overrun && IsSpace(c);
      }
      inputStream := bak;
      r := DoParse(q, n);
    }

    method ParseIgnore(q: nat, ghost n: nat) returns (r: Res)
      requires Valid(n) && Direct(g, n, q, inputStream).Some?
      modifies this
      ensures Valid(n) && Grown(old(cache), cache) && lrStack == old(lrStack)
      ensures Raw(g, n, Ignore(q), old(inputStream)) == Some(Out(r, inputStream))
      decreases n, 5
    {
      hide Direct, CacheOk;
      r := DoParse(q, n);
      if r.Ok? {
        r := Ok(None);
      }
    }

    method ParseAnd(q: nat, ghost n: nat) returns (r: Res)
      requires Valid(n) && Direct(g, n, q, inputStream).Some?
      modifies this
      ensures Valid(n) && Grown(old(cache), cache) && lrStack == old(lrStack)
      ensures Raw(g, n, And(q), old(inputStream)) == Some(Out(r, inputStream))
      decreases n, 5
    {
      hide Direct, CacheOk;
      var bak := inputStream;
      r := DoParse(q, n);
      inputStream := bak;
      r := if r.Ok? then Ok(None) else Fail;
    }

    method ParseNot(q: nat, ghost n: nat) returns (r: Res)
      requires Valid(n) && Direct(g, n, q, inputStream).Some?
      modifies this
      ensures Valid(n) && Grown(old(cache), cache) && lrStack == old(lrStack)
      ensures Raw(g, n, Not(q), old(inputStream)) == Some(Out(r, inputStream))
      decreases n, 5
    {
      hide Direct, CacheOk;
      var bak := inputStream;
      r := DoParse(q, n);
      if r.Ok? {
        r := Fail;
      } else {
        inputStream := bak;
        r := Ok(None);
      }
    }

    method ParseXor(q1: nat, q2: nat, ghost n: nat) returns (r: Res)
      requires Valid(n) && Direct(g, n, q1, inputStream).Some? && Direct(g, n, q2, inputStream).Some?
      modifies this
      ensures Valid(n) && Grown(old(cache), cache) && lrStack == old(lrStack)
      ensures Raw(g, n, Xor(q1, q2), old(inputStream)) == Some(Out(r, inputStream))
      decreases n, 5
    {
      hide Direct, CacheOk;
      // cache the initial state of the input stream
      var startState := inputStream;
      var r1 := DoParse(q1, n);
      var afterP1State := inputStream;
      // reset the input stream, parse again
      inputStream := startState;
      var r2 := DoParse(q2, n);
      if r1.Fail? {
        r := r2;
      } else if r2.Fail? {
        inputStream := afterP1State;
        r := r1;
      } else {
        r := Fail;
      }
    }

    method ParseAttrBool(q: nat, pred: Option<Token> -> bool, ghost n: nat) returns (r: Res)
      requires Valid(n) && Direct(g, n, q, inputStream).Some?
      modifies this
      ensures Valid(n) && Grown(old(cache), cache) && lrStack == old(lrStack)
      ensures Raw(g, n, AttrBool(q, pred), old(inputStream)) == Some(Out(r, inputStream))
      decreases n, 5
    {
      hide Direct, CacheOk;
      r := DoParse(q, n);
      if r.Ok? && r.ast.Some? {
        if !pred(r.ast) {
          r := Fail;
        }
      } else {
        r := Fail;
      }
    }

    method ParseAction(q: nat, action: Option<Token> -> Option<Token>, ghost n: nat) returns (r: Res)
      requires Valid(n) && Direct(g, n, q, inputStream).Some?
      modifies this
      ensures Valid(n) && Grown(old(cache), cache) && lrStack == old(lrStack)
      ensures Raw(g, n, Action(q, action), old(inputStream)) == Some(Out(r, inputStream))
      decreases n, 5
    {
      hide Direct, CacheOk;
      r := DoParse(q, n);
      if r.Ok? {
        r := Ok(action(r.ast));
      }
    }

    /** `switch_bit_order`. */
    method SwitchBitOrder()
      modifies this`inputStream
      ensures inputStream == old(inputStream).(bitOffset := old(inputStream).margin, margin := old(inputStream).bitOffset)
    {
      inputStream := inputStream.(bitOffset := inputStream.margin, margin := inputStream.bitOffset);
    }

    method ParseEndianness(order: Order, q: nat, ghost n: nat) returns (r: Res)
      requires Valid(n) && Raw(g, n, WithEndianness(order, q), inputStream).Some?
      modifies this
      ensures Valid(n) && Grown(old(cache), cache) && lrStack == old(lrStack)
      ensures Raw(g, n, WithEndianness(order, q), old(inputStream)) == Some(Out(r, inputStream))
      decreases n, 5
    {
      hide Direct, CacheOk;
      var diff := OrderXor(inputStream.order, order);
      if diff == Order(false, false) {
        // all the same, nothing to do
        r := DoParse(q, n);
      } else {
        if diff.bitBig {
          SwitchBitOrder();
        }
        inputStream := inputStream.(order := OrderXor(inputStream.order, diff));
        r := DoParse(q, n);
        inputStream := inputStream.(order := OrderXor(inputStream.order, diff));
        if diff.bitBig {
          SwitchBitOrder();
        }
      }
    }

    // ----- permutations

    method ParsePermutation(ps: seq<nat>, ghost n: nat) returns (r: Res)
      requires Valid(n) && Raw(g, n, Permutation(ps), inputStream).Some?
      modifies this
      ensures Valid(n) && Grown(old(cache), cache) && lrStack == old(lrStack)
      ensures Raw(g, n, Permutation(ps), old(inputStream)) == Some(Out(r, inputStream))
      decreases n, 5
    {
      hide Direct, CacheOk, PermTail;
      // the current set of available (not yet matched) parsers
      var active := new bool[|ps|](_ => true);
      var elems := new Option<Token>[|ps|](_ => None);
      assert active[..] == seq(|ps|, _ => true) && elems[..] == seq(|ps|, _ => None);
      var ok := PermutationTail(ps, elems, 0, active, n);
      r := if ok then Ok(Tok(TtSequence(elems[..]))) else Fail;
    }

    /** `parse_permutation_tail`. */
    method PermutationTail(ps: seq<nat>, elems: array<Option<Token>>, k: nat, active: array<bool>, ghost n: nat) returns (ok: bool)
      requires elems.Length == active.Length == |ps|
      requires Valid(n) && PermTail(g, n, ps, k, active[..], elems[..], inputStream).Some?
      modifies this, elems, active
      ensures Valid(n) && Grown(old(cache), cache) && lrStack == old(lrStack)
      ensures PermTail(g, n, ps, k, old(active[..]), old(elems[..]), old(inputStream)) == Some(PermOut(ok, active[..], elems[..], inputStream))
      decreases n, 2, if k < |ps| then |ps| - k else 0
    {
      hide Direct, CacheOk, PermTail, PermTry;
      PermTailIs(g, n, ps, k, active[..], elems[..], inputStream);
      // trivial base case
      if k >= |ps| {
        return true;
      }
      var bak := inputStream;
      // try available parsers as the first element of the tail
      for i := 0 to |ps|
        invariant Valid(n) && Grown(old(cache), cache) && lrStack == old(lrStack) && inputStream == bak
        invariant PermTry(g, n, ps, k, i, active[..], elems[..], bak) == PermTail(g, n, ps, k, old(active[..]), old(elems[..]), old(inputStream))
      {
        PermTryIs(g, n, ps, k, i, active[..], elems[..], bak);
        if active[i] {
          ghost var elems0 := elems[..];
          var match0 := DoParse(ps[i], n);
          // save the result
          if match0.Ok? {
            elems[i] := match0.ast;
          }
          assert elems[..] == if match0.Ok? then elems0[i := match0.ast] else elems0;
          // treat empty optionals like failure here
          if match0.Ok? && !IsNone(match0.ast) {
            // remove the parser from the active set
            ghost var active0 := active[..];
            active[i] := false;
            assert active[..] == active0[i := false];
            // parse the rest of the permutation phrase
            var rest := PermutationTail(ps, elems, k + 1, active, n);
            if rest {
              return true;
            }
            // place the parser back in the active set and try the next
            ghost var active1 := active[..];
            active[i] := true;
            assert active[..] == active1[i := true];
          }
          inputStream := bak; // rewind
        }
      }
      PermTryIs(g, n, ps, k, |ps|, active[..], elems[..], bak);
      // if all available parsers were empty optionals, still succeed
      for i := 0 to |ps|
        invariant forall j :: 0 <= j < i && active[j] ==> IsNone(elems[j])
      {
        if active[i] && !IsNone(elems[i]) {
          return false;
        }
      }
      ok := true;
    }
  }

  /** `h_packrat_parse`: a fresh state, and the only outcome that the rules admit, provided that there is one. */
  method PackratParse(g: seq<Parser>, id: nat, input: Input) returns (r: Res, rest: Input)
    requires exists out :: Admits(g, id, input, out)
    ensures forall out :: Admits(g, id, input, out) <==> out == Out(r, rest)
  {
    hide Direct, Admits;
    ghost var only :| Admits(g, id, input, only);
    AdmitsExactly(g, id, input, only);
    ghost var n: nat :| Direct(g, n, id, input) == Some(only);
    var state := new ParseState(g, input);
    r := state.DoParse(id, n);
    rest := state.inputStream;
    forall out | Admits(g, id, input, out) ensures out == only {
      AdmitsOnce(g, id, input, out, only);
    }
  }

  lemma PickedStep(g: seq<Parser>, n: nat, ps: seq<nat>, which: nat, res: Res, s: Input)
    requires Picked(g, n, ps, which, res, s).Some?
    ensures ps == [] ==> Picked(g, n, ps, which, res, s) == Some(Out(res, s))
    ensures ps != [] ==> Direct(g, n, ps[0], s).Some?
    ensures ps != [] ==>
      var r := Direct(g, n, ps[0], s);
      Picked(g, n, ps, which, res, s) ==
        if r.value.res.Fail? then r
        else Picked(g, n, ps[1..], if which == 0 then |ps| else which - 1, if which == 0 then r.value.res else res, r.value.s)
  {
    hide Direct;
  }

  lemma DirectInside(g: seq<Parser>, n: nat, id: nat, s: Input)
    requires Direct(g, n, id, s).Some?
    ensures n > 0 && id < |g|
  {
  }

  lemma DirectIsGuarded(g: seq<Parser>, n: nat, id: nat, s: Input)
    requires Direct(g, n, id, s).Some?
    ensures n > 0 && id < |g| && Raw(g, n - 1, g[id], s).Some? && Direct(g, n, id, s) == Some(Guarded(Raw(g, n - 1, g[id], s).value))
  {
  }

  lemma NotInProgress(g: seq<Parser>, cache: Cache, n: nat, k: Key)
    requires CacheOk(g, cache, n) && Direct(g, n, k.parser, k.s).Some?
    ensures !InProgress(cache, k)
  {
  }

  lemma Recalled(g: seq<Parser>, cache: Cache, n: nat, k: Key)
    requires CacheOk(g, cache, n) && Direct(g, n, k.parser, k.s).Some? && k in cache
    ensures cache[k].Right? && Direct(g, n, k.parser, k.s) == Some(Out(cache[k].res, cache[k].s))
  {
    hide Direct;
    NotInProgress(g, cache, n, k);
    var m :| Direct(g, m, k.parser, k.s) == Some(Out(cache[k].res, cache[k].s));
    DirectUnique(g, m, n, k.parser, k.s);
  }
}
