/** Numbers as bit strings, and the way both bit orders and byte orders cut a number into bytes. */
module Bits {

  type Bit = bool

  // ----- shifts and masks

  /** `1 << n`. */
  function Pow2(n: nat): (r: nat)
    ensures r >= 1
  {
    if n == 0 then 1 else 2 * Pow2(n - 1)
  }

  lemma {:induction false} Pow2Sum(m: nat, n: nat)
    ensures Pow2(m + n) == Pow2(m) * Pow2(n)
    decreases m
  {
    if m > 0 {
      Pow2Sum(m - 1, n);
    }
  }

  /** `x << n`. */
  function Shl(x: nat, n: nat): nat {
    if n == 0 then x else 2 * Shl(x, n - 1)
  }

  /** `x >> n`. */
  function Shr(x: nat, n: nat): nat {
    if n == 0 then x else Shr(x / 2, n - 1)
  }

  /** `x & ((1 << n) - 1)`. */
  function Mask(x: nat, n: nat): (r: nat) {
    if n == 0 then 0 else x % 2 + 2 * Mask(x / 2, n - 1)
  }

  /** `a | b`. */
  function BitOr(a: nat, b: nat): nat {
    if a == 0 && b == 0 then 0 else (if a % 2 == 1 || b % 2 == 1 then 1 else 0) + 2 * BitOr(a / 2, b / 2)
  }

  /** A number is its high part shifted up, and its low part. */
  lemma {:induction false} HighAndLow(x: nat, n: nat)
    ensures x == Shl(Shr(x, n), n) + Mask(x, n) && Mask(x, n) < Pow2(n)
    ensures Shl(x, n) == x * Pow2(n)
    decreases n
  {
    if n > 0 {
      HighAndLow(x / 2, n - 1);
      HighAndLow(x, n - 1);
      assert x * Pow2(n) == 2 * (x * Pow2(n - 1));
    }
  }

  lemma {:induction false} ShlShl(x: nat, m: nat, n: nat)
    ensures Shl(Shl(x, m), n) == Shl(x, m + n)
    decreases n
  {
    if n > 0 {
      ShlShl(x, m, n - 1);
    }
  }

  lemma {:induction false} ShlAdd(x: nat, y: nat, n: nat)
    ensures Shl(x + y, n) == Shl(x, n) + Shl(y, n)
    decreases n
  {
    if n > 0 {
      ShlAdd(x, y, n - 1);
    }
  }

  lemma {:induction false} ShrShl(x: nat, m: nat, n: nat)
    requires n <= m
    ensures Shr(Shl(x, m), n) == Shl(x, m - n)
    decreases n
  {
    if n > 0 {
      assert Shl(x, m) / 2 == Shl(x, m - 1);
      ShrShl(x, m - 1, n - 1);
    }
  }

  lemma {:induction false} MaskMask(x: nat, m: nat, n: nat)
    requires n <= m
    ensures Mask(Mask(x, m), n) == Mask(x, n)
    decreases n
  {
    if n > 0 {
      assert Mask(x, m) / 2 == Mask(x / 2, m - 1);
      MaskMask(x / 2, m - 1, n - 1);
    }
  }

  lemma {:induction false} MaskSmall(x: nat, n: nat)
    requires x < Pow2(n)
    ensures Mask(x, n) == x
    decreases n
  {
    if n > 0 {
      MaskSmall(x / 2, n - 1);
    }
  }

  lemma {:induction false} BitOrZero(a: nat)
    ensures BitOr(a, 0) == a && BitOr(0, a) == a
  {
    if a > 0 {
      BitOrZero(a / 2);
    }
  }

  /** Patterns without common bits add up. */
  lemma {:induction false} BitOrDisjoint(a: nat, b: nat, k: nat)
    requires b < Pow2(k)
    ensures BitOr(Shl(a, k), b) == Shl(a, k) + b && BitOr(b, Shl(a, k)) == Shl(a, k) + b
    decreases k
  {
    if k == 0 {
      BitOrZero(a);
    } else {
      BitOrDisjoint(a, b / 2, k - 1);
      assert Shl(a, k) / 2 == Shl(a, k - 1);
    }
  }

  // ----- numbers and their bits

  /** The number with the given bits, lowest first. */
  function Val(bs: seq<Bit>): nat {
    if bs == [] then 0 else (if bs[0] then 1 else 0) + 2 * Val(bs[1..])
  }

  /** The `n` lowest bits of a number, lowest first. */
  function Low(x: nat, n: nat): (r: seq<Bit>)
    ensures |r| == n
  {
    if n == 0 then [] else [x % 2 == 1] + Low(x / 2, n - 1)
  }

  lemma {:induction false} ValBound(bs: seq<Bit>)
    ensures Val(bs) < Pow2(|bs|)
  {
    if bs != [] {
      ValBound(bs[1..]);
    }
  }

  lemma {:induction false} ValConcat(a: seq<Bit>, b: seq<Bit>)
    ensures Val(a + b) == Val(a) + Shl(Val(b), |a|)
  {
    if a == [] {
      assert a + b == b;
    } else {
      assert (a + b)[1..] == a[1..] + b;
      ValConcat(a[1..], b);
    }
  }

  /** Masking keeps the low bits, and a number below the mask is its bits. */
  lemma {:induction false} ValLow(x: nat, n: nat)
    ensures Val(Low(x, n)) == Mask(x, n) && (x < Pow2(n) ==> Val(Low(x, n)) == x)
    decreases n
  {
    if n > 0 {
      ValLow(x / 2, n - 1);
      assert Low(x, n)[1..] == Low(x / 2, n - 1);
    }
  }

  lemma {:induction false} LowVal(bs: seq<Bit>)
    ensures Low(Val(bs), |bs|) == bs
  {
    if bs != [] {
      LowVal(bs[1..]);
      assert Val(bs) / 2 == Val(bs[1..]);
    }
  }

  /** Bits of a shifted number. */
  lemma {:induction false} LowShr(x: nat, m: nat, n: nat)
    ensures Low(x, m + n) == Low(x, m) + Low(Shr(x, m), n)
    decreases m
  {
    if m == 0 {
      assert [] + Low(x, n) == Low(x, n);
    } else {
      LowShr(x / 2, m - 1, n);
    }
  }

  /** Masking a shifted number selects a run of its bits. */
  lemma MaskShr(x: nat, m: nat, n: nat, all: nat)
    requires m + n <= all
    ensures Mask(Shr(x, m), n) == Val(Low(x, all)[m..m + n])
  {
    hide Mask, Shr, Val, Low;
    LowShr(x, m, n);
    LowShr(x, m + n, all - m - n);
    ValLow(Shr(x, m), n);
    assert Low(x, all)[m..m + n] == Low(x, m + n)[m..];
  }

  function Reverse(bs: seq<Bit>): (r: seq<Bit>)
    ensures |r| == |bs| && forall k :: 0 <= k < |bs| ==> r[k] == bs[|bs| - 1 - k]
  {
    seq(|bs|, k requires 0 <= k < |bs| => bs[|bs| - 1 - k])
  }

  // ----- cutting the bits of a number into bytes

  /** The order in which bytes are assembled to numbers, and that of the bits within a byte. */
  datatype Order = Order(byteBig: bool, bitBig: bool)

  /** From the bits of a segment, lowest first, to the order of the stream, and back. */
  function Turn(bitBig: bool, bs: seq<Bit>): (r: seq<Bit>)
    ensures |r| == |bs|
  {
    if bitBig then Reverse(bs) else bs
  }

  lemma TurnTwice(bitBig: bool, bs: seq<Bit>)
    ensures Turn(bitBig, Turn(bitBig, bs)) == bs
  {
    assert Reverse(Reverse(bs)) == bs;
  }

  function Min(a: nat, b: nat): nat {
    if a <= b then a else b
  }

  /** The bits of a number, given lowest first, in the order of the stream when `w` bits are left in the first byte:
      the first byte holds the highest bits or the lowest ones. */
  function Scatter(o: Order, w: nat, low: seq<Bit>): (r: seq<Bit>)
    requires 1 <= w <= 8
    ensures |r| == |low|
    decreases |low|
  {
    if low == [] then []
    else
      var len, rest := Min(w, |low|), |low| - Min(w, |low|);
      if o.byteBig then Turn(o.bitBig, low[rest..]) + Scatter(o, 8, low[..rest])
      else Turn(o.bitBig, low[..len]) + Scatter(o, 8, low[len..])
  }

  /** The bits of a number, lowest first, from those of the stream. */
  function Gather(o: Order, w: nat, bs: seq<Bit>): (r: seq<Bit>)
    requires 1 <= w <= 8
    ensures |r| == |bs|
    decreases |bs|
  {
    if bs == [] then []
    else
      var len := Min(w, |bs|);
      if o.byteBig then Gather(o, 8, bs[len..]) + Turn(o.bitBig, bs[..len])
      else Turn(o.bitBig, bs[..len]) + Gather(o, 8, bs[len..])
  }

  lemma NothingScattered(o: Order, w: nat)
    requires 1 <= w <= 8
    ensures Scatter(o, w, []) == [] && Gather(o, w, []) == []
  {
  }

  /** The share of the first byte, and the rest. */
  lemma ScatterStep(o: Order, w: nat, w': nat, low: seq<Bit>, len: nat)
    requires 1 <= w <= 8 && 1 <= w' <= 8 && low != [] && len == Min(w, |low|) && (len == w ==> w' == 8)
    ensures Scatter(o, w, low) ==
      if o.byteBig then Turn(o.bitBig, low[|low| - len..]) + Scatter(o, w', low[..|low| - len])
      else Turn(o.bitBig, low[..len]) + Scatter(o, w', low[len..])
  {
    if len < w {
      assert low[..|low| - len] == [] && low[len..] == [];
    }
  }

  /** What is scattered is gathered again, whatever the orders and wherever in a byte it begins. */
  lemma {:induction false} GatherScatter(o: Order, w: nat, low: seq<Bit>)
    requires 1 <= w <= 8
    ensures Gather(o, w, Scatter(o, w, low)) == low
    decreases |low|
  {
    hide Turn, Gather, Scatter;
    if low == [] {
      NothingScattered(o, w);
    } else {
      var len, rest := Min(w, |low|), |low| - Min(w, |low|);
      ScatterStep(o, w, 8, low, len);
      if o.byteBig {
        GatherScatter(o, 8, low[..rest]);
        TurnTwice(o.bitBig, low[rest..]);
        GatherBack(o, w, Turn(o.bitBig, low[rest..]), Scatter(o, 8, low[..rest]));
        assert low[..rest] + low[rest..] == low;
      } else {
        GatherScatter(o, 8, low[len..]);
        TurnTwice(o.bitBig, low[..len]);
        GatherBack(o, w, Turn(o.bitBig, low[..len]), Scatter(o, 8, low[len..]));
        assert low[..len] + low[len..] == low;
      }
    }
  }

  lemma GatherBack(o: Order, w: nat, first: seq<Bit>, others: seq<Bit>)
    requires 1 <= w <= 8 && first != [] && |first| == Min(w, |first| + |others|)
    ensures Gather(o, w, first + others) ==
      if o.byteBig then Gather(o, 8, others) + Turn(o.bitBig, first) else Turn(o.bitBig, first) + Gather(o, 8, others)
  {
    hide Turn;
    var bs := first + others;
    assert bs[..|first|] == first && bs[|first|..] == others;
  }

  lemma {:induction false} ScatterGather(o: Order, w: nat, bs: seq<Bit>)
    requires 1 <= w <= 8
    ensures Scatter(o, w, Gather(o, w, bs)) == bs
    decreases |bs|
  {
    hide Turn;
    if bs != [] {
      var len := Min(w, |bs|);
      ScatterGather(o, 8, bs[len..]);
      TurnTwice(o.bitBig, bs[..len]);
      ScatterBack(o, w, Turn(o.bitBig, bs[..len]), Gather(o, 8, bs[len..]));
      assert bs[..len] + bs[len..] == bs;
    }
  }

  lemma ScatterBack(o: Order, w: nat, first: seq<Bit>, others: seq<Bit>)
    requires 1 <= w <= 8 && first != [] && |first| == Min(w, |first| + |others|)
    ensures Scatter(o, w, if o.byteBig then others + first else first + others) == Turn(o.bitBig, first) + Scatter(o, 8, others)
  {
    hide Turn;
    if o.byteBig {
      var low := others + first;
      assert low[|others|..] == first && low[..|others|] == others;
    } else {
      var low := first + others;
      assert low[..|first|] == first && low[|first|..] == others;
    }
  }

  /** With both orders alike, byte boundaries do not show. */
  lemma {:induction false} GatherAlike(o: Order, w: nat, bs: seq<Bit>)
    requires 1 <= w <= 8 && o.byteBig == o.bitBig
    ensures Gather(o, w, bs) == Turn(o.bitBig, bs)
    decreases |bs|
  {
    if bs != [] {
      var len := Min(w, |bs|);
      GatherAlike(o, 8, bs[len..]);
      assert bs[..len] + bs[len..] == bs;
      assert Reverse(bs) == Reverse(bs[len..]) + Reverse(bs[..len]);
    }
  }
}
