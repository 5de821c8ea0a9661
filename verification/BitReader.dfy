/** Reading bits from a stream of bytes. */
module BitReader {
  import opened Basics
  import opened Bits

  /** `HInputStream`, passed around as a value.  `bitOffset` bits of the current byte have been read, in the bit
      order of the stream, and its last `margin` bits are not to be read. */
  datatype InputStream = InputStream(input: seq<byte>, pos: nat, index: nat, bitOffset: nat, margin: nat,
                                     order: Order, overrun: bool, lastChunk: bool)

  /** The position lies within the input.  No more than 2^31 - 1 bytes remain: `h_read_bits` counts them in an int. */
  ghost predicate ValidInput(s: InputStream) {
    && s.index <= |s.input| && s.bitOffset + s.margin < 8
    && (s.index == |s.input| ==> s.bitOffset == s.margin == 0)
    && |s.input| - s.index < 0x8000_0000
  }

  /** `h_input_stream_pos`. */
  function StreamPos(s: InputStream): nat {
    s.index * 8 + s.bitOffset + s.margin
  }

  // ----- the bits that are still to be read

  function ByteBits(bitBig: bool, b: byte): (r: seq<Bit>)
    ensures |r| == 8
  {
    Turn(bitBig, Low(b, 8))
  }

  function AllBits(bitBig: bool, bytes: seq<byte>): (r: seq<Bit>)
    ensures |r| == 8 * |bytes|
  {
    if bytes == [] then [] else ByteBits(bitBig, bytes[0]) + AllBits(bitBig, bytes[1..])
  }

  function Window(s: InputStream): int {
    8 - s.bitOffset - s.margin
  }

  function Unread(s: InputStream): (r: seq<Bit>)
    requires s.index <= |s.input| && s.bitOffset + s.margin < 8
    ensures |r| == if s.index == |s.input| then 0 else 8 * (|s.input| - s.index) - s.bitOffset - s.margin
  {
    if s.index == |s.input| then []
    else ByteBits(s.order.bitBig, s.input[s.index])[s.bitOffset..8 - s.margin] + AllBits(s.order.bitBig, s.input[s.index + 1..])
  }

  /** The stream `n` bits further on. */
  function Advance(s: InputStream, n: nat): (r: InputStream)
    requires s.bitOffset + s.margin < 8
    ensures r.order == s.order
  {
    var w := 8 - s.bitOffset - s.margin;
    if n < w then s.(bitOffset := s.bitOffset + n)
    else s.(index := s.index + 1 + (n - w) / 8, bitOffset := (n - w) % 8, margin := 0)
  }

  // ----- what a read returns

  /** Two's complement of `count` bits. */
  function SignExtend(v: nat, count: nat): int {
    if count > 0 && v >= Pow2(count - 1) then v - Pow2(count) else v
  }

  /** The next `count` bits as a number.  When there are fewer, all that remain are read, as the high bits of the
      number if bytes are big-endian; an unsigned result of 64 bits comes back as a negative `int64_t` if its top bit is set. */
  function Read(s: InputStream, count: nat, signed: bool): (int, InputStream)
    requires s.index <= |s.input| && s.bitOffset + s.margin < 8
  {
    var n := Min(count, |Unread(s)|);
    var v := Val(Gather(s.order, Window(s), Unread(s)[..n]));
    var out := if s.order.byteBig then Shl(v, count - n) else v;
    (if signed || count == 64 then SignExtend(out, count) else out,
     Advance(s, n).(overrun := s.overrun || n < count))
  }

  // ----- reading one segment

  /** A run of the bits of a byte, in the order of the stream. */
  lemma TurnWindow(bitBig: bool, low: seq<Bit>, from: nat, len: nat)
    requires |low| == 8 && from + len <= 8
    ensures Turn(bitBig, Turn(bitBig, low)[from..from + len]) ==
      if bitBig then low[8 - from - len..8 - from] else low[from..from + len]
  {
    if bitBig {
      var run := Reverse(low)[from..from + len];
      forall k | 0 <= k < len ensures Reverse(run)[k] == low[8 - from - len + k] {
        assert Reverse(run)[k] == run[len - 1 - k];
      }
      assert Reverse(run) == low[8 - from - len..8 - from];
    }
  }

  /** The number formed by the bits read from the current byte. */
  lemma SegmentRead(s: InputStream, len: nat)
    requires ValidInput(s) && s.index < |s.input| && len <= Window(s)
    ensures var shift := if s.order.bitBig then 8 - s.bitOffset - len else s.bitOffset;
      Mask(Shr(s.input[s.index], shift), len) == Val(Turn(s.order.bitBig, Unread(s)[..len]))
  {
    hide Mask, Shr, Val, Low, Turn, AllBits;
    var b, big := s.input[s.index], s.order.bitBig;
    var shift := if big then 8 - s.bitOffset - len else s.bitOffset;
    MaskShr(b, shift, len, 8);
    TurnWindow(big, Low(b, 8), s.bitOffset, len);
    assert Unread(s)[..len] == ByteBits(big, b)[s.bitOffset..s.bitOffset + len];
  }

  /** The stream after these bits. */
  lemma SegmentGone(s: InputStream, len: nat)
    requires ValidInput(s) && s.index < |s.input| && len <= Window(s)
    ensures ValidInput(Advance(s, len)) && Unread(Advance(s, len)) == Unread(s)[len..]
  {
    hide ByteBits, AllBits;
    var big := s.order.bitBig;
    var s' := Advance(s, len);
    var window := ByteBits(big, s.input[s.index])[s.bitOffset..8 - s.margin];
    if len == Window(s) {
      AllBitsFront(s', big);
      assert Unread(s)[len..] == AllBits(big, s.input[s.index + 1..]);
    } else {
      var rest := AllBits(big, s.input[s.index + 1..]);
      assert window[len..] == ByteBits(big, s.input[s.index])[s.bitOffset + len..8 - s.margin];
      assert (window + rest)[len..] == window[len..] + rest;
    }
  }

  lemma AllBitsFront(s: InputStream, bitBig: bool)
    requires s.index <= |s.input| && s.bitOffset == s.margin == 0 && s.order.bitBig == bitBig
    ensures Unread(s) == AllBits(bitBig, s.input[s.index..])
  {
    hide ByteBits;
    if s.index < |s.input| {
      var rest := s.input[s.index..];
      assert rest[1..] == s.input[s.index + 1..];
      assert ByteBits(bitBig, rest[0])[0..8] == ByteBits(bitBig, rest[0]);
    }
  }

  lemma AdvanceTwice(s: InputStream, m: nat, n: nat)
    requires s.bitOffset + s.margin < 8
    ensures var t := Advance(s, m); t.bitOffset + t.margin < 8 && Advance(t, n) == Advance(s, m + n)
  {
  }

  /** The state of a read after some segments: `got` are the bits so far, lowest first. */
  ghost predicate Midway(s0: InputStream, n: nat, s: InputStream, count: nat, out: nat, got: seq<Bit>) {
    && ValidInput(s0) && n <= |Unread(s0)| && count <= n
    && ValidInput(s) && s == Advance(s0, n - count) && Unread(s) == Unread(s0)[n - count..]
    && |got| == n - count && out == Val(got)
    && Gather(s0.order, Window(s0), Unread(s0)[..n]) ==
       if s0.order.byteBig then Gather(s0.order, Window(s), Unread(s)[..count]) + got
       else got + Gather(s0.order, Window(s), Unread(s)[..count])
  }

  lemma MidwayStart(s0: InputStream, n: nat)
    requires ValidInput(s0) && n <= |Unread(s0)|
    ensures Midway(s0, n, s0, n, 0, [])
  {
    hide Gather, Unread;
    var g := Gather(s0.order, Window(s0), Unread(s0)[..n]);
    assert g + [] == g && [] + g == g;
    assert Unread(s0)[0..] == Unread(s0);
  }

  lemma MidwayEnd(s0: InputStream, n: nat, s: InputStream, out: nat, got: seq<Bit>)
    requires Midway(s0, n, s, 0, out, got)
    ensures ValidInput(s) && s == Advance(s0, n) && out == Val(Gather(s0.order, Window(s0), Unread(s0)[..n]))
  {
    hide Gather, Unread, Val, Advance;
    EmptyGather(s0.order, Window(s));
    assert Unread(s)[..0] == [];
    assert got + [] == got && [] + got == got;
  }

  function SegmentAt(s: InputStream, len: nat): nat
    requires s.index < |s.input| && s.bitOffset + len <= 8
  {
    Mask(Shr(s.input[s.index], if s.order.bitBig then 8 - s.bitOffset - len else s.bitOffset), len)
  }

  lemma MidwayValid(s0: InputStream, n: nat, s: InputStream, count: nat, out: nat, got: seq<Bit>)
    requires Midway(s0, n, s, count, out, got)
    ensures ValidInput(s) && |got| == n - count
  {
  }

  lemma BytesLeft(s: InputStream)
    requires ValidInput(s) && |Unread(s)| > 0
    ensures s.index < |s.input|
  {
  }

  lemma WindowAfter(s: InputStream, len: nat)
    requires ValidInput(s) && len <= Window(s)
    ensures Window(Advance(s, len)) == if len == Window(s) then 8 else Window(s) - len
    ensures Advance(s, len).order == s.order
  {
  }

  /** Taking one more segment. */
  lemma MidwayStep(s0: InputStream, n: nat, s: InputStream, count: nat, out: nat, got: seq<Bit>, len: nat) returns (got': seq<Bit>)
    requires Midway(s0, n, s, count, out, got) && count > 0 && len == Min(Window(s), count)
    ensures s.index < |s.input|
    ensures Midway(s0, n, Advance(s, len), count - len,
                   if s.order.byteBig then BitOr(Shl(out, len), SegmentAt(s, len)) else BitOr(out, Shl(SegmentAt(s, len), n - count)), got')
  {
    hide Gather, Val, Low, Mask, Shr, Shl, BitOr, Unread, Turn, AllBits, ByteBits, Advance, Pow2;
    var o, bs := s.order, Unread(s)[..count];
    BytesLeft(s);
    SegmentRead(s, len);
    SegmentGone(s, len);
    var segment := Turn(o.bitBig, bs[..len]);
    assert bs[..len] == Unread(s)[..len];
    var s' := Advance(s, len);
    AdvanceTwice(s0, n - count, len);
    WindowAfter(s, len);
    got' := if o.byteBig then segment + got else got + segment;
    SegmentValue(o, segment, got);
    GatherStep(o, Window(s), Window(s'), bs, len, got);
    Dropped(Unread(s0), Unread(s), Unread(s'), n - count, len, count);
  }

  lemma Dropped<T>(all: seq<T>, mid: seq<T>, end: seq<T>, n: nat, len: nat, count: nat)
    requires n <= |all| && mid == all[n..] && len <= count <= |mid| && end == mid[len..]
    ensures end == all[n + len..] && end[..count - len] == mid[..count][len..]
  {
  }

  /** Where one byte's share of a number goes. */
  lemma GatherStep(o: Order, w: nat, w': nat, bs: seq<Bit>, len: nat, got: seq<Bit>)
    requires 1 <= w <= 8 && 1 <= w' <= 8 && bs != [] && len == Min(w, |bs|) && (len == w ==> w' == 8)
    ensures var segment := Turn(o.bitBig, bs[..len]);
      if o.byteBig then Gather(o, w, bs) + got == Gather(o, w', bs[len..]) + (segment + got)
      else got + Gather(o, w, bs) == (got + segment) + Gather(o, w', bs[len..])
  {
    if len < w {
      assert bs[len..] == [];
    }
  }

  lemma EmptyGather(o: Order, w: nat)
    requires 1 <= w <= 8
    ensures Gather(o, w, []) == []
  {
  }

  lemma SegmentValue(o: Order, segment: seq<Bit>, got: seq<Bit>)
    ensures Val(segment + got) == BitOr(Shl(Val(got), |segment|), Val(segment))
    ensures Val(got + segment) == BitOr(Val(got), Shl(Val(segment), |got|))
  {
    ValConcat(segment, got);
    ValConcat(got, segment);
    ValBound(segment);
    ValBound(got);
    BitOrDisjoint(Val(got), Val(segment), |segment|);
    BitOrDisjoint(Val(segment), Val(got), |got|);
  }

  // ----- h_read_bits

  /** `x ^ (1 << k)`. */
  function FlipBit(x: nat, k: nat): int {
    if Shr(x, k) % 2 == 1 then x - Pow2(k) else x + Pow2(k)
  }

  lemma {:induction false} FlipIsSignExtension(x: nat, k: nat)
    requires x < Pow2(k + 1)
    ensures FlipBit(x, k) - Pow2(k) == SignExtend(x, k + 1)
    ensures Shr(x, k) < 2
  {
    HighAndLow(x, k);
    ShrBound(x, k);
  }

  lemma {:induction false} ShrBound(x: nat, k: nat)
    requires x < Pow2(k + 1)
    ensures Shr(x, k) == if x >= Pow2(k) then 1 else 0
    decreases k
  {
    if k > 0 {
      ShrBound(x / 2, k - 1);
    }
  }

  lemma {:induction false} ShlBound(x: nat, n: nat, k: nat)
    requires x < Pow2(n)
    ensures Shl(x, k) < Pow2(n + k)
    decreases k
  {
    if k > 0 {
      ShlBound(x, n, k - 1);
    }
  }

  /** A size stored in an `int`. */
  function AsInt32(x: nat): int {
    var low := x % 0x1_0000_0000;
    if low >= 0x8000_0000 then low - 0x1_0000_0000 else low
  }

  /** The number of remaining bytes survives this exactly below 2^31; with 2^32 bytes left the reader sees none. */
  lemma IntCountsBytes(left: nat)
    ensures AsInt32(left) == left <==> left < 0x8000_0000
    ensures AsInt32(0x1_0000_0000) == 0
  {
  }

  /** Reinterpreting 64 bits as an `int64_t`. */
  function AsInt64(x: int): int {
    if x >= 0x8000_0000_0000_0000 then x - 0x1_0000_0000_0000_0000 else x
  }

  lemma Pow63()
    ensures Pow2(63) == 0x8000_0000_0000_0000 && Pow2(64) == 0x1_0000_0000_0000_0000
  {
    assert Pow2(4) == 16 by {
      assert Pow2(2) == 4;
    }
    Pow2Sum(4, 4);
    Pow2Sum(8, 8);
    Pow2Sum(16, 16);
    Pow2Sum(32, 32);
  }

  lemma {:induction false} Pow2Grows(m: nat, n: nat)
    requires m <= n
    ensures Pow2(m) <= Pow2(n)
    decreases n
  {
    if m < n {
      Pow2Grows(m, n - 1);
    }
  }

  /** The bits of a number as the value returned. */
  lemma Returned(out: nat, count: nat, signed: bool)
    requires 1 <= count <= 64 && out < Pow2(count)
    ensures (if signed then FlipBit(out, count - 1) - Pow2(count - 1) else AsInt64(out)) ==
      if signed || count == 64 then SignExtend(out, count) else out
  {
    hide Pow2, FlipBit;
    FlipIsSignExtension(out, count - 1);
    Pow63();
    if count < 64 {
      Pow2Grows(count, 63);
    }
  }

  /** A flag raised before reading stays raised and changes nothing else. */
  lemma FlagKept(s: InputStream, n: nat, flag: bool)
    requires ValidInput(s)
    ensures var t := s.(overrun := flag);
      ValidInput(t) && Unread(t) == Unread(s) && Window(t) == Window(s) && Advance(t, n) == Advance(s, n).(overrun := flag)
  {
    hide ByteBits, AllBits;
    var t := s.(overrun := flag);
    assert Unread(t) == Unread(s);
    FlagAdvanced(s, n, flag);
  }

  lemma FlagAdvanced(s: InputStream, n: nat, flag: bool)
    requires ValidInput(s)
    ensures Advance(s.(overrun := flag), n) == Advance(s, n).(overrun := flag)
  {
    hide Unread;
  }

  lemma GatheredBound(o: Order, w: nat, bs: seq<Bit>, k: nat)
    requires 1 <= w <= 8
    ensures Shl(Val(Gather(o, w, bs)), k) < Pow2(|bs| + k)
  {
    hide Gather, Val, Shl, Pow2;
    ValBound(Gather(o, w, bs));
    ShlBound(Val(Gather(o, w, bs)), |bs|, k);
  }

  method ReadBits(state: InputStream, count0: int, signed: bool) returns (v: int, s: InputStream)
    requires ValidInput(state) && 1 <= count0 <= 64
    ensures ValidInput(s) && (v, s) == Read(state, count0, signed)
  {
    hide Gather, Val, Shl, Pow2, FlipBit, SignExtend, AsInt64, Unread, Advance;
    s := state;
    var out, finalShift, count := 0, 0, count0;
    // overflow check
    IntCountsBytes(|s.input| - s.index);
    var bitsLeft := AsInt32(|s.input| - s.index); // bytes for now
    if bitsLeft <= 64 {
      bitsLeft := bitsLeft * 8 - s.bitOffset - s.margin;
      if bitsLeft < count {
        finalShift := if s.order.byteBig then count - bitsLeft else 0;
        count := bitsLeft;
        s := s.(overrun := true);
      }
    }
    assert count == Min(count0, |Unread(state)|);
    FlagKept(state, count, s.overrun);
    if s.bitOffset % 8 == 0 && count % 8 == 0 && s.margin == 0 {
      out, s := ReadBytes(s, count);
    } else {
      out, s := ReadSegments(s, count);
    }
    GatheredBound(state.order, Window(state), Unread(state)[..count], finalShift);
    NoShift(out);
    PowOfCount(count, finalShift, count0);
    out := Shl(out, finalShift);
    Returned(out, count0, signed);
    var msb := if signed then Pow2(count0 - 1) else 0;
    v := if signed then FlipBit(out, count0 - 1) - msb else AsInt64(out); // perform sign extension
  }

  lemma NoShift(x: nat)
    ensures Shl(x, 0) == x
  {
  }

  lemma PowOfCount(count: nat, shift: nat, count0: nat)
    requires count + shift <= count0
    ensures Pow2(count + shift) <= Pow2(count0)
  {
    Pow2Grows(count + shift, count0);
  }

  lemma WholeByte(b: byte)
    ensures Mask(Shr(b, 0), 8) == b
  {
    assert b < Pow2(8);
    ValLow(b, 8);
  }

  /** The fast path: whole bytes. */
  method ReadBytes(s0: InputStream, count0: nat) returns (out: nat, s: InputStream)
    requires ValidInput(s0) && s0.bitOffset == s0.margin == 0 && count0 % 8 == 0 && count0 <= |Unread(s0)|
    ensures ValidInput(s) && s == Advance(s0, count0) && out == Val(Gather(s0.order, Window(s0), Unread(s0)[..count0]))
  {
    hide Gather, Val, Shl, Shr, Mask, BitOr, Unread, Midway;
    out, s := 0, s0;
    var i, count := 0, count0;
    ghost var got: seq<Bit> := [];
    MidwayStart(s0, count0);
    while count > 0
      invariant 0 <= count <= count0 && Midway(s0, count0, s, count, out, got) && i == count0 - count
      invariant count % 8 == 0 && s.bitOffset == s.margin == 0
    {
      ghost var got' := MidwayStep(s0, count0, s, count, out, got, 8);
      var b := s.input[s.index];
      WholeByte(b);
      count := count - 8;
      s := s.(index := s.index + 1);
      out := if s.order.byteBig then BitOr(Shl(out, 8), b) else BitOr(out, Shl(b, i));
      i := i + 8;
      got := got';
    }
    MidwayEnd(s0, count0, s, out, got);
  }

  /** Reading across the bytes, one segment at a time. */
  method ReadSegments(s0: InputStream, count0: nat) returns (out: nat, s: InputStream)
    requires ValidInput(s0) && count0 <= |Unread(s0)|
    ensures ValidInput(s) && s == Advance(s0, count0) && out == Val(Gather(s0.order, Window(s0), Unread(s0)[..count0]))
  {
    hide Gather, Val, Shl, Shr, Mask, BitOr, Unread, Midway;
    out, s := 0, s0;
    var offset, count := 0, count0;
    ghost var got: seq<Bit> := [];
    MidwayStart(s0, count0);
    while count > 0
      invariant 0 <= count <= count0 && Midway(s0, count0, s, count, out, got) && offset == count0 - count
    {
      var segment, segmentLen;
      MidwayValid(s0, count0, s, count, out, got);
      ghost var len := Min(Window(s), count);
      ghost var got' := MidwayStep(s0, count0, s, count, out, got, len);
      if s.order.bitBig {
        if count + s.bitOffset + s.margin >= 8 {
          segmentLen := 8 - s.bitOffset - s.margin;
          segment := Mask(Shr(s.input[s.index], s.margin), segmentLen);
          s := s.(index := s.index + 1, bitOffset := 0, margin := 0);
        } else {
          segmentLen := count;
          s := s.(bitOffset := s.bitOffset + count);
          segment := Mask(Shr(s.input[s.index], 8 - s.bitOffset), segmentLen);
        }
      } else {
        if count + s.bitOffset + s.margin >= 8 {
          segmentLen := 8 - s.bitOffset - s.margin;
          segment := Mask(Shr(s.input[s.index], s.bitOffset), segmentLen);
          s := s.(index := s.index + 1, bitOffset := 0, margin := 0);
        } else {
          segmentLen := count;
          segment := Mask(Shr(s.input[s.index], s.bitOffset), segmentLen);
          s := s.(bitOffset := s.bitOffset + segmentLen);
        }
      }
      if s.order.byteBig {
        out := BitOr(Shl(out, segmentLen), segment);
      } else {
        out := BitOr(out, Shl(segment, offset));
      }
      offset := offset + segmentLen;
      count := count - segmentLen;
      got := got';
    }
    MidwayEnd(s0, count0, s, out, got);
  }
}
