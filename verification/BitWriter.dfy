/** Writing bits into a growing buffer. */
module BitWriter {
  import opened Basics
  import opened Bits
  import BitReader

  /** The bits of some values, given with their widths, in the order of the stream. */
  function EncodeAll(o: Order, values: seq<(nat, nat)>): seq<Bit> {
    if values == [] then []
    else
      var before := EncodeAll(o, values[..|values| - 1]);
      var (data, nbits) := values[|values| - 1];
      before + Encode(o, |before|, data, nbits)
  }

  /** The bits of one value written at bit `at` of the buffer. */
  function Encode(o: Order, at: nat, data: nat, nbits: nat): (r: seq<Bit>)
    ensures |r| == nbits
  {
    Scatter(o, 8 - at % 8, Low(data, nbits))
  }

  /** A partly filled byte: big-endian bits are shifted in from below, little-endian ones from above. */
  function Partial(bitBig: bool, bs: seq<Bit>): nat
    requires |bs| <= 8
  {
    if bitBig then Val(Reverse(bs)) else Shl(Val(bs), 8 - |bs|)
  }

  lemma PartialBound(bitBig: bool, bs: seq<Bit>)
    requires |bs| <= 8
    ensures Partial(bitBig, bs) < 256 && Partial(bitBig, []) == 0
  {
    assert Reverse([]) == [];
    ValBound(bs);
    ValBound(Reverse(bs));
    BitReader.Pow2Grows(|bs|, 8);
    BitReader.ShlBound(Val(bs), |bs|, 8 - |bs|);
    Pow8();
  }

  lemma Pow8()
    ensures Pow2(8) == 256
  {
    assert Pow2(4) == 16 by {
      assert Pow2(2) == 4;
    }
    Pow2Sum(4, 4);
  }

  /** Pushing a segment onto a partly filled byte. */
  lemma PushPartial(bitBig: bool, bs: seq<Bit>, segment: seq<Bit>)
    requires |bs| + |segment| <= 8
    ensures var b, bits, count := Partial(bitBig, bs), Val(Turn(bitBig, segment)), |segment|;
      Partial(bitBig, bs + segment) == Mask(if bitBig then BitOr(Shl(b, count), bits) else Shr(BitOr(b, Shl(bits, 8)), count), 8)
  {
    hide Val, Shl, Shr, Mask, BitOr, Pow2;
    var count, n := |segment|, |bs|;
    PartialBound(bitBig, bs);
    PartialBound(bitBig, bs + segment);
    Pow8();
    MaskSmall(Partial(bitBig, bs + segment), 8);
    if bitBig {
      assert Reverse(bs + segment) == Reverse(segment) + Reverse(bs);
      ValConcat(Reverse(segment), Reverse(bs));
      ValBound(Reverse(segment));
      BitOrDisjoint(Val(Reverse(bs)), Val(Reverse(segment)), count);
    } else {
      ValConcat(bs, segment);
      BitOrDisjoint(Val(segment), Partial(false, bs), 8);
      ShlShl(Val(segment), n, 8 - n);
      ShlAdd(Val(bs), Shl(Val(segment), n), 8 - n);
      ShrShl(Val(bs + segment), 8 - n, count);
    }
  }

  /** A complete byte holds its bits the way the reader expects them. */
  lemma CompleteByte(bitBig: bool, bs: seq<Bit>)
    requires |bs| == 8
    ensures Partial(bitBig, bs) < 256 && BitReader.ByteBits(bitBig, Partial(bitBig, bs)) == bs
  {
    hide Val, Low;
    PartialBound(bitBig, bs);
    LowVal(bs);
    LowVal(Reverse(bs));
    assert Reverse(Reverse(bs)) == bs;
    BitReader.NoShift(Val(bs));
  }

  /** Select the next `count` bits to be written from the source, masking off the unnecessary ones. */
  method SelectBits(o: Order, data: nat, nbits: nat, count: nat, ghost w: nat) returns (bits: nat, data': nat, ghost segment: seq<Bit>)
    requires 1 <= w <= 8 && count == Min(w, nbits) && nbits > 0
    ensures bits == Val(Turn(o.bitBig, segment)) && |segment| == count
    ensures Scatter(o, w, Low(data, nbits)) == segment + Scatter(o, if count == w then 8 else w - count, Low(data', nbits - count))
  {
    hide Val, Mask, Low, Shr, Turn, Scatter;
    ghost var low := Low(data, nbits);
    ghost var selected := if o.byteBig then low[nbits - count..] else low[..count];
    if o.byteBig {
      bits, data' := Mask(Shr(data, nbits - count), 16), data; // the variable has 16 bits
      MaskMask(Shr(data, nbits - count), 16, count);
      MaskShr(data, nbits - count, count, nbits);
      assert low[nbits - count..nbits - count + count] == selected;
      LowShr(data, nbits - count, count);
    } else {
      bits, data' := Mask(data, 8), Shr(data, count);
      MaskMask(data, 8, count);
      LowShr(data, count, nbits - count);
      ValLow(data, count);
    }
    bits := Mask(bits, count);
    segment := Turn(o.bitBig, selected);
    ScatterStep(o, w, if count == w then 8 else w - count, low, count);
    assert Low(data', nbits - count) == if o.byteBig then low[..nbits - count] else low[count..];
    TurnTwice(o.bitBig, selected);
  }

  lemma EncodeAt(o: Order, written: seq<Bit>, index: nat, bitOffset: nat, data: nat, nbits: nat)
    requires |written| == 8 * index + bitOffset && bitOffset < 8
    ensures Encode(o, |written|, data, nbits) == Scatter(o, 8 - bitOffset, Low(data, nbits))
  {
  }

  lemma Associate(a: seq<Bit>, b: seq<Bit>, c: seq<Bit>)
    ensures a + (b + c) == a + b + c && a + [] == a
  {
  }

  lemma ScatterNone(o: Order, w: nat, data: nat)
    requires 1 <= w <= 8
    ensures Scatter(o, w, Low(data, 0)) == []
  {
  }

  /** The bytes before the current one are complete, those behind it are zero, and it can be written. */
  ghost predicate Holds(bitBig: bool, bytes: seq<byte>, index: nat, bs: seq<Bit>) {
    && index < |bytes| && 8 * index <= |bs| < 8 * index + 8
    && (forall k :: 0 <= k < index ==> bytes[k] == Partial(bitBig, bs[8 * k..8 * k + 8]))
    && bytes[index] == Partial(bitBig, bs[8 * index..])
    && (forall k :: index < k < |bytes| ==> bytes[k] == 0)
  }

  lemma HoldsPush(bitBig: bool, bytes: seq<byte>, index: nat, bs: seq<Bit>, segment: seq<Bit>, b: byte, index': nat)
    requires Holds(bitBig, bytes, index, bs) && |bs| + |segment| <= 8 * index + 8
    requires b == Partial(bitBig, bs[8 * index..] + segment) && index' < |bytes|
    requires index' == if |bs| + |segment| < 8 * index + 8 then index else index + 1
    ensures Holds(bitBig, bytes[index := b], index', bs + segment)
  {
    hide Partial;
    PartialBound(bitBig, []);
    var all := bs + segment;
    assert all[8 * index..] == bs[8 * index..] + segment;
    forall k | 0 <= k < index' ensures bytes[index := b][k] == Partial(bitBig, all[8 * k..8 * k + 8]) {
      if k < index {
        assert all[8 * k..8 * k + 8] == bs[8 * k..8 * k + 8];
      } else {
        assert all[8 * k..8 * k + 8] == all[8 * k..];
      }
    }
    if index' > index {
      assert all[8 * index'..] == [];
    }
  }

  lemma HoldsIndex(bitBig: bool, bytes: seq<byte>, index: nat, bs: seq<Bit>)
    requires Holds(bitBig, bytes, index, bs)
    ensures index < |bytes| && 8 * index <= |bs| && bytes[index] == Partial(bitBig, bs[8 * index..])
  {
  }

  class BitWriter {
    var buf: array<byte>
    var index: nat
    var bitOffset: nat
    const order: Order
    ghost var written: seq<Bit>

    ghost predicate Valid()
      reads this, buf
    {
      bitOffset < 8 && |written| == 8 * index + bitOffset && Holds(order.bitBig, buf[..], index, written)
    }

    constructor (order: Order)
      ensures Valid() && fresh(buf) && written == [] && this.order == order
    {
      buf := new byte[8](_ => 0);
      index, bitOffset, written := 0, 0, [];
      this.order := order;
      new;
      assert written[0..] == [] && Reverse([]) == [];
      assert Shl(0, 8) == 0;
    }

    /** `h_bit_writer_reserve`: double the capacity until `nbits` more bits fit; the added bytes are zero. */
    method Reserve(nbits: nat)
      requires Valid()
      modifies this`buf
      ensures Valid() && (buf == old(buf) || fresh(buf))
      ensures index + (nbits + 7) / 8 + (if bitOffset != 0 then 1 else 0) < buf.Length
      ensures 8 * index + bitOffset + nbits < 8 * buf.Length
      ensures buf.Length >= old(buf).Length && buf[..old(buf).Length] == old(buf[..])
    {
      var nbytes := (nbits + 7) / 8 + if bitOffset != 0 then 1 else 0;
      var capacity := buf.Length;
      while index + nbytes >= capacity
        invariant capacity >= buf.Length > 0
        decreases index + nbytes - capacity
      {
        capacity := 2 * capacity;
      }
      if capacity != buf.Length {
        var grown := new byte[capacity](_ => 0);
        var small := buf;
        for k := 0 to small.Length
          invariant forall i :: 0 <= i < k ==> grown[i] == small[i]
          invariant forall i :: k <= i < grown.Length ==> grown[i] == 0
          invariant unchanged(this) && small[..] == old(buf[..])
        {
          grown[k] := small[k];
        }
        buf := grown;
      }
    }

    /** `h_bit_writer_put`. */
    method Put(data0: nat, nbits0: nat)
      requires Valid() && 0 < nbits0 <= 64 && data0 < Pow2(64)
      modifies this, buf
      ensures Valid() && (buf == old(buf) || fresh(buf))
      ensures written == old(written) + Encode(order, |old(written)|, data0, nbits0)
    {
      hide Scatter, Low, Holds, Turn, Pow2, Encode, Val;
      Reserve(nbits0);
      EncodeAt(order, written, index, bitOffset, data0, nbits0);
      var data, nbits := data0, nbits0;
      ghost var all := old(written) + Encode(order, |old(written)|, data0, nbits0);
      while nbits > 0
        invariant Valid() && 0 <= nbits <= nbits0 && data >= 0 && (buf == old(buf) || fresh(buf))
        invariant all == written + Scatter(order, 8 - bitOffset, Low(data, nbits))
        invariant 8 * index + bitOffset + nbits < 8 * buf.Length
      {
        var count := Min(8 - bitOffset, nbits);
        ghost var before, data' := written, data;
        var bits;
        ghost var segment;
        bits, data, segment := SelectBits(order, data, nbits, count, 8 - bitOffset);
        PushByte(segment, bits, count);
        nbits := nbits - count;
        Associate(before, segment, Scatter(order, 8 - bitOffset, Low(data, nbits)));
      }
      ScatterNone(order, 8 - bitOffset, data);
    }

    /** Push the bits of one segment onto the current byte. */
    method PushByte(ghost segment: seq<Bit>, bits: nat, count: nat)
      requires Valid() && 0 < |segment| == count <= 8 - bitOffset && (bitOffset + count == 8 ==> index + 1 < buf.Length)
      requires bits == Val(Turn(order.bitBig, segment))
      modifies this`index, this`bitOffset, this`written, buf
      ensures Valid() && written == old(written) + segment
      ensures if old(bitOffset) + count < 8 then index == old(index) && bitOffset == old(bitOffset) + count
              else index == old(index) + 1 && bitOffset == 0
    {
      hide Val, Shl, Shr, Mask, BitOr, Partial, Holds, Turn;
      HoldsIndex(order.bitBig, buf[..], index, written);
      ghost var partial := written[8 * index..];
      PushPartial(order.bitBig, partial, segment);
      PartialBound(order.bitBig, partial + segment);
      ghost var bytes := buf[..];
      if order.bitBig {
        buf[index] := Mask(BitOr(Shl(buf[index], count), bits), 8);
      } else {
        buf[index] := Mask(Shr(BitOr(buf[index], Shl(bits, 8)), count), 8);
      }
      assert buf[..] == bytes[index := buf[index]];
      HoldsPush(order.bitBig, bytes, index, written, segment, buf[index], if bitOffset + count < 8 then index else index + 1);
      written := written + segment;
      // update index and bit offset
      bitOffset := bitOffset + count;
      if bitOffset == 8 {
        bitOffset := 0;
        index := index + 1;
      }
    }

    /** `h_bit_writer_get_buffer`: the bytes written, when they are complete. */
    method GetBuffer() returns (bytes: seq<byte>)
      requires Valid() && bitOffset == 0
      ensures BitReader.AllBits(order.bitBig, bytes) == written
    {
      bytes := buf[..index];
      BufferBits(order.bitBig, bytes, written);
    }
  }

  lemma {:induction false} BufferBits(bitBig: bool, bytes: seq<byte>, bs: seq<Bit>)
    requires |bs| == 8 * |bytes| && forall k :: 0 <= k < |bytes| ==> bytes[k] == Partial(bitBig, bs[8 * k..8 * k + 8])
    ensures BitReader.AllBits(bitBig, bytes) == bs
    decreases |bytes|
  {
    hide Partial, BitReader.ByteBits;
    if bytes != [] {
      CompleteByte(bitBig, bs[0..8]);
      var rest := bs[8..];
      forall k | 0 <= k < |bytes| - 1 ensures bytes[1..][k] == Partial(bitBig, rest[8 * k..8 * k + 8]) {
        assert rest[8 * k..8 * k + 8] == bs[8 * (k + 1)..8 * (k + 1) + 8];
      }
      BufferBits(bitBig, bytes[1..], rest);
      assert bs[0..8] + rest == bs;
      assert bytes[0] == Partial(bitBig, bs[8 * 0..8 * 0 + 8]);
    }
  }
}
