/** What readers of bits rely on: positions are exact, reads can be split, and switching the bit order keeps the unread bits. */
module BitLaws {
  import opened Basics
  import opened Bits
  import opened BitReader

  /** A read that fits advances the position by exactly its size; any other takes all bits there are and raises the flag. */
  lemma PositionAdvances(s: InputStream, count: nat, signed: bool)
    requires ValidInput(s)
    ensures var s' := Read(s, count, signed).1;
      && StreamPos(s') == StreamPos(s) + Min(count, |Unread(s)|)
      && (s'.overrun <==> s.overrun || count > |Unread(s)|)
      && s'.input == s.input && s'.order == s.order
  {
    hide Gather, Val, Unread;
  }

  /** The next `n` bits as an unsigned number. */
  function Number(s: InputStream, n: nat): nat
    requires ValidInput(s) && n <= |Unread(s)|
  {
    Val(Gather(s.order, Window(s), Unread(s)[..n]))
  }

  lemma ReadIsNumber(s: InputStream, n: nat)
    requires ValidInput(s) && n <= |Unread(s)|
    ensures n < 64 ==> Read(s, n, false).0 == Number(s, n)
    ensures Read(s, n, true).0 == SignExtend(Number(s, n), n)
  {
    hide Gather, Val, Unread, SignExtend;
    NoShift(Number(s, n));
  }

  lemma {:induction false} UnreadAdvanced(s: InputStream, n: nat)
    requires ValidInput(s) && n <= |Unread(s)|
    ensures ValidInput(Advance(s, n)) && Unread(Advance(s, n)) == Unread(s)[n..]
    decreases n
  {
    hide AllBits, ByteBits, Unread, Advance;
    if n == 0 {
      AdvanceNone(s);
    } else {
      var len := Min(Window(s), n);
      BytesLeft(s);
      SegmentGone(s, len);
      UnreadAdvanced(Advance(s, len), n - len);
      AdvanceTwice(s, len, n - len);
      assert Unread(s)[len..][n - len..] == Unread(s)[n..];
    }
  }

  lemma AdvanceNone(s: InputStream)
    requires ValidInput(s)
    ensures Advance(s, 0) == s && Unread(s)[0..] == Unread(s)
  {
  }

  lemma ReadStaysValid(s: InputStream, count: nat, signed: bool)
    requires ValidInput(s)
    ensures ValidInput(Read(s, count, signed).1)
  {
    hide Unread, Advance, Gather, Val;
    UnreadAdvanced(s, Min(count, |Unread(s)|));
    FlagKept(Advance(s, Min(count, |Unread(s)|)), 0, s.overrun || Min(count, |Unread(s)|) < count);
  }

  /** With both orders alike, the next `a + b` bits are the first `a` and the next `b`, put together in the byte order. */
  lemma NumberInTwo(s: InputStream, a: nat, b: nat)
    requires ValidInput(s) && a + b <= |Unread(s)| && s.order.byteBig == s.order.bitBig
    ensures var t := Advance(s, a);
      && ValidInput(t) && b <= |Unread(t)| && Advance(t, b) == Advance(s, a + b)
      && Number(s, a + b) == (if s.order.byteBig then Shl(Number(s, a), b) + Number(t, b) else Number(s, a) + Shl(Number(t, b), a))
  {
    hide AllBits, ByteBits, Unread, Advance, Gather, Val, Shl;
    var t := Advance(s, a);
    UnreadAdvanced(s, a);
    var bs := Unread(s)[..a + b];
    assert bs[..a] == Unread(s)[..a] && bs[a..] == Unread(t)[..b];
    GatherAlike(s.order, Window(s), bs);
    GatherAlike(s.order, Window(s), bs[..a]);
    GatherAlike(s.order, Window(t), bs[a..]);
    assert bs[..a] + bs[a..] == bs;
    ValConcat(bs[..a], bs[a..]);
    assert Reverse(bs) == Reverse(bs[a..]) + Reverse(bs[..a]);
    ValConcat(Reverse(bs[a..]), Reverse(bs[..a]));
    AdvanceTwice(s, a, b);
  }

  /** So reading `a + b` bits is reading `a` and then `b`, and leaves the same stream. */
  lemma ReadInTwo(s: InputStream, a: nat, b: nat)
    requires ValidInput(s) && a + b <= |Unread(s)| && a + b < 64 && s.order.byteBig == s.order.bitBig
    ensures ValidInput(Read(s, a, false).1)
    ensures var (first, t) := Read(s, a, false);
      var (second, u) := Read(t, b, false);
      Read(s, a + b, false) == (if s.order.byteBig then Shl(first, b) + second else first + Shl(second, a), u)
  {
    hide AllBits, ByteBits, Unread, Advance, Gather, Val, Shl;
    NumberInTwo(s, a, b);
    ReadWhole(s, a);
    ReadWhole(Advance(s, a), b);
    ReadWhole(s, a + b);
  }

  lemma ReadWhole(s: InputStream, n: nat)
    requires ValidInput(s) && n <= |Unread(s)|
    ensures n < 64 ==> Read(s, n, false) == (Number(s, n), Advance(s, n))
  {
    hide Gather, Val, Unread;
    ReadIsNumber(s, n);
  }

  // ----- switching the bit order

  /** `switch_bit_order`, together with the change of the order itself. */
  function Switched(s: InputStream): InputStream {
    s.(bitOffset := s.margin, margin := s.bitOffset, order := Order(s.order.byteBig, !s.order.bitBig))
  }

  /** Bit `k` of the current byte, counted from the lowest, is still to be read. */
  predicate BitUnread(s: InputStream, k: nat) {
    if s.order.bitBig then s.margin <= k < 8 - s.bitOffset else s.bitOffset <= k < 8 - s.margin
  }

  /** The same bits of the current byte remain, and the position stays. */
  lemma SwitchKeepsUnread(s: InputStream)
    requires ValidInput(s)
    ensures ValidInput(Switched(s)) && StreamPos(Switched(s)) == StreamPos(s) && |Unread(Switched(s))| == |Unread(s)|
    ensures forall k :: 0 <= k < 8 ==> BitUnread(Switched(s), k) == BitUnread(s, k)
    ensures Switched(Switched(s)) == s
  {
    hide Unread;
  }

  /** They are read in reverse. */
  lemma SwitchReverses(s: InputStream)
    requires ValidInput(s) && s.index < |s.input|
    ensures ValidInput(Switched(s))
    ensures Unread(Switched(s))[..Window(s)] == Reverse(Unread(s)[..Window(s)])
  {
    hide Unread, Turn, Low, Reverse;
    FirstByte(s);
    FirstByte(Switched(s));
    WindowReversed(Low(s.input[s.index], 8), s.order.bitBig, s.bitOffset, s.margin);
  }

  lemma FirstByte(s: InputStream)
    requires ValidInput(s) && s.index < |s.input|
    ensures Unread(s)[..Window(s)] == Turn(s.order.bitBig, Low(s.input[s.index], 8))[s.bitOffset..8 - s.margin]
  {
    hide AllBits, Turn, Low;
  }

  lemma WindowReversed(low: seq<Bit>, bitBig: bool, a: nat, b: nat)
    requires |low| == 8 && a + b <= 8
    ensures Turn(!bitBig, low)[b..8 - a] == Reverse(Turn(bitBig, low)[a..8 - b])
  {
  }

  /** Reading through the other order does not lose bits either: whatever a parser reads between two switches,
      the position is the one it reached. */
  lemma SwitchAround(s: InputStream, n: nat)
    requires ValidInput(s) && n <= |Unread(s)|
    ensures ValidInput(Switched(Advance(Switched(s), n)))
    ensures StreamPos(Switched(Advance(Switched(s), n))) == StreamPos(s) + n
    ensures |Unread(Switched(Advance(Switched(s), n)))| == |Unread(s)| - n
  {
    hide Unread, Advance;
    SwitchKeepsUnread(s);
    UnreadAdvanced(Switched(s), n);
    SwitchKeepsUnread(Advance(Switched(s), n));
    AdvancePosition(Switched(s), n);
  }

  lemma AdvancePosition(s: InputStream, n: nat)
    requires ValidInput(s)
    ensures StreamPos(Advance(s, n)) == StreamPos(s) + n
  {
  }
}
