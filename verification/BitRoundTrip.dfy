/** What has been written bit by bit is read back, in every combination of byte and bit order. */
module BitRoundTrip {
  import opened Basics
  import opened Bits
  import opened BitReader
  import opened BitLaws
  import opened BitWriter

  /** A value with its width, and whether it is read back as a signed number. */
  datatype Item = Item(data: nat, nbits: nat, signed: bool)

  ghost predicate ValidItem(it: Item) {
    1 <= it.nbits <= 64 && it.data < Pow2(it.nbits)
  }

  function Written(items: seq<Item>): (r: seq<(nat, nat)>)
    ensures |r| == |items|
  {
    if items == [] then [] else Written(items[..|items| - 1]) + [(items[|items| - 1].data, items[|items| - 1].nbits)]
  }

  /** Reading numbers of the items' widths one after the other. */
  function ReadAll(s: InputStream, items: seq<Item>): (r: (seq<int>, InputStream))
    requires ValidInput(s)
    ensures |r.0| == |items| && ValidInput(r.1)
  {
    if items == [] then ([], s)
    else
      var (vs, t) := ReadAll(s, items[..|items| - 1]);
      var it := items[|items| - 1];
      ReadStaysValid(t, it.nbits, it.signed);
      var (v, t') := Read(t, it.nbits, it.signed);
      (vs + [v], t')
  }

  /** The number an item is read back as. */
  function ReadBack(it: Item): int {
    if it.signed || it.nbits == 64 then SignExtend(it.data, it.nbits) else it.data
  }

  function Start(bytes: seq<byte>, order: Order): InputStream {
    InputStream(bytes, 0, 0, 0, 0, order, false, true)
  }

  lemma AdvanceFromStart(s: InputStream, n: nat)
    requires s.bitOffset == s.margin == 0
    ensures Window(Advance(s, n)) == 8 - n % 8 && Advance(s, n).overrun == s.overrun && Advance(s, n).order == s.order
    ensures StreamPos(Advance(s, n)) == StreamPos(s) + n
  {
  }

  /** Reading one item where it was written. */
  lemma ReadItem(s: InputStream, at: nat, it: Item)
    requires ValidInput(s) && Window(s) == 8 - at % 8 && !s.overrun && ValidItem(it) && it.nbits <= |Unread(s)|
    requires Unread(s)[..it.nbits] == Encode(s.order, at, it.data, it.nbits)
    ensures Read(s, it.nbits, it.signed) == (ReadBack(it), Advance(s, it.nbits))
  {
    hide Unread, Advance, Gather, Scatter, Val, Low, Pow2, SignExtend;
    GatherScatter(s.order, Window(s), Low(it.data, it.nbits));
    ValLow(it.data, it.nbits);
    NoShift(it.data);
    AdvanceFlag(s, it.nbits);
  }

  lemma AdvanceFlag(s: InputStream, n: nat)
    requires s.bitOffset + s.margin < 8
    ensures Advance(s, n).(overrun := s.overrun) == Advance(s, n)
  {
  }

  lemma {:induction false} ReadsBack(s: InputStream, items: seq<Item>)
    requires ValidInput(s) && s.index == s.bitOffset == s.margin == 0 && !s.overrun
    requires forall k :: 0 <= k < |items| ==> ValidItem(items[k])
    requires EncodeAll(s.order, Written(items)) <= Unread(s)
    ensures ReadAll(s, items).1 == Advance(s, |EncodeAll(s.order, Written(items))|)
    ensures forall k :: 0 <= k < |items| ==> ReadAll(s, items).0[k] == ReadBack(items[k])
    decreases |items|
  {
    hide Unread, Advance, Read, ReadBack, ValidItem, Encode;
    if items == [] {
      AdvanceNone(s);
    } else {
      var init, it := items[..|items| - 1], items[|items| - 1];
      var before := EncodeAll(s.order, Written(init));
      var all := EncodeAll(s.order, Written(items));
      assert Written(items)[..|items| - 1] == Written(init);
      assert all == before + Encode(s.order, |before|, it.data, it.nbits);
      ReadsBack(s, init);
      var t := ReadAll(s, init).1;
      UnreadAdvanced(s, |before|);
      AdvanceFromStart(s, |before|);
      assert Unread(t)[..it.nbits] == Unread(s)[|before|..|before| + it.nbits] == all[|before|..];
      ReadItem(t, |before|, it);
      AdvanceTwice(s, |before|, it.nbits);
    }
  }

  /** Values written with their widths, up to a full byte, are read back from the buffer, all of it, without overrun. */
  lemma RoundTrip(bytes: seq<byte>, order: Order, items: seq<Item>)
    requires |bytes| < 0x8000_0000 && forall k :: 0 <= k < |items| ==> ValidItem(items[k])
    requires AllBits(order.bitBig, bytes) == EncodeAll(order, Written(items))
    ensures forall k :: 0 <= k < |items| ==> ReadAll(Start(bytes, order), items).0[k] == ReadBack(items[k])
    ensures StreamPos(ReadAll(Start(bytes, order), items).1) == 8 * |bytes| && !ReadAll(Start(bytes, order), items).1.overrun
  {
    hide Unread, Advance, Read, ReadBack, ValidItem, Encode, AllBits, ReadAll, EncodeAll;
    var s := Start(bytes, order);
    AllBitsFront(s, order.bitBig);
    assert bytes[0..] == bytes;
    ReadsBack(s, items);
    AdvanceFromStart(s, 8 * |bytes|);
  }

  /** Writing all items with one writer. */
  method WriteAll(order: Order, items: seq<Item>) returns (bytes: seq<byte>, complete: bool)
    requires forall k :: 0 <= k < |items| ==> ValidItem(items[k])
    ensures complete <==> |EncodeAll(order, Written(items))| % 8 == 0
    ensures complete ==> AllBits(order.bitBig, bytes) == EncodeAll(order, Written(items))
    ensures complete && |bytes| < 0x8000_0000 ==> forall k :: 0 <= k < |items| ==>
      ReadAll(Start(bytes, order), items).0[k] == ReadBack(items[k])
  {
    hide Encode, AllBits, Pow2, ReadAll, ReadBack, Holds;
    var w := new BitWriter(order);
    for i := 0 to |items|
      invariant w.Valid() && fresh(w) && fresh(w.buf) && w.order == order && w.written == EncodeAll(order, Written(items[..i]))
    {
      assert ValidItem(items[i]);
      FitsWord(items[i].data, items[i].nbits);
      w.Put(items[i].data, items[i].nbits);
      assert items[..i + 1][..i] == items[..i];
      assert Written(items[..i + 1])[..i] == Written(items[..i]);
    }
    assert items[..|items|] == items;
    complete := w.bitOffset == 0;
    bytes := [];
    if complete {
      bytes := w.GetBuffer();
      if |bytes| < 0x8000_0000 {
        RoundTrip(bytes, order, items);
      }
    }
  }

  lemma FitsWord(data: nat, nbits: nat)
    requires data < Pow2(nbits) && nbits <= 64
    ensures data < Pow2(64)
  {
    Pow2Grows(nbits, 64);
  }
}
