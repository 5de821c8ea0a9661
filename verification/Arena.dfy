/** The arena allocator: memory is handed out from a list of links and given back all at once. */
module Arena {

  /** The sizes of the headers: a pointer, a link with its two counters, and the arena itself. */
  const POINTER_SIZE: nat := 8
  const LINK_SIZE: nat := 24
  const ARENA_SIZE: nat := 40
  const DEFAULT_BLOCK_SIZE: nat := 4096

  /** A piece of memory obtained from the system allocator is named by a number; a link uses one. */
  datatype Link =
    | Ordinary(region: nat, free: nat, used: nat)
    | Dedicated(region: nat, size: nat)

  /** A block handed out: `size` bytes of a region, from `offset` on. */
  datatype Block = Block(region: nat, offset: nat, size: nat)

  predicate Disjoint(a: Block, b: Block) {
    a.region != b.region || a.offset + a.size <= b.offset || b.offset + b.size <= a.offset
  }

  /** How many bytes the link's region has. */
  function RegionSize(blockSize: nat, l: Link): nat {
    match l
    case Ordinary(_, _, _) => LINK_SIZE + blockSize
    case Dedicated(_, size) => size + POINTER_SIZE
  }

  /** All bytes obtained for the links. */
  function Obtained(blockSize: nat, links: seq<Link>): nat {
    if links == [] then 0 else RegionSize(blockSize, links[0]) + Obtained(blockSize, links[1..])
  }

  function HandedOut(blocks: seq<Block>): nat {
    if blocks == [] then 0 else blocks[0].size + HandedOut(blocks[1..])
  }

  /** The block lies in the part of the link's region that is marked as used. */
  ghost predicate InLink(b: Block, l: Link) {
    && b.region == l.region
    && match l
       case Ordinary(_, _, used) => LINK_SIZE <= b.offset && b.offset + b.size <= LINK_SIZE + used
       case Dedicated(_, size) => b.offset == POINTER_SIZE && b.size == size
  }

  ghost predicate InSomeLink(b: Block, links: seq<Link>) {
    exists i :: 0 <= i < |links| && InLink(b, links[i])
  }

  ghost predicate LinksOk(blockSize: nat, links: seq<Link>, next: nat) {
    && (forall i :: 0 <= i < |links| ==> links[i].region < next && (links[i].Ordinary? ==> links[i].free + links[i].used == blockSize))
    && (forall i, j :: 0 <= i < j < |links| ==> links[i].region != links[j].region)
  }

  ghost predicate BlocksOk(links: seq<Link>, blocks: seq<Block>) {
    && (forall i :: 0 <= i < |blocks| ==> InSomeLink(blocks[i], links))
    && (forall i, j :: 0 <= i < j < |blocks| ==> Disjoint(blocks[i], blocks[j]))
  }

  /** A block lies inside memory obtained from the system allocator. */
  lemma BlockInside(blockSize: nat, links: seq<Link>, blocks: seq<Block>, next: nat, i: nat) returns (k: nat)
    requires LinksOk(blockSize, links, next) && BlocksOk(links, blocks) && i < |blocks|
    ensures k < |links| && blocks[i].region == links[k].region
    ensures blocks[i].offset + blocks[i].size <= RegionSize(blockSize, links[k])
  {
    assert InSomeLink(blocks[i], links);
    k :| 0 <= k < |links| && InLink(blocks[i], links[k]);
  }

  /** Taking the next bytes of the head, a new head, or a dedicated link behind the head. */
  ghost predicate Taken(blockSize: nat, links: seq<Link>, links': seq<Link>, b: Block, next: nat)
    requires links != [] && links[0].Ordinary?
  {
    || (b.size <= links[0].free && b.region == links[0].region && b.offset == LINK_SIZE + links[0].used
        && links' == [Ordinary(links[0].region, links[0].free - b.size, links[0].used + b.size)] + links[1..])
    || (b.size <= blockSize && b.region == next && b.offset == LINK_SIZE
        && links' == [Ordinary(next, blockSize - b.size, b.size)] + links)
    || (b.region == next && b.offset == POINTER_SIZE
        && links' == [links[0], Dedicated(next, b.size)] + links[1..])
  }

  lemma LinksTaken(blockSize: nat, links: seq<Link>, links': seq<Link>, b: Block, next: nat)
    requires links != [] && links[0].Ordinary? && LinksOk(blockSize, links, next) && Taken(blockSize, links, links', b, next)
    ensures LinksOk(blockSize, links', if |links'| == |links| then next else next + 1)
    ensures links' != [] && links'[0].Ordinary?
  {
    var grown := |links'| > |links|;
    var front := grown && links'[1..] == links;
    forall i | 0 <= i < |links'|
      ensures links'[i].region == next || links'[i].region == links[if front then i - 1 else if grown && i > 1 then i - 1 else i].region
    {
      if front {
        assert i > 0 ==> links'[i] == links'[1..][i - 1];
      }
    }
  }

  lemma BytesTaken(blockSize: nat, links: seq<Link>, links': seq<Link>, b: Block, next: nat)
    requires links != [] && links[0].Ordinary? && LinksOk(blockSize, links, next) && Taken(blockSize, links, links', b, next)
    ensures Obtained(blockSize, links') ==
      Obtained(blockSize, links) + if |links'| == |links| then 0 else if links'[0] == links[0] then b.size + POINTER_SIZE else LINK_SIZE + blockSize
  {
    if |links'| == |links| {
      assert links'[1..] == links[1..];
    } else if links'[0] == links[0] {
      assert links'[1..] == [Dedicated(next, b.size)] + links[1..];
      assert links'[1..][1..] == links[1..];
    } else {
      assert links'[1..] == links;
    }
  }

  /** The new block lies in its link, apart from all others. */
  lemma BlocksTaken(blockSize: nat, links: seq<Link>, links': seq<Link>, blocks: seq<Block>, b: Block, next: nat)
    requires links != [] && links[0].Ordinary? && LinksOk(blockSize, links, next) && BlocksOk(links, blocks)
    requires Taken(blockSize, links, links', b, next)
    ensures BlocksOk(links', [b] + blocks)
  {
    var blocks' := [b] + blocks;
    forall i | 0 <= i < |blocks'| ensures InSomeLink(blocks'[i], links') {
      if i == 0 {
        assert InLink(b, if links'[0].region == b.region then links'[0] else links'[1]);
      } else {
        assert InSomeLink(blocks[i - 1], links);
        var k :| 0 <= k < |links| && InLink(blocks[i - 1], links[k]);
        LinkKept(blockSize, links, links', b, next, blocks[i - 1], k);
      }
    }
    forall j | 1 <= j < |blocks'| ensures Disjoint(b, blocks'[j]) {
      assert InSomeLink(blocks[j - 1], links);
      var k :| 0 <= k < |links| && InLink(blocks[j - 1], links[k]);
      assert k > 0 ==> links[0].region != links[k].region;
    }
    forall i, j | 0 <= i < j < |blocks'| ensures Disjoint(blocks'[i], blocks'[j]) {
      if i > 0 {
        assert Disjoint(blocks[i - 1], blocks[j - 1]);
      }
    }
  }

  lemma LinkKept(blockSize: nat, links: seq<Link>, links': seq<Link>, b: Block, next: nat, c: Block, k: nat)
    requires links != [] && links[0].Ordinary? && Taken(blockSize, links, links', b, next) && k < |links| && InLink(c, links[k])
    ensures InSomeLink(c, links')
  {
    if |links'| == |links| {
      assert InLink(c, links'[k]);
    } else if links'[1..] == links {
      assert InLink(c, links'[k + 1]);
    } else {
      assert links'[if k == 0 then 0 else k + 1] == links[k];
    }
  }

  lemma NewHead(blockSize: nat, links: seq<Link>, next: nat, l: Link)
    requires links != [] && LinksOk(blockSize, links, next) && l.region == next
    ensures l != links[0]
  {
  }

  class Arena {
    var links: seq<Link>
    var blockSize: nat
    var used: nat
    var wasted: int
    var nextRegion: nat
    ghost var blocks: seq<Block>

    /** The blocks handed out are disjoint and lie in the links; the counters account for every byte; the head is an
        ordinary link. */
    ghost predicate Valid()
      reads this
    {
      && links != [] && links[0].Ordinary?
      && LinksOk(blockSize, links, nextRegion) && BlocksOk(links, blocks)
      && used == HandedOut(blocks)
      && used + wasted == ARENA_SIZE + Obtained(blockSize, links)
    }

    /** `h_new_arena`. */
    constructor (blockSize0: nat)
      ensures Valid() && blocks == [] && used == 0
      ensures blockSize == if blockSize0 == 0 then DEFAULT_BLOCK_SIZE else blockSize0
    {
      var size := if blockSize0 == 0 then DEFAULT_BLOCK_SIZE else blockSize0;
      blockSize := size;
      links, nextRegion := [Ordinary(0, size, 0)], 1;
      used := 0;
      wasted := LINK_SIZE + ARENA_SIZE + size;
      blocks := [];
      new;
      assert links[1..] == [];
    }

    /** Memory from the system allocator: a region no link uses. */
    method Alloc() returns (region: nat)
      modifies this`nextRegion
      ensures region == old(nextRegion) && nextRegion == old(nextRegion) + 1
    {
      region := nextRegion;
      nextRegion := nextRegion + 1;
    }

    /** `h_arena_malloc`. */
    method Malloc(size: nat) returns (b: Block)
      requires Valid()
      modifies this
      ensures Valid() && b.size == size && blocks == [b] + old(blocks) && blockSize == old(blockSize)
    {
      hide LinksOk, BlocksOk, Obtained;
      ghost var links0, next := links, nextRegion;
      if size <= links[0].free {
        // fast path
        b := Block(links[0].region, LINK_SIZE + links[0].used, size);
        used, wasted := used + size, wasted - size;
        links := [Ordinary(links[0].region, links[0].free - size, links[0].used + size)] + links[1..];
      } else if size > blockSize {
        // a new, dedicated link, because it will not fit in a standard sized one
        used, wasted := used + size, wasted + POINTER_SIZE;
        var region := Alloc();
        links := [links[0], Dedicated(region, size)] + links[1..];
        b := Block(region, POINTER_SIZE, size);
      } else {
        // an ordinary new link
        var region := Alloc();
        links := [Ordinary(region, blockSize - size, size)] + links;
        used, wasted := used + size, wasted + LINK_SIZE + blockSize - size;
        b := Block(region, LINK_SIZE, size);
        NewHead(blockSize, links0, next, links[0]);
      }
      LinksTaken(blockSize, links0, links, b, next);
      BytesTaken(blockSize, links0, links, b, next);
      BlocksTaken(blockSize, links0, links, blocks, b, next);
      blocks := [b] + blocks;
      assert blocks[1..] == old(blocks);
    }

    /** `h_delete_arena`: the regions freed, in order. */
    method Delete() returns (freed: seq<nat>)
      requires Valid()
      modifies this`links
      ensures links == []
      ensures |freed| == |old(links)| && forall i :: 0 <= i < |freed| ==> freed[i] == old(links)[i].region
      ensures forall i, j :: 0 <= i < j < |freed| ==> freed[i] != freed[j]
      ensures forall i :: 0 <= i < |blocks| ==> blocks[i].region in freed
    {
      freed := [];
      while links != []
        invariant |freed| + |links| == |old(links)| && links == old(links)[|freed|..]
        invariant forall i :: 0 <= i < |freed| ==> freed[i] == old(links)[i].region
      {
        freed := freed + [links[0].region];
        links := links[1..];
      }
      forall i | 0 <= i < |blocks| ensures blocks[i].region in freed {
        var k := BlockInside(blockSize, old(links), blocks, nextRegion, i);
        assert freed[k] == blocks[i].region;
      }
    }
  }
}
