/** A zone header of slab.c with its free chunks linked through their own first words. */
module SlabZone {
  import opened Chain
  import opened Zones

  class Header {
    const chunkSize: nat
    const basePtr: int
    const nmax: nat
    var nfree: int
    var uindex: nat
    var freeChunk: Node
    var cnext: map<Node, Node>
    ghost var m: Zone

    ghost predicate Valid()
      reads this
    {
      && ZoneOk(m) && m.base > 0 && IsChain(cnext, freeChunk, m.chain)
      && m.size == chunkSize && m.base == basePtr && m.nmax == nmax && m.nfree == nfree && m.uindex == uindex
    }

    /** The part of rt_malloc that sets up a new zone and hands out its first chunk. */
    constructor (zi: nat, size: nat, at: int, zoneSize: nat)
      requires size > 0 && at > 0 && Capacity(zoneSize, size) > 0
      ensures Valid() && m == NewZone(zi, size, at, zoneSize)
    {
      NewZoneOk(zi, size, at, zoneSize);
      chunkSize, basePtr, nmax := size, at + Offset(size), (zoneSize - Offset(size)) / size;
      nfree, uindex, freeChunk, cnext := (zoneSize - Offset(size)) / size - 1, 0, Null, map[];
      m := NewZone(zi, size, at, zoneSize);
    }

    /** The part of rt_malloc that takes a chunk from an existing zone. */
    method TakeChunk() returns (chunk: Node)
      requires Valid() && nfree > 0
      modifies this
      ensures Valid() && (old(m).uindex + 1 == old(m).nmax ==> old(m).chain != []) && (m, chunk) == Take(old(m))
    {
      TakeOk(m);
      nfree := nfree - 1;
      if uindex + 1 != nmax {
        uindex := uindex + 1;
        chunk := basePtr + uindex * chunkSize;
      } else {
        Popped(cnext, freeChunk, m.chain);
        chunk := freeChunk;
        freeChunk := cnext[freeChunk];
      }
      m := Take(m).0;
    }

    /** The part of rt_free that puts a chunk on the free list of its zone. */
    method GiveChunk(chunk: Node)
      requires Valid() && chunk in m.used
      modifies this
      ensures Valid() && m == Give(old(m), chunk)
    {
      GiveOk(m, chunk);
      assert Touched(m, chunk);
      Positive(m, chunk);
      Pushed(cnext, freeChunk, m.chain, chunk);
      cnext := cnext[chunk := freeChunk];
      freeChunk := chunk;
      nfree := nfree + 1;
      m := Give(m, chunk);
    }
  }

  lemma Positive(z: Zone, c: int)
    requires z.size > 0 && z.base > 0 && Touched(z, c)
    ensures c > 0
  {
    var i :| 0 <= i <= z.uindex && c == ChunkAt(z, i);
    assert i * z.size >= 0;
  }
}
