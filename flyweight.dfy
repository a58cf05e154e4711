/**
 * Flyweight: a block factory creates one block lazily and hands out that same
 * block on every later request, so drawing many blocks costs one image.
 */
module Flyweight {

  type Byte = bv8

  /** A drawable block. Its image bytes are read from a file when it is made;
      here they are given to the constructor. */
  class Block {
    const imgData: seq<Byte>

    constructor (imgData: seq<Byte>)
      ensures this.imgData == imgData
    {
      this.imgData := imgData;
    }

    /** The block's image, wherever it is drawn. */
    function Draw(x: int, y: int): (image: seq<Byte>)
      ensures image == imgData
    {
      imgData
    }
  }

  /** Drawing ignores the position. */
  lemma DrawIgnoresPosition(b: Block, x1: int, y1: int, x2: int, y2: int)
    ensures b.Draw(x1, y1) == b.Draw(x2, y2)
  {
  }

  class BlockFactory {
    var cached: Block?
    /** How many blocks this factory has constructed. */
    ghost var created: nat

    /** A fresh factory has no cached block and has made none. */
    constructor ()
      ensures cached == null && created == 0
    {
      cached := null;
      created := 0;
    }

    /** The first call makes a block (from `imgData`, the file's contents at
        that moment) and caches it; every later call returns the cached block
        and makes nothing. Afterwards the cache holds the returned block. */
    method MakeBlock(imgData: seq<Byte>) returns (b: Block)
      modifies this
      ensures old(cached) == null ==> fresh(b) && b.imgData == imgData && created == old(created) + 1
      ensures old(cached) != null ==> b == old(cached) && created == old(created)
      ensures cached == b
    {
      if cached == null {
        cached := new Block(imgData);
        created := created + 1;
      }
      b := cached;
    }
  }

  /** The demonstration loop: one factory, 10000 requests for a block, each
      drawn at (i, i). Every request yields the same block, every drawing is
      the image, and exactly one block is ever made. */
  method DrawLoop(imgData: seq<Byte>) returns (blocks: seq<Block>, drawings: seq<seq<Byte>>, ghost made: nat)
    ensures |blocks| == 10000 && |drawings| == 10000
    ensures forall i :: 0 <= i < 10000 ==> blocks[i] == blocks[0] && drawings[i] == imgData
    ensures blocks[0].imgData == imgData
    ensures made == 1
  {
    var factory := new BlockFactory();
    blocks, drawings := [], [];
    var i := 1;
    while i <= 10000
      invariant 1 <= i <= 10001
      invariant |blocks| == |drawings| == i - 1
      invariant i == 1 ==> factory.cached == null && factory.created == 0
      invariant i > 1 ==> factory.cached == blocks[0] && factory.created == 1 && blocks[0].imgData == imgData
      invariant forall j :: 0 <= j < |blocks| ==> blocks[j] == blocks[0] && drawings[j] == imgData
    {
      var block := factory.MakeBlock(imgData);
      blocks := blocks + [block];
      drawings := drawings + [block.Draw(i, i)];
      i := i + 1;
    }
    made := factory.created;
  }
}
