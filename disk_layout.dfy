// 2024/day_09/layout.py: the blocks of a disk map as a doubly linked list

module DiskLayout {

  /** The id every free block carries. */
  const FREE_ID: int := -1

  /** What a block holds, as a value: its id and its length in cells. */
  datatype Extent = Extent(id: int, length: nat)

  /** A run of cells: a file (id >= 0) or free space (FREE_ID), with links
      to its neighbours in the layout. */
  class Block {
    var id: int
    var length: nat
    var prev: Block?
    var next: Block?

    /** `Block(id, length)`: a block linked to nothing. */
    constructor (id: int, length: nat)
      ensures this.id == id && this.length == length && prev == null && next == null
    {
      this.id := id;
      this.length := length;
      prev := null;
      next := null;
    }

    /** `Block.create_free_block(length)` */
    static method CreateFreeBlock(length: nat) returns (b: Block)
      ensures fresh(b) && b.IsFree() && b.length == length && b.prev == null && b.next == null
    {
      b := new Block(FREE_ID, length);
    }

    /** `free()`: the block becomes free space; its length and links stay. */
    method Free()
      modifies this
      ensures IsFree() && length == old(length) && prev == old(prev) && next == old(next)
    {
      id := FREE_ID;
    }

    predicate IsFree()
      reads this
    {
      id == FREE_ID
    }
  }

  /** No block occurs twice. */
  ghost predicate Distinct(s: seq<Block>)
  {
    forall i, j :: 0 <= i < j < |s| ==> s[i] != s[j]
  }

  lemma DistinctInsert(s: seq<Block>, x: Block, k: nat)
    requires Distinct(s) && x !in s && k <= |s|
    ensures Distinct(s[..k] + [x] + s[k..])
  {
    var t := s[..k] + [x] + s[k..];
    forall i, j | 0 <= i < j < |t| ensures t[i] != t[j] {
      assert t[i] == if i < k then s[i] else if i == k then x else s[i - 1];
      assert t[j] == if j < k then s[j] else if j == k then x else s[j - 1];
    }
  }

  lemma DistinctRemove(s: seq<Block>, k: nat)
    requires Distinct(s) && k < |s|
    ensures Distinct(s[..k] + s[k + 1..]) && s[k] !in s[..k] + s[k + 1..]
  {
    var t := s[..k] + s[k + 1..];
    forall i | 0 <= i < |t| ensures t[i] == (if i < k then s[i] else s[i + 1]) && t[i] != s[k] {
    }
  }

  /** `s` with `x` inserted at position k, described element by element. */
  lemma Inserted<T>(s: seq<T>, k: nat, x: T) returns (t: seq<T>)
    requires k <= |s|
    ensures t == s[..k] + [x] + s[k..] && |t| == |s| + 1
    ensures forall i :: 0 <= i < k ==> t[i] == s[i]
    ensures t[k] == x
    ensures forall i :: k < i < |t| ==> t[i] == s[i - 1]
  {
    t := s[..k] + [x] + s[k..];
    forall i | k < i < |t| ensures t[i] == s[i - 1] {
      assert t[i] == s[k..][i - k - 1];
    }
  }

  /** `s` without its element at position k, described element by element. */
  lemma Removed<T>(s: seq<T>, k: nat) returns (t: seq<T>)
    requires k < |s|
    ensures t == s[..k] + s[k + 1..] && |t| == |s| - 1
    ensures forall i :: 0 <= i < k ==> t[i] == s[i]
    ensures forall i :: k <= i < |t| ==> t[i] == s[i + 1]
  {
    t := s[..k] + s[k + 1..];
    forall i | k <= i < |t| ensures t[i] == s[i + 1] {
      assert t[i] == s[k + 1..][i - k];
    }
  }

  /** Each block carries the id and length of the extent at its position. */
  ghost predicate Shaped(bs: seq<Block>, sh: seq<Extent>)
    reads bs`id, bs`length
  {
    |bs| == |sh| && forall i {:trigger bs[i].id} :: 0 <= i < |bs| ==> bs[i].id == sh[i].id && bs[i].length == sh[i].length
  }

  lemma ShapedInsert(bs: seq<Block>, sh: seq<Extent>, k: nat, x: Block, nbs: seq<Block>, nsh: seq<Extent>)
    requires Shaped(bs, sh) && k <= |bs|
    requires nbs == bs[..k] + [x] + bs[k..] && nsh == sh[..k] + [Extent(x.id, x.length)] + sh[k..]
    ensures Shaped(nbs, nsh)
  {
    forall i | 0 <= i < |nbs| ensures nbs[i].id == nsh[i].id && nbs[i].length == nsh[i].length {
      if i > k {
        assert nbs[i] == bs[k..][i - k - 1] && nsh[i] == sh[k..][i - k - 1];
      }
    }
  }

  lemma ShapedRemove(bs: seq<Block>, sh: seq<Extent>, k: nat)
    requires Shaped(bs, sh) && k < |bs|
    ensures Shaped(bs[..k] + bs[k + 1..], sh[..k] + sh[k + 1..])
  {
  }

  /** The list of blocks from head to tail. The ghost `blocks` is the forward
      order and `shape` the value of each block, in the same order. */
  class Layout {
    var head: Block?
    var tail: Block?
    ghost var blocks: seq<Block>
    ghost var shape: seq<Extent>

    /** head and tail are the ends, each block's next and prev are its
        neighbours in `blocks` (null past the ends), no block occurs twice,
        and `shape` holds each block's id and length. */
    ghost predicate Valid()
      reads this, blocks
    {
      (blocks == [] ==> head == null && tail == null)
      && (blocks != [] ==> head == blocks[0] && tail == blocks[|blocks| - 1])
      && (forall i {:trigger blocks[i].next} :: 0 <= i < |blocks| ==> blocks[i].next == if i + 1 < |blocks| then blocks[i + 1] else null)
      && (forall i {:trigger blocks[i].prev} :: 0 <= i < |blocks| ==> blocks[i].prev == if 0 < i then blocks[i - 1] else null)
      && Distinct(blocks)
      && Shaped(blocks, shape)
    }

    /** `Layout()`: the empty list. */
    constructor ()
      ensures Valid() && blocks == [] && shape == []
    {
      head := null;
      tail := null;
      blocks := [];
      shape := [];
    }

    /** `append(block)`: the block becomes the new tail. */
    method Append(block: Block)
      requires Valid() && block !in blocks && block.prev == null && block.next == null
      modifies this, tail, block
      ensures Valid() && tail == block
      ensures blocks == old(blocks) + [block] && shape == old(shape) + [Extent(block.id, block.length)]
    {
      ghost var b, sh := blocks, shape;
      ghost var nb := Inserted(b, |b|, block);
      ghost var nsh := Inserted(sh, |sh|, Extent(block.id, block.length));
      ShapedInsert(b, sh, |b|, block, nb, nsh);
      DistinctInsert(b, block, |b|);
      if tail == null {
        head := block;
        tail := block;
      } else {
        tail.next := block;
        block.prev := tail;
        tail := block;
      }
      blocks, shape := nb, nsh;
      assert Shaped(nb, nsh) by {
        forall i | 0 <= i < |nb| ensures nb[i].id == old(nb[i].id) && nb[i].length == old(nb[i].length) {
        }
      }
    }

    /** The links of `remove`: the neighbours of the block are linked to
        each other, or head and tail move past it, and its own links are
        cleared. */
    method Unlink(block: Block)
      requires block.prev != block && block.next != block
      modifies this`head, this`tail, block, {block.prev}`next, {block.next}`prev
      ensures block.prev == null && block.next == null && block.id == old(block.id) && block.length == old(block.length)
      ensures old(block.prev) != null ==> old(block.prev).next == old(block.next) && head == old(head)
      ensures old(block.prev) == null ==> head == old(block.next)
      ensures old(block.next) != null ==> old(block.next).prev == old(block.prev) && tail == old(tail)
      ensures old(block.next) == null ==> tail == old(block.prev)
    {
      var before, after := block.prev, block.next;
      if before != null {
        before.next := after;
      } else {
        head := after;
      }
      if after != null {
        after.prev := before;
      } else {
        tail := before;
      }
      block.prev := null;
      block.next := null;
    }

    /** `remove(block)`: the block at position k leaves the list, whose other
        blocks keep their order, and its links are cleared. */
    method Remove(block: Block, ghost k: nat)
      requires Valid() && k < |blocks| && blocks[k] == block
      modifies this, block, block.prev, block.next
      ensures Valid() && block.prev == null && block.next == null
      ensures block.id == old(block.id) && block.length == old(block.length)
      ensures blocks == old(blocks[..k] + blocks[k + 1..]) && shape == old(shape[..k] + shape[k + 1..])
    {
      ghost var b, sh := blocks, shape;
      ghost var nb := Removed(b, k);
      ghost var nsh := Removed(sh, k);
      ShapedRemove(b, sh, k);
      DistinctRemove(b, k);
      Unlink(block);
      blocks, shape := nb, nsh;
      assert Shaped(nb, nsh) by {
        forall i | 0 <= i < |nb| ensures nb[i].id == old(nb[i].id) && nb[i].length == old(nb[i].length) {
        }
      }
    }

    /** The links of `insert_before`: the new block sits between the
        reference block and its predecessor, or becomes head. */
    method Splice(refBlock: Block, newBlock: Block)
      requires refBlock != newBlock && refBlock.prev != newBlock
      modifies this`head, {refBlock.prev}`next, refBlock`prev, newBlock`next, newBlock`prev
      ensures newBlock.next == refBlock && newBlock.prev == old(refBlock.prev) && refBlock.prev == newBlock
      ensures old(refBlock.prev) != null ==> old(refBlock.prev).next == newBlock && head == old(head)
      ensures old(refBlock.prev) == null ==> head == newBlock
    {
      var before := refBlock.prev;
      newBlock.next := refBlock;
      newBlock.prev := before;
      if before != null {
        before.next := newBlock;
      } else {
        head := newBlock;
      }
      refBlock.prev := newBlock;
    }

    /** `insert_before(ref_block, new_block)`: the new block goes in
        immediately before the block at position k; nothing else moves. */
    method InsertBefore(refBlock: Block, newBlock: Block, ghost k: nat)
      requires Valid() && k < |blocks| && blocks[k] == refBlock && newBlock !in blocks
      modifies this, refBlock, refBlock.prev, newBlock
      ensures Valid()
      ensures blocks == old(blocks[..k]) + [newBlock] + old(blocks[k..])
      ensures shape == old(shape[..k] + [Extent(newBlock.id, newBlock.length)] + shape[k..])
      ensures newBlock.id == old(newBlock.id) && newBlock.length == old(newBlock.length)
    {
      ghost var b, sh := blocks, shape;
      ghost var nb := Inserted(b, k, newBlock);
      ghost var nsh := Inserted(sh, k, Extent(newBlock.id, newBlock.length));
      ShapedInsert(b, sh, k, newBlock, nb, nsh);
      DistinctInsert(b, newBlock, k);
      Splice(refBlock, newBlock);
      blocks, shape := nb, nsh;
      assert Shaped(nb, nsh) by {
        forall i | 0 <= i < |nb| ensures nb[i].id == old(nb[i].id) && nb[i].length == old(nb[i].length) {
        }
      }
    }

    /** The block at position k gets a new length, as in
        `block.length -= moved` in main.py. */
    method SetLength(block: Block, ghost k: nat, length: nat)
      requires Valid() && k < |blocks| && blocks[k] == block
      modifies block, this
      ensures Valid() && blocks == old(blocks) && block.id == old(block.id) && block.length == length
      ensures shape == old(shape[k := Extent(shape[k].id, length)])
    {
      block.length := length;
      shape := shape[k := Extent(block.id, length)];
    }

    /** The block at position k becomes free, as `free()` does. */
    method Free(block: Block, ghost k: nat)
      requires Valid() && k < |blocks| && blocks[k] == block
      modifies block, this
      ensures Valid() && blocks == old(blocks) && block.IsFree() && block.length == old(block.length)
      ensures shape == old(shape[k := Extent(FREE_ID, shape[k].length)])
    {
      assert blocks[k].id == shape[k].id && block.length == shape[k].length;
      block.Free();
      shape := shape[k := Extent(FREE_ID, block.length)];
    }

    /** `__iter__`: following next from head visits the blocks in order. */
    method Forward() returns (visited: seq<Block>)
      requires Valid()
      ensures visited == blocks
    {
      visited := [];
      var current := head;
      while current != null
        invariant |visited| <= |blocks| && visited == blocks[..|visited|]
        invariant current == if |visited| < |blocks| then blocks[|visited|] else null
        decreases |blocks| - |visited|
      {
        visited := visited + [current];
        current := current.next;
      }
    }

    /** `__reversed__`: following prev from tail visits the blocks in the
        opposite order. */
    method Backward() returns (visited: seq<Block>)
      requires Valid()
      ensures |visited| == |blocks|
      ensures forall i :: 0 <= i < |visited| ==> visited[i] == blocks[|blocks| - 1 - i]
    {
      visited := [];
      var current := tail;
      while current != null
        invariant |visited| <= |blocks|
        invariant forall i :: 0 <= i < |visited| ==> visited[i] == blocks[|blocks| - 1 - i]
        invariant current == if |visited| < |blocks| then blocks[|blocks| - 1 - |visited|] else null
        decreases |blocks| - |visited|
      {
        visited := visited + [current];
        current := current.prev;
      }
    }
  }
}
