/**
  * The pool that tree nodes and levels are allocated from: released chunks are
  * handed out first, through a list threaded through the chunks themselves, and
  * chunks never used before after them, in the order of their numbers.
  */
module Pool {
  import opened Layout

  /** Address of a chunk: its block and its place in it. */
  datatype Addr = Null | Chunk(block: nat, place: nat)

  /** Address of chunk number `i`, with `n` chunks a block. */
  function ChunkAt(i: nat, n: nat): (a: Addr)
    requires n > 0
    ensures a.Chunk?
  {
    Chunk(i / n, i % n)
  }

  /** Number of chunks in `blocks` blocks. */
  ghost function ChunksIn(blocks: nat, n: nat): nat {
    blocks * n
  }

  lemma OneBlockMore(blocks: nat, n: nat)
    ensures ChunksIn(blocks + 1, n) == ChunksIn(blocks, n) + n
  {
  }

  ghost function NextFree(free: seq<nat>, k: nat, n: nat): Addr
    requires n > 0
  {
    if k < |free| then ChunkAt(free[k], n) else Null
  }

  lemma ChunkInBlocks(i: nat, n: nat, blocks: nat)
    requires n > 0 && i < ChunksIn(blocks, n)
    ensures ChunkAt(i, n).block < blocks && ChunkAt(i, n).place < n
  {
    if i / n >= blocks {
      Times(n, blocks, i / n);
    }
  }

  lemma Times(n: nat, a: nat, b: nat)
    requires a <= b
    ensures a * n <= b * n
  {
  }

  /** Different numbers are different chunks. */
  lemma ChunksDiffer(i: nat, j: nat, n: nat)
    requires n > 0 && i != j
    ensures ChunkAt(i, n) != ChunkAt(j, n)
  {
    assert i == i / n * n + i % n;
    assert j == j / n * n + j % n;
  }

  /**
    * Chunks in use and free chunks, no chunk twice, are as many as the numbers
    * below their count; so they are those numbers.
    */
  lemma NumbersCovered(live: set<nat>, free: seq<nat>, i: nat)
    requires Distinct(free) && (forall x :: x in live ==> x < |live| + |free|)
    requires forall x :: x in free ==> x < |live| + |free| && x !in live
    ensures i in live || i in free <==> i < |live| + |free|
  {
    var listed := set x | x in free;
    DistinctCard(free, listed);
    if i !in live && i !in free && i < |live| + |free| {
      SubsetCard(live + listed, UpTo(|live| + |free|) - {i});
      assert false;
    }
  }

  lemma DistinctTail(s: seq<nat>)
    requires Distinct(s) && s != []
    ensures Distinct(s[1..]) && s[0] !in s[1..]
  {
    var t := s[1..];
    forall i, j | 0 <= i < j < |t| ensures Differ(t, i, j) { assert Differ(s, i + 1, j + 1); }
    Alone(s, 0);
  }

  lemma DistinctFront(s: seq<nat>, x: nat)
    requires Distinct(s) && x !in s
    ensures Distinct([x] + s)
  {
    var t := [x] + s;
    forall i, j | 0 <= i < j < |t| ensures Differ(t, i, j) { assert i > 0 ==> Differ(s, i - 1, j - 1); }
  }

  ghost predicate Unlike(blocks: seq<array<Addr>>, b: nat, c: nat)
    requires b < |blocks| && c < |blocks|
  {
    blocks[b] != blocks[c]
  }

  lemma TakeOneMore(s: seq<nat>, k: nat)
    requires k < |s|
    ensures forall x :: x in s[..k + 1] <==> x in s[..k] || x == s[k]
  {
    assert s[..k + 1] == s[..k] + [s[k]];
  }

  lemma DistinctSoFar(s: seq<nat>, k: nat)
    requires Distinct(s) && k < |s|
    ensures s[k] !in s[..k]
  {
    forall i | 0 <= i < k ensures s[i] != s[k] { assert Differ(s, i, k); }
  }

  class AllocatorPool {
    /** Chunks a block. */
    const n: nat
    /** The blocks. The cell of a free chunk holds the address of the next free one. */
    var blocks: seq<array<Addr>>
    var size: nat
    var nbElements: nat
    var freeList: Addr
    /** Numbers of the chunks in use, and of the free ones in the order they will be handed out. */
    ghost var live: set<nat>
    ghost var free: seq<nat>

    ghost predicate Stored()
      reads this, blocks
    {
      && n >= 2 && size == ChunksIn(|blocks|, n)
      && (forall b :: 0 <= b < |blocks| ==> blocks[b].Length == n)
      && (forall b, c :: 0 <= b < c < |blocks| ==> Unlike(blocks, b, c))
    }

    /** The cell of the free chunk at position `k` of the list holds the next one. */
    ghost predicate Linked(k: nat)
      requires n > 0 && k < |free|
      reads this, blocks
    {
      var c := ChunkAt(free[k], n);
      c.block < |blocks| && c.place < blocks[c.block].Length && blocks[c.block][c.place] == NextFree(free, k + 1, n)
    }

    ghost predicate Valid()
      reads this, blocks
    {
      && Stored()
      && nbElements == |live| && |live| + |free| <= size
      && Distinct(free)
      && (forall i :: i in live ==> i < |live| + |free|)
      && (forall i :: i in free ==> i < |live| + |free| && i !in live)
      && freeList == NextFree(free, 0, n)
      && forall k :: 0 <= k < |free| ==> Linked(k)
    }

    constructor (n: nat)
      requires n >= 2
      ensures Valid() && live == {} && free == [] && this.n == n && blocks == []
    {
      this.n := n;
      blocks, size, nbElements, freeList := [], 0, 0, Null;
      live, free := {}, [];
    }

    /** Adds blocks until the chunk number is valid. */
    method Reserve(reserveSize: nat)
      requires Valid()
      modifies this`blocks, this`size
      ensures Valid() && reserveSize < size && size >= old(size)
      ensures |blocks| >= |old(blocks)| && blocks[..|old(blocks)|] == old(blocks)
      ensures if reserveSize < old(size) then blocks == old(blocks) else size <= reserveSize + n
      ensures fresh(blocks[|old(blocks)|..])
    {
      hide Valid;
      TwoOrMore();
      if reserveSize < size { return; }
      while reserveSize >= size
        invariant Valid() && size >= old(size) && size <= reserveSize + n
        invariant |blocks| >= |old(blocks)| && blocks[..|old(blocks)|] == old(blocks)
        invariant fresh(blocks[|old(blocks)|..])
        decreases reserveSize + 1 - size
      {
        ghost var was, k := blocks, |old(blocks)|;
        AddBlock();
        assert blocks[..k] == was[..k] && blocks[k..] == was[k..] + [blocks[|was|]];
      }
    }

    lemma TwoOrMore()
      requires Valid()
      ensures n >= 2
    {
    }

    method AddBlock()
      requires Valid()
      modifies this`blocks, this`size
      ensures Valid() && size == old(size) + n && |blocks| == |old(blocks)| + 1
      ensures blocks == old(blocks) + [blocks[|old(blocks)|]] && fresh(blocks[|old(blocks)|])
    {
      hide ChunkAt, ChunksIn, Distinct;
      var newBlock := new Addr[n](_ => Null);
      OneBlockMore(|blocks|, n);
      blocks := blocks + [newBlock];
      size := size + n;
      forall b, c | 0 <= b < c < |blocks|
        ensures Unlike(blocks, b, c)
      {
        assert c < |old(blocks)| ==> Unlike(old(blocks), b, c);
      }
      forall k | 0 <= k < |free| ensures Linked(k) { assert old(Linked(k)); }
    }

    /** What the chunk with a number holds. */
    ghost function Cell(i: nat): Addr
      requires Stored() && i < size
      reads this, blocks
    {
      ChunkInBlocks(i, n, |blocks|);
      blocks[ChunkAt(i, n).block][ChunkAt(i, n).place]
    }

    /** Writes an object's bytes over a chunk in use. No other chunk is disturbed. */
    method Construct(chunk: Addr, image: Addr, ghost i: nat)
      requires Valid() && i in live && chunk == ChunkAt(i, n)
      modifies blocks
      ensures Valid() && chunk.block < |blocks| && chunk.place < blocks[chunk.block].Length
      ensures blocks[chunk.block][chunk.place] == image
      ensures forall j :: 0 <= j < size && j != i ==> Cell(j) == old(Cell(j))
    {
      hide ChunkAt, ChunksIn;
      ChunkInBlocks(i, n, |blocks|);
      blocks[chunk.block][chunk.place] := image;
      forall j | 0 <= j < size && j != i ensures Cell(j) == old(Cell(j)) { OtherCell(j, i); }
      forall k | 0 <= k < |free| ensures Linked(k) {
        assert old(Linked(k)) && free[k] in free;
        OtherCell(free[k], i);
      }
    }

    /** Two chunks share no cell. */
    lemma OtherCell(i: nat, j: nat)
      requires Stored() && i != j && i < size && j < size
      ensures ChunkAt(i, n).block < |blocks| && ChunkAt(j, n).block < |blocks|
      ensures blocks[ChunkAt(i, n).block] != blocks[ChunkAt(j, n).block] || ChunkAt(i, n).place != ChunkAt(j, n).place
    {
      hide ChunkAt, ChunksIn;
      ChunkInBlocks(i, n, |blocks|);
      ChunkInBlocks(j, n, |blocks|);
      ChunksDiffer(i, j, n);
      var b, c := ChunkAt(i, n).block, ChunkAt(j, n).block;
      assert b < c ==> Unlike(blocks, b, c);
      assert c < b ==> Unlike(blocks, c, b);
    }

    /** Hands out a chunk that is not in use: the first free one, or else the next never used. */
    method Allocate(image: Addr) returns (chunk: Addr, ghost i: nat)
      requires Valid()
      modifies this, blocks
      ensures Valid() && chunk == ChunkAt(i, n) && i !in old(live) && live == old(live) + {i}
      ensures if old(free) != [] then old(free) == [i] + free else free == [] && i == |old(live)|
      ensures i < size && Cell(i) == image && size >= old(size)
      ensures forall j :: 0 <= j < old(size) && j != i ==> Cell(j) == old(Cell(j))
      ensures |blocks| >= |old(blocks)| && blocks[..|old(blocks)|] == old(blocks)
      ensures fresh(blocks[|old(blocks)|..])
    {
      hide ChunkAt, ChunksIn, Distinct;
      if freeList != Null {
        chunk, i := TakeFree();
        Construct(chunk, image, i);
        return;
      }
      var index := nbElements;
      if index >= size { Reserve(index); }
      forall j | 0 <= j < old(size) ensures j < size && Cell(j) == old(Cell(j)) { SameCell(old(blocks), j); }
      forall k | 0 <= k < |blocks| ensures blocks[k] in old(blocks) || fresh(blocks[k]) {
        assert blocks[k]
          == if k < |old(blocks)| then blocks[..|old(blocks)|][k] else blocks[|old(blocks)|..][k - |old(blocks)|];
      }
      nbElements := nbElements + 1;
      chunk, i := ChunkAt(index, n), index;
      live := live + {index};
      Construct(chunk, image, i);
    }

    /** A chunk is in the same array as long as its block is where it was. */
    lemma SameCell(was: seq<array<Addr>>, j: nat)
      requires Stored() && j < ChunksIn(|was|, n) && |blocks| >= |was| && blocks[..|was|] == was
      ensures j < size && ChunkAt(j, n).block < |was| && blocks[ChunkAt(j, n).block] == was[ChunkAt(j, n).block]
    {
      ChunkInBlocks(j, n, |was|);
      Times(n, |was|, |blocks|);
    }

    /** Unlinks the first chunk of the free list. */
    method TakeFree() returns (chunk: Addr, ghost i: nat)
      requires Valid() && freeList != Null
      modifies this
      ensures Valid() && chunk == ChunkAt(i, n) && live == old(live) + {i} && blocks == old(blocks)
      ensures old(free) == [i] + free && i !in old(live)
      ensures size == old(size) && forall j :: 0 <= j < size ==> Cell(j) == old(Cell(j))
    {
      hide ChunkAt, ChunksIn, Distinct;
      assert Linked(0) && free[0] in free;
      chunk, i := freeList, free[0];
      DistinctTail(free);
      freeList := blocks[chunk.block][chunk.place];
      nbElements := nbElements + 1;
      live, free := live + {i}, free[1..];
      forall k | 0 <= k < |free| ensures Linked(k) { assert old(Linked(k + 1)); }
      assert |live| + |free| == old(|live| + |free|);
      assert forall x :: x in free ==> x in old(free);
    }

    /** Takes back a chunk that is in use. */
    method Release(pointer: Addr, ghost i: nat)
      requires Valid() && i in live && pointer == ChunkAt(i, n)
      modifies this, blocks
      ensures Valid() && live == old(live) - {i} && free == [i] + old(free) && blocks == old(blocks)
      ensures size == old(size) && forall j :: 0 <= j < size && j != i ==> Cell(j) == old(Cell(j))
    {
      hide ChunkAt, ChunksIn, Distinct;
      Construct(pointer, freeList, i);
      label built:
      ChunkInBlocks(i, n, |blocks|);
      assert i !in free;
      DistinctFront(free, i);
      freeList := pointer;
      nbElements := nbElements - 1;
      live, free := live - {i}, [i] + free;
      forall k | 0 <= k < |free| ensures Linked(k) { assert k > 0 ==> old@built(Linked(k - 1)); }
      assert |live| + |free| == old(|live| + |free|);
    }

    /** Takes back chunks in use, such as those of all the nodes of a tree that is cleared. */
    method ReleaseAll(chunks: seq<nat>)
      requires Valid() && Distinct(chunks) && forall c :: c in chunks ==> c in live
      modifies this, blocks
      ensures Valid() && blocks == old(blocks) && live == old(live) - (set c | c in chunks)
      ensures nbElements == old(nbElements) - |chunks| && |free| == |old(free)| + |chunks|
      ensures size == old(size) && forall j :: 0 <= j < size && j !in chunks ==> Cell(j) == old(Cell(j))
    {
      hide ChunkAt, ChunksIn, Stored, Linked, Cell, Valid, Distinct;
      TwoOrMore();
      Counted();
      var k := 0;
      while k < |chunks|
        invariant k <= |chunks| && Valid() && Stored() && blocks == old(blocks) && size == old(size)
        invariant forall c :: c in live <==> c in old(live) && c !in chunks[..k]
        invariant |live| == |old(live)| - k && |free| == |old(free)| + k
        invariant forall j :: 0 <= j < size && j !in chunks[..k] ==> Cell(j) == old(Cell(j))
      {
        DistinctSoFar(chunks, k);
        TakeOneMore(chunks, k);
        Release(ChunkAt(chunks[k], n), chunks[k]);
        Counted();
        k := k + 1;
      }
      assert chunks[..k] == chunks;
      Counted();
    }

    lemma Counted()
      requires Valid()
      ensures Stored() && nbElements == |live|
    {
    }

    /** Live and free chunks are together all that were ever handed out, and disjoint. */
    lemma HandedOut(i: nat)
      requires Valid()
      ensures i in live || i in free <==> i < |live| + |free|
      ensures !(i in live && i in free)
    {
      NumbersCovered(live, free, i);
    }
  }
}
