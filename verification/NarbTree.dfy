/**
  * One side of the book: the threaded tree of price levels, the chain of PINs that holds
  * the orders, and the index from order ids to positions.
  */
module NarbTrees {
  import opened Orders
  import opened Layout
  import opened PinChains
  import opened LevelTrees
  import opened Items
  import opened Blocks
  import opened Places
  import opened Queues
  import opened Snapshots
  import RedBlack

  /** Most nodes a cascade walks past before it allocates one. */
  const MAX_CASCADE_HOPS: nat := 16

  /** No node of the chain but node `i` is empty. */
  ghost predicate PackedBut(rows: seq<seq<Item>>, i: int) {
    forall m :: 0 <= m < |rows| && m != i ==> rows[m] != []
  }

  /** One hop of Push Back is possible from node `i` to the next. */
  ghost predicate CanHop(rows: seq<seq<Item>>, i: nat, cap: nat) {
    i + 1 < |rows| && rows[i] != [] && |rows[i + 1]| < cap
  }

  /** The last order of node `i` has gone to the front of the next, and no other row has changed. */
  ghost predicate Hopped(was: seq<seq<Item>>, now: seq<seq<Item>>, i: nat) {
    && |now| == |was| && i + 1 < |was| && was[i] != []
    && now[i] == RemoveAt(was[i], |was[i]| - 1)
    && |now[i + 1]| == |was[i + 1]| + 1
    && forall m :: 0 <= m < |now| && m != i && m != i + 1 ==> now[m] == was[m]
  }

  /** `path` visits the `len` nodes of the chain from node `i` on. */
  ghost predicate PathOf(path: seq<PinNode?>, len: nat, nodes: seq<PinNode>, i: nat) {
    && len <= |path| && i + len <= |nodes|
    && forall t :: 0 <= t < len ==> path[t] == NodeAt(nodes, i + t)
  }

  lemma PathStart(path: seq<PinNode?>, nodes: seq<PinNode>, rows: seq<seq<Item>>, i: nat, cap: nat)
    requires path != [] && i < |nodes| == |rows|
    ensures PathOf(path[0 := nodes[i]], 1, nodes, i) && FullFrom(rows, i, i, cap)
    ensures SamePrefix(nodes, nodes, rows, rows, i)
  {
  }

  lemma PathStep(path: seq<PinNode?>, len: nat, nodes: seq<PinNode>, i: nat, n: PinNode)
    requires PathOf(path, len, nodes, i) && len < |path| && NodeAt(nodes, i + len) == n
    ensures i + len < |nodes| && nodes[i + len] == n && PathOf(path[len := n], len + 1, nodes, i)
  {
  }

  lemma PathGrow(path: seq<PinNode?>, len: nat, nodes: seq<PinNode>, i: nat, n: PinNode)
    requires PathOf(path, len, nodes, i) && len < |path|
    ensures PathOf(path[len := n], len + 1, InsertAt(nodes, i + len, n), i)
  {
  }

  lemma FullStep(rows: seq<seq<Item>>, i: nat, n: nat, cap: nat)
    requires FullFrom(rows, i, n, cap) && n < |rows| && |rows[n]| == cap
    ensures FullFrom(rows, i, n + 1, cap)
  {
  }

  lemma GrowRows(nodes: seq<PinNode>, m: PinNode, rows: seq<seq<Item>>, i: nat, n: nat, cap: nat)
    requires FullFrom(rows, i, n, cap) && PackedBut(rows, -1) && i < n && |nodes| == |rows|
    ensures FullFrom(InsertAt(rows, n, []), i, n, cap) && PackedBut(InsertAt(rows, n, []), n)
    ensures SamePrefix(nodes, InsertAt(nodes, n, m), rows, InsertAt(rows, n, []), i)
    ensures InsertAt(rows, n, [])[i] == rows[i]
  {
  }

  lemma PackedStill(rows: seq<seq<Item>>, n: nat)
    requires PackedBut(rows, -1)
    ensures PackedBut(rows, n)
  {
  }

  /** The rows from `i` up to `n` are full. */
  ghost predicate FullFrom(rows: seq<seq<Item>>, i: nat, n: nat, cap: nat) {
    n <= |rows| && forall m :: i <= m < n ==> |rows[m]| == cap
  }

  /** Node `n` has the free slot, those before it are as they were in `was`. */
  ghost predicate Rippling(was: seq<seq<Item>>, now: seq<seq<Item>>, n: nat, last: nat, cap: nat) {
    && |now| == |was| && n <= last < |was| && |now[n]| < cap
    && (forall m :: 0 <= m < n ==> now[m] == was[m])
    && (n < last ==> was[n] != [] && now[n] == RemoveAt(was[n], |was[n]| - 1))
    && PackedBut(now, n)
  }

  lemma RippleStep(was: seq<seq<Item>>, rows: seq<seq<Item>>, now: seq<seq<Item>>, i: nat, n: nat, last: nat, cap: nat)
    requires Rippling(was, rows, n + 1, last, cap) && i <= n && FullFrom(was, i, last, cap) && Hopped(rows, now, n)
    ensures Rippling(was, now, n, last, cap)
  {
    assert rows[n] == was[n];
    forall m | 0 <= m < |now| && m != n ensures now[m] != [] {
      if m != n + 1 { assert now[m] == rows[m]; }
    }
  }

  lemma CanRipple(was: seq<seq<Item>>, rows: seq<seq<Item>>, i: nat, n: nat, last: nat, cap: nat)
    requires Rippling(was, rows, n + 1, last, cap) && i <= n && FullFrom(was, i, last, cap) && cap > 0
    ensures CanHop(rows, n, cap)
  {
    assert rows[n] == was[n];
  }

  /** The chain as it was up to node `i`. */
  ghost predicate SamePrefix(was: seq<PinNode>, now: seq<PinNode>, rows: seq<seq<Item>>, rows': seq<seq<Item>>,
                             i: nat) {
    && |rows| == |was| && |rows'| == |now| && i < |was| && i < |now|
    && (forall m :: 0 <= m <= i ==> now[m] == was[m])
    && (forall m :: 0 <= m < i ==> rows'[m] == rows[m])
  }

  class NarbTree {
    const bid: bool
    const levels: LevelTree
    const chain: PinChain
    var index: map<nat, Loc>
    var blocks: map<Level, Block>

    /** The orders of the side, best first, with their positions. */
    ghost function List(): seq<Item>
      reads chain
    {
      Concat(chain.rows)
    }

    ghost function Repr(): set<object>
      reads chain
    {
      {this, levels, chain} + chain.repr
    }

    /** Chain, descriptors and index agree. */
    ghost predicate Agree()
      reads this, levels, chain, chain.repr
    {
      && this !in chain.repr && levels !in chain.repr
      && levels.bid == bid && chain.Valid()
      && Consistent(bid, List(), levels.order, blocks, index)
    }

    /** Chain, descriptors and index agree; the levels but `spared` all have orders. */
    ghost predicate Sound(spared: Level?)
      reads this, levels, chain, chain.repr
    {
      Agree() && levels.Valid() && Occupied(List(), levels.order, spared)
    }

    ghost predicate Valid()
      reads this, levels, chain, chain.repr
    {
      Sound(null) && PackedBut(chain.rows, -1)
    }

    constructor (bid: bool, cap: nat)
      requires 0 < cap < NPOS
      ensures Valid() && fresh(Repr()) && List() == [] && Entries() == [] && this.bid == bid
    {
      this.bid := bid;
      levels := new LevelTree(bid);
      chain := new PinChain(cap);
      index, blocks := map[], map[];
    }

    /** Orders of the chain are in different places. */
    lemma AllPlaced()
      requires chain.Valid()
      ensures Placed(List())
    {
      var s := List();
      forall p | 0 <= p < |s| ensures s[p].loc != Nil {
        var i, j := Locate(chain.rows, p);
        chain.RowsApart(i, j, i, j);
      }
      forall p, q | 0 <= p < q < |s| ensures Elsewhere(s, p, q) {
        var i, j := Locate(chain.rows, p);
        var i', j' := Locate(chain.rows, q);
        chain.RowsApart(i, j, i', j');
      }
    }

    /** Moves the last order of a node to the front of the next, one hop of Push Back. */
    method RelocateTailToHead(src: PinNode, dst: PinNode, ghost i: nat)
      requires Agree() && CanHop(chain.rows, i, chain.cap)
      requires NodeAt(chain.nodes, i) == src && NodeAt(chain.nodes, i + 1) == dst
      modifies this`index, this`blocks, chain`rows, chain.repr
      ensures Agree() && chain.nodes == old(chain.nodes) && Hopped(old(chain.rows), chain.rows, i)
      ensures SamePays(old(List()), List())
      ensures SameLevels(old(List()), List(), levels.order)
    {
      hide PinChain.Valid, Consistent, Concat, Placed, SameLevels;
      ghost var rows, s := chain.rows, List();
      ghost var j := |rows[i]| - 1;
      ghost var k := Offset(rows, i) + j;
      chain.Here(i);
      chain.Here(i + 1);
      chain.EndsOf(i);
      chain.FullRow(i + 1);
      ConcatAt(rows, i, j);
      AllPlaced();
      var sOld := src.tailSlot;
      var oldLoc := At(src, sOld);
      var moved := src.slots[sOld];
      chain.Remove(src, sOld, i, j);
      chain.FullRow(i + 1);
      var newLoc := chain.Prepend(dst, moved, i + 1);
      ConcatRelocate(rows, i, Item(newLoc, moved));
      ConsistentMove(bid, s, levels.order, blocks, index, k, newLoc);
      assert List() == s[k := s[k].(loc := newLoc)];
      index := index[moved.order.id := newLoc];
      MoveDescriptor(moved.level, oldLoc, newLoc);
    }

    /** Looks towards the tail for a node that is not full, `MAX_CASCADE_HOPS` nodes away at most. */
    method Walk(x: PinNode, path: array<PinNode?>, ghost i: nat) returns (n: PinNode, len: nat)
      requires chain.Valid() && i < |chain.nodes| && chain.nodes[i] == x
      requires path.Length == MAX_CASCADE_HOPS + 2 && path !in chain.repr
      modifies path
      ensures 1 <= len <= MAX_CASCADE_HOPS + 1 && i + len <= |chain.nodes| && n == chain.nodes[i + len - 1]
      ensures PathOf(path[..], len, chain.nodes, i) && FullFrom(chain.rows, i, i + len - 1, chain.cap)
    {
      hide PinChain.Valid, PathOf, FullFrom, NodeAt;
      chain.Here(i);
      PathStart(path[..], chain.nodes, chain.rows, i, chain.cap);
      len := 1;
      path[0] := x;
      n := x;
      var hops := 0;
      while n.Full() && hops < MAX_CASCADE_HOPS
        invariant hops + 1 == len <= MAX_CASCADE_HOPS + 1 && i + len <= |chain.nodes|
        invariant PathOf(path[..], len, chain.nodes, i) && n == chain.nodes[i + len - 1]
        invariant FullFrom(chain.rows, i, i + len - 1, chain.cap)
      {
        chain.FullRow(i + len - 1);
        chain.Neighbours(i + len - 1);
        var nx := chain.ends[n].next;
        if nx == null { break; }
        PathStep(path[..], len, chain.nodes, i, nx);
        FullStep(chain.rows, i, i + len - 1, chain.cap);
        n := nx;
        path[len] := n;
        len := len + 1;
        hops := hops + 1;
      }
    }

    /** Finds the nearest node with a free slot after a full one, or allocates one where the walk ended. */
    method FindRoom(x: PinNode, path: array<PinNode?>, ghost i: nat) returns (len: nat)
      requires Agree() && i < |chain.nodes| && chain.nodes[i] == x
      requires |chain.rows[i]| == chain.cap && PackedBut(chain.rows, -1)
      requires path.Length == MAX_CASCADE_HOPS + 2 && path !in chain.repr
      modifies path, chain
      ensures Agree() && 2 <= len <= path.Length && PathOf(path[..], len, chain.nodes, i)
      ensures FullFrom(chain.rows, i, i + len - 1, chain.cap) && |chain.rows[i + len - 1]| < chain.cap
      ensures PackedBut(chain.rows, i + len - 1)
      ensures SamePrefix(old(chain.nodes), chain.nodes, old(chain.rows), chain.rows, i)
      ensures chain.rows[i] == old(chain.rows)[i]
      ensures List() == old(List()) && chain.repr >= old(chain.repr) && fresh(chain.repr - old(chain.repr))
    {
      hide PinChain.Valid, Consistent, Concat, PackedBut, PathOf, FullFrom, SamePrefix, NodeAt, InsertAt;
      ghost var nodes, rows := chain.nodes, chain.rows;
      chain.Here(i);
      PathStart(path[..], nodes, rows, i, chain.cap);
      var n;
      n, len := Walk(x, path, i);
      chain.FullRow(i);
      chain.FullRow(i + len - 1);
      if n.Full() {
        FullStep(rows, i, i + len - 1, chain.cap);
        ConcatNewRow(rows, i + len);
        var m := chain.NewAfter(n, i + len - 1);
        PathGrow(path[..], len, nodes, i, m);
        GrowRows(nodes, m, rows, i, i + len, chain.cap);
        path[len] := m;
        len := len + 1;
      } else {
        PackedStill(rows, i + len - 1);
      }
    }

    /** From the far end inward, moves the last order of each node on the path into the next node. */
    method Ripple(path: array<PinNode?>, len: nat, ghost i: nat) returns (ghost hops: nat)
      requires Agree() && 2 <= len <= path.Length && PathOf(path[..], len, chain.nodes, i)
      requires FullFrom(chain.rows, i, i + len - 1, chain.cap) && |chain.rows| == |chain.nodes|
      requires |chain.rows[i + len - 1]| < chain.cap && PackedBut(chain.rows, i + len - 1)
      requires path !in chain.repr
      modifies this`index, this`blocks, chain`rows, chain.repr
      ensures Agree() && chain.nodes == old(chain.nodes) && hops == len - 1
      ensures Rippling(old(chain.rows), chain.rows, i, i + len - 1, chain.cap)
      ensures SamePays(old(List()), List()) && SameLevels(old(List()), List(), levels.order)
    {
      hide PinChain.Valid, Consistent, Concat, PackedBut, FullFrom, SamePays, SameLevels, CanHop, Hopped, Rippling;
      ghost var rows, s := chain.rows, List();
      chain.Here(i);
      StartRipple(rows, s, i + len - 1, chain.cap, levels.order);
      hops := 0;
      var t := len - 2;
      while t >= 0
        invariant -1 <= t <= len - 2 && hops == len - 2 - t
        invariant Agree() && chain.nodes == old(chain.nodes) && chain.repr == old(chain.repr)
        invariant Rippling(rows, chain.rows, i + t + 1, i + len - 1, chain.cap)
        invariant SamePays(s, List()) && SameLevels(s, List(), levels.order)
      {
        ghost var was, from := chain.rows, List();
        CanRipple(rows, was, i, i + t, i + len - 1, chain.cap);
        assert path[..][t] == path[t] && path[..][t + 1] == path[t + 1];
        RelocateTailToHead(path[t], path[t + 1], i + t);
        RippleStep(rows, was, chain.rows, i, i + t, i + len - 1, chain.cap);
        SamePaysChain(s, from, List(), levels.order);
        hops := hops + 1;
        t := t - 1;
      }
    }

    lemma StartRipple(rows: seq<seq<Item>>, s: seq<Item>, n: nat, cap: nat, order: seq<Level>)
      requires n < |rows| && |rows[n]| < cap && PackedBut(rows, n)
      ensures Rippling(rows, rows, n, n, cap) && SamePays(s, s) && SameLevels(s, s, order)
    {
    }

    /** Frees a slot of the full node `x` by pushing orders back along the chain. */
    method MakeRoom(x: PinNode, ghost i: nat) returns (ghost hops: nat)
      requires Agree() && i < |chain.nodes| && chain.nodes[i] == x
      requires |chain.rows[i]| == chain.cap && PackedBut(chain.rows, -1)
      modifies this`index, this`blocks, chain, chain.repr
      ensures Agree() && SamePrefix(old(chain.nodes), chain.nodes, old(chain.rows), chain.rows, i)
      ensures chain.rows[i] == RemoveAt(old(chain.rows)[i], chain.cap - 1) && PackedBut(chain.rows, i)
      ensures SamePays(old(List()), List()) && SameLevels(old(List()), List(), levels.order)
      ensures chain.repr >= old(chain.repr) && fresh(chain.repr - old(chain.repr))
      ensures 1 <= hops <= MAX_CASCADE_HOPS + 1
    {
      hide PinChain.Valid, Consistent, Concat, PathOf, FullFrom, SamePays, SameLevels;
      var path := new PinNode?[MAX_CASCADE_HOPS + 2](_ => null);
      var len := FindRoom(x, path, i);
      chain.Here(i);
      hops := Ripple(path, len, i);
    }

    /** Order `x` has been inserted into the chain at position `p` of `mid`; the index does not know it yet. */
    ghost predicate Pending(mid: seq<Item>, p: nat, x: Item)
      reads this, levels, chain, chain.repr
    {
      && this !in chain.repr && levels !in chain.repr
      && levels.bid == bid && chain.Valid() && PackedBut(chain.rows, -1)
      && Consistent(bid, mid, levels.order, blocks, index)
      && p <= |mid| && List() == InsertAt(mid, p, x)
    }

    lemma PackedInsert(rows: seq<seq<Item>>, i: nat, j: nat, x: Item)
      requires i < |rows| && j <= |rows[i]| && PackedBut(rows, i)
      ensures PackedBut(rows[i := InsertAt(rows[i], j, x)], -1)
    {
    }

    /** Splices an order into a node that has room, just after the order at position `j` of it. */
    method SpliceInNode(n: PinNode, ref: nat, pay: Payload, ghost i: nat, ghost j: nat) returns (loc: Loc)
      requires Agree() && i < |chain.nodes| == |chain.rows| && chain.nodes[i] == n && PackedBut(chain.rows, i)
      requires |chain.rows[i]| < chain.cap && j < |chain.rows[i]| && chain.rows[i][j].loc == At(n, ref)
      modifies chain`rows, chain.repr
      ensures loc.At? && Pending(old(List()), Offset(old(chain.rows), i) + j + 1, Item(loc, pay))
    {
      hide PinChain.Valid, Consistent, Concat, PackedBut, InsertAt;
      ghost var rows := chain.rows;
      chain.Here(i);
      chain.FullRow(i);
      loc := chain.InsertAfter(n, ref, pay, i, j);
      ConcatInsert(rows, i, j + 1, Item(loc, pay));
      PackedInsert(rows, i, j + 1, Item(loc, pay));
    }

    /** Adds an order at the front of a node that has room. */
    method PrependInNode(n: PinNode, pay: Payload, ghost i: nat) returns (loc: Loc)
      requires Agree() && i < |chain.nodes| == |chain.rows| && chain.nodes[i] == n && PackedBut(chain.rows, i)
      requires |chain.rows[i]| < chain.cap
      modifies chain`rows, chain.repr
      ensures loc.At? && Pending(old(List()), Offset(old(chain.rows), i), Item(loc, pay))
    {
      hide PinChain.Valid, Consistent, Concat, PackedBut, InsertAt;
      ghost var rows := chain.rows;
      chain.Here(i);
      chain.FullRow(i);
      loc := chain.Prepend(n, pay, i);
      ConcatInsert(rows, i, 0, Item(loc, pay));
      PackedInsert(rows, i, 0, Item(loc, pay));
    }

    /** Adds an order to a newly allocated node. */
    method AppendInNewNode(n: PinNode, pay: Payload, ghost i: nat) returns (loc: Loc)
      requires Agree() && i < |chain.nodes| == |chain.rows| && chain.nodes[i] == n && PackedBut(chain.rows, i)
      requires chain.rows[i] == []
      modifies chain`rows, chain.repr
      ensures loc.At? && Pending(old(List()), Offset(old(chain.rows), i), Item(loc, pay))
    {
      hide PinChain.Valid, Consistent, Concat, PackedBut, InsertAt;
      ghost var rows := chain.rows;
      chain.Here(i);
      chain.FullRow(i);
      loc := chain.Append(n, pay, i);
      ConcatInsert(rows, i, 0, Item(loc, pay));
      PackedInsert(rows, i, 0, Item(loc, pay));
    }

    /** Allocates a node at the front of the chain and puts an order in it. */
    method NewHead(pay: Payload) returns (loc: Loc)
      requires Agree() && PackedBut(chain.rows, -1)
      modifies chain, chain.repr
      ensures loc.At? && Pending(old(List()), 0, Item(loc, pay))
      ensures chain.repr >= old(chain.repr) && fresh(chain.repr - old(chain.repr))
    {
      hide PinChain.Valid, Consistent, PackedBut, Concat, InsertAt, Pending;
      ghost var rows := chain.rows;
      PackedNew(rows, 0);
      ConcatNewRow(rows, 0);
      FrontRow(rows);
      var n := chain.NewFront();
      chain.Here(0);
      FrontOffset(chain.rows);
      loc := AppendInNewNode(n, pay, 0);
    }

    /** First order of the side. */
    method ChainFirst(pay: Payload) returns (loc: Loc)
      requires Agree() && PackedBut(chain.rows, -1) && chain.head == null
      modifies chain, chain.repr
      ensures loc.At? && old(List()) == [] && Pending(old(List()), 0, Item(loc, pay))
      ensures chain.repr >= old(chain.repr) && fresh(chain.repr - old(chain.repr))
    {
      NoNodes();
      loc := NewHead(pay);
    }

    lemma NoNodes()
      requires chain.Valid()
      ensures chain.head == null <==> chain.nodes == []
      ensures chain.head == null ==> List() == []
      ensures chain.nodes != [] ==> chain.head == chain.nodes[0]
    {
    }

    lemma PackedNew(rows: seq<seq<Item>>, k: nat)
      requires k <= |rows| && PackedBut(rows, -1)
      ensures PackedBut(InsertAt(rows, k, []), k)
    {
    }

    /** New best order of the side. */
    method ChainInsertHead(pay: Payload) returns (loc: Loc)
      requires Agree() && PackedBut(chain.rows, -1) && chain.head != null
      modifies chain, chain.repr
      ensures loc.At? && Pending(old(List()), 0, Item(loc, pay))
      ensures chain.repr >= old(chain.repr) && fresh(chain.repr - old(chain.repr))
    {
      NoNodes();
      hide PinChain.Valid, Consistent, PackedBut, Concat, InsertAt;
      ghost var rows := chain.rows;
      chain.Here(0);
      chain.FullRow(0);
      PackedStill(rows, 0);
      FrontOffset(rows);
      var h := chain.head;
      if !h.Full() {
        loc := PrependInNode(h, pay, 0);
      } else {
        loc := NewHead(pay);
      }
    }

    lemma FrontOffset(rows: seq<seq<Item>>)
      ensures Offset(rows, 0) == 0
    {
    }

    lemma FrontRow(rows: seq<seq<Item>>)
      ensures InsertAt(rows, 0, [])[0] == []
    {
    }

    /** `mid` is what `was` has become: the same orders of the same levels, perhaps elsewhere. */
    ghost predicate Displaced(was: seq<Item>, mid: seq<Item>)
      reads levels
    {
      SamePays(was, mid) && SameLevels(was, mid, levels.order)
    }

    lemma DisplacedSelf(s: seq<Item>)
      ensures Displaced(s, s)
    {
    }

    /** Allocates a node after the last node `n` and puts an order in it. */
    method NewTail(n: PinNode, pay: Payload, ghost i: nat) returns (loc: Loc)
      requires Agree() && PackedBut(chain.rows, -1) && i < |chain.nodes| == |chain.rows| && chain.nodes[i] == n
      modifies chain, chain.repr
      ensures loc.At? && Pending(old(List()), Offset(old(chain.rows), i) + |old(chain.rows)[i]|, Item(loc, pay))
      ensures chain.repr >= old(chain.repr) && fresh(chain.repr - old(chain.repr))
    {
      hide PinChain.Valid, Consistent, PackedBut, Concat, InsertAt, Pending, Offset;
      ghost var rows := chain.rows;
      PackedNew(rows, i + 1);
      ConcatNewRow(rows, i + 1);
      NewRowAt(rows, i + 1);
      OffsetNext(rows, i);
      var m := chain.NewAfter(n, i);
      chain.Here(i + 1);
      NewNodeAt(old(chain.nodes), i + 1, m);
      loc := AppendInNewNode(m, pay, i + 1);
    }

    lemma NewRowAt(rows: seq<seq<Item>>, k: nat)
      requires k <= |rows|
      ensures |InsertAt(rows, k, [])| == |rows| + 1 && InsertAt(rows, k, [])[k] == []
    {
    }

    lemma NewNodeAt(nodes: seq<PinNode>, k: nat, m: PinNode)
      requires k <= |nodes|
      ensures |InsertAt(nodes, k, m)| == |nodes| + 1 && InsertAt(nodes, k, m)[k] == m
    {
    }

    /** Node `n` is full and the order belongs just after its last one: it goes to the next node. */
    method InsertAtBoundary(n: PinNode, pay: Payload, ghost i: nat) returns (loc: Loc, ghost mid: seq<Item>)
      requires Agree() && PackedBut(chain.rows, -1) && i < |chain.nodes| == |chain.rows| && chain.nodes[i] == n
      modifies this`index, this`blocks, chain, chain.repr
      ensures loc.At? && Pending(mid, Offset(old(chain.rows), i) + |old(chain.rows)[i]|, Item(loc, pay))
      ensures Displaced(old(List()), mid)
      ensures chain.repr >= old(chain.repr) && fresh(chain.repr - old(chain.repr))
    {
      hide PinChain.Valid, Consistent, PackedBut, Concat, InsertAt, Pending, Offset, SamePays, SameLevels;
      ghost var rows := chain.rows;
      chain.Here(i);
      chain.Neighbours(i);
      DisplacedSelf(List());
      OffsetNext(rows, i);
      var next := chain.ends[n].next;
      if next == null {
        mid := List();
        loc := NewTail(n, pay, i);
        return;
      }
      chain.FullRow(i + 1);
      PackedStill(rows, i + 1);
      if next.Full() {
        ghost var hops := MakeRoom(next, i + 1);
        chain.Here(i + 1);
        SameOffset(rows, chain.rows, i + 1);
      }
      mid := List();
      loc := PrependInNode(next, pay, i + 1);
    }

    lemma SameOffset(rows: seq<seq<Item>>, rows': seq<seq<Item>>, i: nat)
      requires i <= |rows| && i <= |rows'| && forall m :: 0 <= m < i ==> rows'[m] == rows[m]
      ensures Offset(rows, i) == Offset(rows', i)
    {
      assert rows[..i] == rows'[..i];
    }

    /** Node `n` is full and the order belongs inside it: the last order makes way. */
    method InsertInside(n: PinNode, ref: nat, pay: Payload, ghost i: nat, ghost j: nat)
      returns (loc: Loc, ghost mid: seq<Item>)
      requires Agree() && PackedBut(chain.rows, -1) && i < |chain.nodes| == |chain.rows| && chain.nodes[i] == n
      requires |chain.rows[i]| == chain.cap && j + 1 < chain.cap && chain.rows[i][j].loc == At(n, ref)
      modifies this`index, this`blocks, chain, chain.repr
      ensures loc.At? && Pending(mid, Offset(old(chain.rows), i) + j + 1, Item(loc, pay))
      ensures Displaced(old(List()), mid)
      ensures chain.repr >= old(chain.repr) && fresh(chain.repr - old(chain.repr))
    {
      hide PinChain.Valid, Consistent, PackedBut, Concat, Pending, Offset, SamePays, SameLevels;
      ghost var rows := chain.rows;
      ghost var hops := MakeRoom(n, i);
      chain.Here(i);
      SameOffset(rows, chain.rows, i);
      mid := List();
      loc := SpliceInNode(n, ref, pay, i, j);
    }

    /** Inserts an order just after the one at position `k`, which is at `anchor`. */
    method ChainInsertAfter(anchor: Loc, pay: Payload, ghost k: nat) returns (loc: Loc, ghost mid: seq<Item>)
      requires Agree() && PackedBut(chain.rows, -1) && k < |List()| && List()[k].loc == anchor
      modifies this`index, this`blocks, chain, chain.repr
      ensures loc.At? && Pending(mid, k + 1, Item(loc, pay))
      ensures Displaced(old(List()), mid)
      ensures chain.repr >= old(chain.repr) && fresh(chain.repr - old(chain.repr))
    {
      hide PinChain.Valid, Consistent, PackedBut, Concat, Pending, Offset, SamePays, SameLevels;
      ghost var rows := chain.rows;
      ghost var i, j := Locate(rows, k);
      WhereIs(i, j);
      DisplacedSelf(List());
      PackedStill(rows, i);
      var n := anchor.node;
      if !n.Full() {
        mid := List();
        loc := SpliceInNode(n, anchor.slot, pay, i, j);
      } else if anchor.slot == n.tailSlot {
        loc, mid := InsertAtBoundary(n, pay, i);
      } else {
        loc, mid := InsertInside(n, anchor.slot, pay, i, j);
      }
    }

    /** What the position of an order says about its node. */
    lemma WhereIs(i: nat, j: nat)
      requires chain.Valid() && i < |chain.rows| && j < |chain.rows[i]|
      ensures |chain.rows| == |chain.nodes| && |chain.rows[i]| <= chain.cap
      ensures chain.rows[i][j].loc.At? && chain.rows[i][j].loc.node == chain.nodes[i]
      ensures chain.nodes[i].Full() <==> |chain.rows[i]| == chain.cap
      ensures chain.rows[i][j].loc.slot == chain.nodes[i].tailSlot <==> j == |chain.rows[i]| - 1
      ensures chain.rows[i][j].loc.slot < chain.nodes[i].slots.Length && chain !in chain.repr
      ensures chain.rows[i][j].pay == chain.nodes[i].slots[chain.rows[i][j].loc.slot]
    {
      chain.FullRow(i);
      chain.EndsOf(i);
      chain.RowAt(i, j);
      chain.RowsApart(i, j, i, |chain.rows[i]| - 1);
    }

    /** The state in which `level` is in the tree and may still be without orders. */
    ghost predicate Ready(level: Level)
      reads this, levels, chain, chain.repr
    {
      Sound(level) && PackedBut(chain.rows, -1) && level in levels.order
    }

    /** Where in the list the chain puts a new order of `level`. */
    method ChainPlace(level: Level, pay: Payload) returns (loc: Loc, ghost mid: seq<Item>, ghost p: nat)
      requires Ready(level)
      modifies this`index, this`blocks, chain, chain.repr
      ensures loc.At? && Pending(mid, p, Item(loc, pay)) && Displaced(old(List()), mid)
      ensures Cuts(bid, old(List()), p, level.price)
      ensures chain.repr >= old(chain.repr) && fresh(chain.repr - old(chain.repr))
    {
      hide LevelTree.Valid, PinChain.Valid, Consistent, PackedBut, Pending, SamePays, SameLevels, Cuts;
      hide Concat, Threads, LevelAt, Occupied;
      LevelFacts(level);
      DisplacedSelf(List());
      mid := List();
      if chain.head == null {
        FirstPlace(level);
        p := 0;
        loc := ChainFirst(pay);
      } else if blocks[level].head != Nil {
        ghost var k := TailPlace(level);
        p := k + 1;
        loc, mid := ChainInsertAfter(blocks[level].tail, pay, k);
      } else {
        loc, mid, p := NewLevelPlace(level, pay);
      }
    }

    /** The first order of a level goes after the orders of the next better level. */
    method NewLevelPlace(level: Level, pay: Payload) returns (loc: Loc, ghost mid: seq<Item>, ghost p: nat)
      requires Ready(level) && chain.head != null && level in blocks && blocks[level].head == Nil
      modifies this`index, this`blocks, chain, chain.repr
      ensures loc.At? && Pending(mid, p, Item(loc, pay)) && Displaced(old(List()), mid)
      ensures Cuts(bid, old(List()), p, level.price)
      ensures chain.repr >= old(chain.repr) && fresh(chain.repr - old(chain.repr))
    {
      hide LevelTree.Valid, PinChain.Valid, Consistent, PackedBut, Pending, SamePays, SameLevels, Cuts;
      hide Concat, Threads, LevelAt, Occupied;
      LevelFacts(level);
      DisplacedSelf(List());
      mid := List();
      var better := if bid then levels.threads[level].succ else levels.threads[level].pred;
      if better != null {
        ghost var k := BetterPlace(level, better);
        p := k + 1;
        loc, mid := ChainInsertAfter(blocks[better].tail, pay, k);
      } else {
        FrontPlace(level);
        p := 0;
        loc := ChainInsertHead(pay);
      }
    }

    lemma {:induction false} LevelFacts(level: Level)
      requires Ready(level)
      ensures level in blocks && blocks[level] == BlockOf(List(), level) && Indexed(List(), index)
      ensures level in levels.threads && RedBlack.Sorted(levels.order)
      ensures exists m ::
        && 0 <= m < |levels.order| && levels.order[m] == level
        && levels.threads[level] == Thread(LevelAt(levels.order, m - 1), LevelAt(levels.order, m + 1))
    {
      var m :| 0 <= m < |levels.order| && levels.order[m] == level;
      LevelTrees.ThreadAt(levels.order, levels.threads, m);
    }

    lemma FirstPlace(level: Level)
      requires Ready(level) && chain.head == null
      ensures Cuts(bid, List(), 0, level.price)
    {
      NoNodes();
    }

    lemma TailPlace(level: Level) returns (k: nat)
      requires Ready(level) && level in blocks && blocks[level].head != Nil
      ensures k < |List()| && List()[k].loc == blocks[level].tail && Cuts(bid, List(), k + 1, level.price)
    {
      k := BlockTail(List(), level);
      AfterTail(bid, List(), levels.order, level, k);
    }

    lemma Vacant(level: Level)
      requires Ready(level) && level in blocks && blocks[level].head == Nil
      ensures NoneOf(List(), level)
    {
      AllPlaced();
      HeadNil(List(), level);
      BlockAbsent(List(), level);
    }

    lemma BetterPlace(level: Level, better: Level) returns (k: nat)
      requires Ready(level) && level in blocks && blocks[level].head == Nil
      requires exists m ::
        && 0 <= m < |levels.order| && levels.order[m] == level
        && better == BetterThan(bid, levels.order, m)
      ensures better in blocks && k < |List()| && List()[k].loc == blocks[better].tail
      ensures Cuts(bid, List(), k + 1, level.price)
    {
      var m :| 0 <= m < |levels.order| && levels.order[m] == level && better == BetterThan(bid, levels.order, m);
      hide LevelTree.Valid, PinChain.Valid, Ranked, Indexed, LevelAt;
      Vacant(level);
      BetterNeighbour(bid, levels.order, m);
      k := BlockTail(List(), better);
      AfterBetter(bid, List(), levels.order, m, k);
    }

    lemma FrontPlace(level: Level)
      requires Ready(level) && level in blocks && blocks[level].head == Nil
      requires exists m ::
        && 0 <= m < |levels.order| && levels.order[m] == level
        && BetterThan(bid, levels.order, m) == null
      ensures Cuts(bid, List(), 0, level.price)
    {
      var m :| 0 <= m < |levels.order| && levels.order[m] == level && BetterThan(bid, levels.order, m) == null;
      Vacant(level);
      BeforeAll(bid, List(), levels.order, m);
    }

    /** Adds an order to `level`, after everything at its price or better. */
    method PlaceOrder(level: Level, order: Order) returns (ghost p: nat)
      requires Ready(level) && order.id !in index
      modifies this`index, this`blocks, chain, chain.repr
      ensures Valid() && Added(old(List()), List(), p, Payload(order, level)) && Cuts(bid, old(List()), p, level.price)
      ensures chain.repr >= old(chain.repr) && fresh(chain.repr - old(chain.repr))
    {
      hide LevelTree.Valid, PinChain.Valid, Consistent, PackedBut, Cuts, Concat;
      hide Occupied, Indexed, Added, SamePays, SameLevels, Grown;
      LevelFacts(level);
      ghost var s, index0 := List(), index;
      ghost var mid;
      var loc;
      loc, mid, p := ChainPlace(level, Payload(order, level));
      Finish(s, index0, mid, p, Item(loc, Payload(order, level)));
      Enlist(level, order, loc);
    }

    lemma Finish(s: seq<Item>, index0: map<nat, Loc>, mid: seq<Item>, p: nat, x: Item)
      requires Pending(mid, p, x) && Displaced(s, mid) && Indexed(s, index0) && x.pay.order.id !in index0
      requires x.pay.level != null && x.pay.level in levels.order && Cuts(bid, s, p, x.pay.level.price)
      requires Occupied(s, levels.order, x.pay.level)
      ensures x.pay.level in blocks
      ensures var v := x.pay.level;
        Consistent(bid, List(), levels.order, blocks[v := Grown(blocks[v], x.loc, x.pay.order.Open())],
            index[x.pay.order.id := x.loc])
      ensures Occupied(List(), levels.order, null) && Added(s, List(), p, x.pay)
    {
      hide PinChain.Valid, Cuts, Placed, PackedBut, Occupied, Concat;
      hide Indexed, Ranked, Owned, SamePays, SameLevels, Added, InsertAt;
      AllPlaced();
      PlacedWithout(mid, p, x);
      CutsShifted(bid, s, mid, p, x.pay.level.price);
      IdsShifted(s, index0, mid, index);
      StillOccupied(s, mid, levels.order, x.pay.level);
      ConsistentInsert(bid, mid, levels.order, blocks, index, p, x);
      AddedShifted(s, mid, p, x);
    }

    /** Enters an order that has joined its level into descriptor and index. */
    method Enlist(level: Level, order: Order, loc: Loc)
      requires level in blocks
      modifies this`index, this`blocks
      ensures blocks == old(blocks)[level := Grown(old(blocks)[level], loc, order.Open())]
      ensures index == old(index)[order.id := loc]
    {
      if blocks[level].head == Nil { blocks := blocks[level := blocks[level].(head := loc)]; }
      blocks := blocks[level := blocks[level].(tail := loc)];
      index := index[order.id := loc];
      blocks := blocks[level := blocks[level].(quantity := Wrap(blocks[level].quantity + order.Open()))];
      blocks := blocks[level := blocks[level].(count := blocks[level].count + 1)];
    }

    /** The side as a queue: the orders with the prices that rank them, best first. */
    ghost function Entries(): (e: seq<Entry>)
      reads chain
      ensures |e| == |List()|
    {
      EntriesOf(List())
    }

    /** Joins an order to a level that is in the tree. */
    method JoinLevel(level: Level, order: Order)
      requires Ready(level) && order.id !in index
      modifies this`index, this`blocks, chain, chain.repr
      ensures Valid() && Entries() == Enqueue(bid, old(Entries()), Entry(level.price, order))
      ensures chain.repr >= old(chain.repr) && fresh(chain.repr - old(chain.repr))
    {
      hide LevelTree.Valid, PinChain.Valid, Consistent, PackedBut, Cuts, Concat, Occupied, Added, EntriesOf, Enqueue;
      ghost var p := PlaceOrder(level, order);
      AddedIsEnqueued(bid, old(List()), List(), p, Payload(order, level));
    }

    /** Makes a level for a price between two neighbours and gives it its first order. */
    method NewLevel(price: nat, pred: Level?, succ: Level?, order: Order, ghost k: nat)
      requires Valid() && order.id !in index
      requires SplitsAt(levels.order, k, price) && pred == LevelAt(levels.order, k - 1)
      requires succ == LevelAt(levels.order, k)
      modifies this`index, this`blocks, levels, chain, chain.repr
      ensures Valid() && Entries() == Enqueue(bid, old(Entries()), Entry(price, order))
      ensures chain.repr >= old(chain.repr) && fresh(chain.repr - old(chain.repr))
    {
      hide LevelTree.Valid, PinChain.Valid, Consistent, PackedBut, Concat;
      hide Occupied, SplitsAt, LevelAt, Ready, Enqueue, EntriesOf;
      ghost var b := blocks;
      var level := MakeLevel(price);
      GrowLevel(level, pred, succ, b, k);
      JoinLevel(level, order);
    }

    /** A fresh level, not in the tree yet. */
    method MakeLevel(price: nat) returns (level: Level)
      requires levels.Valid() && levels !in chain.repr
      modifies this`blocks, levels
      ensures levels.Valid() && level.price == price && level !in levels.order
      ensures levels.order == old(levels.order)
      ensures level in levels.cells && levels.cells[level] == RedBlack.Cell(null, null, null, Red)
      ensures blocks == old(blocks)[level := EMPTY]
    {
      level := levels.MakeLevel(price);
      blocks := blocks[level := Block(Nil, Nil, 0, 0)];
    }

    /** Splices a fresh level into the tree. */
    method GrowLevel(level: Level, pred: Level?, succ: Level?, ghost b: map<Level, Block>, ghost k: nat)
      requires this !in chain.repr && levels !in chain.repr && levels.bid == bid && levels.Valid() && chain.Valid()
      requires blocks == b[level := EMPTY] && Consistent(bid, List(), levels.order, b, index)
      requires Occupied(List(), levels.order, null) && PackedBut(chain.rows, -1)
      requires level !in levels.order && level in levels.cells
      requires levels.cells[level] == RedBlack.Cell(null, null, null, Red)
      requires SplitsAt(levels.order, k, level.price) && pred == LevelAt(levels.order, k - 1)
      requires succ == LevelAt(levels.order, k)
      modifies levels
      ensures Ready(level)
    {
      hide LevelTree.Valid, PinChain.Valid, Consistent, PackedBut, Concat, Occupied;
      ghost var order := levels.order;
      levels.NeighborAwareInsert(level, pred, succ, k);
      InOrderNow();
      LevelsInsert(order, k, level);
      ConsistentGrow(bid, List(), order, b, index, k, level);
    }

    lemma InOrderNow()
      requires levels.Valid()
      ensures RedBlack.Sorted(levels.order)
    {
    }

    /** Adds an order behind everything at its price or better. */
    method Insert(order: Order, price: nat)
      requires Valid() && order.id !in index
      modifies Repr()
      ensures Valid() && Entries() == Enqueue(bid, old(Entries()), Entry(price, order))
      ensures Repr() >= old(Repr()) && fresh(Repr() - old(Repr()))
    {
      hide LevelTree.Valid, PinChain.Valid, Consistent, PackedBut, Concat;
      hide Occupied, SplitsAt, Enqueue, EntriesOf, Neighbors;
      if levels.best != null {
        var done := InsertNearBest(order, price);
        if done { return; }
      }
      ghost var k;
      var existing, pred, succ;
      existing, pred, succ, k := levels.FindNeighbors(price);
      Found(price, existing, pred, succ, k);
      if existing != null {
        JoinLevel(existing, order);
      } else {
        NewLevel(price, pred, succ, order, k);
      }
    }

    lemma Found(price: nat, existing: Level?, pred: Level?, succ: Level?, k: nat)
      requires Valid() && Neighbors(levels.order, price, existing, pred, succ, k)
      ensures existing != null ==> Ready(existing) && existing.price == price
      ensures existing == null ==>
        SplitsAt(levels.order, k, price) && pred == LevelAt(levels.order, k - 1) && succ == LevelAt(levels.order, k)
    {
      if existing != null { Spared(existing); }
    }

    lemma Spared(level: Level)
      requires Valid() && level in levels.order
      ensures Ready(level)
    {
    }

    /** The constant-time paths: at, beyond, or next to the best level. */
    method InsertNearBest(order: Order, price: nat) returns (done: bool)
      requires Valid() && order.id !in index && levels.best != null
      modifies Repr()
      ensures Valid() && Entries() == if done then Enqueue(bid, old(Entries()), Entry(price, order)) else old(Entries())
      ensures !done ==> index == old(index)
      ensures Repr() >= old(Repr()) && fresh(Repr() - old(Repr()))
    {
      hide LevelTree.Valid, PinChain.Valid, Consistent, PackedBut, Concat;
      hide Occupied, SplitsAt, Enqueue, EntriesOf, Ready, LevelAt;
      NearBest();
      Spared(levels.best);
      var best := levels.best;
      if price == best.price {
        JoinLevel(best, order);
        return true;
      }
      if Better(bid, price, best.price) {
        BeyondBest(bid, levels.order, price);
        BeyondLinks();
        if bid { NewLevel(price, best, null, order, |levels.order|); } else { NewLevel(price, null, best, order, 0); }
        return true;
      }
      var next := if bid then levels.threads[best].pred else levels.threads[best].succ;
      if next == null {
        OnlyLevel();
        BehindOnly(bid, levels.order, price);
        if bid { NewLevel(price, null, best, order, 0); } else { NewLevel(price, best, null, order, 1); }
        return true;
      }
      SecondBest(next);
      if price == next.price {
        JoinLevel(next, order);
        return true;
      }
      var lo := if best.price < next.price then best else next;
      var hi := if best.price < next.price then next else best;
      if lo.price < price < hi.price {
        BelowBest(bid, levels.order, price);
        NewLevel(price, lo, hi, order, if bid then |levels.order| - 1 else 1);
        return true;
      }
      return false;
    }

    lemma NearBest()
      requires Valid() && levels.best != null
      ensures levels.order != [] && levels.best in levels.order && RedBlack.Sorted(levels.order)
      ensures levels.best == levels.order[TopAt(bid, levels.order)]
      ensures levels.best in levels.threads
      ensures levels.threads[levels.best] ==
        Thread(LevelAt(levels.order, TopAt(bid, levels.order) - 1), LevelAt(levels.order, TopAt(bid, levels.order) + 1))
    {
      hide Valid, LevelTree.Valid, RedBlack.Sorted;
      LevelsValid();
      SortedOrder();
      ThreadAt(TopAt(bid, levels.order));
    }

    lemma LevelsValid()
      requires Valid()
      ensures levels.Valid() && levels.bid == bid
    {
      hide LevelTree.Valid, PinChain.Valid, Consistent, PackedBut, Concat, Occupied;
    }

    lemma SortedOrder()
      requires levels.Valid() && levels.best != null
      ensures RedBlack.Sorted(levels.order) && levels.order != [] && levels.best == BestOf(levels.bid, levels.order)
    {
      hide Threads;
    }

    lemma BeyondLinks()
      requires Valid() && levels.best != null
      ensures LevelAt(levels.order, |levels.order|) == null && LevelAt(levels.order, -1) == null
      ensures levels.best == if bid then LevelAt(levels.order, |levels.order| - 1) else LevelAt(levels.order, 0)
    {
    }

    lemma OnlyLevel()
      requires Valid() && levels.best != null && levels.best in levels.threads
      requires (if bid then levels.threads[levels.best].pred else levels.threads[levels.best].succ) == null
      ensures |levels.order| == 1 && levels.order[0] == levels.best
      ensures LevelAt(levels.order, -1) == null && LevelAt(levels.order, 0) == levels.best
      ensures LevelAt(levels.order, 1) == null
    {
      NearBest();
    }

    lemma SecondBest(next: Level)
      requires Valid() && levels.best != null && levels.best in levels.threads
      requires (if bid then levels.threads[levels.best].pred else levels.threads[levels.best].succ) == next
      ensures |levels.order| > 1 && Ready(next) && Better(bid, levels.best.price, next.price)
      ensures next == levels.order[if bid then |levels.order| - 2 else 1]
      ensures bid ==>
        LevelAt(levels.order, |levels.order| - 2) == next && LevelAt(levels.order, |levels.order| - 1) == levels.best
      ensures !bid ==> LevelAt(levels.order, 0) == levels.best && LevelAt(levels.order, 1) == next
    {
      hide LevelTree.Valid, PinChain.Valid, Consistent, Ready, Valid;
      NearBest();
      if bid {
        assert LevelAt(levels.order, |levels.order| - 2) == next;
      } else {
        assert LevelAt(levels.order, 1) == next;
      }
      Spared(next);
      if bid {
        assert RedBlack.Ascends(levels.order, |levels.order| - 2, |levels.order| - 1);
      } else {
        assert RedBlack.Ascends(levels.order, 0, 1);
      }
    }

    /** Position after the order at `loc`, which is the one at position `k` of the list. */
    method GlobalNext(loc: Loc, ghost k: nat) returns (r: Loc)
      requires chain.Valid() && PackedBut(chain.rows, -1) && k < |List()| && List()[k].loc == loc
      ensures r == LocAt(List(), k + 1)
    {
      hide PinChain.Valid, PackedBut, Concat, Offset, LocAt;
      ghost var i, j := Locate(chain.rows, k);
      chain.Aligned();
      chain.LinksOf(i, j);
      chain.Neighbours(i);
      NextAt(i, j);
      var n := loc.node.links[loc.slot].next;
      if n != NPOS { return At(loc.node, n); }
      var nn := chain.ends[loc.node].next;
      if nn != null {
        chain.EndsOf(i + 1);
        return At(nn, nn.headSlot);
      }
      return Nil;
    }

    /** Position before the order at `loc`, which is the one at position `k` of the list. */
    method GlobalPrev(loc: Loc, ghost k: nat) returns (r: Loc)
      requires chain.Valid() && PackedBut(chain.rows, -1) && k < |List()| && List()[k].loc == loc
      ensures r == LocAt(List(), k - 1)
    {
      hide PinChain.Valid, PackedBut, Concat, Offset, LocAt;
      ghost var i, j := Locate(chain.rows, k);
      chain.Aligned();
      chain.LinksOf(i, j);
      chain.Neighbours(i);
      PrevAt(i, j);
      var p := loc.node.links[loc.slot].prev;
      if p != NPOS { return At(loc.node, p); }
      var pn := chain.ends[loc.node].prev;
      if pn != null {
        chain.EndsOf(i - 1);
        return At(pn, pn.tailSlot);
      }
      return Nil;
    }

    lemma NextAt(i: nat, j: nat)
      requires chain.Valid() && PackedBut(chain.rows, -1) && i < |chain.rows| && j < |chain.rows[i]|
      ensures |chain.rows| == |chain.nodes|
      ensures i + 1 < |chain.rows| ==> chain.rows[i + 1] != []
      ensures LocAt(List(), Offset(chain.rows, i) + j + 1) ==
        if j + 1 < |chain.rows[i]| then chain.rows[i][j + 1].loc
        else if i + 1 < |chain.rows| then chain.rows[i + 1][0].loc else Nil
    {
      hide Concat, PinChain.Valid;
      chain.Aligned();
      ConcatAt(chain.rows, i, j);
      OffsetNext(chain.rows, i);
      if j + 1 < |chain.rows[i]| {
        ConcatAt(chain.rows, i, j + 1);
      } else if i + 1 < |chain.rows| {
        ConcatAt(chain.rows, i + 1, 0);
      } else {
        ConcatAll(chain.rows);
      }
    }

    lemma PrevAt(i: nat, j: nat)
      requires chain.Valid() && PackedBut(chain.rows, -1) && i < |chain.rows| && j < |chain.rows[i]|
      ensures |chain.rows| == |chain.nodes|
      ensures i > 0 ==> chain.rows[i - 1] != []
      ensures LocAt(List(), Offset(chain.rows, i) + j - 1) ==
        if j > 0 then chain.rows[i][j - 1].loc
        else if i > 0 then chain.rows[i - 1][|chain.rows[i - 1]| - 1].loc else Nil
    {
      hide Concat, PinChain.Valid;
      chain.Aligned();
      if j > 0 {
        ConcatAt(chain.rows, i, j - 1);
      } else if i > 0 {
        OffsetNext(chain.rows, i - 1);
        ConcatAt(chain.rows, i - 1, |chain.rows[i - 1]| - 1);
      } else {
        FrontOffset(chain.rows);
      }
    }

    /** Takes the order at `loc`, position `k` of the list, out of its level's descriptor. */
    method Delist(level: Level, loc: Loc, open: nat, ghost k: nat) returns (emptied: bool)
      requires this !in chain.repr && chain.Valid() && PackedBut(chain.rows, -1)
      requires level in blocks && blocks[level].count > 0
      requires k < |List()| && List()[k].loc == loc && List()[k].pay.order.Open() == open
      modifies this`blocks
      ensures blocks == old(blocks)[level := Shrunk(old(blocks)[level], List(), k)]
      ensures emptied <==> old(blocks)[level].head == loc && old(blocks)[level].tail == loc
    {
      hide PinChain.Valid, PackedBut, Concat, LocAt;
      blocks := blocks[level := blocks[level].(quantity := Wrap(blocks[level].quantity - open))];
      blocks := blocks[level := blocks[level].(count := blocks[level].count - 1)];
      var wasHead := blocks[level].head == loc;
      var wasTail := blocks[level].tail == loc;
      emptied := false;
      if wasHead && wasTail {
        blocks := blocks[level := blocks[level].(head := Nil, tail := Nil)];
        emptied := true;
      } else {
        if wasHead {
          var next := GlobalNext(loc, k);
          blocks := blocks[level := blocks[level].(head := next)];
        }
        if wasTail {
          var prev := GlobalPrev(loc, k);
          blocks := blocks[level := blocks[level].(tail := prev)];
        }
      }
    }

    /** Unlinks an order from its node, and the node from the chain if that empties it. */
    method Unchain(loc: Loc, ghost k: nat)
      requires chain.Valid() && PackedBut(chain.rows, -1) && k < |List()| && List()[k].loc == loc
      modifies chain, chain.repr
      ensures chain.Valid() && PackedBut(chain.rows, -1) && List() == RemoveAt(old(List()), k)
      ensures chain.repr == old(chain.repr)
    {
      hide PinChain.Valid, PackedBut, Concat, Offset;
      ghost var rows := chain.rows;
      ghost var i, j := Locate(rows, k);
      chain.Aligned();
      chain.RowsApart(i, j, i, j);
      WhereIs(i, j);
      chain.Here(i);
      ConcatRemove(rows, i, j);
      PackedRemove(rows, i, j);
      var node := loc.node;
      chain.Remove(node, loc.slot, i, j);
      chain.Aligned();
      chain.FullRow(i);
      if node.Empty() {
        ConcatDropRow(chain.rows, i);
        PackedDrop(chain.rows, i);
        chain.Drop(node, i);
      } else {
        PackedWhole(chain.rows, i);
      }
    }

    lemma PackedRemove(rows: seq<seq<Item>>, i: nat, j: nat)
      requires i < |rows| && j < |rows[i]| && PackedBut(rows, -1)
      ensures PackedBut(rows[i := RemoveAt(rows[i], j)], i)
    {
    }

    lemma PackedDrop(rows: seq<seq<Item>>, i: nat)
      requires i < |rows| && PackedBut(rows, i)
      ensures PackedBut(RemoveAt(rows, i), -1)
    {
    }

    lemma PackedWhole(rows: seq<seq<Item>>, i: nat)
      requires i < |rows| && PackedBut(rows, i) && rows[i] != []
      ensures PackedBut(rows, -1)
    {
    }

    /** Removes the order with an id, wherever it is; every other order stays where it is. */
    method Erase(id: nat)
      requires Valid()
      modifies Repr()
      ensures Valid() && Repr() == old(Repr()) && index == old(index) - {id}
      ensures Entries() == Dequeue(old(Entries()), id)
      ensures Erased(old(List()), List(), id)
    {
      hide LevelTree.Valid, PinChain.Valid, Consistent, PackedBut, Concat;
      hide Occupied, EntriesOf, Dequeue, Shrunk, RemoveAt, Placed;
      ghost var s := List();
      IndexKnows();
      KnowsHas(id);
      if id !in index {
        DequeueUnknown(s, index, id);
        return;
      }
      var loc := index[id];
      ghost var k := Known(id);
      DequeueIsRemove(s, index, k);
      var node := loc.node;
      var level := node.slots[loc.slot].level;
      var open := node.slots[loc.slot].order.Open();
      ConsistentRemove(bid, s, levels.order, blocks, index, k);
      Leaves(s, k, level);
      index := index - {id};
      var emptied := Delist(level, loc, open, k);
      Unchain(loc, k);
      if emptied { EraseLevel(level); }
    }

    /** Takes a level without orders out of the tree. */
    method EraseLevel(level: Level)
      requires Agree() && levels.Valid() && PackedBut(chain.rows, -1)
      requires level in levels.order && BlockOf(List(), level).count == 0 && Occupied(List(), levels.order, level)
      modifies this`blocks, levels
      ensures Valid()
    {
      hide LevelTree.Valid, PinChain.Valid, Consistent, PackedBut, Concat, Occupied, BlockOf, RemoveAt;
      ghost var order := levels.order;
      levels.EraseLevel(level);
      ghost var k :| 0 <= k < |order| && order[k] == level && levels.order == RemoveAt(order, k);
      InOrderNow();
      ConsistentShrink(bid, List(), order, blocks, index, k);
      blocks := blocks - {level};
    }

    /** The index knows exactly the ids in the queue. */
    lemma KnowsHas(id: nat)
      requires Valid()
      ensures id in index <==> Has(Entries(), id)
    {
      IndexKnows();
      hide Valid;
      if id in index {
        assert Present(List(), id);
        var k :| 0 <= k < |List()| && List()[k].pay.order.id == id;
        DequeueIsRemove(List(), index, k);
      } else {
        DequeueUnknown(List(), index, id);
      }
    }

    lemma IndexKnows()
      requires Valid()
      ensures Indexed(List(), index) && Placed(List())
    {
      AllPlaced();
    }

    lemma {:induction false} Leaves(s: seq<Item>, k: nat, level: Level)
      requires Valid() && s == List() && k < |s| && s[k].pay.level == level
      requires Occupied(RemoveAt(s, k), levels.order, level)
      ensures level in levels.order && level in blocks && blocks[level] == BlockOf(s, level)
      ensures var b := BlockOf(s, level);
        if b.head == s[k].loc && b.tail == s[k].loc then BlockOf(RemoveAt(s, k), level).count == 0
        else Occupied(RemoveAt(s, k), levels.order, null)
    {
      AllPlaced();
      OccupiedRemove(bid, s, levels.order, k, level);
    }

    /** Where the index says an order is, it is. */
    lemma Known(id: nat) returns (k: nat)
      requires Valid() && id in index
      ensures k < |List()| && List()[k].pay.order.id == id && List()[k].loc == index[id]
      ensures index[id].At? && index[id].slot < index[id].node.slots.Length
      ensures index[id].node.slots[index[id].slot] == List()[k].pay
    {
      hide LevelTree.Valid, PinChain.Valid, Ranked, Occupied, Concat, Summed;
      assert Present(List(), id);
      k :| 0 <= k < |List()| && List()[k].pay.order.id == id;
      ghost var i, j := Locate(chain.rows, k);
      chain.Aligned();
      WhereIs(i, j);
    }

    /** Where the order with an id rests, `Nil` if it does not rest here. */
    method FindOrder(id: nat) returns (loc: Loc)
      requires Valid()
      ensures loc == Nil <==> !Has(Entries(), id)
      ensures loc != Nil ==> loc == LocAt(List(), IndexOf(Entries(), id))
    {
      KnowsHas(id);
      hide Valid;
      if id !in index { return Nil; }
      ghost var k := Known(id);
      IndexKnows();
      DequeueIsRemove(List(), index, k);
      loc := index[id];
    }

    /** Position of the best order. */
    method OrdersBegin() returns (loc: Loc)
      requires Valid()
      ensures loc == LocAt(List(), 0)
    {
      hide Valid, Concat;
      Chained();
      NoNodes();
      if chain.head == null { return Nil; }
      FirstOrder();
      loc := At(chain.head, chain.head.headSlot);
    }

    lemma Chained()
      requires Valid()
      ensures chain.Valid() && PackedBut(chain.rows, -1)
    {
    }

    lemma FirstOrder()
      requires Valid() && chain.head != null
      ensures LocAt(List(), 0) == At(chain.head, chain.head.headSlot)
    {
      hide Concat, Sound, PinChain.Valid;
      Chained();
      chain.Aligned();
      NoNodes();
      chain.EndsOf(0);
      ConcatAt(chain.rows, 0, 0);
      FrontOffset(chain.rows);
    }

    /** The positions run out exactly at the end of the list. */
    lemma AtEnd(k: nat)
      requires Valid()
      ensures LocAt(List(), k) == Nil <==> k >= |List()|
    {
      AllPlaced();
      hide Sound, Concat;
    }

    /** Ids are unique: the order at position `k` is the one its id names. */
    lemma IdAt(k: nat)
      requires Valid() && k < |List()|
      ensures IndexOf(Entries(), Entries()[k].order.id) == k
      ensures Dequeue(Entries(), Entries()[k].order.id) == Entries()[..k] + Entries()[k + 1..]
      ensures Entries() == EntriesOf(List())
    {
      hide Valid, Dequeue, IndexOf;
      IndexKnows();
      DequeueIsRemove(List(), index, k);
    }

    /** Position after the order at `loc`. */
    method Next(loc: Loc, ghost k: nat) returns (r: Loc)
      requires Valid() && k < |List()| && List()[k].loc == loc
      ensures r == LocAt(List(), k + 1)
    {
      r := GlobalNext(loc, k);
    }

    /** The order at `loc`. */
    method Get(loc: Loc, ghost k: nat) returns (o: Order)
      requires Valid() && k < |List()| && List()[k].loc == loc
      ensures o == Entries()[k].order
    {
      Stored(k);
      hide Valid;
      o := loc.node.slots[loc.slot].order;
    }

    lemma Stored(k: nat)
      requires Valid() && k < |List()|
      ensures var l := List()[k].loc; l.At? && l.slot < l.node.slots.Length && l.node.slots[l.slot] == List()[k].pay
    {
      hide LevelTree.Valid, PinChain.Valid, Ranked, Occupied, Concat, Summed, Indexed;
      ghost var i, j := Locate(chain.rows, k);
      chain.Aligned();
      WhereIs(i, j);
    }

    /** Rewrites the order at `loc` in place; its level's quantity changes by `delta`. */
    method UpdateResting(loc: Loc, o: Order, delta: int, ghost k: nat)
      requires Valid() && k < |List()| && List()[k].loc == loc
      requires o.id == Entries()[k].order.id && Wrap(o.Open()) == Wrap(Entries()[k].order.Open() + delta)
      modifies Repr()
      ensures Valid() && Repr() == old(Repr()) && index == old(index)
      ensures List() == old(List())[k := Item(loc, old(List())[k].pay.(order := o))]
      ensures Entries() == old(Entries())[k := old(Entries())[k].(order := o)]
    {
      hide LevelTree.Valid, PinChain.Valid, PackedBut, Consistent, Occupied, Concat, Resized, EntriesOf;
      ghost var s := List();
      Stored(k);
      Rewritten(k, o, delta);
      RewrittenEntries(s, k, o);
      var level := loc.node.slots[loc.slot].level;
      assert level == s[k].pay.level && level in blocks;
      PutAt(loc, Payload(o, level), k);
      Resize(level, delta);
    }

    method Resize(level: Level, delta: int)
      requires level in blocks
      modifies this`blocks
      ensures blocks == old(blocks)[level := Resized(old(blocks)[level], delta)]
    {
      blocks := blocks[level := blocks[level].(quantity := Wrap(blocks[level].quantity + delta))];
    }

    /** Overwrites the slot of the order at `loc`. */
    method PutAt(loc: Loc, pay: Payload, ghost k: nat)
      requires chain.Valid() && PackedBut(chain.rows, -1) && k < |List()| && List()[k].loc == loc
      modifies chain`rows, chain.repr
      ensures chain.Valid() && PackedBut(chain.rows, -1) && List() == old(List())[k := Item(loc, pay)]
      ensures chain.repr == old(chain.repr)
    {
      hide PinChain.Valid, Concat, Offset;
      ghost var rows := chain.rows;
      ghost var i, j := Locate(rows, k);
      chain.Aligned();
      chain.RowsApart(i, j, i, j);
      WhereIs(i, j);
      chain.Here(i);
      ConcatPut(rows, i, j, Item(loc, pay));
      chain.Put(loc.node, loc.slot, pay, i, j);
    }

    lemma Rewritten(k: nat, o: Order, delta: int)
      requires Valid() && k < |List()| && o.id == List()[k].pay.order.id
      requires Wrap(o.Open()) == Wrap(List()[k].pay.order.Open() + delta)
      ensures List()[k].pay.level != null && List()[k].pay.level in blocks
      ensures var v := List()[k].pay.level; var u := List()[k := List()[k].(pay := List()[k].pay.(order := o))];
        && Consistent(bid, u, levels.order, blocks[v := Resized(blocks[v], delta)], index)
        && Occupied(u, levels.order, null)
    {
      hide LevelTree.Valid, PinChain.Valid, PackedBut, Consistent, Occupied, Concat, Placed, SameLevels, Resized;
      AllPlaced();
      ConsistentResize(bid, List(), levels.order, blocks, index, k, o);
      ResizedAlike(blocks[List()[k].pay.level], List()[k].pay.order.Open(), o.Open(), delta);
      StillOccupied(List(), List()[k := List()[k].(pay := List()[k].pay.(order := o))], levels.order, null);
    }

    /** The levels in order of priority. */
    ghost function Ranking(): seq<Level>
      reads levels
    {
      BestFirstOrder(bid, levels.order)
    }

    /** The first `size` rows of the side, read off the level descriptors. */
    method FillDepth(size: nat) returns (out: seq<Row>)
      requires Valid()
      ensures out == Aggregate(Entries())[..if size < |Aggregate(Entries())| then size else |Aggregate(Entries())|]
    {
      hide Valid, BestFirstOrder, Aggregate, RowsOf;
      DepthIsLevels();
      TopOfDepth();
      out := [];
      var it := levels.best;
      var i := 0;
      while it != null && i < size
        invariant i <= size && i <= |Ranking()| && it == LevelAt(Ranking(), i) && out == RowsOf(List(), Ranking())[..i]
        decreases size - i
      {
        DownTheDepth(i);
        out := out + [Row(it.price, blocks[it].quantity, blocks[it].count)];
        it := if bid then levels.threads[it].pred else levels.threads[it].succ;
        i := i + 1;
      }
    }

    /** The price of the best level is the key of the first order. */
    lemma BestIsFirst()
      requires Valid()
      ensures levels.best == null <==> Entries() == []
      ensures levels.best != null ==> levels.best.price == Entries()[0].key
    {
      TopOfDepth();
      BestFacts();
      hide Valid, BestFirstOrder, Ranked, Owned, BestFirst, BlockOf;
      if Ranking() != [] {
        FirstLevel(bid, List(), Ranking());
      } else {
        assert FirstOf(List()) == null || FirstOf(List()) in Ranking();
      }
    }

    lemma BestFacts()
      requires Valid()
      ensures BestFirst(bid, Ranking()) && Ranked(bid, List()) && Owned(List(), Ranking())
      ensures Ranking() != [] ==> BlockOf(List(), Ranking()[0]).count > 0
      ensures FirstOf(List()) == null || FirstOf(List()) in Ranking()
      ensures List() != [] ==> FirstOf(List()) != null
    {
      hide LevelTree.Valid, PinChain.Valid, BlockOf, BestFirstOrder, Ranked, Indexed, Summed, Concat;
      RankingIsBestFirst(bid, levels.order);
      SameOwners(List(), levels.order, Ranking());
    }

    lemma TopOfDepth()
      requires Valid()
      ensures levels.best == LevelAt(Ranking(), 0)
    {
    }

    lemma DownTheDepth(i: nat)
      requires Valid() && i < |Ranking()|
      ensures var v := Ranking()[i];
        && v in blocks && RowsOf(List(), Ranking())[i] == Row(v.price, blocks[v].quantity, blocks[v].count)
        && v in levels.threads
        && (if bid then levels.threads[v].pred else levels.threads[v].succ) == LevelAt(Ranking(), i + 1)
    {
      hide LevelTree.Valid, PinChain.Valid, BlockOf, Occupied, Ranked, Indexed, Concat, Owned;
      var k := if bid then |levels.order| - 1 - i else i;
      assert Ranking()[i] == levels.order[k];
      ThreadAt(k);
      assert levels.order[k] in levels.order;
    }

    lemma ThreadAt(k: nat)
      requires levels.Valid() && k < |levels.order|
      ensures levels.order[k] in levels.threads
      ensures levels.threads[levels.order[k]] == Thread(LevelAt(levels.order, k - 1), LevelAt(levels.order, k + 1))
    {
      LevelTrees.ThreadAt(levels.order, levels.threads, k);
    }

    lemma DepthIsLevels()
      requires Valid()
      ensures Aggregate(Entries()) == RowsOf(List(), Ranking())
    {
      hide LevelTree.Valid, PinChain.Valid, BlockOf, BestFirstOrder, Occupied, Ranked, Indexed, Owned, Summed, Concat;
      RankingIsBestFirst(bid, levels.order);
      SameOwners(List(), levels.order, Ranking());
      RowsAreLevels(bid, List(), Ranking());
    }

    /** Releases every node of the chain and every level, each exactly once. */
    method Clear() returns (nodes: seq<PinNode>, released: seq<Level>)
      requires Valid()
      modifies Repr()
      ensures Valid() && List() == [] && Repr() == old(Repr())
      ensures nodes == old(chain.nodes) && released == old(Ranking())
    {
      hide LevelTree.Valid, PinChain.Valid;
      nodes := chain.Clear();
      released := levels.Clear();
      index, blocks := map[], map[];
    }

    /** Repairs the ends of a level one of whose orders has moved. */
    method MoveDescriptor(level: Level, was: Loc, now: Loc)
      requires level in blocks
      modifies this`blocks
      ensures blocks == old(blocks)[level := Moved(old(blocks)[level], was, now)]
    {
      if blocks[level].tail == was { blocks := blocks[level := blocks[level].(tail := now)]; }
      if blocks[level].head == was { blocks := blocks[level := blocks[level].(head := now)]; }
    }
  }

  /**
    * An order inserted at price zero, as a caller of the tree may do: a valid side whose tree the
    * check rejects. The book itself never inserts at price zero.
    */
  method ZeroPriceRejected(order: Order) returns (side: NarbTree, ok: bool)
    ensures side.Valid() && side.Entries() == [Entry(0, order)] && !ok
  {
    hide NarbTree.Valid, NarbTree.Entries, NarbTree.List;
    side := new NarbTree(true, 4);
    side.KnowsHas(order.id);
    side.Insert(order, 0);
    side.BestIsFirst();
    side.NearBest();
    side.LevelsValid();
    ok := side.levels.ValidateRb();
  }
}
