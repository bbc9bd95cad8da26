/**
  * The single chain of PINs that holds the orders of one book side. A chain is a list of
  * nodes; read node by node, each in its own priority order, it is a list of items.
  */
module PinChains {
  import opened Layout

  ghost function NodeAt(nodes: seq<PinNode>, i: int): PinNode? {
    if 0 <= i < |nodes| then nodes[i] else null
  }

  ghost predicate Unlike(nodes: seq<PinNode>, i: nat, j: nat)
    requires i < |nodes| && j < |nodes|
  {
    nodes[i] != nodes[j] && nodes[i].slots != nodes[j].slots && nodes[i].links != nodes[j].links
  }

  /** Different nodes share no storage. */
  ghost predicate Separate(nodes: seq<PinNode>) {
    forall i, j :: 0 <= i < j < |nodes| ==> Unlike(nodes, i, j)
  }

  lemma OthersUnlike(nodes: seq<PinNode>, i: nat)
    requires Separate(nodes) && i < |nodes|
    ensures forall m :: 0 <= m < |nodes| && m != i ==>
      nodes[m] != nodes[i] && nodes[m].slots != nodes[i].slots && nodes[m].links != nodes[i].links
  {
    forall m | 0 <= m < |nodes| && m != i
      ensures nodes[m] != nodes[i] && nodes[m].slots != nodes[i].slots && nodes[m].links != nodes[i].links
    {
      assert if m < i then Unlike(nodes, m, i) else Unlike(nodes, i, m);
    }
  }

  lemma SeparateInsert(nodes: seq<PinNode>, k: nat, m: PinNode)
    requires Separate(nodes) && k <= |nodes|
    requires forall n :: n in nodes ==> n != m && n.slots != m.slots && n.links != m.links
    ensures Separate(InsertAt(nodes, k, m))
  {
    var u := InsertAt(nodes, k, m);
    forall i, j | 0 <= i < j < |u|
      ensures Unlike(u, i, j)
    {
      if i != k && j != k {
        assert Unlike(nodes, if i < k then i else i - 1, if j < k then j else j - 1);
      } else if i == k {
        assert u[j] in nodes;
      } else {
        assert u[i] in nodes;
      }
    }
  }

  lemma SeparateRemove(nodes: seq<PinNode>, k: nat)
    requires Separate(nodes) && k < |nodes|
    ensures Separate(RemoveAt(nodes, k))
  {
    var u := RemoveAt(nodes, k);
    forall i, j | 0 <= i < j < |u|
      ensures Unlike(u, i, j)
    {
      assert Unlike(nodes, if i < k then i else i + 1, if j < k then j else j + 1);
    }
  }

  /** The storage of the nodes is within `repr`. */
  ghost predicate Stores(nodes: seq<PinNode>, repr: set<object>) {
    forall i :: 0 <= i < |nodes| ==> nodes[i] in repr && nodes[i].slots in repr && nodes[i].links in repr
  }

  lemma StoresInsert(nodes: seq<PinNode>, repr: set<object>, k: nat, m: PinNode)
    requires Stores(nodes, repr) && k <= |nodes|
    ensures Stores(InsertAt(nodes, k, m), repr + {m, m.slots, m.links})
  {
  }

  lemma StoresRemove(nodes: seq<PinNode>, repr: set<object>, k: nat)
    requires Stores(nodes, repr) && k < |nodes|
    ensures Stores(RemoveAt(nodes, k), repr)
  {
  }

  ghost predicate Holds(n: PinNode, cap: nat, row: seq<Item>)
    reads n`headSlot, n`tailSlot, n`free, n`size, n`used, n`spare, n.slots, n.links
  {
    n.Valid() && n.cap == cap && n.Row() == row
  }

  lemma FreshHolds(n: PinNode, cap: nat)
    requires n.Valid() && n.cap == cap && n.Row() == []
    ensures Holds(n, cap, [])
  {
  }

  lemma LastOf(nodes: seq<PinNode>, k: nat, m: PinNode)
    requires k <= |nodes|
    ensures NodeAt(InsertAt(nodes, k, m), |nodes|) == if NodeAt(nodes, k) == null then m else NodeAt(nodes, |nodes| - 1)
    ensures k > 0 ==> NodeAt(InsertAt(nodes, k, m), 0) == NodeAt(nodes, 0)
  {
  }

  /** Chain links of a node. */
  datatype Ends = Ends(prev: PinNode?, next: PinNode?)

  /** The links of the node at position `i` are its neighbours. */
  ghost predicate Hooked(nodes: seq<PinNode>, ends: map<PinNode, Ends>, i: nat)
    requires i < |nodes|
  {
    nodes[i] in ends && ends[nodes[i]] == Ends(NodeAt(nodes, i - 1), NodeAt(nodes, i + 1))
  }

  ghost predicate Linked(nodes: seq<PinNode>, ends: map<PinNode, Ends>) {
    forall i :: 0 <= i < |nodes| ==> Hooked(nodes, ends, i)
  }

  function SetNext(m: map<PinNode, Ends>, n: PinNode?, v: PinNode?): map<PinNode, Ends> {
    if n == null || n !in m then m else m[n := m[n].(next := v)]
  }

  function SetPrev(m: map<PinNode, Ends>, n: PinNode?, v: PinNode?): map<PinNode, Ends> {
    if n == null || n !in m then m else m[n := m[n].(prev := v)]
  }

  lemma LinkedInsert(nodes: seq<PinNode>, m: map<PinNode, Ends>, k: nat, n: PinNode)
    requires Separate(nodes) && Linked(nodes, m) && k <= |nodes| && n !in nodes
    ensures var p, q := NodeAt(nodes, k - 1), NodeAt(nodes, k);
      && (p != null ==> p in m && m[p].next == q) && (q != null ==> q in m) && p != n && q != n
        && (p != null ==> p != q)
    ensures var p, q := NodeAt(nodes, k - 1), NodeAt(nodes, k);
      Linked(InsertAt(nodes, k, n), SetPrev(SetNext(m[n := Ends(p, q)], p, n), q, n))
  {
    hide Linked, SetNext, SetPrev, InsertAt;
    var p, q := NodeAt(nodes, k - 1), NodeAt(nodes, k);
    if k > 0 { LinksAt(nodes, m, k - 1); }
    if k < |nodes| { LinksAt(nodes, m, k); }
    if k > 0 && k < |nodes| { OthersUnlike(nodes, k); }
    var u, r := InsertAt(nodes, k, n), SetPrev(SetNext(m[n := Ends(p, q)], p, n), q, n);
    forall i | 0 <= i < |u|
      ensures Hooked(u, r, i)
    {
      if i == k {
        SetAt(m[n := Ends(p, q)], p, n, q, n, n);
      } else {
        var j := if i < k then i else i - 1;
        LinksAt(nodes, m, j);
        OthersUnlike(nodes, j);
        SetAt(m[n := Ends(p, q)], p, n, q, n, nodes[j]);
      }
    }
    LinkedIf(u, r);
  }

  lemma LinksAt(nodes: seq<PinNode>, m: map<PinNode, Ends>, i: nat)
    requires Linked(nodes, m) && i < |nodes|
    ensures nodes[i] in nodes && nodes[i] in m && m[nodes[i]] == Ends(NodeAt(nodes, i - 1), NodeAt(nodes, i + 1))
  {
    assert Hooked(nodes, m, i);
  }

  lemma LinkedIf(nodes: seq<PinNode>, m: map<PinNode, Ends>)
    requires forall i :: 0 <= i < |nodes| ==> Hooked(nodes, m, i)
    ensures Linked(nodes, m)
  {
  }

  /** What setting the next link of `p` and the previous link of `q` does to the links of `w`. */
  lemma SetAt(m: map<PinNode, Ends>, p: PinNode?, next: PinNode?, q: PinNode?, prev: PinNode?, w: PinNode)
    requires w in m
    ensures var r := SetPrev(SetNext(m, p, next), q, prev);
      w in r && r[w] == Ends(if w == q then prev else m[w].prev, if w == p then next else m[w].next)
  {
  }

  lemma LinkedRemove(nodes: seq<PinNode>, m: map<PinNode, Ends>, k: nat)
    requires Separate(nodes) && Linked(nodes, m) && k < |nodes|
    ensures var p, q := NodeAt(nodes, k - 1), NodeAt(nodes, k + 1);
      && (p != null ==> p in m) && (q != null ==> q in m) && (p != null ==> p != q)
      && nodes[k] in m && m[nodes[k]] == Ends(p, q)
    ensures var p, q := NodeAt(nodes, k - 1), NodeAt(nodes, k + 1);
      Linked(RemoveAt(nodes, k), SetPrev(SetNext(m, p, q), q, p) - {nodes[k]})
  {
    hide Linked, SetNext, SetPrev, RemoveAt;
    var p, q := NodeAt(nodes, k - 1), NodeAt(nodes, k + 1);
    LinksAt(nodes, m, k);
    if k > 0 { LinksAt(nodes, m, k - 1); OthersUnlike(nodes, k - 1); }
    if k + 1 < |nodes| { LinksAt(nodes, m, k + 1); }
    var u, r := RemoveAt(nodes, k), SetPrev(SetNext(m, p, q), q, p) - {nodes[k]};
    forall i | 0 <= i < |u|
      ensures Hooked(u, r, i)
    {
      var j := if i < k then i else i + 1;
      LinksAt(nodes, m, j);
      OthersUnlike(nodes, j);
      SetAt(m, p, q, q, p, nodes[j]);
    }
    LinkedIf(u, r);
  }

  /** The links of the nodes from `k` on are in place. */
  ghost predicate LinkedFrom(nodes: seq<PinNode>, ends: map<PinNode, Ends>, k: nat) {
    forall i :: k <= i < |nodes| ==> Hooked(nodes, ends, i)
  }

  lemma UnlinkFront(nodes: seq<PinNode>, ends: map<PinNode, Ends>, k: nat)
    requires Separate(nodes) && LinkedFrom(nodes, ends, k) && k < |nodes|
    ensures nodes[k] in ends && ends[nodes[k]].next == NodeAt(nodes, k + 1)
    ensures LinkedFrom(nodes, ends - {nodes[k]}, k + 1)
  {
    OthersUnlike(nodes, k);
    assert Hooked(nodes, ends, k);
    forall i | k + 1 <= i < |nodes| ensures Hooked(nodes, ends - {nodes[k]}, i) { assert Hooked(nodes, ends, i); }
  }

  class PinChain {
    const cap: nat
    var head: PinNode?
    var tail: PinNode?
    var ends: map<PinNode, Ends>
    ghost var nodes: seq<PinNode>
    ghost var rows: seq<seq<Item>>
    ghost var repr: set<object>

    ghost predicate Valid()
      reads this, repr
    {
      && 0 < cap < NPOS
      && this !in repr && Stores(nodes, repr)
      && Separate(nodes) && Linked(nodes, ends)
      && head == NodeAt(nodes, 0) && tail == NodeAt(nodes, |nodes| - 1)
      && |rows| == |nodes|
      && forall i :: 0 <= i < |nodes| ==> Holds(nodes[i], cap, rows[i])
    }

    constructor (cap: nat)
      requires 0 < cap < NPOS
      ensures Valid() && nodes == [] && this.cap == cap && repr == {}
    {
      this.cap := cap;
      head, tail, ends := null, null, map[];
      nodes, rows, repr := [], [], {};
    }

    /** Adds `p` as the first order of node `i`. */
    method Prepend(n: PinNode, p: Payload, ghost i: nat) returns (loc: Loc)
      requires Valid() && i < |nodes| && nodes[i] == n && !n.Full()
      modifies this`rows, n, n.slots, n.links
      ensures Valid() && nodes == old(nodes) && loc.At? && loc.node == n
      ensures rows == old(rows)[i := InsertAt(old(rows[i]), 0, Item(loc, p))]
    {
      hide PinNode.Valid, PinNode.Row, NodeAt;
      OthersUnlike(nodes, i);
      var s := n.Prepend(p);
      loc := At(n, s);
      assert forall m :: 0 <= m < |nodes| && m != i ==> Holds(nodes[m], cap, rows[m]);
      rows := rows[i := InsertAt(rows[i], 0, Item(loc, p))];
    }

    /** Adds `p` as the last order of node `i`. */
    method Append(n: PinNode, p: Payload, ghost i: nat) returns (loc: Loc)
      requires Valid() && i < |nodes| && nodes[i] == n && !n.Full()
      modifies this`rows, n, n.slots, n.links
      ensures Valid() && nodes == old(nodes) && loc.At? && loc.node == n
      ensures rows == old(rows)[i := InsertAt(old(rows[i]), |old(rows[i])|, Item(loc, p))]
    {
      hide PinNode.Valid, PinNode.Row, NodeAt;
      OthersUnlike(nodes, i);
      var s := n.Append(p);
      loc := At(n, s);
      assert forall m :: 0 <= m < |nodes| && m != i ==> Holds(nodes[m], cap, rows[m]);
      rows := rows[i := InsertAt(rows[i], |rows[i]|, Item(loc, p))];
    }

    /** Adds `p` just after the order at position `j` of node `i`, which is in slot `ref`. */
    method InsertAfter(n: PinNode, ref: nat, p: Payload, ghost i: nat, ghost j: nat) returns (loc: Loc)
      requires Valid() && i < |nodes| && nodes[i] == n && !n.Full()
      requires j < |rows[i]| && rows[i][j].loc == At(n, ref)
      modifies this`rows, n, n.slots, n.links
      ensures Valid() && nodes == old(nodes) && loc.At? && loc.node == n
      ensures rows == old(rows)[i := InsertAt(old(rows[i]), j + 1, Item(loc, p))]
    {
      hide PinNode.Valid, PinNode.Row, NodeAt;
      RowAt(i, j);
      OthersUnlike(nodes, i);
      var s := n.InsertAfter(ref, p, j);
      loc := At(n, s);
      assert forall m :: 0 <= m < |nodes| && m != i ==> Holds(nodes[m], cap, rows[m]);
      rows := rows[i := InsertAt(rows[i], j + 1, Item(loc, p))];
    }

    /** Removes the order at position `j` of node `i`, which is in slot `s`. */
    method Remove(n: PinNode, s: nat, ghost i: nat, ghost j: nat)
      requires Valid() && i < |nodes| && nodes[i] == n
      requires j < |rows[i]| && rows[i][j].loc == At(n, s)
      modifies this`rows, n, n.links
      ensures Valid() && nodes == old(nodes)
      ensures rows == old(rows)[i := RemoveAt(old(rows[i]), j)]
    {
      hide PinNode.Valid, PinNode.Row, NodeAt;
      RowAt(i, j);
      OthersUnlike(nodes, i);
      n.Erase(s, j);
      assert forall m :: 0 <= m < |nodes| && m != i ==> Holds(nodes[m], cap, rows[m]);
      rows := rows[i := RemoveAt(rows[i], j)];
    }

    /** Overwrites the order at position `j` of node `i`, which is in slot `s`, in place. */
    method Put(n: PinNode, s: nat, p: Payload, ghost i: nat, ghost j: nat)
      requires Valid() && i < |nodes| && nodes[i] == n
      requires j < |rows[i]| && rows[i][j].loc == At(n, s)
      modifies this`rows, n.slots
      ensures Valid() && nodes == old(nodes)
      ensures rows == old(rows)[i := old(rows[i])[j := Item(At(n, s), p)]]
    {
      hide PinNode.Valid, PinNode.Row, NodeAt;
      RowAt(i, j);
      OthersUnlike(nodes, i);
      n.Put(s, p, j);
      assert forall m :: 0 <= m < |nodes| && m != i ==> Holds(nodes[m], cap, rows[m]);
      rows := rows[i := rows[i][j := Item(At(n, s), p)]];
    }

    /** Allocates an empty node at the front of the chain. */
    method NewFront() returns (m: PinNode)
      requires Valid()
      modifies this
      ensures Valid() && repr == old(repr) + {m, m.slots, m.links} && fresh(repr - old(repr))
      ensures nodes == InsertAt(old(nodes), 0, m) && rows == InsertAt(old(rows), 0, [])
    {
      hide PinNode.Valid, PinNode.Row, Holds, Separate, Linked, Stores, InsertAt;
      m := new PinNode(cap);
      FreshHolds(m, cap);
      LinkedInsert(nodes, ends, 0, m);
      SeparateInsert(nodes, 0, m);
      StoresInsert(nodes, repr, 0, m);
      ends := ends[m := Ends(null, head)];
      if head == null {
        tail := m;
      } else {
        ends := ends[head := ends[head].(prev := m)];
      }
      head := m;
      nodes := InsertAt(nodes, 0, m);
      rows := InsertAt(rows, 0, []);
      repr := repr + {m, m.slots, m.links};
    }

    /** Allocates an empty node just after node `i` of the chain. */
    method NewAfter(n: PinNode, ghost i: nat) returns (m: PinNode)
      requires Valid() && i < |nodes| && nodes[i] == n
      modifies this
      ensures Valid() && repr == old(repr) + {m, m.slots, m.links} && fresh(repr - old(repr))
      ensures nodes == InsertAt(old(nodes), i + 1, m) && rows == InsertAt(old(rows), i + 1, [])
    {
      hide PinNode.Valid, PinNode.Row, Holds, Separate, Linked, Stores, InsertAt;
      m := new PinNode(cap);
      FreshHolds(m, cap);
      SeparateInsert(nodes, i + 1, m);
      StoresInsert(nodes, repr, i + 1, m);
      LinkAfter(n, m, i);
      nodes := InsertAt(nodes, i + 1, m);
      rows := InsertAt(rows, i + 1, []);
      repr := repr + {m, m.slots, m.links};
    }

    /** Links `m` in just after `n`, node `i` of the chain. */
    method LinkAfter(n: PinNode, m: PinNode, ghost i: nat)
      requires Separate(nodes) && Linked(nodes, ends) && tail == NodeAt(nodes, |nodes| - 1)
      requires i < |nodes| && nodes[i] == n && m !in nodes
      modifies this`ends, this`tail
      ensures Linked(InsertAt(nodes, i + 1, m), ends)
      ensures tail == NodeAt(InsertAt(nodes, i + 1, m), |nodes|)
    {
      LinkedInsert(nodes, ends, i + 1, m);
      LastOf(nodes, i + 1, m);
      hide Separate, Linked, InsertAt;
      var after := ends[n].next;
      ends := ends[m := Ends(n, after)];
      ends := ends[n := ends[n].(next := m)];
      if after != null {
        ends := ends[after := ends[after].(prev := m)];
      } else {
        tail := m;
      }
    }

    /** Drops the emptied node `i` out of the chain and releases it. */
    method Drop(n: PinNode, ghost i: nat)
      requires Valid() && i < |nodes| && nodes[i] == n && rows[i] == []
      modifies this
      ensures Valid() && n !in ends && repr == old(repr)
      ensures nodes == RemoveAt(old(nodes), i) && rows == RemoveAt(old(rows), i)
    {
      hide PinNode.Valid, PinNode.Row, Holds, Separate, Linked, Stores;
      LinkedRemove(nodes, ends, i);
      SeparateRemove(nodes, i);
      StoresRemove(nodes, repr, i);
      var prev, next := ends[n].prev, ends[n].next;
      if prev != null { ends := ends[prev := ends[prev].(next := next)]; } else { head := next; }
      if next != null { ends := ends[next := ends[next].(prev := prev)]; } else { tail := prev; }
      ends := ends - {n};
      nodes := RemoveAt(nodes, i);
      rows := RemoveAt(rows, i);
    }

    /** Releases every node, front to back, each exactly once. */
    method Clear() returns (released: seq<PinNode>)
      requires Valid()
      modifies this
      ensures Valid() && nodes == [] && rows == [] && repr == old(repr) && released == old(nodes)
    {
      hide PinNode.Valid, PinNode.Row, Holds, Stores, Linked, LinkedFrom, Separate;
      released := [];
      var node := head;
      LinkedAll(nodes, ends);
      while node != null
        invariant |released| <= |nodes| && released == nodes[..|released|] && node == NodeAt(nodes, |released|)
        invariant LinkedFrom(nodes, ends, |released|)
        invariant nodes == old(nodes) && Separate(nodes) && this !in repr && repr == old(repr) && 0 < cap < NPOS
        decreases |nodes| - |released|
      {
        UnlinkFront(nodes, ends, |released|);
        var next := ends[node].next;
        ends := ends - {node};
        released := released + [node];
        node := next;
      }
      head, tail, ends := null, null, map[];
      nodes, rows := [], [];
      NothingStored(repr);
    }

    lemma LinkedAll(nodes: seq<PinNode>, ends: map<PinNode, Ends>)
      requires Linked(nodes, ends)
      ensures LinkedFrom(nodes, ends, 0)
    {
    }

    lemma NothingStored(repr: set<object>)
      ensures Stores([], repr) && Separate([]) && Linked([], map[])
    {
    }

    lemma Aligned()
      requires Valid()
      ensures |rows| == |nodes| && this !in repr && 0 < cap
    {
    }

    lemma Here(i: nat)
      requires Valid() && i < |nodes|
      ensures |rows| == |nodes| && this !in repr && 0 < cap
      ensures nodes[i] in repr && nodes[i].slots in repr && nodes[i].links in repr
    {
    }

    lemma Neighbours(i: nat)
      requires Valid() && i < |nodes|
      ensures nodes[i] in ends && ends[nodes[i]] == Ends(NodeAt(nodes, i - 1), NodeAt(nodes, i + 1))
    {
      assert Hooked(nodes, ends, i);
    }

    /** What the slots of a node hold, by position. */
    lemma RowAt(i: nat, j: nat)
      requires Valid() && i < |nodes| && j < |rows[i]|
      ensures |nodes[i].used| == |rows[i]| == nodes[i].size <= cap
      ensures var s := nodes[i].used[j];
        s < nodes[i].slots.Length && rows[i][j] == Item(At(nodes[i], s), nodes[i].slots[s])
    {
    }

    /** The first and the last slot of a node are those of its first and last order. */
    lemma EndsOf(i: nat)
      requires Valid() && i < |nodes| && rows[i] != []
      ensures nodes[i].headSlot < nodes[i].slots.Length && nodes[i].tailSlot < nodes[i].slots.Length
      ensures rows[i][0] == Item(At(nodes[i], nodes[i].headSlot), nodes[i].slots[nodes[i].headSlot])
      ensures rows[i][|rows[i]| - 1] == Item(At(nodes[i], nodes[i].tailSlot), nodes[i].slots[nodes[i].tailSlot])
    {
      RowAt(i, 0);
      RowAt(i, |rows[i]| - 1);
    }

    /** A node is full or empty as its row is. */
    lemma FullRow(i: nat)
      requires Valid() && i < |nodes|
      ensures |rows[i]| <= cap && (nodes[i].Full() <==> |rows[i]| == cap) && (nodes[i].Empty() <==> rows[i] == [])
    {
      if rows[i] != [] { RowAt(i, 0); }
    }

    /** The links inside a node lead to the orders before and after. */
    lemma LinksOf(i: nat, j: nat)
      requires Valid() && i < |nodes| && j < |rows[i]|
      ensures rows[i][j].loc.At? && rows[i][j].loc.node == nodes[i] && rows[i][j].loc.slot < nodes[i].links.Length
      ensures var l := nodes[i].links[rows[i][j].loc.slot];
        && (if j + 1 < |rows[i]| then l.next != NPOS && At(nodes[i], l.next) == rows[i][j + 1].loc else l.next == NPOS)
        && (if j > 0 then l.prev != NPOS && At(nodes[i], l.prev) == rows[i][j - 1].loc else l.prev == NPOS)
    {
      RowAt(i, j);
      Layout.SlotStored(nodes[i].links[..], nodes[i].used, j);
      if j + 1 < |rows[i]| { RowAt(i, j + 1); }
      if j > 0 { RowAt(i, j - 1); }
    }

    /** Different orders are in different places. */
    lemma RowsApart(i: nat, j: nat, i': nat, j': nat)
      requires Valid() && i < |nodes| && j < |rows[i]| && i' < |nodes| && j' < |rows[i']|
      ensures rows[i][j].loc.At? && (rows[i][j].loc == rows[i'][j'].loc ==> i == i' && j == j')
    {
      RowAt(i, j);
      RowAt(i', j');
      OthersUnlike(nodes, i);
      Alone(nodes[i].used, j);
    }
  }
}
