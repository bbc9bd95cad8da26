/**
  * What the level descriptors and the id index say about the list of orders of one side.
  * A descriptor summarises the orders of its level; summaries of consecutive stretches of
  * the list combine, so each change of the list is a change of one summary.
  */
module Blocks {
  import opened Orders
  import opened Layout
  import RedBlack

  /** The part of a level descriptor that describes its orders. */
  datatype Block = Block(head: Loc, tail: Loc, quantity: nat, count: nat)

  const EMPTY := Block(Nil, Nil, 0, 0)

  // ---- Summaries ----

  ghost function Combine(a: Block, b: Block): Block {
    if a.count == 0 then b
    else if b.count == 0 then a
    else Block(a.head, b.tail, Wrap(a.quantity + b.quantity), a.count + b.count)
  }

  ghost function Single(x: Item, v: Level): Block {
    if x.pay.level == v then Block(x.loc, x.loc, Wrap(x.pay.order.Open()), 1) else EMPTY
  }

  /** First and last position, wrapped total open quantity and number of the orders of `v`. */
  ghost function BlockOf(s: seq<Item>, v: Level): (b: Block)
    ensures b.count == 0 ==> b == EMPTY
    ensures b.quantity < WORD
  {
    if s == [] then EMPTY else Combine(Single(s[0], v), BlockOf(s[1..], v))
  }

  lemma WrapAdd(a: int, b: int)
    ensures Wrap(Wrap(a) + b) == Wrap(a + b) == Wrap(b + Wrap(a))
  {
    var q, k := a / WORD, (Wrap(a) + b) / WORD;
    WrapIs(a + b, q + k, Wrap(Wrap(a) + b));
  }

  lemma WrapIs(x: int, k: int, r: nat)
    requires x == k * WORD + r && r < WORD
    ensures Wrap(x) == r
  {
  }

  lemma WrapSum(a: int, b: int, c: int)
    ensures Wrap(Wrap(a + b) + c) == Wrap(a + Wrap(b + c)) == Wrap(a + b + c)
    ensures Wrap(Wrap(a) + b) == Wrap(a + b)
  {
    WrapAdd(a + b, c);
    WrapAdd(b + c, a);
    WrapAdd(a, b);
    hide Wrap;
  }

  lemma CombineAssociates(a: Block, b: Block, c: Block)
    ensures Combine(Combine(a, b), c) == Combine(a, Combine(b, c))
  {
    WrapSum(a.quantity, b.quantity, c.quantity);
  }

  lemma {:induction false} BlockConcat(s: seq<Item>, t: seq<Item>, v: Level)
    ensures BlockOf(s + t, v) == Combine(BlockOf(s, v), BlockOf(t, v))
  {
    if s == [] {
      assert s + t == t;
    } else {
      BlockConcat(s[1..], t, v);
      assert (s + t)[1..] == s[1..] + t;
      CombineAssociates(Single(s[0], v), BlockOf(s[1..], v), BlockOf(t, v));
    }
  }

  /** A list taken apart at position `k`. */
  lemma {:induction false} BlockAt(s: seq<Item>, k: nat, v: Level)
    requires k < |s|
    ensures BlockOf(s, v) == Combine(BlockOf(s[..k], v), Combine(Single(s[k], v), BlockOf(s[k + 1..], v)))
  {
    BlockConcat(s[..k], s[k..], v);
    assert s[..k] + s[k..] == s;
    assert s[k..][1..] == s[k + 1..];
  }

  ghost predicate NoneOf(s: seq<Item>, v: Level) {
    forall k :: 0 <= k < |s| ==> s[k].pay.level != v
  }

  /** A summary is empty exactly if the level has no orders. */
  lemma {:induction false} BlockAbsent(s: seq<Item>, v: Level)
    ensures BlockOf(s, v).count == 0 <==> NoneOf(s, v)
  {
    if s != [] {
      BlockAbsent(s[1..], v);
      if NoneOf(s, v) {
        assert forall k :: 0 <= k < |s[1..]| ==> s[1..][k] == s[k + 1];
      } else if s[0].pay.level != v {
        var k :| 0 <= k < |s| && s[k].pay.level == v;
        assert s[1..][k - 1] == s[k];
      }
    }
  }

  /** The head of a summary is the first order of the level. */
  lemma BlockHead(s: seq<Item>, v: Level) returns (f: nat)
    requires BlockOf(s, v).count > 0
    ensures f < |s| && s[f].pay.level == v && s[f].loc == BlockOf(s, v).head && NoneOf(s[..f], v)
  {
    if s[0].pay.level == v {
      f := 0;
    } else {
      f := BlockHead(s[1..], v);
      assert s[..f + 1][1..] == s[1..][..f];
      assert forall k {:trigger s[..f + 1][k]} :: 0 < k < f + 1 ==> s[..f + 1][k] == s[..f + 1][1..][k - 1];
      f := f + 1;
    }
  }

  /** The tail of a summary is the last order of the level. */
  lemma BlockTail(s: seq<Item>, v: Level) returns (l: nat)
    requires BlockOf(s, v).count > 0
    ensures l < |s| && s[l].pay.level == v && s[l].loc == BlockOf(s, v).tail && NoneOf(s[l + 1..], v)
  {
    if BlockOf(s[1..], v).count == 0 {
      BlockAbsent(s[1..], v);
      l := 0;
    } else {
      l := BlockTail(s[1..], v);
      assert s[1..][l + 1..] == s[l + 2..];
      l := l + 1;
    }
  }

  // ---- Rank ----

  ghost function KeyOf(x: Item): nat {
    if x.pay.level == null then 0 else x.pay.level.price
  }

  ghost predicate InRank(bid: bool, s: seq<Item>, i: nat, j: nat)
    requires i < |s| && j < |s|
  {
    !Better(bid, KeyOf(s[j]), KeyOf(s[i]))
  }

  /** Best price first. */
  ghost predicate Ranked(bid: bool, s: seq<Item>) {
    forall i, j :: 0 <= i < j < |s| ==> InRank(bid, s, i, j)
  }

  /** Position `p` is just after the last order at `key` or better. */
  ghost predicate Cuts(bid: bool, s: seq<Item>, p: nat, key: nat) {
    && p <= |s|
    && (forall i :: 0 <= i < p ==> !Better(bid, key, KeyOf(s[i])))
    && (forall i :: p <= i < |s| ==> Better(bid, key, KeyOf(s[i])))
  }

  /** Positions of a list differ. */
  ghost predicate Elsewhere(s: seq<Item>, i: nat, j: nat)
    requires i < |s| && j < |s|
  {
    s[i].loc != s[j].loc
  }

  ghost predicate Placed(s: seq<Item>) {
    && (forall i :: 0 <= i < |s| ==> s[i].loc != Nil)
    && (forall i, j :: 0 <= i < j < |s| ==> Elsewhere(s, i, j))
  }

  ghost predicate Owned(s: seq<Item>, order: seq<Level>) {
    forall i :: 0 <= i < |s| ==> s[i].pay.level != null && s[i].pay.level in order
  }

  ghost predicate Present(s: seq<Item>, id: nat) {
    exists k :: 0 <= k < |s| && s[k].pay.order.id == id
  }

  /** The index maps the ids of the list, and nothing else, to where they are. */
  ghost predicate Indexed(s: seq<Item>, index: map<nat, Loc>) {
    && (forall k :: 0 <= k < |s| ==> s[k].pay.order.id in index && index[s[k].pay.order.id] == s[k].loc)
    && (forall id :: id in index ==> Present(s, id))
  }

  ghost predicate Summed(s: seq<Item>, order: seq<Level>, blocks: map<Level, Block>) {
    forall v :: v in order ==> v in blocks && blocks[v] == BlockOf(s, v)
  }

  /** The levels other than `spared` all have orders. */
  ghost predicate Occupied(s: seq<Item>, order: seq<Level>, spared: Level?) {
    forall v :: v in order && v != spared ==> BlockOf(s, v).count > 0
  }

  /** The levels that have orders keep some. */
  ghost predicate SameLevels(s: seq<Item>, t: seq<Item>, order: seq<Level>) {
    forall v :: v in order && BlockOf(s, v).count > 0 ==> BlockOf(t, v).count > 0
  }

  lemma StillOccupied(s: seq<Item>, t: seq<Item>, order: seq<Level>, spared: Level?)
    requires Occupied(s, order, spared) && SameLevels(s, t, order)
    ensures Occupied(t, order, spared)
  {
  }

  /** Descriptors and index agree with the list, which is ranked. */
  ghost predicate Consistent(bid: bool, s: seq<Item>, order: seq<Level>, blocks: map<Level, Block>,
                             index: map<nat, Loc>) {
    RedBlack.Sorted(order) && Owned(s, order) && Ranked(bid, s) && Summed(s, order, blocks) && Indexed(s, index)
  }

  lemma SamePrice(order: seq<Level>, v: Level, w: Level)
    requires RedBlack.Sorted(order) && v in order && w in order
    ensures v.price == w.price ==> v == w
  {
    var i :| 0 <= i < |order| && order[i] == v;
    var j :| 0 <= j < |order| && order[j] == w;
    if i < j { assert RedBlack.Ascends(order, i, j); }
    if j < i { assert RedBlack.Ascends(order, j, i); }
  }

  /** The orders of a level are a contiguous block of the list. */
  lemma Contiguous(bid: bool, s: seq<Item>, order: seq<Level>, v: Level, i: nat, j: nat, k: nat)
    requires RedBlack.Sorted(order) && Owned(s, order) && Ranked(bid, s) && i < k < j < |s|
    requires s[i].pay.level == v == s[j].pay.level
    ensures s[k].pay.level == v
  {
    assert InRank(bid, s, i, k) && InRank(bid, s, k, j);
    SamePrice(order, v, s[k].pay.level);
  }

  // ---- Inserting an order ----

  /** Descriptor update of an order that joins at the end of its level. */
  function Grown(b: Block, loc: Loc, open: nat): Block {
    Block(if b.head == Nil then loc else b.head, loc, Wrap(b.quantity + open), b.count + 1)
  }

  lemma {:induction false} HeadNil(s: seq<Item>, v: Level)
    requires Placed(s)
    ensures BlockOf(s, v).head == Nil <==> BlockOf(s, v).count == 0
  {
    if BlockOf(s, v).count > 0 { var f := BlockHead(s, v); }
  }

  lemma CutWithout(bid: bool, s: seq<Item>, p: nat, v: Level)
    requires Cuts(bid, s, p, v.price)
    ensures NoneOf(s[p..], v)
  {
    forall k | 0 <= k < |s[p..]| ensures s[p..][k].pay.level != v { assert s[p..][k] == s[p + k]; }
  }

  lemma {:induction false} BlockInsert(bid: bool, s: seq<Item>, p: nat, x: Item, v: Level)
    requires p <= |s| && Placed(s) && x.pay.level != null && Cuts(bid, s, p, x.pay.level.price)
    ensures BlockOf(InsertAt(s, p, x), v) ==
      if v == x.pay.level then Grown(BlockOf(s, v), x.loc, x.pay.order.Open()) else BlockOf(s, v)
  {
    var u := InsertAt(s, p, x);
    assert u[..p] == s[..p] && u[p + 1..] == s[p..] && u[p] == x && s[..p] + s[p..] == s;
    hide InsertAt, Placed, Cuts, NoneOf, BlockOf, Better, KeyOf, Wrap;
    BlockAt(u, p, v);
    BlockConcat(s[..p], s[p..], v);
    if v == x.pay.level {
      HeadNil(s, v);
      CutWithout(bid, s, p, v);
      BlockAbsent(s[p..], v);
      GrownCombines(BlockOf(s[..p], v), x.loc, x.pay.order.Open());
    } else {
      EmptyCombines(BlockOf(s[..p], v), BlockOf(s[p..], v));
    }
  }

  lemma EmptyCombines(a: Block, b: Block)
    ensures Combine(a, Combine(EMPTY, b)) == Combine(a, b)
  {
  }

  lemma GrownCombines(a: Block, loc: Loc, open: nat)
    requires (a.count == 0 ==> a == EMPTY) && (Combine(a, EMPTY).head == Nil <==> a.count == 0)
    ensures Combine(a, Combine(Block(loc, loc, Wrap(open), 1), EMPTY)) == Grown(Combine(a, EMPTY), loc, open)
  {
    WrapSum(a.quantity, 0, open);
    WrapSum(open, a.quantity, 0);
  }

  lemma RankedInsert(bid: bool, s: seq<Item>, p: nat, x: Item)
    requires Ranked(bid, s) && p <= |s| && Cuts(bid, s, p, KeyOf(x))
    ensures Ranked(bid, InsertAt(s, p, x))
  {
    var u := InsertAt(s, p, x);
    forall i, j | 0 <= i < j < |u|
      ensures InRank(bid, u, i, j)
    {
      if i != p && j != p { assert InRank(bid, s, if i < p then i else i - 1, if j < p then j else j - 1); }
    }
  }

  lemma IndexedInsert(s: seq<Item>, index: map<nat, Loc>, p: nat, x: Item)
    requires Indexed(s, index) && p <= |s| && x.pay.order.id !in index
    ensures Indexed(InsertAt(s, p, x), index[x.pay.order.id := x.loc])
  {
    var u := InsertAt(s, p, x);
    var n := index[x.pay.order.id := x.loc];
    forall id | id in n ensures Present(u, id) {
      if id == x.pay.order.id {
        assert u[p].pay.order.id == id;
      } else {
        assert Present(s, id);
        var k :| 0 <= k < |s| && s[k].pay.order.id == id;
        assert u[if k < p then k else k + 1].pay.order.id == id;
      }
    }
  }

  lemma ConsistentInsert(bid: bool, s: seq<Item>, order: seq<Level>, blocks: map<Level, Block>, index: map<nat, Loc>,
                         p: nat, x: Item)
    requires Consistent(bid, s, order, blocks, index) && Placed(s)
    requires x.pay.level != null && x.pay.level in order && p <= |s| && Cuts(bid, s, p, x.pay.level.price)
    requires x.pay.order.id !in index
    ensures var v := x.pay.level;
      Consistent(bid, InsertAt(s, p, x), order, blocks[v := Grown(blocks[v], x.loc, x.pay.order.Open())],
          index[x.pay.order.id := x.loc])
    ensures Occupied(s, order, x.pay.level) ==> Occupied(InsertAt(s, p, x), order, null)
  {
    hide Summed, Indexed, Ranked, Cuts, Placed, BlockOf;
    RankedInsert(bid, s, p, x);
    IndexedInsert(s, index, p, x);
    SummedInsert(bid, s, order, blocks, p, x);
    forall v | v in order
      ensures v != x.pay.level ==> BlockOf(InsertAt(s, p, x), v) == BlockOf(s, v)
      ensures v == x.pay.level ==> BlockOf(InsertAt(s, p, x), v).count > 0
    {
      BlockInsert(bid, s, p, x, v);
    }
  }

  lemma SummedInsert(bid: bool, s: seq<Item>, order: seq<Level>, blocks: map<Level, Block>, p: nat, x: Item)
    requires Summed(s, order, blocks) && Placed(s)
    requires x.pay.level != null && x.pay.level in order && p <= |s| && Cuts(bid, s, p, x.pay.level.price)
    ensures var v := x.pay.level;
      Summed(InsertAt(s, p, x), order, blocks[v := Grown(blocks[v], x.loc, x.pay.order.Open())])
  {
    hide Cuts, Placed, BlockOf;
    forall v | v in order
      ensures BlockOf(InsertAt(s, p, x), v) ==
        if v == x.pay.level then Grown(BlockOf(s, v), x.loc, x.pay.order.Open()) else BlockOf(s, v)
    {
      BlockInsert(bid, s, p, x, v);
    }
  }

  // ---- Removing an order ----

  /** Descriptor update of the order at position `k`, which is about to leave its level. */
  ghost function Shrunk(b: Block, s: seq<Item>, k: nat): Block
    requires k < |s| && b.count > 0
  {
    var loc := s[k].loc;
    var open := s[k].pay.order.Open();
    if b.head == loc && b.tail == loc then Block(Nil, Nil, Wrap(b.quantity - open), b.count - 1)
    else Block(if b.head == loc then LocAt(s, k + 1) else b.head,
               if b.tail == loc then LocAt(s, k - 1) else b.tail,
               Wrap(b.quantity - open), b.count - 1)
  }

  ghost function LocAt(s: seq<Item>, k: int): Loc {
    if 0 <= k < |s| then s[k].loc else Nil
  }

  lemma WithoutBefore(s: seq<Item>, f: nat, v: Level)
    requires f <= |s| && NoneOf(s[..f], v)
    ensures forall k :: 0 <= k < f ==> s[k].pay.level != v
  {
    forall k | 0 <= k < f ensures s[k].pay.level != v { assert s[..f][k] == s[k]; }
  }

  lemma WithoutAfter(s: seq<Item>, l: nat, v: Level)
    requires l <= |s| && NoneOf(s[l..], v)
    ensures forall k :: l <= k < |s| ==> s[k].pay.level != v
  {
    forall k | l <= k < |s| ensures s[k].pay.level != v { assert s[l..][k - l] == s[k]; }
  }

  lemma LocAfterRemoval(s: seq<Item>, k: nat)
    requires k < |s|
    ensures LocAt(RemoveAt(s, k), k) == LocAt(s, k + 1)
  {
    var u := RemoveAt(s, k);
    assert k < |u| ==> u[k] == s[k + 1];
  }

  /** The first order of a level is its head, and no other. */
  lemma {:induction false} HeadAt(s: seq<Item>, k: nat, v: Level)
    requires Placed(s) && k < |s| && s[k].pay.level == v
    ensures BlockOf(s, v).count > 0
    ensures BlockOf(s, v).head == s[k].loc <==> BlockOf(s[..k], v).count == 0
  {
    BlockAt(s, k, v);
    BlockAbsent(s[..k], v);
    var f := BlockHead(s, v);
    WithoutBefore(s, f, v);
    assert f < k ==> s[..k][f] == s[f];
    assert f < k ==> Elsewhere(s, f, k);
  }

  lemma {:induction false} TailAt(s: seq<Item>, k: nat, v: Level)
    requires Placed(s) && k < |s| && s[k].pay.level == v
    ensures BlockOf(s, v).tail == s[k].loc <==> BlockOf(s[k + 1..], v).count == 0
  {
    BlockAt(s, k, v);
    BlockAbsent(s[k + 1..], v);
    var l := BlockTail(s, v);
    WithoutAfter(s, l + 1, v);
    assert k < l ==> s[k + 1..][l - k - 1] == s[l];
    assert k < l ==> Elsewhere(s, k, l);
  }

  /** What follows the head of a level inside the level is the next order of the list. */
  lemma HeadOfRest(bid: bool, s: seq<Item>, order: seq<Level>, k: nat, v: Level)
    requires RedBlack.Sorted(order) && Owned(s, order) && Ranked(bid, s)
    requires k < |s| && s[k].pay.level == v && BlockOf(s[k + 1..], v).count > 0
    ensures BlockOf(s[k + 1..], v).head == LocAt(s, k + 1)
  {
    var t := s[k + 1..];
    var f := BlockHead(t, v);
    WithoutBefore(t, f, v);
    assert t[f] == s[k + 1 + f] && t[0] == s[k + 1];
    if f > 0 { Contiguous(bid, s, order, v, k, k + 1 + f, k + 1); }
  }

  lemma {:induction false} TailOfRest(bid: bool, s: seq<Item>, order: seq<Level>, k: nat, v: Level)
    requires RedBlack.Sorted(order) && Owned(s, order) && Ranked(bid, s)
    requires k < |s| && s[k].pay.level == v && BlockOf(s[..k], v).count > 0
    ensures BlockOf(s[..k], v).tail == LocAt(s, k - 1)
  {
    var t := s[..k];
    var l := BlockTail(t, v);
    WithoutAfter(t, l + 1, v);
    assert t[k - 1] == s[k - 1];
    if l + 1 < k { Contiguous(bid, s, order, v, l, k, k - 1); }
  }

  lemma {:induction false} BlockRemove(bid: bool, s: seq<Item>, order: seq<Level>, k: nat, v: Level)
    requires k < |s| && Placed(s) && RedBlack.Sorted(order) && Owned(s, order) && Ranked(bid, s)
    ensures v == s[k].pay.level ==> BlockOf(s, v).count > 0
    ensures BlockOf(RemoveAt(s, k), v) == if v == s[k].pay.level then Shrunk(BlockOf(s, v), s, k) else BlockOf(s, v)
  {
    var u := RemoveAt(s, k);
    assert u == s[..k] + s[k + 1..];
    hide RemoveAt, Placed, Owned, Ranked, BlockOf, Wrap, LocAt;
    BlockAt(s, k, v);
    BlockConcat(s[..k], s[k + 1..], v);
    if v == s[k].pay.level {
      HeadAt(s, k, v);
      TailAt(s, k, v);
      var a, b := BlockOf(s[..k], v), BlockOf(s[k + 1..], v);
      if b.count > 0 { HeadOfRest(bid, s, order, k, v); }
      if a.count > 0 { TailOfRest(bid, s, order, k, v); }
      ShrunkCombines(a, s[k].loc, s[k].pay.order.Open(), b);
    } else {
      EmptyCombines(BlockOf(s[..k], v), BlockOf(s[k + 1..], v));
    }
  }

  lemma ShrunkCombines(a: Block, loc: Loc, open: nat, b: Block)
    requires (a.count == 0 ==> a == EMPTY) && (b.count == 0 ==> b == EMPTY)
    requires a.quantity < WORD && b.quantity < WORD
    ensures var c := Combine(a, Combine(Block(loc, loc, Wrap(open), 1), b));
      && c.count == a.count + b.count + 1
      && c.head == (if a.count == 0 then loc else a.head) && c.tail == (if b.count == 0 then loc else b.tail)
      && Wrap(c.quantity - open) == Combine(a, b).quantity
  {
    hide Wrap;
    var back: int := 0 - open;
    WrapAdd(open, back);
    WrapAdd(open, a.quantity);
    WrapAdd(open, b.quantity);
    WrapAdd(a.quantity + open, back);
    WrapAdd(open + b.quantity, back);
    WrapAdd(open + b.quantity, a.quantity);
    WrapAdd(open + b.quantity + a.quantity, back);
  }

  /** An order is both ends of its level exactly if it is alone there. */
  lemma {:induction false} LastOrder(s: seq<Item>, k: nat, v: Level)
    requires Placed(s) && k < |s| && s[k].pay.level == v
    ensures BlockOf(s, v).count == 1 <==> BlockOf(s, v).head == s[k].loc && BlockOf(s, v).tail == s[k].loc
  {
    hide Placed, BlockOf;
    HeadAt(s, k, v);
    TailAt(s, k, v);
    BlockAt(s, k, v);
  }

  /** The level of a departing order keeps orders unless it was alone. */
  lemma {:induction false} OccupiedRemove(bid: bool, s: seq<Item>, order: seq<Level>, k: nat, v: Level)
    requires RedBlack.Sorted(order) && Owned(s, order) && Ranked(bid, s) && Placed(s) && k < |s| && s[k].pay.level == v
    requires Occupied(RemoveAt(s, k), order, v)
    ensures BlockOf(s, v).head == s[k].loc && BlockOf(s, v).tail == s[k].loc ==> BlockOf(RemoveAt(s, k), v).count == 0
    ensures !(BlockOf(s, v).head == s[k].loc && BlockOf(s, v).tail == s[k].loc) ==>
      Occupied(RemoveAt(s, k), order, null)
  {
    LastOrder(s, k, v);
    BlockRemove(bid, s, order, k, v);
    hide Placed, BlockOf, Owned, Ranked, RemoveAt;
  }

  lemma RankedRemove(bid: bool, s: seq<Item>, k: nat)
    requires Ranked(bid, s) && k < |s|
    ensures Ranked(bid, RemoveAt(s, k))
  {
    var u := RemoveAt(s, k);
    forall i, j | 0 <= i < j < |u|
      ensures InRank(bid, u, i, j)
    {
      assert InRank(bid, s, if i < k then i else i + 1, if j < k then j else j + 1);
    }
  }

  /** Ids are as distinct as positions. */
  lemma OneId(s: seq<Item>, index: map<nat, Loc>, i: nat, j: nat)
    requires Placed(s) && Indexed(s, index) && i < |s| && j < |s| && s[i].pay.order.id == s[j].pay.order.id
    ensures i == j
  {
    assert i < j ==> Elsewhere(s, i, j);
    assert j < i ==> Elsewhere(s, j, i);
  }

  lemma IndexedRemove(s: seq<Item>, index: map<nat, Loc>, k: nat)
    requires Placed(s) && Indexed(s, index) && k < |s|
    ensures Indexed(RemoveAt(s, k), index - {s[k].pay.order.id})
  {
    var u := RemoveAt(s, k);
    var n := index - {s[k].pay.order.id};
    forall i | 0 <= i < |u|
      ensures u[i].pay.order.id in n && n[u[i].pay.order.id] == u[i].loc
    {
      var i' := if i < k then i else i + 1;
      if s[i'].pay.order.id == s[k].pay.order.id { OneId(s, index, i', k); }
    }
    forall id | id in n ensures Present(u, id) {
      assert Present(s, id);
      var i :| 0 <= i < |s| && s[i].pay.order.id == id;
      assert u[if i < k then i else i - 1].pay.order.id == id;
    }
  }

  lemma ConsistentRemove(bid: bool, s: seq<Item>, order: seq<Level>, blocks: map<Level, Block>, index: map<nat, Loc>,
                         k: nat)
    requires Consistent(bid, s, order, blocks, index) && Placed(s) && k < |s|
    ensures s[k].pay.level != null && s[k].pay.level in order && blocks[s[k].pay.level].count > 0
    ensures var v := s[k].pay.level;
      Consistent(bid, RemoveAt(s, k), order, blocks[v := Shrunk(blocks[v], s, k)], index - {s[k].pay.order.id})
    ensures Occupied(s, order, null) ==> Occupied(RemoveAt(s, k), order, s[k].pay.level)
  {
    hide Indexed, Ranked, Placed, BlockOf, Shrunk, RemoveAt;
    RankedRemove(bid, s, k);
    IndexedRemove(s, index, k);
    forall v | v in order
      ensures v == s[k].pay.level ==> BlockOf(s, v).count > 0
      ensures BlockOf(RemoveAt(s, k), v) == if v == s[k].pay.level then Shrunk(BlockOf(s, v), s, k) else BlockOf(s, v)
    {
      BlockRemove(bid, s, order, k, v);
    }
  }

  // ---- Changing an order where it is ----

  /** Descriptor update when the order at `was` moves to `now` without losing its place. */
  function Moved(b: Block, was: Loc, now: Loc): Block {
    b.(head := if b.head == was then now else b.head, tail := if b.tail == was then now else b.tail)
  }

  lemma BlockMove(s: seq<Item>, k: nat, now: Loc, v: Level)
    requires k < |s| && Placed(s)
    ensures BlockOf(s[k := s[k].(loc := now)], v)
      == if v == s[k].pay.level then Moved(BlockOf(s, v), s[k].loc, now) else BlockOf(s, v)
  {
    var u := s[k := s[k].(loc := now)];
    assert u[..k] == s[..k] && u[k + 1..] == s[k + 1..] && u[k] == s[k].(loc := now);
    hide Placed, BlockOf, Wrap, Combine, Moved;
    BlockAt(s, k, v);
    BlockAt(u, k, v);
    if v == s[k].pay.level {
      HeadAt(s, k, v);
      TailAt(s, k, v);
      MovedCombines(BlockOf(s[..k], v), s[k].loc, now, Wrap(s[k].pay.order.Open()), BlockOf(s[k + 1..], v));
    }
  }

  lemma MovedCombines(a: Block, was: Loc, now: Loc, q: nat, b: Block)
    requires var c := Combine(a, Combine(Block(was, was, q, 1), b));
      (c.head == was <==> a.count == 0) && (c.tail == was <==> b.count == 0)
    ensures Combine(a, Combine(Block(now, now, q, 1), b))
      == Moved(Combine(a, Combine(Block(was, was, q, 1), b)), was, now)
  {
    hide Wrap;
    WrapSum(a.quantity, q, b.quantity);
  }

  /** Descriptor update when the open quantity of an order of the level changes by `delta`. */
  function Resized(b: Block, delta: int): Block {
    b.(quantity := Wrap(b.quantity + delta))
  }

  lemma BlockResize(s: seq<Item>, k: nat, o: Order, v: Level)
    requires k < |s|
    ensures BlockOf(s[k := s[k].(pay := s[k].pay.(order := o))], v) ==
      if v == s[k].pay.level then Resized(BlockOf(s, v), o.Open() - s[k].pay.order.Open()) else BlockOf(s, v)
  {
    var u := s[k := s[k].(pay := s[k].pay.(order := o))];
    assert u[..k] == s[..k] && u[k + 1..] == s[k + 1..] && u[k].pay.order == o && u[k].loc == s[k].loc;
    assert u[k].pay.level == s[k].pay.level;
    hide BlockOf, Wrap;
    BlockAt(s, k, v);
    BlockAt(u, k, v);
    ResizedCombines(BlockOf(s[..k], v), s[k].loc, s[k].pay.order.Open(), o.Open(), BlockOf(s[k + 1..], v));
    EmptyCombines(BlockOf(s[..k], v), BlockOf(s[k + 1..], v));
  }

  lemma ResizedAlike(b: Block, was: nat, now: nat, delta: int)
    requires Wrap(now) == Wrap(was + delta)
    ensures Resized(b, now - was) == Resized(b, delta)
  {
    hide Wrap;
    WrapAdd(now, b.quantity - was);
    WrapAdd(was + delta, b.quantity - was);
    assert now + (b.quantity - was) == b.quantity + (now - was);
    assert was + delta + (b.quantity - was) == b.quantity + delta;
  }

  lemma ResizedCombines(a: Block, loc: Loc, was: nat, now: nat, b: Block)
    requires (a.count == 0 ==> a == EMPTY) && (b.count == 0 ==> b == EMPTY)
    ensures Resized(Combine(a, Combine(Block(loc, loc, Wrap(was), 1), b)), now - was)
      == Combine(a, Combine(Block(loc, loc, Wrap(now), 1), b))
  {
    hide Wrap;
    var d := now - was;
    WrapAdd(was, d);
    WrapShift(a.quantity, was, d);
    WrapShift(b.quantity, was, d);
    WrapAdd(was, b.quantity);
    WrapAdd(now, b.quantity);
    WrapShift(a.quantity, was + b.quantity, d);
    assert was + b.quantity + d == now + b.quantity;
  }

  lemma WrapShift(a: int, b: int, d: int)
    ensures Wrap(Wrap(a + Wrap(b)) + d) == Wrap(a + Wrap(b + d))
    ensures Wrap(Wrap(Wrap(b) + a) + d) == Wrap(Wrap(b + d) + a)
  {
    WrapAdd(b, a);
    WrapAdd(b + d, a);
    WrapAdd(b + a, d);
    hide Wrap;
  }

  lemma IndexedMove(s: seq<Item>, index: map<nat, Loc>, k: nat, now: Loc)
    requires Placed(s) && Indexed(s, index) && k < |s|
    ensures Indexed(s[k := s[k].(loc := now)], index[s[k].pay.order.id := now])
  {
    var u := s[k := s[k].(loc := now)];
    var n := index[s[k].pay.order.id := now];
    forall i | 0 <= i < |u|
      ensures u[i].pay.order.id in n && n[u[i].pay.order.id] == u[i].loc
    {
      if s[i].pay.order.id == s[k].pay.order.id { OneId(s, index, i, k); }
    }
    forall id | id in n ensures Present(u, id) {
      assert id != s[k].pay.order.id ==> Present(s, id);
      var i :| 0 <= i < |s| && s[i].pay.order.id == id;
      assert u[i].pay.order.id == id;
    }
  }

  lemma RankedPut(bid: bool, s: seq<Item>, k: nat, x: Item)
    requires Ranked(bid, s) && k < |s| && x.pay.level == s[k].pay.level
    ensures Ranked(bid, s[k := x])
  {
    var u := s[k := x];
    forall i, j | 0 <= i < j < |u| ensures InRank(bid, u, i, j) { assert InRank(bid, s, i, j); }
  }

  /** An order moves, keeping its place in the list. */
  lemma ConsistentMove(bid: bool, s: seq<Item>, order: seq<Level>, blocks: map<Level, Block>, index: map<nat, Loc>,
                       k: nat, now: Loc)
    requires Consistent(bid, s, order, blocks, index) && Placed(s) && k < |s| && now != Nil
    ensures s[k].pay.level != null && s[k].pay.level in blocks
    ensures var v := s[k].pay.level;
      Consistent(bid, s[k := s[k].(loc := now)], order, blocks[v := Moved(blocks[v], s[k].loc, now)],
          index[s[k].pay.order.id := now])
    ensures SameLevels(s, s[k := s[k].(loc := now)], order)
  {
    hide Indexed, Ranked, Placed, BlockOf;
    var u := s[k := s[k].(loc := now)];
    RankedPut(bid, s, k, s[k].(loc := now));
    IndexedMove(s, index, k, now);
    forall v | v in order
      ensures BlockOf(u, v) == if v == s[k].pay.level then Moved(BlockOf(s, v), s[k].loc, now) else BlockOf(s, v)
    {
      BlockMove(s, k, now, v);
    }
  }

  lemma IndexedResize(s: seq<Item>, index: map<nat, Loc>, k: nat, o: Order)
    requires Indexed(s, index) && k < |s| && o.id == s[k].pay.order.id
    ensures Indexed(s[k := s[k].(pay := s[k].pay.(order := o))], index)
  {
    var u := s[k := s[k].(pay := s[k].pay.(order := o))];
    assert forall i :: 0 <= i < |u| ==> u[i].pay.order.id == s[i].pay.order.id && u[i].loc == s[i].loc;
    forall id | id in index ensures Present(u, id) {
      assert Present(s, id);
      var i :| 0 <= i < |s| && s[i].pay.order.id == id;
      assert u[i].pay.order.id == id;
    }
  }

  /** An order changes where it is. */
  lemma ConsistentResize(bid: bool, s: seq<Item>, order: seq<Level>, blocks: map<Level, Block>, index: map<nat, Loc>,
                         k: nat, o: Order)
    requires Consistent(bid, s, order, blocks, index) && Placed(s) && k < |s| && o.id == s[k].pay.order.id
    ensures s[k].pay.level != null && s[k].pay.level in blocks
    ensures var v := s[k].pay.level;
      Consistent(bid, s[k := s[k].(pay := s[k].pay.(order := o))], order,
        blocks[v := Resized(blocks[v], o.Open() - s[k].pay.order.Open())], index)
    ensures SameLevels(s, s[k := s[k].(pay := s[k].pay.(order := o))], order)
  {
    hide Indexed, Ranked, Placed, BlockOf;
    var u := s[k := s[k].(pay := s[k].pay.(order := o))];
    RankedPut(bid, s, k, s[k].(pay := s[k].pay.(order := o)));
    IndexedResize(s, index, k, o);
    forall v | v in order
      ensures BlockOf(u, v)
        == if v == s[k].pay.level then Resized(BlockOf(s, v), o.Open() - s[k].pay.order.Open()) else BlockOf(s, v)
    {
      BlockResize(s, k, o, v);
    }
  }

  // ---- A new level ----

  lemma ConsistentGrow(bid: bool, s: seq<Item>, order: seq<Level>, blocks: map<Level, Block>, index: map<nat, Loc>,
                       k: nat, v: Level)
    requires Consistent(bid, s, order, blocks, index) && k <= |order| && v !in order
    requires RedBlack.Sorted(InsertAt(order, k, v))
    ensures Consistent(bid, s, InsertAt(order, k, v), blocks[v := EMPTY], index)
    ensures Occupied(s, order, null) ==> Occupied(s, InsertAt(order, k, v), v)
  {
    var u := InsertAt(order, k, v);
    assert NoneOf(s, v);
    BlockAbsent(s, v);
    LevelsInsert(order, k, v);
    hide BlockOf, Ranked, Indexed, InsertAt;
  }

  lemma LevelsInsert(order: seq<Level>, k: nat, v: Level)
    requires k <= |order|
    ensures forall w :: w in InsertAt(order, k, v) <==> w == v || w in order
  {
    var u := InsertAt(order, k, v);
    forall w | w in order ensures w in u {
      var i :| 0 <= i < |order| && order[i] == w;
      assert u[if i < k then i else i + 1] == w;
    }
    assert u[k] == v;
  }

  lemma LevelsRemove(order: seq<Level>, k: nat)
    requires k < |order| && order[k] !in RemoveAt(order, k)
    ensures forall w :: w in RemoveAt(order, k) <==> w != order[k] && w in order
  {
    var u := RemoveAt(order, k);
    forall w | w in order && w != order[k] ensures w in u {
      var i :| 0 <= i < |order| && order[i] == w;
      assert u[if i < k then i else i - 1] == w;
    }
  }

  /** A level without orders leaves. */
  lemma {:induction false} ConsistentShrink(bid: bool, s: seq<Item>, order: seq<Level>, blocks: map<Level, Block>,
                                            index: map<nat, Loc>, k: nat)
    requires Consistent(bid, s, order, blocks, index) && k < |order| && order[k] !in RemoveAt(order, k)
    requires RedBlack.Sorted(RemoveAt(order, k)) && BlockOf(s, order[k]).count == 0
    ensures Consistent(bid, s, RemoveAt(order, k), blocks - {order[k]}, index)
    ensures Occupied(s, order, order[k]) ==> Occupied(s, RemoveAt(order, k), null)
  {
    BlockAbsent(s, order[k]);
    LevelsRemove(order, k);
    hide BlockOf, Ranked, Indexed, RemoveAt;
  }
}
