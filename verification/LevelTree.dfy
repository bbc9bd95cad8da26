/**
  * The threaded red-black tree of price levels of one book side. `root` and the cells
  * form the tree, `threads` links the levels by ascending price, and `best` is the top
  * of the book. The cells are the memory the pointer algorithms read and write.
  */
module LevelTrees {
  import opened Layout
  import opened Orders
  import opened RedBlack

  /** Thread links of a level: its neighbours in ascending price order. */
  datatype Thread = Thread(pred: Level?, succ: Level?)

  /** The level at a position, null off either end. */
  ghost function LevelAt(order: seq<Level>, i: int): Level? {
    if 0 <= i < |order| then order[i] else null
  }

  /** The top of the book: the dearest bid or the cheapest ask. */
  ghost function BestOf(bid: bool, order: seq<Level>): Level? {
    LevelAt(order, if bid then |order| - 1 else 0)
  }

  /** Every level is linked to its neighbours in the sequence. */
  ghost predicate Threads(order: seq<Level>, threads: map<Level, Thread>) {
    forall i :: 0 <= i < |order| ==> Flanked(order, threads, i)
  }

  /** The thread of the level at position `i` leads to its neighbours. */
  ghost predicate Flanked(order: seq<Level>, threads: map<Level, Thread>, i: nat)
    requires i < |order|
  {
    order[i] in threads && threads[order[i]] == Thread(LevelAt(order, i - 1), LevelAt(order, i + 1))
  }

  /** Levels below position `lo` are cheaper than `price`, those from `hi` on dearer. */
  ghost predicate Between(order: seq<Level>, lo: int, hi: int, price: nat) {
    && (forall i :: 0 <= i < lo && i < |order| ==> order[i].price < price)
    && (forall i :: 0 <= i < |order| && hi <= i ==> price < order[i].price)
  }

  lemma BetweenLeft(order: seq<Level>, lo: int, hi: int, k: nat, price: nat)
    requires Sorted(order) && k < |order| && Between(order, lo, hi, price) && price < order[k].price
    ensures Between(order, lo, k, price)
  {
    forall i | k < i < |order| ensures order[k].price < order[i].price { assert Ascends(order, k, i); }
  }

  lemma BetweenRight(order: seq<Level>, lo: int, hi: int, k: nat, price: nat)
    requires Sorted(order) && k < |order| && Between(order, lo, hi, price) && order[k].price < price
    ensures Between(order, k + 1, hi, price)
  {
    forall i | 0 <= i < k ensures order[i].price < order[k].price { assert Ascends(order, i, k); }
  }

  /** Going left or right in the search narrows the range of positions around the price. */
  lemma {:induction false} NarrowLeft(order: seq<Level>, c: Ctx, t: Tree, price: nat)
    requires Sorted(order) && t.Node? && |order| == |Before(c)| + |InOrder(t)| + |After(c)|
    requires order[|Before(c)| + |InOrder(t.left)|] == t.lv && price < t.lv.price
    requires Between(order, |Before(c)|, |order| - |After(c)|, price)
    ensures var c' := Up(c, true, t.lv, t.color, t.right);
      Between(order, |Before(c')|, |order| - |After(c')|, price)
    ensures t.left.Leaf? ==> SplitsAt(order, |Before(c)|, price)
  {
    BetweenLeft(order, |Before(c)|, |order| - |After(c)|, |Before(c)| + |InOrder(t.left)|, price);
  }

  lemma {:induction false} NarrowRight(order: seq<Level>, c: Ctx, t: Tree, price: nat)
    requires Sorted(order) && t.Node? && |order| == |Before(c)| + |InOrder(t)| + |After(c)|
    requires order[|Before(c)| + |InOrder(t.left)|] == t.lv && t.lv.price < price
    requires Between(order, |Before(c)|, |order| - |After(c)|, price)
    ensures var c' := Up(c, false, t.lv, t.color, t.left);
      Between(order, |Before(c')|, |order| - |After(c')|, price)
    ensures t.right.Leaf? ==> SplitsAt(order, |Before(c)| + |InOrder(t.left)| + 1, price)
  {
    BetweenRight(order, |Before(c)|, |order| - |After(c)|, |Before(c)| + |InOrder(t.left)|, price);
  }

  /** Position `k` splits the levels by price. */
  ghost predicate SplitsAt(order: seq<Level>, k: nat, price: nat) {
    && k <= |order|
    && (forall i :: 0 <= i < k ==> order[i].price < price)
    && (forall i :: k <= i < |order| ==> price < order[i].price)
  }

  /** The threads after splicing `v` in between `pred` and `succ`. */
  function ThreadIn(m: map<Level, Thread>, v: Level, pred: Level?, succ: Level?): map<Level, Thread>
    requires (pred != null ==> pred in m) && (succ != null ==> succ in m)
  {
    var m := m[v := Thread(pred, succ)];
    var m := if pred == null then m else m[pred := m[pred].(succ := v)];
    if succ == null then m else m[succ := m[succ].(pred := v)]
  }

  lemma ThreadsInsert(order: seq<Level>, m: map<Level, Thread>, k: nat, v: Level)
    requires Sorted(order) && Threads(order, m) && SplitsAt(order, k, v.price)
    ensures LevelAt(order, k - 1) != null ==> LevelAt(order, k - 1) in m
    ensures LevelAt(order, k) != null ==> LevelAt(order, k) in m
    ensures Threads(InsertAt(order, k, v), ThreadIn(m, v, LevelAt(order, k - 1), LevelAt(order, k)))
    ensures Sorted(InsertAt(order, k, v))
  {
    hide Sorted, Threads, ThreadIn, SplitsAt, InsertAt;
    SortedInsert(order, k, v);
    if k > 0 { ThreadAt(order, m, k - 1); }
    if k < |order| { ThreadAt(order, m, k); }
    var p, s := LevelAt(order, k - 1), LevelAt(order, k);
    var u, n := InsertAt(order, k, v), ThreadIn(m, v, p, s);
    forall i | 0 <= i < |u|
      ensures u[i] in n && n[u[i]] == Thread(LevelAt(u, i - 1), LevelAt(u, i + 1))
    {
      if i == k {
        ThreadInAt(m, v, p, s, v);
      } else {
        var j := if i < k then i else i - 1;
        ThreadAt(order, m, j);
        ThreadInAt(m, v, p, s, order[j]);
        if k > 0 { OnePlace(order, j, k - 1); }
        if k < |order| { OnePlace(order, j, k); }
      }
    }
    ThreadsIf(u, n);
  }

  lemma SortedInsert(order: seq<Level>, k: nat, v: Level)
    requires Sorted(order) && SplitsAt(order, k, v.price)
    ensures k <= |order| && v !in order && Sorted(InsertAt(order, k, v))
  {
    var u := InsertAt(order, k, v);
    forall i, j | 0 <= i < j < |u| ensures Ascends(u, i, j) {
      var i', j' := if i < k then i else i - 1, if j < k then j else j - 1;
      if i != k && j != k { assert Ascends(order, i', j'); }
    }
  }

  lemma ThreadAt(order: seq<Level>, m: map<Level, Thread>, i: nat)
    requires Threads(order, m) && i < |order|
    ensures order[i] in m && m[order[i]] == Thread(LevelAt(order, i - 1), LevelAt(order, i + 1))
  {
    assert Flanked(order, m, i);
  }

  lemma ThreadsIf(order: seq<Level>, m: map<Level, Thread>)
    requires forall i :: 0 <= i < |order| ==> Flanked(order, m, i)
    ensures Threads(order, m)
  {
  }

  lemma ThreadsWiden(order: seq<Level>, m: map<Level, Thread>, z: Level)
    requires Threads(order, m - {z})
    ensures Threads(order, m)
  {
    forall i | 0 <= i < |order| ensures Flanked(order, m, i) { ThreadAt(order, m - {z}, i); }
  }

  lemma ThreadsNarrow(order: seq<Level>, m: map<Level, Thread>, z: Level)
    requires Threads(order, m) && z !in order
    ensures Threads(order, m - {z})
  {
    forall i | 0 <= i < |order| ensures Flanked(order, m - {z}, i) { ThreadAt(order, m, i); }
  }

  lemma OnePlace(order: seq<Level>, i: nat, j: nat)
    requires Sorted(order) && i < |order| && j < |order|
    ensures i != j ==> order[i].price != order[j].price
  {
    if i < j { assert Ascends(order, i, j); }
    if j < i { assert Ascends(order, j, i); }
  }

  /** What splicing `v` in does to the thread of `w`. */
  lemma ThreadInAt(m: map<Level, Thread>, v: Level, pred: Level?, succ: Level?, w: Level)
    requires (pred != null ==> pred in m && pred != v) && (succ != null ==> succ in m && succ != v)
    requires (w in m || w == v)
    ensures var n := ThreadIn(m, v, pred, succ);
      w in n && n[w] == if w == v
        then Thread(pred, succ) else Thread(if w == succ then v else m[w].pred, if w == pred then v else m[w].succ)
  {
  }

  /** The threads after bypassing the level between `pred` and `succ`. */
  function ThreadOut(m: map<Level, Thread>, pred: Level?, succ: Level?): map<Level, Thread>
    requires (pred != null ==> pred in m) && (succ != null ==> succ in m)
  {
    var m := if pred == null then m else m[pred := m[pred].(succ := succ)];
    if succ == null then m else m[succ := m[succ].(pred := pred)]
  }

  lemma ThreadsRemove(order: seq<Level>, m: map<Level, Thread>, k: nat)
    requires Sorted(order) && Threads(order, m) && k < |order|
    ensures LevelAt(order, k - 1) != null ==> LevelAt(order, k - 1) in m
    ensures LevelAt(order, k + 1) != null ==> LevelAt(order, k + 1) in m
    ensures Threads(RemoveAt(order, k), ThreadOut(m, LevelAt(order, k - 1), LevelAt(order, k + 1)) - {order[k]})
    ensures Sorted(RemoveAt(order, k)) && order[k] !in RemoveAt(order, k)
  {
    hide Sorted, Threads, ThreadOut, RemoveAt;
    SortedRemove(order, k);
    var p, q := LevelAt(order, k - 1), LevelAt(order, k + 1);
    ThreadAt(order, m, k);
    if k > 0 { ThreadAt(order, m, k - 1); }
    if k + 1 < |order| { ThreadAt(order, m, k + 1); }
    var u, n := RemoveAt(order, k), ThreadOut(m, p, q) - {order[k]};
    forall i | 0 <= i < |u|
      ensures u[i] in n && n[u[i]] == Thread(LevelAt(u, i - 1), LevelAt(u, i + 1))
    {
      var j := if i < k then i else i + 1;
      ThreadAt(order, m, j);
      ThreadOutAt(m, p, q, order[j]);
      OnePlace(order, j, k);
      if k > 0 { OnePlace(order, j, k - 1); }
      if k + 1 < |order| { OnePlace(order, j, k + 1); }
    }
    ThreadsIf(u, n);
  }

  lemma SortedRemove(order: seq<Level>, k: nat)
    requires Sorted(order) && k < |order|
    ensures Sorted(RemoveAt(order, k)) && order[k] !in RemoveAt(order, k)
  {
    var u := RemoveAt(order, k);
    forall i, j | 0 <= i < j < |u| ensures Ascends(u, i, j) {
      assert Ascends(order, if i < k then i else i + 1, if j < k then j else j + 1);
    }
    forall i | 0 <= i < |u| ensures u[i] != order[k] { OnePlace(order, if i < k then i else i + 1, k); }
  }

  /** What bypassing the level between `pred` and `succ` does to the thread of `w`. */
  lemma ThreadOutAt(m: map<Level, Thread>, pred: Level?, succ: Level?, w: Level)
    requires (pred != null ==> pred in m) && (succ != null ==> succ in m) && w in m
    ensures var n := ThreadOut(m, pred, succ);
      w in n && n[w] == Thread(if w == succ then pred else m[w].pred, if w == pred then succ else m[w].succ)
  {
  }

  /** Either the level at `price`, or the two levels the price falls between. */
  ghost predicate Neighbors(order: seq<Level>, price: nat, existing: Level?, pred: Level?, succ: Level?, k: nat) {
    if existing != null then
      && k < |order| && order[k] == existing && existing.price == price
      && pred == LevelAt(order, k - 1) && succ == LevelAt(order, k + 1)
    else SplitsAt(order, k, price) && pred == LevelAt(order, k - 1) && succ == LevelAt(order, k)
  }

  /** The level at rank `i` from the best one down, null after the last. */
  ghost function Downward(bid: bool, order: seq<Level>, i: nat): Level? {
    LevelAt(order, if bid then |order| - 1 - i else i)
  }

  /** The levels from rank `k` down still have their threads. */
  ghost predicate ThreadsFrom(bid: bool, order: seq<Level>, threads: map<Level, Thread>, k: nat) {
    forall i :: 0 <= i < |order| && (if bid then i + k < |order| else k <= i) ==> Flanked(order, threads, i)
  }

  lemma DropThread(bid: bool, order: seq<Level>, threads: map<Level, Thread>, k: nat)
    requires Sorted(order) && ThreadsFrom(bid, order, threads, k) && k < |order|
    ensures var v := Downward(bid, order, k);
      && v != null && v in threads
      && (if bid then threads[v].pred else threads[v].succ) == Downward(bid, order, k + 1)
      && ThreadsFrom(bid, order, threads - {v}, k + 1)
  {
    var m := if bid then |order| - 1 - k else k;
    assert Flanked(order, threads, m);
    forall i | 0 <= i < |order| && i != m && Flanked(order, threads, i)
      ensures Flanked(order, threads - {order[m]}, i)
    {
      OnePlace(order, i, m);
    }
  }

  lemma StartDown(bid: bool, order: seq<Level>, threads: map<Level, Thread>)
    requires Threads(order, threads)
    ensures ThreadsFrom(bid, order, threads, 0) && BestOf(bid, order) == Downward(bid, order, 0)
  {
  }

  lemma DownEnds(bid: bool, order: seq<Level>, k: nat)
    requires k <= |order|
    ensures Downward(bid, order, k) == null <==> k == |order|
  {
  }

  lemma Reassociate(a: seq<Level>, y: Level, b: seq<Level>)
    ensures a + [y] + b == a + ([y] + b)
  {
  }

  lemma {:induction false} SuccessorOrder(order: seq<Level>, c: Ctx, s: Tree, sp: Ctx, y: Level, cy: Color, yr: Tree,
                                          k: nat)
    requires Sorted(order) && InOrder(Plug(c, s)) == order && s.Node?
    requires s.right == Plug(sp, Node(Leaf, y, cy, yr)) && Before(sp) == [] && OncePlugged(c, s)
    requires k == |Before(c)| + |InOrder(s.left)| && k < |order|
    ensures InOrder(Plug(c, Node(s.left, y, s.color, Plug(sp, yr)))) == RemoveAt(order, k)
    ensures Sorted(RemoveAt(order, k))
  {
    var u := Node(s.left, y, s.color, Plug(sp, yr));
    assert InOrder(u) == InOrder(s.left) + InOrder(s.right) by {
      SuccessorKeeps(c, s.left, s.lv, s.color, sp, y, cy, yr);
      Reassociate(InOrder(s.left), y, InOrder(u.right));
    }
    RemoveFromOrder(order, c, s, u, k);
  }

  lemma {:induction false} RemoveFromOrder(order: seq<Level>, c: Ctx, s: Tree, r: Tree, k: nat)
    requires Sorted(order) && InOrder(Plug(c, s)) == order && s.Node?
    requires InOrder(r) == InOrder(s.left) + InOrder(s.right)
    requires k == |Before(c)| + |InOrder(s.left)| && k < |order|
    ensures InOrder(Plug(c, r)) == RemoveAt(order, k) && Sorted(RemoveAt(order, k))
  {
    SortedRemove(order, k);
    var b, l, x, q, a := Before(c), InOrder(s.left), s.lv, InOrder(s.right), After(c);
    assert InOrder(Plug(c, r)) == b + (l + q) + a by { InOrderPlug(c, r); }
    assert order == b + (l + [x] + q) + a by { InOrderPlug(c, s); }
    RemoveMiddle(b, l, x, q, a);
  }

  lemma RemoveMiddle(a: seq<Level>, b: seq<Level>, x: Level, c: seq<Level>, d: seq<Level>)
    ensures RemoveAt(a + (b + [x] + c) + d, |a| + |b|) == a + (b + c) + d
  {
  }

  class LevelTree {
    const bid: bool
    var root: Level?
    var best: Level?
    var cells: Mem
    var threads: map<Level, Thread>
    /** The levels by ascending price. */
    ghost var order: seq<Level>
    ghost var tree: Tree

    ghost predicate Valid()
      reads this
    {
      && Focus(Top, tree) && RedBlackTree(tree)
      && Threads(order, threads)
      && best == BestOf(bid, order)
    }

    constructor (bid: bool)
      ensures Valid() && order == [] && this.bid == bid
    {
      this.bid := bid;
      root, best, cells, threads := null, null, map[], map[];
      order, tree := [], Leaf;
    }

    /** The links store the tree `Plug(c, t)` over the levels of `order`. */
    ghost predicate Focus(c: Ctx, t: Tree)
      reads this`root, this`order, this`cells
    {
      && Sorted(order) && InOrder(Plug(c, t)) == order
      && root == Apex(c, Ptr(t))
      && Stored(t, Above(c), cells) && StoredAround(c, Ptr(t), cells)
    }

    /** The pointer writes of a rotation to the left; the memory then holds the turned tree in the same context. */
    method LeftRotate(node: Level, ghost c: Ctx, ghost a: Tree, ghost cx: Color, ghost b: Tree,
                      ghost y: Level, ghost cy: Color, ghost d: Tree)
      requires Focus(c, Tilted(true, a, node, cx, b, y, cy, d))
      modifies this`root, this`cells
      ensures Focus(c, Righted(true, a, node, cx, b, y, cy, d))
    {
      RotateFacts(true, c, a, node, cx, b, y, cy, d);
      var pivot := cells[node].right;
      var inner := cells[pivot].left;
      cells := cells[node := cells[node].(right := inner)];
      if inner != null { cells := cells[inner := cells[inner].(parent := node)]; }
      var up := cells[node].parent;
      cells := cells[pivot := cells[pivot].(parent := up)];
      if up == null { root := pivot; }
      else if node == cells[up].left { cells := cells[up := cells[up].(left := pivot)]; }
      else { cells := cells[up := cells[up].(right := pivot)]; }
      cells := cells[pivot := cells[pivot].(left := node)];
      cells := cells[node := cells[node].(parent := pivot)];
    }

    /** The same pointer writes with left and right exchanged. */
    method RightRotate(node: Level, ghost c: Ctx, ghost a: Tree, ghost cx: Color, ghost b: Tree,
                       ghost y: Level, ghost cy: Color, ghost d: Tree)
      requires Focus(c, Tilted(false, a, node, cx, b, y, cy, d))
      modifies this`root, this`cells
      ensures Focus(c, Righted(false, a, node, cx, b, y, cy, d))
    {
      RotateFacts(false, c, a, node, cx, b, y, cy, d);
      var pivot := cells[node].left;
      var inner := cells[pivot].right;
      cells := cells[node := cells[node].(left := inner)];
      if inner != null { cells := cells[inner := cells[inner].(parent := node)]; }
      var up := cells[node].parent;
      cells := cells[pivot := cells[pivot].(parent := up)];
      if up == null { root := pivot; }
      else if node == cells[up].right { cells := cells[up := cells[up].(right := pivot)]; }
      else { cells := cells[up := cells[up].(left := pivot)]; }
      cells := cells[pivot := cells[pivot].(right := node)];
      cells := cells[node := cells[node].(parent := pivot)];
    }

    lemma {:induction false} RotateFacts(dir: bool, c: Ctx, a: Tree, x: Level, cx: Color, b: Tree, y: Level, cy: Color,
                                         d: Tree)
      requires Focus(c, Tilted(dir, a, x, cx, b, y, cy, d))
      ensures var n := Rotated(cells, dir, c, x, b, y); var t := Righted(dir, a, x, cx, b, y, cy, d);
        Stored(t, Above(c), n) && StoredAround(c, Ptr(t), n) && InOrder(Plug(c, t)) == order
      ensures x in cells && y in cells && x != y && (b.Node? ==> b.lv in cells && b.lv != x && b.lv != y)
      ensures cells[x].parent == Above(c)
      ensures if dir then cells[x].right == y && cells[y].left == Ptr(b)
        else cells[x].left == y && cells[y].right == Ptr(b)
      ensures c.Up? ==> c.lv in cells && c.lv != x && c.lv != y && c.lv != Ptr(b)
      ensures c.Up? ==> if c.onLeft then cells[c.lv].left == x && cells[c.lv].right != x
                        else cells[c.lv].right == x && cells[c.lv].left != x
    {
      var t := Tilted(dir, a, x, cx, b, y, cy, d);
      SortedOnce(Plug(c, t));
      OncePlug(c, t);
      RotateStored(cells, dir, c, a, x, cx, b, y, cy, d);
      InOrderPlug(c, t);
      InOrderPlug(c, Righted(dir, a, x, cx, b, y, cy, d));
      RotationLinks(cells, dir, c, a, x, cx, b, y, cy, d);
    }

    /** Looking at the same tree from one step further up. */
    lemma FocusUp(c: Ctx, t: Tree)
      requires c.Up?
      ensures Focus(c, t) <==> Focus(c.up, Join(c.onLeft, t, c.lv, c.color, c.sib))
    {
    }

    lemma FocusOnce(c: Ctx, t: Tree)
      requires Focus(c, t)
      ensures OncePlugged(c, t)
    {
      SortedOnce(Plug(c, t));
      OncePlug(c, t);
    }

    method SetColor(v: Level, color: Color, ghost c: Ctx, ghost t: Tree)
      requires Focus(c, t) && t.Node? && t.lv == v
      modifies this`cells
      ensures Focus(c, Paint(t, color))
    {
      FocusOnce(c, t);
      PaintStored(c, t, color, cells);
      InOrderPlug(c, t);
      InOrderPlug(c, Paint(t, color));
      cells := cells[v := cells[v].(color := color)];
    }

    /** Paints parent and uncle black and the grandparent red. */
    method Recolor(p: Level, u: Level, gp: Level, ghost c: Ctx, ghost t: Tree) returns (ghost r: Tree)
      requires c.Up? && c.up.Up? && c.up.sib.Node? && Focus(c, t)
      requires c.lv == p && c.up.lv == gp && c.up.sib.lv == u && c.color == Red && c.up.color == Black
      requires IsRed(t) && Shaped(t) && IsRed(c.up.sib) && Fits(c, BlackHeight(t), false)
      modifies this`cells
      ensures r.Node? && r.lv == gp && IsRed(r) && Shaped(r) && Fits(c.up.up, BlackHeight(r), false)
      ensures Focus(c.up.up, r)
    {
      hide Focus, Shaped, Fits, BlackHeight;
      RecolorFits(c.up.up, c.up.onLeft, gp, c.up.sib, c.onLeft, p, c.sib, t);
      r := Join(c.up.onLeft, Join(c.onLeft, t, p, Black, c.sib), gp, Red, Paint(c.up.sib, Black));
      ghost var g, d := c.up.up, c.up.onLeft;
      ghost var pt := Join(c.onLeft, t, p, c.color, c.sib);
      FocusUp(c, t);
      SetColor(p, Black, c.up, pt);
      pt := Paint(pt, Black);
      ghost var uc := Up(g, !d, gp, c.up.color, pt);
      FocusUp(c.up, pt);
      FocusUp(uc, c.up.sib);
      SetColor(u, Black, uc, c.up.sib);
      FocusUp(uc, Paint(c.up.sib, Black));
      SetColor(gp, Red, g, Join(d, pt, gp, c.up.color, Paint(c.up.sib, Black)));
    }

    /** Looking at the same tree from the root. */
    lemma {:induction false} FocusRoot(c: Ctx, t: Tree)
      requires Focus(c, t)
      ensures Focus(Top, Plug(c, t))
    {
      StoredPlug(c, t, cells);
      ApexPlug(c, t);
    }

    lemma AtRoot(c: Ctx, t: Tree)
      requires Focus(c, t) && t.Node?
      ensures (t.lv == root <==> c.Top?) && t.lv in cells
    {
      FocusOnce(c, t);
      StoredPlug(c, t, cells);
      if c.Up? {
        ApexAround(c, t.lv);
        assert t.lv in Levels(t);
      }
    }

    /** The red pair `t`, `p` on the outside under a black uncle: rotates the grandparent. */
    method RaiseOuter(x: Level, ghost c: Ctx, ghost t: Tree) returns (ghost c': Ctx)
      requires c.Up? && c.up.Up? && c.onLeft == c.up.onLeft && c.color == Red && c.up.color == Black
      requires Focus(c, t) && t.Node? && t.lv == x
      requires IsRed(t) && Shaped(t) && !IsRed(c.up.sib) && Fits(c, BlackHeight(t), false)
      modifies this`root, this`cells
      ensures c' == Up(c.up.up, c.onLeft, c.lv, Black, Join(c.onLeft, c.sib, c.up.lv, Red, c.up.sib))
      ensures Focus(c', t) && Fits(c', BlackHeight(t), false)
    {
      hide Shaped, Fits, BlackHeight;
      OuterFits(c.up.up, c.onLeft, c.up.lv, c.up.sib, c.lv, c.sib, t);
      ghost var g, d, gpl := c.up.up, c.onLeft, c.up.lv;
      var p := cells[x].parent;
      FocusUp(c, t);
      SetColor(p, Black, c.up, Join(d, t, c.lv, Red, c.sib));
      ghost var pt := Join(d, t, c.lv, Black, c.sib);
      FocusUp(c.up, pt);
      var gp := cells[p].parent;
      SetColor(gp, Red, g, Join(d, pt, gpl, Black, c.up.sib));
      assert Join(d, pt, gpl, Red, c.up.sib) == Tilted(!d, c.up.sib, gpl, Red, c.sib, c.lv, Black, t);
      if p == cells[gp].left {
        RightRotate(gp, g, c.up.sib, Red, c.sib, c.lv, Black, t);
      } else {
        LeftRotate(gp, g, c.up.sib, Red, c.sib, c.lv, Black, t);
      }
      c' := Up(g, d, c.lv, Black, Join(d, c.sib, gpl, Red, c.up.sib));
      FocusUp(c', t);
    }

    lemma ParentLinks(c: Ctx, t: Tree)
      requires Focus(c, t) && t.Node? && c.Up?
      ensures t.lv in cells && cells[t.lv].parent == c.lv && c.lv in cells && cells[c.lv].color == c.color
      ensures if c.onLeft then cells[c.lv].left == t.lv && cells[c.lv].right != t.lv
              else cells[c.lv].right == t.lv && cells[c.lv].left != t.lv
      ensures c.onLeft ==> cells[c.lv].right == Ptr(c.sib)
      ensures !c.onLeft ==> cells[c.lv].left == Ptr(c.sib)
      ensures c.sib.Node? ==> c.sib.lv in cells && cells[c.sib.lv].color == c.sib.color
      ensures Focus(c.up, Join(c.onLeft, t, c.lv, c.color, c.sib))
    {
      FocusOnce(c, t);
      FocusUp(c, t);
      ClimbLinks(cells, c, t);
    }

    /** Restores the red-black shape after the red leaf `x` was hung at the hole of `c`. */
    method InsertRebalance(newNode: Level, ghost c0: Ctx)
      requires Focus(c0, Node(Leaf, newNode, Red, Leaf)) && Fits(c0, 1, false)
      modifies this`root, this`cells
      ensures exists t :: Focus(Top, t) && RedBlackTree(t)
    {
      hide Focus, RedBlackTree, Plug;
      ghost var c, t := c0, Node(Leaf, newNode, Red, Leaf);
      var x := newNode;
      AtRoot(c, t);
      if c.Up? { ParentLinks(c, t); }
      while x != root && cells[cells[x].parent].color == Red
        invariant Focus(c, t) && t.Node? && t.lv == x && (x == root <==> c.Top?)
        invariant x in cells && (c.Up? ==> cells[x].parent == c.lv && c.lv in cells && cells[c.lv].color == c.color)
        invariant IsRed(t) && Shaped(t) && Fits(c, BlackHeight(t), false)
        decreases Depth(c)
      {
        ParentLinks(c, t);
        var p := cells[x].parent;
        ghost var pt := Join(c.onLeft, t, c.lv, c.color, c.sib);
        ParentLinks(c.up, pt);
        assert Depth(c) == 2 + Depth(c.up.up);
        var gp := cells[p].parent;
        if p == cells[gp].left {
          var y := cells[gp].right;
          if y != null && cells[y].color == Red {
            t := Recolor(p, y, gp, c, t);
            c := c.up.up;
            x := gp;
          } else {
            if x == cells[p].right {
              x := p;
              LeftRotate(x, c.up, c.sib, Red, t.left, t.lv, Red, t.right);
              InnerFits(c.up.up, true, gp, c.up.sib, p, c.sib, t.left, t.lv, t.right);
              c, t := Up(c.up, true, t.lv, Red, t.right), Node(c.sib, p, Red, t.left);
              FocusUp(c, t);
            }
            c := RaiseOuter(x, c, t);
          }
        } else {
          var y := cells[gp].left;
          if y != null && cells[y].color == Red {
            t := Recolor(p, y, gp, c, t);
            c := c.up.up;
            x := gp;
          } else {
            if x == cells[p].left {
              x := p;
              RightRotate(x, c.up, c.sib, Red, t.right, t.lv, Red, t.left);
              InnerFits(c.up.up, false, gp, c.up.sib, p, c.sib, t.right, t.lv, t.left);
              c, t := Up(c.up, false, t.lv, Red, t.left), Node(t.right, p, Red, c.sib);
              FocusUp(c, t);
            }
            c := RaiseOuter(x, c, t);
          }
        }
        AtRoot(c, t);
        if c.Up? { ParentLinks(c, t); }
      }
      ClimbDone(c, t);
      FocusRoot(c, t);
      AtTop(Plug(c, t));
      SetColor(root, Black, Top, Plug(c, t));
    }

    lemma AtTop(t: Tree)
      requires Focus(Top, t)
      ensures root == Ptr(t)
    {
    }

    method Rotate(toLeft: bool, node: Level, ghost c: Ctx, ghost a: Tree, ghost cx: Color, ghost b: Tree,
                  ghost y: Level, ghost cy: Color, ghost d: Tree)
      requires Focus(c, Tilted(toLeft, a, node, cx, b, y, cy, d))
      modifies this`root, this`cells
      ensures Focus(c, Righted(toLeft, a, node, cx, b, y, cy, d))
    {
      if toLeft {
        LeftRotate(node, c, a, cx, b, y, cy, d);
      } else {
        RightRotate(node, c, a, cx, b, y, cy, d);
      }
    }

    function Child(v: Level, onLeft: bool): Level?
      requires v in cells
      reads this`cells
    {
      if onLeft then cells[v].left else cells[v].right
    }

    function ColorOf(v: Level?): Color
      requires v != null ==> v in cells
      reads this`cells
    {
      if v == null then Black else cells[v].color
    }

    /** The subtree `t` is one black short: what is left to repair. */
    ghost predicate Short(c: Ctx, t: Tree)
      reads this`root, this`order, this`cells
    {
      Focus(c, t) && Balanced(t) && Fits(c, BlackHeight(t) + 1, false)
    }

    lemma SiblingLinks(c: Ctx, t: Tree)
      requires Short(c, t) && c.Up?
      ensures c.sib.Node? && c.lv in cells && Child(c.lv, !c.onLeft) == c.sib.lv
      ensures c.sib.lv in cells && cells[c.sib.lv].color == c.sib.color
      ensures cells[c.sib.lv].left == Ptr(c.sib.left) && cells[c.sib.lv].right == Ptr(c.sib.right)
      ensures c.sib.left.Node? ==> c.sib.left.lv in cells && cells[c.sib.left.lv].color == c.sib.left.color
      ensures c.sib.right.Node? ==> c.sib.right.lv in cells && cells[c.sib.right.lv].color == c.sib.right.color
      ensures cells[c.lv].color == c.color && cells[c.lv].parent == Above(c.up)
    {
      assert Stored(c.sib, c.lv, cells);
      assert Stored(c.sib.left, c.sib.lv, cells) && Stored(c.sib.right, c.sib.lv, cells);
    }

    /** Rotates the sibling `w` away from the short side, its inner child being red. */
    method TurnNephew(onLeft: bool, xp: Level, w: Level, ghost c: Ctx, ghost t: Tree) returns (ghost c': Ctx)
      requires Short(c, t) && c.Up? && c.lv == xp && c.onLeft == onLeft && c.sib.Node? && c.sib.lv == w
      requires c.sib.color == Black && IsRed(if onLeft then c.sib.left else c.sib.right)
      requires !IsRed(if onLeft then c.sib.right else c.sib.left)
      modifies this`root, this`cells
      ensures Short(c', t) && c'.Up? && c'.up == c.up && c'.lv == xp && c'.onLeft == onLeft
      ensures c'.sib.Node? && c'.sib.color == Black && IsRed(if onLeft then c'.sib.right else c'.sib.left)
    {
      ghost var wi := if onLeft then c.sib.left else c.sib.right;
      ghost var wo := if onLeft then c.sib.right else c.sib.left;
      ghost var a := if onLeft then wi.left else wi.right;
      ghost var b := if onLeft then wi.right else wi.left;
      InnerNephewFits(c.up, onLeft, xp, c.color, a, wi.lv, b, w, wo, BlackHeight(t) + 1);
      SiblingLinks(c, t);
      ghost var wc := Up(c.up, !onLeft, xp, c.color, t);
      FocusUp(c, t);
      FocusUp(wc, c.sib);
      ghost var ic := Up(wc, onLeft, w, Black, wo);
      FocusUp(ic, wi);
      SetColor(Child(w, onLeft), Black, ic, wi);
      FocusUp(ic, Paint(wi, Black));
      SetColor(w, Red, wc, Join(onLeft, Paint(wi, Black), w, Black, wo));
      Rotate(!onLeft, w, wc, wo, Red, b, wi.lv, Black, a);
      c' := Up(c.up, onLeft, xp, c.color, Join(onLeft, a, wi.lv, Black, Join(onLeft, b, w, Red, wo)));
      FocusUp(wc, c'.sib);
      FocusUp(c', t);
    }

    /** The outer child of the sibling `w` is red: recolours and rotates the parent, which completes the repair. */
    method FinishNephew(onLeft: bool, xp: Level, w: Level, ghost c: Ctx, ghost t: Tree)
      returns (ghost c': Ctx, ghost t': Tree)
      requires Short(c, t) && !IsRed(t) && c.Up? && c.lv == xp && c.onLeft == onLeft
      requires c.sib.Node? && c.sib.lv == w && c.sib.color == Black
      requires IsRed(if onLeft then c.sib.right else c.sib.left)
      modifies this`root, this`cells
      ensures c'.Top? && Short(c', t') && root == Ptr(t')
    {
      ghost var wi, wo := if onLeft then c.sib.left else c.sib.right, if onLeft then c.sib.right else c.sib.left;
      ghost var wc := Up(c.up, !onLeft, xp, c.color, t);
      OuterNephewFits(c.up, onLeft, xp, c.color, wi, w, wo, t);
      SiblingLinks(c, t);
      FocusUp(c, t);
      FocusUp(wc, c.sib);
      var color := cells[xp].color;
      SetColor(w, color, wc, c.sib);
      FocusUp(wc, Paint(c.sib, color));
      SetColor(xp, Black, c.up, Join(onLeft, t, xp, color, Paint(c.sib, color)));
      wc := Up(c.up, !onLeft, xp, Black, t);
      ghost var oc := Up(wc, !onLeft, w, color, wi);
      FocusUp(wc, Paint(c.sib, color));
      FocusUp(oc, wo);
      assert cells[w] == Cell(Ptr(c.sib.left), Ptr(c.sib.right), xp, color);
      SetColor(Child(w, !onLeft), Black, oc, wo);
      FocusUp(oc, Paint(wo, Black));
      FocusUp(wc, Join(onLeft, wi, w, color, Paint(wo, Black)));
      Rotate(onLeft, xp, c.up, t, Black, wi, w, color, Paint(wo, Black));
      t' := Plug(c.up, Join(onLeft, Join(onLeft, t, xp, Black, wi), w, color, Paint(wo, Black)));
      FocusRoot(c.up, Join(onLeft, Join(onLeft, t, xp, Black, wi), w, color, Paint(wo, Black)));
      c' := Top;
    }

    /** The sibling `w` is red: it takes the parent's place, leaving a black sibling below. */
    method RaiseRedSibling(onLeft: bool, xp: Level, w: Level, ghost c: Ctx, ghost t: Tree) returns (ghost c': Ctx)
      requires Short(c, t) && c.Up? && c.lv == xp && c.onLeft == onLeft && c.sib.Node? && c.sib.lv == w
      requires c.sib.color == Red
      modifies this`root, this`cells
      ensures Short(c', t) && c'.Up? && c'.lv == xp && c'.onLeft == onLeft && c'.color == Red && !IsRed(c'.sib)
      ensures Depth(c'.up) == Depth(c)
    {
      ghost var wi, wo := if onLeft then c.sib.left else c.sib.right, if onLeft then c.sib.right else c.sib.left;
      RedSiblingFits(c.up, onLeft, xp, c.color, wi, w, wo, BlackHeight(t) + 1);
      ghost var wc := Up(c.up, !onLeft, xp, c.color, t);
      FocusUp(c, t);
      FocusUp(wc, c.sib);
      SetColor(w, Black, wc, c.sib);
      FocusUp(wc, Paint(c.sib, Black));
      SetColor(xp, Red, c.up, Join(onLeft, t, xp, c.color, Paint(c.sib, Black)));
      Rotate(onLeft, xp, c.up, t, Red, wi, w, Black, wo);
      c' := Up(Up(c.up, onLeft, w, Black, wo), onLeft, xp, Red, wi);
      FocusUp(c', t);
      FocusUp(c'.up, Join(onLeft, t, xp, Red, wi));
    }

    /** The sibling `w` is black and has no red child: paints it red, leaving the parent short. */
    method PaintSibling(xp: Level, w: Level, ghost c: Ctx, ghost t: Tree) returns (ghost t': Tree)
      requires Short(c, t) && c.Up? && c.lv == xp && !IsRed(t)
      requires c.sib.Node? && c.sib.lv == w && c.sib.color == Black && !IsRed(c.sib.left) && !IsRed(c.sib.right)
      modifies this`cells
      ensures t' == Join(c.onLeft, t, xp, c.color, Paint(c.sib, Red)) && Short(c.up, t')
      ensures xp in cells && cells[xp].parent == Above(c.up)
    {
      BlackSiblingFits(c.up, c.onLeft, xp, c.color, c.sib, t);
      ghost var wc := Up(c.up, !c.onLeft, xp, c.color, t);
      FocusUp(c, t);
      FocusUp(wc, c.sib);
      SetColor(w, Red, wc, c.sib);
      FocusUp(wc, Paint(c.sib, Red));
      t' := Join(c.onLeft, t, xp, c.color, Paint(c.sib, Red));
    }

    /** One repair round below `xp`; `onLeft` says on which side the short subtree hangs. */
    method FixupSide(onLeft: bool, xp: Level, ghost c: Ctx, ghost t: Tree)
      returns (x': Level?, xp': Level?, ghost c': Ctx, ghost t': Tree)
      requires Short(c, t) && c.Up? && c.lv == xp && c.onLeft == onLeft && !IsRed(t)
      modifies this`root, this`cells
      ensures Short(c', t') && x' == Ptr(t') && xp' == Above(c')
      ensures c'.Top? || IsRed(t') || Depth(c') < Depth(c)
    {
      c', t' := c, t;
      SiblingLinks(c', t');
      var w := Child(xp, !onLeft);
      if ColorOf(w) == Red {
        c' := RaiseRedSibling(onLeft, xp, w, c, t);
        SiblingLinks(c', t');
        w := Child(xp, !onLeft);
      }
      if ColorOf(cells[w].left) == Black && ColorOf(cells[w].right) == Black {
        t' := PaintSibling(xp, w, c', t);
        c' := c'.up;
        x', xp' := xp, cells[xp].parent;
      } else {
        if ColorOf(Child(w, !onLeft)) == Black {
          c' := TurnNephew(onLeft, xp, w, c', t);
          SiblingLinks(c', t');
          w := Child(xp, !onLeft);
        }
        c', t' := FinishNephew(onLeft, xp, w, c', t);
        x', xp' := root, null;
      }
    }

    /** Removes the missing black from the subtree `x` below `xp`, by repairing upwards. */
    method RbDeleteFixup(x0: Level?, xp0: Level?, ghost c0: Ctx, ghost t0: Tree)
      requires Short(c0, t0) && x0 == Ptr(t0) && xp0 == Above(c0)
      modifies this`root, this`cells
      ensures exists t :: Focus(Top, t) && RedBlackTree(t)
    {
      var x, xp := x0, xp0;
      ghost var c, t := c0, t0;
      ShortLinks(c, t);
      while x != root && ColorOf(x) == Black
        invariant Short(c, t) && x == Ptr(t) && xp == Above(c)
        invariant x != null ==> x in cells && cells[x].color == t.color
        invariant x == root <==> c.Top?
        decreases if c.Top? || IsRed(t) then 0 else Depth(c) + 1
      {
        ShortSide(c, t);
        if x == cells[xp].left {
          x, xp, c, t := FixupSide(true, xp, c, t);
        } else {
          x, xp, c, t := FixupSide(false, xp, c, t);
        }
        ShortLinks(c, t);
      }
      RepairDone(c, t);
      if x != null {
        SetColor(x, Black, c, t);
        t := Paint(t, Black);
      }
      FocusRoot(c, t);
    }

    lemma ShortLinks(c: Ctx, t: Tree)
      requires Short(c, t)
      ensures t.Node? ==> t.lv in cells && cells[t.lv].color == t.color
      ensures Ptr(t) == root <==> c.Top?
    {
      if t.Node? { AtRoot(c, t); } else if c.Up? { ApexAround(c, null); }
    }

    lemma ShortSide(c: Ctx, t: Tree)
      requires Short(c, t) && c.Up?
      ensures c.lv in cells && (Ptr(t) == cells[c.lv].left <==> c.onLeft)
    {
      SiblingLinks(c, t);
      FocusOnce(c, t);
      assert c.sib.lv in Levels(c.sib);
      assert t.Node? ==> t.lv in Levels(t);
    }

    function GetBest(): (b: Level?)
      requires Valid()
      reads this
      ensures b == null <==> order == []
      ensures b != null ==> b in order
      ensures b != null ==> forall v :: v in order ==> if bid then v.price <= b.price else b.price <= v.price
    {
      BestExtreme();
      best
    }

    lemma BestExtreme()
      requires Valid()
      ensures order != [] ==> best != null && best in order
      ensures order != [] ==> forall v :: v in order ==> if bid then v.price <= best.price else best.price <= v.price
    {
      forall v | v in order
        ensures if bid then v.price <= best.price else best.price <= v.price
      {
        var i :| 0 <= i < |order| && order[i] == v;
        if bid {
          assert i < |order| - 1 ==> Ascends(order, i, |order| - 1);
        } else {
          assert 0 < i ==> Ascends(order, 0, i);
        }
      }
    }

    /** Searches the tree for `price`; on a miss, gives the thread neighbours of the price. */
    method FindNeighbors(price: nat) returns (existing: Level?, pred: Level?, succ: Level?, ghost k: nat)
      requires Valid()
      ensures Neighbors(order, price, existing, pred, succ, k)
    {
      hide Valid, Focus, Between, SplitsAt, InOrder, Before, After, Threads, Sorted;
      existing, pred, succ, k := null, null, null, 0;
      StartSearch(price);
      if root == null { return; }
      var curr := root;
      ghost var c, t := Top, tree;
      while curr != null
        invariant Searching(c, t, price) && curr == Ptr(t) && t.Node?
        decreases t
      {
        SearchHere(c, t);
        if price < curr.price {
          GoLeft(c, t, price);
          if cells[curr].left == null {
            MissLeft(c, t, price);
            k := |Before(c)|;
            return null, threads[curr].pred, curr, k;
          }
          c, t := Up(c, true, t.lv, t.color, t.right), t.left;
          curr := cells[curr].left;
        } else if price > curr.price {
          GoRight(c, t, price);
          if cells[curr].right == null {
            MissRight(c, t, price);
            k := |Before(c)| + |InOrder(t.left)| + 1;
            return null, curr, threads[curr].succ, k;
          }
          c, t := Up(c, false, t.lv, t.color, t.left), t.right;
          curr := cells[curr].right;
        } else {
          k := |Before(c)| + |InOrder(t.left)|;
          return curr, threads[curr].pred, threads[curr].succ, k;
        }
      }
    }

    /** The price, if it is there, is in the subtree the search has reached. */
    ghost predicate Searching(c: Ctx, t: Tree, price: nat)
      reads this`root, this`order, this`cells
    {
      Focus(c, t) && Between(order, |Before(c)|, |order| - |After(c)|, price)
    }

    lemma StartSearch(price: nat)
      requires Valid()
      ensures root == Ptr(tree)
      ensures if root == null then Neighbors(order, price, null, null, null, 0) else Searching(Top, tree, price)
    {
    }

    /** What the search knows at a node: its links, and its place in the order. */
    lemma {:induction false} SearchHere(c: Ctx, t: Tree)
      requires Valid() && Focus(c, t) && t.Node?
      ensures t.lv in cells && cells[t.lv].left == Ptr(t.left) && cells[t.lv].right == Ptr(t.right)
      ensures var k := |Before(c)| + |InOrder(t.left)|;
        && k < |order| == |Before(c)| + |InOrder(t)| + |After(c)| && order[k] == t.lv
        && t.lv in threads && threads[t.lv] == Thread(LevelAt(order, k - 1), LevelAt(order, k + 1))
      ensures t.lv in order
    {
      InOrderPlug(c, t);
      var k := |Before(c)| + |InOrder(t.left)|;
      assert order[k] == t.lv;
      ThreadAt(order, threads, k);
    }

    lemma GoLeft(c: Ctx, t: Tree, price: nat)
      requires Valid() && Searching(c, t, price) && t.Node? && price < t.lv.price
      ensures Searching(Up(c, true, t.lv, t.color, t.right), t.left, price)
    {
      SearchHere(c, t);
      NarrowLeft(order, c, t, price);
      FocusUp(Up(c, true, t.lv, t.color, t.right), t.left);
    }

    lemma {:induction false} MissLeft(c: Ctx, t: Tree, price: nat)
      requires Valid() && Searching(c, t, price) && t.Node? && price < t.lv.price && t.left.Leaf?
      ensures t.lv in threads && Neighbors(order, price, null, threads[t.lv].pred, t.lv, |Before(c)|)
    {
      SearchHere(c, t);
      NarrowLeft(order, c, t, price);
    }

    lemma {:induction false} MissRight(c: Ctx, t: Tree, price: nat)
      requires Valid() && Searching(c, t, price) && t.Node? && t.lv.price < price && t.right.Leaf?
      ensures t.lv in threads
      ensures Neighbors(order, price, null, t.lv, threads[t.lv].succ, |Before(c)| + |InOrder(t.left)| + 1)
    {
      SearchHere(c, t);
      NarrowRight(order, c, t, price);
    }

    lemma GoRight(c: Ctx, t: Tree, price: nat)
      requires Valid() && Searching(c, t, price) && t.Node? && t.lv.price < price
      ensures Searching(Up(c, false, t.lv, t.color, t.left), t.right, price)
    {
      SearchHere(c, t);
      NarrowRight(order, c, t, price);
      FocusUp(Up(c, false, t.lv, t.color, t.left), t.right);
    }

    /** A new level at `price`, not yet in the tree. */
    method MakeLevel(price: nat) returns (level: Level)
      requires Valid()
      modifies this`cells, this`threads
      ensures Valid() && fresh(level) && level.price == price && level !in order
      ensures level in cells && cells[level] == Cell(null, null, null, Red)
    {
      level := new Level(price);
      LevelsInOrder(tree);
      ghost var was := threads;
      ghost var m := cells;
      cells := cells[level := Cell(null, null, null, Red)];
      threads := threads[level := Thread(null, null)];
      assert was - {level} == threads - {level};
      ThreadsNarrow(order, was, level);
      ThreadsWiden(order, threads, level);
      StoredFrame(tree, null, m, cells);
    }

    /** The hole of the tree between positions `k - 1` and `k` of the order, and where it hangs. */
    lemma HoleBetween(k: nat) returns (c: Ctx)
      requires Valid() && k <= |order|
      ensures Focus(c, Leaf) && Fits(c, 1, false) && OnceAround(c)
      ensures Before(c) + After(c) == order && |Before(c)| == k
      ensures forall v :: v in Around(c) ==> v in order
      ensures c.Top? <==> root == null
      ensures c.Up? ==> c.lv in cells
      ensures c.Up? && !c.onLeft ==> LevelAt(order, k - 1) == c.lv && cells[c.lv].right == null
      ensures c.Up? && c.onLeft ==> LevelAt(order, k) == c.lv && cells[c.lv].left == null
      ensures c.Up? && c.onLeft && LevelAt(order, k - 1) != null ==>
        LevelAt(order, k - 1) in cells && cells[LevelAt(order, k - 1)].right != null
    {
      hide Sorted, Threads, OnceEach, Fits, RedBlackTree;
      c := HoleAt(Top, tree, k);
      InOrderPlug(c, Leaf);
      assert Before(c) + [] + After(c) == Before(c) + After(c);
      StoredPlug(c, Leaf, cells);
      ApexPlug(c, Leaf);
      FitsPlug(c, Leaf);
      FocusOnce(c, Leaf);
      OncePlug(c, Leaf);
      LevelsInOrder(tree);
      if c.Up? { HoleNeighbours(c, cells); }
    }

    /** Hangs `newNode` below the neighbour that has a free side towards it. */
    method Hang(newNode: Level, pred: Level?, succ: Level?, ghost k: nat, ghost c: Ctx)
      requires Valid() && newNode !in order && newNode in cells && cells[newNode] == Cell(null, null, null, Red)
      requires k <= |order| && pred == LevelAt(order, k - 1) && succ == LevelAt(order, k)
      requires Focus(c, Leaf) && (c.Top? <==> root == null) && newNode !in Around(c)
      requires c.Up? ==> c.lv in cells
      requires c.Up? && !c.onLeft ==> pred == c.lv && cells[c.lv].right == null
      requires c.Up? && c.onLeft ==> succ == c.lv && (pred != null ==> pred in cells && cells[pred].right != null)
      modifies this`root, this`cells
      ensures cells == Hung(old(cells), c, newNode)
      ensures root == Apex(c, newNode)
    {
      assert c.Up? ==> c.lv in Around(c);
      if root == null {
        root := newNode;
      } else if pred != null && cells[pred].right == null {
        cells := cells[pred := cells[pred].(right := newNode)];
        cells := cells[newNode := cells[newNode].(parent := pred)];
      } else {
        cells := cells[succ := cells[succ].(left := newNode)];
        cells := cells[newNode := cells[newNode].(parent := succ)];
      }
    }

    /** Threads `newNode` in between its neighbours and makes it the best level if it is. */
    method LinkThreads(newNode: Level, pred: Level?, succ: Level?, ghost k: nat)
      requires k <= |order| && pred == LevelAt(order, k - 1) && succ == LevelAt(order, k)
      requires (pred != null ==> pred in threads) && (succ != null ==> succ in threads)
      requires newNode != pred && newNode != succ
      requires best == BestOf(bid, order)
      modifies this`threads, this`best
      ensures threads == ThreadIn(old(threads), newNode, pred, succ)
      ensures best == BestOf(bid, InsertAt(order, k, newNode))
    {
      threads := threads[newNode := Thread(pred, succ)];
      if pred != null { threads := threads[pred := threads[pred].(succ := newNode)]; }
      if succ != null { threads := threads[succ := threads[succ].(pred := newNode)]; }
      if bid {
        if succ == null { best := newNode; }
      } else {
        if pred == null { best := newNode; }
      }
    }

    /** Splices the level `newNode` in between its thread neighbours, at position `k` of the order. */
    method NeighborAwareInsert(newNode: Level, pred: Level?, succ: Level?, ghost k: nat)
      requires Valid() && newNode !in order && newNode in cells && cells[newNode] == Cell(null, null, null, Red)
      requires SplitsAt(order, k, newNode.price) && pred == LevelAt(order, k - 1) && succ == LevelAt(order, k)
      modifies this
      ensures Valid() && order == InsertAt(old(order), k, newNode)
    {
      hide Sorted, Threads, SplitsAt, ThreadIn, InsertAt, Stored;
      hide StoredAround, Before, After, Around, Hung, Fits, RedBlackTree;
      SplitInside(order, k, newNode.price);
      ghost var c := HoleBetween(k);
      ThreadsInsert(order, threads, k, newNode);
      LeafStored(cells, c, newNode);
      Hang(newNode, pred, succ, k, c);
      LinkThreads(newNode, pred, succ, k);
      FocusLeaf(c, k, newNode);
      order := InsertAt(order, k, newNode);
      InsertRebalance(newNode, c);
      ghost var t :| Focus(Top, t) && RedBlackTree(t);
      tree := t;
    }

    lemma SplitInside(order: seq<Level>, k: nat, price: nat)
      requires SplitsAt(order, k, price)
      ensures k <= |order|
    {
    }

    lemma {:induction false} FocusLeaf(c: Ctx, k: nat, v: Level)
      requires Before(c) + After(c) == order && |Before(c)| == k
      ensures k <= |order| && InOrder(Plug(c, Node(Leaf, v, Red, Leaf))) == InsertAt(order, k, v)
    {
      InOrderPlug(c, Node(Leaf, v, Red, Leaf));
      assert Before(c) + [v] + After(c) == InsertAt(order, k, v);
    }

    /** Hangs `v` in the place of `u`. */
    method Transplant(u: Level, v: Level?, ghost c: Ctx)
      requires u in cells && cells[u].parent == Above(c) && (v != null ==> v in cells)
      requires c.Up? ==> c.lv in cells && (u == cells[c.lv].left <==> c.onLeft)
      modifies this`root, this`cells
      ensures cells == Hung(old(cells), c, v)
      ensures root == if c.Top? then v else old(root)
    {
      var up := cells[u].parent;
      if up == null { root := v; }
      else if u == cells[up].left { cells := cells[up := cells[up].(left := v)]; }
      else { cells := cells[up := cells[up].(right := v)]; }
      if v != null { cells := cells[v := cells[v].(parent := up)]; }
    }

    method TreeMinimum(n0: Level, ghost p0: Level?, ghost t0: Tree) returns (n: Level, ghost sp: Ctx, ghost s: Tree)
      requires Stored(t0, p0, cells) && t0.Node? && t0.lv == n0
      ensures s.Node? && s.left.Leaf? && s.lv == n && Plug(sp, s) == t0 && Before(sp) == []
    {
      n, sp, s := n0, Top, t0;
      ghost var p := p0;
      while cells[n].left != null
        invariant s.Node? && s.lv == n && Plug(sp, s) == t0 && Before(sp) == [] && Stored(s, p, cells)
        decreases s
      {
        n, p := cells[n].left, n;
        sp, s := Up(sp, true, s.lv, s.color, s.right), s.left;
      }
    }

    /** A level is gone from the tree; the subtree `t` is one black short if it was black. */
    ghost predicate Deleted(c: Ctx, t: Tree, color: Color)
      reads this`root, this`order, this`cells
    {
      Focus(c, t) && if color == Black then Short(c, t) else RedBlackTree(Plug(c, t))
    }

    lemma PlaceLinks(c: Ctx, s: Tree)
      requires Focus(c, s) && s.Node?
      ensures s.lv in cells && cells[s.lv] == Cell(Ptr(s.left), Ptr(s.right), Above(c), s.color)
      ensures c.Up? ==> c.lv in cells && (s.lv == cells[c.lv].left <==> c.onLeft)
      ensures s.left.Node? ==> s.left.lv in cells
      ensures s.right.Node? ==> s.right.lv in cells
    {
      assert Stored(s.left, s.lv, cells) && Stored(s.right, s.lv, cells);
      if c.Up? { ParentLinks(c, s); }
    }

    /** Takes `z`, which lacks the child opposite to `v`, out of the tree. */
    method SpliceOut(z: Level, v: Level?, ghost c: Ctx, ghost s: Tree, ghost k: nat)
      requires Focus(c, s) && RedBlackTree(Plug(c, s)) && s.Node? && s.lv == z
      requires if s.left.Leaf? then v == Ptr(s.right) else s.right.Leaf? && v == Ptr(s.left)
      requires k == |Before(c)| + |InOrder(s.left)| && k < |order|
      modifies this`root, this`cells, this`order
      ensures order == RemoveAt(old(order), k)
      ensures Deleted(c, if s.left.Leaf? then s.right else s.left, s.color)
    {
      hide Stored, StoredAround, Sorted, Before, RemoveAt, Fits, OncePlugged, Hung;
      ghost var r := if s.left.Leaf? then s.right else s.left;
      FocusOnce(c, s);
      PlaceLinks(c, s);
      SpliceOutStored(cells, c, s, r);
      SpliceOutFits(c, s, r);
      RemoveFromOrder(order, c, s, r, k);
      Transplant(z, v, c);
      order := RemoveAt(order, k);
    }

    /** `z`'s successor `y` has left its place, whose rest `r` it holds as its right subtree. */
    ghost predicate Detached(c: Ctx, l: Tree, z: Level, cz: Color, y: Level, r: Tree)
      reads this`cells
    {
      && z in cells && cells[z].left == Ptr(l) && cells[z].parent == Above(c) && cells[z].color == cz
      && y in cells && cells[y].right == Ptr(r)
      && Stored(r, y, cells) && Stored(l, z, cells) && StoredAround(c, z, cells)
    }

    /** Unlinks the in-order successor of `z`, which has two children, from its place. */
    method DetachSuccessor(z: Level, ghost c: Ctx, ghost s: Tree)
      returns (y: Level, yColor: Color, x: Level?, xp: Level, ghost sp: Ctx, ghost yr: Tree)
      requires Focus(c, s) && s.Node? && s.lv == z && s.left.Node? && s.right.Node?
      modifies this`root, this`cells
      ensures s.right == Plug(sp, Node(Leaf, y, yColor, yr)) && Before(sp) == []
      ensures Detached(c, s.left, z, s.color, y, Plug(sp, yr)) && root == old(root)
      ensures x == Ptr(yr) && xp == (if sp.Top? then y else sp.lv)
    {
      hide Sorted, InOrder, Before, OncePlugged, Fits;
      PlaceLinks(c, s);
      FocusOnce(c, s);
      ghost var ys;
      y, sp, ys := TreeMinimum(cells[z].right, z, s.right);
      yr := ys.right;
      ghost var base := Up(c, false, z, s.color, s.left);
      FocusUp(base, s.right);
      GraftStored(sp, base, ys, cells);
      SuccessorKeeps(c, s.left, z, s.color, sp, y, ys.color, yr);
      SuccessorLeaves(cells, c, s.left, z, s.color, sp, y, ys.color, yr);
      yColor, x := cells[y].color, cells[y].right;
      assert ys == Node(Leaf, y, yColor, yr);
      if cells[y].parent == z {
        xp := y;
      } else {
        xp := cells[y].parent;
        SuccessorPlace(c, s, sp, ys);
        Transplant(y, x, Graft(sp, base));
        RightTakenStored(cells, c, s.left, z, s.color, Plug(sp, yr), y);
        var r := cells[z].right;
        cells := cells[y := cells[y].(right := r)];
        cells := cells[r := cells[r].(parent := y)];
      }
    }

    /** Looking at the same tree from the bottom of a spine. */
    lemma {:induction false} FocusGraft(sp: Ctx, base: Ctx, t: Tree)
      ensures Focus(base, Plug(sp, t)) <==> Focus(Graft(sp, base), t)
    {
      GraftPlug(sp, base, t);
      GraftStored(sp, base, t, cells);
      GraftApex(sp, base, Ptr(t));
      ApexPlug(sp, t);
    }

    lemma {:induction false} SuccessorPlace(c: Ctx, s: Tree, sp: Ctx, ys: Tree)
      requires Focus(c, s) && s.Node? && s.right == Plug(sp, ys) && ys.Node? && sp.Up?
      ensures var d := Graft(sp, Up(c, false, s.lv, s.color, s.left));
        && d.Up? && d.lv in cells && ys.lv in cells && cells[ys.lv].parent == d.lv
        && (ys.lv == cells[d.lv].left <==> d.onLeft)
        && (ys.right.Node? ==> ys.right.lv in cells)
    {
      var base := Up(c, false, s.lv, s.color, s.left);
      FocusUp(base, s.right);
      FocusGraft(sp, base, ys);
      PlaceLinks(Graft(sp, base), ys);
    }

    lemma SeatReady(z: Level, y: Level, c: Ctx, l: Tree, cz: Color, r: Tree)
      requires Detached(c, l, z, cz, y, r) && OncePlugged(c, Node(l, y, cz, r)) && l.Node?
      ensures l.lv in cells && l.lv != y && l.lv != Above(c) && y != Above(c) && (c.Up? ==> c.lv in cells)
    {
      SeatedApart(c, l, y, cz, r);
    }

    /** Puts the detached successor `y` in the place of `z`. */
    method Seat(z: Level, y: Level, ghost c: Ctx, ghost l: Tree, ghost cz: Color, ghost r: Tree)
      requires Detached(c, l, z, cz, y, r) && OncePlugged(c, Node(l, y, cz, r)) && l.Node?
      requires c.Up? ==> (z == cells[c.lv].left <==> c.onLeft)
      requires root == Apex(c, z)
      modifies this`root, this`cells
      ensures Stored(Node(l, y, cz, r), Above(c), cells) && StoredAround(c, y, cells)
      ensures root == Apex(c, y)
    {
      hide Stored, StoredAround, OncePlugged;
      SeatedStored(cells, c, z, l, z, y, cz, r);
      SeatReady(z, y, c, l, cz, r);
      Transplant(z, y, c);
      var left := cells[z].left;
      cells := cells[y := cells[y].(left := left)];
      cells := cells[left := cells[left].(parent := y)];
      var color := cells[z].color;
      cells := cells[y := cells[y].(color := color)];
    }

    /** Takes `z`, which has two children, out of the tree by seating its successor in its place. */
    method ReplaceBySuccessor(z: Level, ghost c: Ctx, ghost s: Tree, ghost k: nat)
      returns (yColor: Color, x: Level?, xp: Level, ghost c': Ctx, ghost t': Tree)
      requires Focus(c, s) && RedBlackTree(Plug(c, s)) && s.Node? && s.lv == z && s.left.Node? && s.right.Node?
      requires k == |Before(c)| + |InOrder(s.left)| && k < |order|
      modifies this`root, this`cells, this`order
      ensures order == RemoveAt(old(order), k)
      ensures Deleted(c', t', yColor) && x == Ptr(t') && xp == Above(c')
    {
      hide Stored, StoredAround, Sorted, InOrder, RemoveAt, Fits, Shaped, OncePlugged;
      PlaceLinks(c, s);
      FocusOnce(c, s);
      var y;
      ghost var sp, yr;
      y, yColor, x, xp, sp, yr := DetachSuccessor(z, c, s);
      ghost var l, cz, r := s.left, s.color, Plug(sp, yr);
      SuccessorKeeps(c, l, z, cz, sp, y, yColor, yr);
      SuccessorFits(c, l, z, cz, sp, y, yColor, yr);
      ghost var u := Node(l, y, cz, r);
      SuccessorOrder(order, c, s, sp, y, yColor, yr, k);
      DetachedPlace(c, l, z, cz, y, r);
      Seat(z, y, c, l, cz, r);
      order := RemoveAt(order, k);
      ghost var base := Up(c, false, y, cz, l);
      FocusUp(base, r);
      FocusGraft(sp, base, yr);
      c', t' := Graft(sp, base), yr;
    }

    lemma DetachedPlace(c: Ctx, l: Tree, z: Level, cz: Color, y: Level, r: Tree)
      requires Detached(c, l, z, cz, y, r) && OncePlugged(c, Node(l, z, cz, r))
      ensures c.Up? ==> c.lv in cells && (z == cells[c.lv].left <==> c.onLeft)
    {
      if c.Up? && !c.onLeft {
        assert c.sib.Node? ==> c.sib.lv in Levels(c.sib) && c.sib.lv in Around(c);
        assert z in Levels(Node(l, z, cz, r));
      }
    }

    /** Removes `z` from the tree structure; threads and best level are the caller's. */
    method RbDeleteNode(z: Level, ghost c: Ctx, ghost s: Tree, ghost k: nat)
      requires Focus(c, s) && RedBlackTree(Plug(c, s)) && s.Node? && s.lv == z
      requires k == |Before(c)| + |InOrder(s.left)| && k < |order|
      modifies this`root, this`cells, this`order
      ensures order == RemoveAt(old(order), k)
      ensures exists t :: Focus(Top, t) && RedBlackTree(t)
    {
      PlaceLinks(c, s);
      var yColor, x, xp := cells[z].color, cells[z].left, cells[z].parent;
      ghost var c', t' := c, if s.left.Leaf? then s.right else s.left;
      if cells[z].left == null {
        x := cells[z].right;
        SpliceOut(z, x, c, s, k);
      } else if cells[z].right == null {
        SpliceOut(z, x, c, s, k);
      } else {
        yColor, x, xp, c', t' := ReplaceBySuccessor(z, c, s, k);
      }
      FocusRoot(c', t');
      if yColor == Black {
        RbDeleteFixup(x, xp, c', t');
      }
    }

    /** Unlinks `z` from the threads and moves on from it as the best level. */
    method UnlinkThreads(z: Level, ghost k: nat)
      requires Sorted(order) && Threads(order, threads) && k < |order| && order[k] == z && best == BestOf(bid, order)
      requires LevelAt(order, k - 1) != null ==> LevelAt(order, k - 1) in threads
      requires LevelAt(order, k + 1) != null ==> LevelAt(order, k + 1) in threads
      modifies this`threads, this`best
      ensures threads == ThreadOut(old(threads), LevelAt(order, k - 1), LevelAt(order, k + 1))
      ensures best == BestOf(bid, RemoveAt(order, k))
    {
      ThreadsRemove(order, threads, k);
      ThreadAt(order, threads, k);
      var p, n := threads[z].pred, threads[z].succ;
      assert z == best <==> k == if bid then |order| - 1 else 0 by {
        if bid && k < |order| - 1 { assert Ascends(order, k, |order| - 1); }
        if !bid && k > 0 { assert Ascends(order, 0, k); }
      }
      if z == best {
        best := if bid then p else n;
      }
      if p != null { threads := threads[p := threads[p].(succ := n)]; }
      if n != null { threads := threads[n := threads[n].(pred := p)]; }
    }

    /** Unlinks the emptied level `z` from threads and tree and releases its memory. */
    method EraseLevel(z: Level)
      requires Valid() && z in order
      modifies this
      ensures Valid() && z !in order && z !in cells && z !in threads
      ensures exists k :: 0 <= k < |old(order)| && old(order)[k] == z && order == RemoveAt(old(order), k)
    {
      hide Threads, Sorted, InOrder, RemoveAt, OncePlugged;
      ghost var k :| 0 <= k < |order| && order[k] == z;
      ghost var c, s := NodeAt(Top, tree, k);
      FocusNode(c, s, k);
      ThreadsRemove(order, threads, k);
      ThreadsWiden(RemoveAt(order, k), ThreadOut(threads, LevelAt(order, k - 1), LevelAt(order, k + 1)), z);
      UnlinkThreads(z, k);
      RbDeleteNode(z, c, s, k);
      ghost var t :| Focus(Top, t) && RedBlackTree(t);
      tree := t;
      Release(z);
    }

    lemma {:induction false} FocusNode(c: Ctx, s: Tree, k: nat)
      requires Valid() && Plug(c, s) == tree && s.Node? && |Before(c)| + |InOrder(s.left)| == k
      ensures Focus(c, s) && k < |order| && order[k] == s.lv
    {
      InOrderPlug(c, s);
      StoredPlug(c, s, cells);
      ApexPlug(c, s);
    }

    /** Releases every level, best to worst, each exactly once. */
    method Clear() returns (released: seq<Level>)
      requires Valid()
      modifies this
      ensures Valid() && order == [] && |released| == |old(order)|
      ensures forall i :: 0 <= i < |released| ==> released[i] == Downward(bid, old(order), i)
    {
      Ascending();
      released := ReleaseLevels();
      root, best, cells, threads := null, null, map[], map[];
      order, tree := [], Leaf;
    }

    method ReleaseLevels() returns (released: seq<Level>)
      requires Sorted(order) && Threads(order, threads) && best == BestOf(bid, order)
      modifies this`threads
      ensures |released| == |order|
      ensures forall i :: 0 <= i < |released| ==> released[i] == Downward(bid, order, i)
    {
      StartDown(bid, order, threads);
      hide Threads, BestOf, ThreadsFrom, Sorted, Downward;
      released := [];
      var level := best;
      while level != null
        invariant |released| <= |order| && level == Downward(bid, order, |released|)
        invariant forall i :: 0 <= i < |released| ==> released[i] == Downward(bid, order, i)
        invariant ThreadsFrom(bid, order, threads, |released|)
        decreases |order| - |released|
      {
        DownEnds(bid, order, |released|);
        DropThread(bid, order, threads, |released|);
        var next := if bid then threads[level].pred else threads[level].succ;
        threads := threads - {level};
        released := released + [level];
        level := next;
      }
      DownEnds(bid, order, |released|);
    }

    lemma Ascending()
      requires Valid()
      ensures Sorted(order)
    {
    }

    /** Returns the memory of a level that is no longer in the tree. */
    method Release(z: Level)
      requires Valid() && z !in order
      modifies this`cells, this`threads
      ensures Valid() && cells == old(cells) - {z} && threads == old(threads) - {z}
    {
      LevelsInOrder(tree);
      StoredFrame(tree, null, cells, cells - {z});
      ThreadsNarrow(order, threads, z);
      cells := cells - {z};
      threads := threads - {z};
    }

    /** Black height of the subtree at `n` if it is in order, shaped and balanced, and -1 otherwise. */
    method RbCheck(n: Level?, lo: int, hi: int, ghost p: Level?, ghost t: Tree) returns (r: int)
      requires Stored(t, p, cells) && n == Ptr(t)
      ensures r == if Shaped(t) && Ordered(t, lo, hi) then BlackHeight(t) else -1
      decreases t
    {
      if n == null { return 1; }
      if n.price <= lo || n.price >= hi { return -1; }
      assert Stored(t.left, n, cells) && Stored(t.right, n, cells);
      if cells[n].color == Red && (ColorOf(cells[n].left) == Red || ColorOf(cells[n].right) == Red) {
        return -1;
      }
      var l := RbCheck(cells[n].left, lo, n.price, n, t.left);
      var m := RbCheck(cells[n].right, n.price, hi, n, t.right);
      if l == -1 || m == -1 || l != m { return -1; }
      r := l + if cells[n].color == Black then 1 else 0;
    }

    /** The tree check accepts exactly when no level is at either end of the 64-bit price range. */
    method ValidateRb() returns (ok: bool)
      requires Valid()
      ensures ok <==> forall v :: v in order ==> 0 < v.price < WORD * WORD - 1
    {
      if root == null { return true; }
      if cells[root].color != Black { return false; }
      var h := RbCheck(root, 0, WORD * WORD - 1, null, tree);
      OrderedSorted(tree, 0, WORD * WORD - 1);
      ok := h != -1;
    }

    /** The tree is low, and reading it in order gives the thread list. */
    lemma TreeIsLow()
      requires Valid()
      ensures InOrder(tree) == order
      ensures Pow2(Height(tree)) <= (|order| + 1) * (|order| + 1)
    {
      HeightBound(tree);
    }
  }
}
