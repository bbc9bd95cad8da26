/**
  * The red-black tree of price levels as a value, with zippers for the pointer
  * algorithms that climb and descend it, and its representation in memory cells.
  */
module RedBlack {
  import opened Layout

  datatype Tree = Leaf | Node(left: Tree, lv: Level, color: Color, right: Tree)

  /**
    * A tree with one subtree missing. `Up(c, onLeft, ..)` says the hole is the left
    * (or right) child of `lv`, whose other child is `sib` and whose own place is `c`.
    */
  datatype Ctx = Top | Up(up: Ctx, onLeft: bool, lv: Level, color: Color, sib: Tree)

  ghost function Ptr(t: Tree): Level? {
    if t.Leaf? then null else t.lv
  }

  ghost function Above(c: Ctx): Level? {
    if c.Top? then null else c.lv
  }

  /** The node with subtree `t` on the side `onLeft` says and `sib` on the other. */
  ghost function Join(onLeft: bool, t: Tree, lv: Level, color: Color, sib: Tree): Tree {
    if onLeft then Node(t, lv, color, sib) else Node(sib, lv, color, t)
  }

  ghost function Plug(c: Ctx, t: Tree): Tree
    decreases c
  {
    if c.Top? then t else Plug(c.up, Join(c.onLeft, t, c.lv, c.color, c.sib))
  }

  ghost function InOrder(t: Tree): seq<Level> {
    if t.Leaf? then [] else InOrder(t.left) + [t.lv] + InOrder(t.right)
  }

  /** What precedes and what follows the hole in the in-order sequence. */
  ghost function Before(c: Ctx): seq<Level> {
    if c.Top? then [] else if c.onLeft then Before(c.up) else Before(c.up) + InOrder(c.sib) + [c.lv]
  }

  ghost function After(c: Ctx): seq<Level> {
    if c.Top? then [] else if c.onLeft then [c.lv] + InOrder(c.sib) + After(c.up) else After(c.up)
  }

  lemma {:induction false} InOrderPlug(c: Ctx, t: Tree)
    ensures InOrder(Plug(c, t)) == Before(c) + InOrder(t) + After(c)
    decreases c
  {
    if c.Up? {
      InOrderPlug(c.up, Join(c.onLeft, t, c.lv, c.color, c.sib));
    }
  }

  ghost predicate Ascends(s: seq<Level>, i: nat, j: nat)
    requires i < |s| && j < |s|
  {
    s[i].price < s[j].price
  }

  /** Strictly ascending prices; in particular no level occurs twice. */
  ghost predicate Sorted(s: seq<Level>) {
    forall i, j :: 0 <= i < j < |s| ==> Ascends(s, i, j)
  }

  ghost predicate Below(s: seq<Level>, t: seq<Level>) {
    forall u, v :: u in s && v in t ==> u.price < v.price
  }

  lemma SortedSplit(s: seq<Level>, t: seq<Level>)
    ensures Sorted(s + t) <==> Sorted(s) && Sorted(t) && Below(s, t)
  {
    var r := s + t;
    if Sorted(r) {
      forall i, j | 0 <= i < j < |s| ensures Ascends(s, i, j) { assert Ascends(r, i, j); }
      forall i, j | 0 <= i < j < |t| ensures Ascends(t, i, j) { assert Ascends(r, |s| + i, |s| + j); }
      forall u, v | u in s && v in t ensures u.price < v.price {
        var i :| 0 <= i < |s| && s[i] == u;
        var j :| 0 <= j < |t| && t[j] == v;
        assert Ascends(r, i, |s| + j);
      }
    }
    if Sorted(s) && Sorted(t) && Below(s, t) {
      forall i, j | 0 <= i < j < |r| ensures Ascends(r, i, j) {
        if j < |s| { assert Ascends(s, i, j); }
        else if i >= |s| { assert Ascends(t, i - |s|, j - |s|); }
        else { assert r[i] in s && r[j] in t; }
      }
    }
  }

  // ---- Every level occurs once ----

  ghost function Levels(t: Tree): set<Level> {
    if t.Leaf? then {} else Levels(t.left) + {t.lv} + Levels(t.right)
  }

  ghost function Around(c: Ctx): set<Level> {
    if c.Top? then {} else {c.lv} + Levels(c.sib) + Around(c.up)
  }

  ghost predicate OnceEach(t: Tree) {
    t.Node? ==>
      && OnceEach(t.left) && OnceEach(t.right)
      && t.lv !in Levels(t.left) && t.lv !in Levels(t.right) && Levels(t.left) !! Levels(t.right)
  }

  ghost predicate OnceAround(c: Ctx) {
    c.Up? ==>
      && OnceEach(c.sib) && OnceAround(c.up)
      && c.lv !in Levels(c.sib) && c.lv !in Around(c.up) && Levels(c.sib) !! Around(c.up)
  }

  ghost predicate OncePlugged(c: Ctx, t: Tree) {
    OnceEach(t) && OnceAround(c) && Levels(t) !! Around(c)
  }

  lemma {:induction false} OncePlug(c: Ctx, t: Tree)
    ensures OnceEach(Plug(c, t)) <==> OncePlugged(c, t)
    ensures Levels(Plug(c, t)) == Levels(t) + Around(c)
    decreases c
  {
    if c.Up? {
      OncePlug(c.up, Join(c.onLeft, t, c.lv, c.color, c.sib));
    }
  }

  lemma {:induction false} LevelsInOrder(t: Tree)
    ensures forall v :: v in Levels(t) ==> v in InOrder(t)
    ensures forall v :: v in InOrder(t) ==> v in Levels(t)
  {
    if t.Node? {
      LevelsInOrder(t.left);
      LevelsInOrder(t.right);
    }
  }

  lemma SortedAround(s: seq<Level>, x: Level, t: seq<Level>)
    requires Sorted(s + [x] + t)
    ensures Sorted(s) && Sorted(t)
    ensures x !in s && x !in t && forall v :: v in s ==> v !in t
    ensures forall v :: v in s ==> v.price < x.price
    ensures forall v :: v in t ==> x.price < v.price
  {
    SortedSplit(s + [x], t);
    SortedSplit(s, [x]);
    assert x in [x] && x in s + [x];
    forall v | v in s ensures v.price < x.price && v in s + [x] {}
  }

  lemma {:induction false} SortedOnce(t: Tree)
    requires Sorted(InOrder(t))
    ensures OnceEach(t)
  {
    if t.Node? {
      SortedAround(InOrder(t.left), t.lv, InOrder(t.right));
      SortedOnce(t.left);
      SortedOnce(t.right);
      LevelsInOrder(t.left);
      LevelsInOrder(t.right);
      assert forall v :: v in Levels(t.left) ==> v in InOrder(t.left);
    }
  }

  // ---- Red-black shape ----

  ghost predicate IsRed(t: Tree) {
    t.Node? && t.color == Red
  }

  /** Black height, counting the null leaf as one. */
  ghost function BlackHeight(t: Tree): nat {
    if t.Leaf? then 1 else BlackHeight(t.left) + (if t.color == Black then 1 else 0)
  }

  ghost predicate Balanced(t: Tree) {
    t.Node? ==> Shaped(t.left) && Shaped(t.right) && BlackHeight(t.left) == BlackHeight(t.right)
  }

  /** No red node has a red child, and all paths have equally many black nodes. */
  ghost predicate Shaped(t: Tree) {
    t.Node? ==>
      && Shaped(t.left) && Shaped(t.right)
      && BlackHeight(t.left) == BlackHeight(t.right)
      && (t.color == Red ==> !IsRed(t.left) && !IsRed(t.right))
  }

  /** The whole tree: shaped, with a black root. */
  ghost predicate RedBlackTree(t: Tree) {
    Shaped(t) && !IsRed(t)
  }

  /** Plugging a shaped tree of black height `h`, red-rooted or not, gives a red-black tree. */
  ghost predicate Fits(c: Ctx, h: nat, red: bool) {
    if c.Top? then !red
    else
      && Shaped(c.sib) && BlackHeight(c.sib) == h
      && (c.color == Red ==> !red && !IsRed(c.sib))
      && Fits(c.up, h + (if c.color == Black then 1 else 0), c.color == Red)
  }

  lemma {:induction false} FitsPlug(c: Ctx, t: Tree)
    ensures Shaped(t) && Fits(c, BlackHeight(t), IsRed(t)) <==> RedBlackTree(Plug(c, t))
    decreases c
  {
    if c.Up? {
      FitsPlug(c.up, Join(c.onLeft, t, c.lv, c.color, c.sib));
    }
  }

  ghost function Paint(t: Tree, color: Color): Tree {
    if t.Leaf? then Leaf else Node(t.left, t.lv, color, t.right)
  }

  // ---- Memory ----

  datatype Cell = Cell(left: Level?, right: Level?, parent: Level?, color: Color)

  type Mem = map<Level, Cell>

  /** The cells of `t`, hung under `p`, hold its links and colours. */
  ghost predicate Stored(t: Tree, p: Level?, m: Mem) {
    t.Node? ==>
      && t.lv in m && m[t.lv] == Cell(Ptr(t.left), Ptr(t.right), p, t.color)
      && Stored(t.left, t.lv, m) && Stored(t.right, t.lv, m)
  }

  /** The cells around the hole hold the links and colours of `c`, with `child` in the hole. */
  ghost predicate StoredAround(c: Ctx, child: Level?, m: Mem) {
    c.Up? ==>
      && c.lv in m
      && m[c.lv] == (if c.onLeft then Cell(child, Ptr(c.sib), Above(c.up), c.color)
                     else Cell(Ptr(c.sib), child, Above(c.up), c.color))
      && Stored(c.sib, c.lv, m)
      && StoredAround(c.up, c.lv, m)
  }

  lemma {:induction false} StoredPlug(c: Ctx, t: Tree, m: Mem)
    ensures Stored(Plug(c, t), null, m) <==> StoredAround(c, Ptr(t), m) && Stored(t, Above(c), m)
    decreases c
  {
    if c.Up? {
      StoredPlug(c.up, Join(c.onLeft, t, c.lv, c.color, c.sib), m);
    }
  }

  ghost predicate Agree(m: Mem, n: Mem, s: set<Level>) {
    forall v :: v in s ==> (v in m <==> v in n) && (v in m ==> m[v] == n[v])
  }

  lemma {:induction false} StoredFrame(t: Tree, p: Level?, m: Mem, n: Mem)
    requires Stored(t, p, m) && Agree(m, n, Levels(t))
    ensures Stored(t, p, n)
  {
    if t.Node? {
      StoredFrame(t.left, t.lv, m, n);
      StoredFrame(t.right, t.lv, m, n);
    }
  }

  lemma {:induction false} StoredAroundFrame(c: Ctx, child: Level?, m: Mem, n: Mem)
    requires StoredAround(c, child, m) && Agree(m, n, Around(c))
    ensures StoredAround(c, child, n)
  {
    if c.Up? {
      StoredFrame(c.sib, c.lv, m, n);
      StoredAroundFrame(c.up, c.lv, m, n);
    }
  }

  // ---- Rotation ----

  /** `x` with its child `y` on the side away from `dir`, before and after rotating towards `dir`. */
  ghost function Tilted(dir: bool, a: Tree, x: Level, cx: Color, b: Tree, y: Level, cy: Color, d: Tree): Tree {
    Join(dir, a, x, cx, Join(dir, b, y, cy, d))
  }

  ghost function Righted(dir: bool, a: Tree, x: Level, cx: Color, b: Tree, y: Level, cy: Color, d: Tree): Tree {
    Join(dir, Join(dir, a, x, cx, b), y, cy, d)
  }

  /** Memory after `v.parent := p`, and after assigning a child link of `v`; no effect on null. */
  ghost function SetParent(m: Mem, v: Level?, p: Level?): Mem {
    if v == null || v !in m then m else m[v := m[v].(parent := p)]
  }

  ghost function SetChild(m: Mem, v: Level?, onLeft: bool, child: Level?): Mem {
    if v == null || v !in m then m
    else if onLeft then m[v := m[v].(left := child)] else m[v := m[v].(right := child)]
  }

  ghost function SetColor(m: Mem, v: Level?, color: Color): Mem {
    if v == null || v !in m then m else m[v := m[v].(color := color)]
  }

  /** Memory after the pointer assignments of a rotation of `x` towards `dir`, raising `y`. */
  ghost function Rotated(m: Mem, dir: bool, c: Ctx, x: Level, b: Tree, y: Level): Mem {
    var m := SetParent(SetChild(m, x, !dir, Ptr(b)), Ptr(b), x);
    var m := SetChild(SetParent(m, y, Above(c)), Above(c), c.Up? && c.onLeft, y);
    SetParent(SetChild(m, y, dir, x), x, y)
  }

  lemma {:induction false} OnceJoin(dir: bool, a: Tree, x: Level, cx: Color, u: Tree)
    requires OnceEach(Join(dir, a, x, cx, u))
    ensures Levels(Join(dir, a, x, cx, u)) == Levels(a) + {x} + Levels(u)
    ensures OnceEach(a) && OnceEach(u) && x !in Levels(a) && x !in Levels(u) && Levels(a) !! Levels(u)
  {
  }

  /** What a rotation leaves in the four cells it writes to, and nowhere else. */
  ghost predicate Turned(m: Mem, n: Mem, dir: bool, c: Ctx, x: Level, b: Tree, y: Level) {
    && x in m && y in m && (b.Node? ==> b.lv in m) && (c.Up? ==> c.lv in m)
    && n.Keys == m.Keys
    && (forall v :: v in m && v != x && v != y && v != Ptr(b) && v != Above(c) ==> n[v] == m[v])
    && n[x] == (if dir then Cell(m[x].left, Ptr(b), y, m[x].color) else Cell(Ptr(b), m[x].right, y, m[x].color))
    && n[y] == (if dir then Cell(x, m[y].right, Above(c), m[y].color) else Cell(m[y].left, x, Above(c), m[y].color))
    && (b.Node? ==> n[b.lv] == m[b.lv].(parent := x))
    && (c.Up? ==> n[c.lv] == if c.onLeft then m[c.lv].(left := y) else m[c.lv].(right := y))
  }

  lemma RotatedTurns(m: Mem, dir: bool, c: Ctx, x: Level, b: Tree, y: Level)
    requires x in m && y in m && x != y
    requires b.Node? ==> b.lv in m && b.lv != x && b.lv != y && b.lv != Above(c)
    requires c.Up? ==> c.lv in m && c.lv != x && c.lv != y
    ensures Turned(m, Rotated(m, dir, c, x, b, y), dir, c, x, b, y)
  {
  }

  lemma {:induction false} RotationTurns(m: Mem, dir: bool, c: Ctx, a: Tree, x: Level, cx: Color, b: Tree, y: Level,
                                         cy: Color, d: Tree)
    requires Stored(Tilted(dir, a, x, cx, b, y, cy, d), Above(c), m) && StoredAround(c, x, m)
    requires OncePlugged(c, Tilted(dir, a, x, cx, b, y, cy, d))
    ensures Turned(m, Rotated(m, dir, c, x, b, y), dir, c, x, b, y)
  {
    var u := Join(dir, b, y, cy, d);
    OnceJoin(dir, a, x, cx, u);
    OnceJoin(dir, b, y, cy, d);
    assert Stored(u, x, m) && Stored(b, y, m);
    assert b.Node? ==> b.lv in Levels(b);
    assert c.Up? ==> c.lv in Around(c);
    RotatedTurns(m, dir, c, x, b, y);
  }

  lemma {:induction false} TurnStored(m: Mem, n: Mem, dir: bool, c: Ctx, a: Tree, x: Level, cx: Color, b: Tree,
                                      y: Level, cy: Color, d: Tree)
    requires Stored(Tilted(dir, a, x, cx, b, y, cy, d), Above(c), m)
    requires OncePlugged(c, Tilted(dir, a, x, cx, b, y, cy, d)) && Turned(m, n, dir, c, x, b, y)
    ensures Stored(Righted(dir, a, x, cx, b, y, cy, d), Above(c), n)
  {
    var u := Join(dir, b, y, cy, d);
    OnceJoin(dir, a, x, cx, u);
    OnceJoin(dir, b, y, cy, d);
    assert Stored(u, x, m) && Stored(b, y, m) && Stored(d, y, m);
    assert b.Node? ==> b.lv in Levels(b);
    assert c.Up? ==> c.lv in Around(c);
    TurnFrame(m, n, dir, c, x, b, y, a, x);
    TurnFrame(m, n, dir, c, x, b, y, d, y);
    if b.Node? {
      TurnFrame(m, n, dir, c, x, b, y, b.left, b.lv);
      TurnFrame(m, n, dir, c, x, b, y, b.right, b.lv);
      assert Stored(b, x, n);
    }
    assert Stored(Join(dir, a, x, cx, b), y, n);
  }

  /** A rotation leaves a subtree it writes no link of where it is. */
  lemma TurnFrame(m: Mem, n: Mem, dir: bool, c: Ctx, x: Level, b: Tree, y: Level, t: Tree, p: Level?)
    requires Turned(m, n, dir, c, x, b, y) && Stored(t, p, m)
    requires x !in Levels(t) && y !in Levels(t) && (b.Node? ==> b.lv !in Levels(t)) && (c.Up? ==> c.lv !in Levels(t))
    ensures Stored(t, p, n)
  {
    StoredInside(t, p, m);
    StoredFrame(t, p, m, n);
  }

  lemma {:induction false} TurnStoredAround(m: Mem, n: Mem, dir: bool, c: Ctx, x: Level, b: Tree, y: Level)
    requires StoredAround(c, x, m) && OnceAround(c) && Turned(m, n, dir, c, x, b, y)
    requires x !in Around(c) && y !in Around(c) && (b.Node? ==> b.lv !in Around(c))
    ensures StoredAround(c, y, n)
  {
    if c.Up? {
      StoredInside(c.sib, c.lv, m);
      StoredAroundInside(c.up, c.lv, m);
      StoredFrame(c.sib, c.lv, m, n);
      StoredAroundFrame(c.up, c.lv, m, n);
    }
  }

  lemma {:induction false} StoredInside(t: Tree, p: Level?, m: Mem)
    requires Stored(t, p, m)
    ensures Levels(t) <= m.Keys
  {
    if t.Node? {
      StoredInside(t.left, t.lv, m);
      StoredInside(t.right, t.lv, m);
    }
  }

  lemma {:induction false} StoredAroundInside(c: Ctx, child: Level?, m: Mem)
    requires StoredAround(c, child, m)
    ensures Around(c) <= m.Keys
  {
    if c.Up? {
      StoredInside(c.sib, c.lv, m);
      StoredAroundInside(c.up, c.lv, m);
    }
  }

  /** The pointer assignments of a rotation store the rotated tree. */
  lemma {:induction false} RotateStored(m: Mem, dir: bool, c: Ctx, a: Tree, x: Level, cx: Color, b: Tree, y: Level,
                                        cy: Color, d: Tree)
    requires Stored(Tilted(dir, a, x, cx, b, y, cy, d), Above(c), m) && StoredAround(c, x, m)
    requires OncePlugged(c, Tilted(dir, a, x, cx, b, y, cy, d))
    ensures Stored(Righted(dir, a, x, cx, b, y, cy, d), Above(c), Rotated(m, dir, c, x, b, y))
    ensures StoredAround(c, y, Rotated(m, dir, c, x, b, y))
    ensures InOrder(Tilted(dir, a, x, cx, b, y, cy, d)) == InOrder(Righted(dir, a, x, cx, b, y, cy, d))
    ensures OncePlugged(c, Righted(dir, a, x, cx, b, y, cy, d))
  {
    var n := Rotated(m, dir, c, x, b, y);
    var u := Join(dir, b, y, cy, d);
    RotationTurns(m, dir, c, a, x, cx, b, y, cy, d);
    TurnStored(m, n, dir, c, a, x, cx, b, y, cy, d);
    OnceJoin(dir, a, x, cx, u);
    OnceJoin(dir, b, y, cy, d);
    assert b.Node? ==> b.lv in Levels(b);
    TurnStoredAround(m, n, dir, c, x, b, y);
    RotateKeeps(dir, a, x, cx, b, y, cy, d);
  }

  lemma RotateKeeps(dir: bool, a: Tree, x: Level, cx: Color, b: Tree, y: Level, cy: Color, d: Tree)
    ensures InOrder(Tilted(dir, a, x, cx, b, y, cy, d)) == InOrder(Righted(dir, a, x, cx, b, y, cy, d))
    ensures Levels(Tilted(dir, a, x, cx, b, y, cy, d)) == Levels(Righted(dir, a, x, cx, b, y, cy, d))
    ensures OnceEach(Tilted(dir, a, x, cx, b, y, cy, d)) <==> OnceEach(Righted(dir, a, x, cx, b, y, cy, d))
  {
    hide InOrder, Levels, OnceEach, Join;
    var u, v := Join(dir, b, y, cy, d), Join(dir, a, x, cx, b);
    JoinInOrder(dir, a, x, cx, u);
    JoinInOrder(dir, b, y, cy, d);
    JoinInOrder(dir, v, y, cy, d);
    JoinInOrder(dir, a, x, cx, b);
    Regroup(InOrder(a), x, InOrder(b), y, InOrder(d));
    Regroup(InOrder(d), y, InOrder(b), x, InOrder(a));
    JoinLevels(dir, a, x, cx, u);
    JoinLevels(dir, b, y, cy, d);
    JoinLevels(dir, v, y, cy, d);
    JoinLevels(dir, a, x, cx, b);
    assert Levels(a) + {x} + (Levels(b) + {y} + Levels(d)) == Levels(a) + {x} + Levels(b) + {y} + Levels(d);
  }

  lemma Regroup<T>(p: seq<T>, x: T, q: seq<T>, y: T, r: seq<T>)
    ensures p + [x] + (q + [y] + r) == p + [x] + q + [y] + r
  {
  }

  lemma JoinInOrder(dir: bool, a: Tree, x: Level, cx: Color, u: Tree)
    ensures InOrder(Join(dir, a, x, cx, u))
      == if dir then InOrder(a) + [x] + InOrder(u) else InOrder(u) + [x] + InOrder(a)
  {
  }

  lemma JoinLevels(dir: bool, a: Tree, x: Level, cx: Color, u: Tree)
    ensures var t := Join(dir, a, x, cx, u);
      && Levels(t) == Levels(a) + {x} + Levels(u)
      && (OnceEach(t) <==> OnceEach(a) && OnceEach(u) && x !in Levels(a) && x !in Levels(u) && Levels(a) !! Levels(u))
  {
  }

  /** The root of a plugged tree, from what fills the hole. */
  ghost function Apex(c: Ctx, p: Level?): Level? {
    if c.Top? then p else Apex(c.up, c.lv)
  }

  lemma {:induction false} ApexPlug(c: Ctx, t: Tree)
    ensures Ptr(Plug(c, t)) == Apex(c, Ptr(t))
    decreases c
  {
    if c.Up? {
      ApexPlug(c.up, Join(c.onLeft, t, c.lv, c.color, c.sib));
    }
  }

  /** The links and inequalities a rotation relies on. */
  lemma {:induction false} RotationLinks(m: Mem, dir: bool, c: Ctx, a: Tree, x: Level, cx: Color, b: Tree, y: Level,
                                         cy: Color, d: Tree)
    requires Stored(Tilted(dir, a, x, cx, b, y, cy, d), Above(c), m) && StoredAround(c, x, m)
    requires OncePlugged(c, Tilted(dir, a, x, cx, b, y, cy, d))
    ensures x in m && y in m && x != y && (b.Node? ==> b.lv in m && b.lv != x && b.lv != y)
    ensures m[x].parent == Above(c)
    ensures if dir then m[x].right == y && m[y].left == Ptr(b) else m[x].left == y && m[y].right == Ptr(b)
    ensures c.Up? ==> c.lv in m && c.lv != x && c.lv != y && c.lv != Ptr(b)
    ensures c.Up? ==>
      if c.onLeft then m[c.lv].left == x && m[c.lv].right != x else m[c.lv].right == x && m[c.lv].left != x
  {
    OnceJoin(dir, a, x, cx, Join(dir, b, y, cy, d));
    OnceJoin(dir, b, y, cy, d);
    assert Stored(Join(dir, b, y, cy, d), x, m) && Stored(b, y, m);
    assert b.Node? ==> b.lv in Levels(b);
    assert c.Up? ==> c.lv in Around(c) && (c.sib.Node? ==> c.sib.lv in Levels(c.sib));
  }

  lemma {:induction false} PaintStored(c: Ctx, t: Tree, color: Color, m: Mem)
    requires t.Node? && Stored(t, Above(c), m) && StoredAround(c, t.lv, m) && OncePlugged(c, t)
    ensures t.lv in m
    ensures Stored(Paint(t, color), Above(c), SetColor(m, t.lv, color))
    ensures StoredAround(c, t.lv, SetColor(m, t.lv, color))
  {
    var n := SetColor(m, t.lv, color);
    StoredFrame(t.left, t.lv, m, n);
    StoredFrame(t.right, t.lv, m, n);
    StoredAroundFrame(c, t.lv, m, n);
  }

  // ---- Insertion: the steps of the climb ----

  /** Parent and uncle red: painting them black moves the red pair two levels up. */
  lemma {:induction false} RecolorFits(g: Ctx, d2: bool, gp: Level, u: Tree, d1: bool, p: Level, sib: Tree, t: Tree)
    requires IsRed(t) && Shaped(t) && IsRed(u)
    requires Fits(Up(Up(g, d2, gp, Black, u), d1, p, Red, sib), BlackHeight(t), false)
    ensures var r := Join(d2, Join(d1, t, p, Black, sib), gp, Red, Paint(u, Black));
            IsRed(r) && Shaped(r) && Fits(g, BlackHeight(r), false)
  {
  }

  lemma {:induction false} FitsWeaken(c: Ctx, h: nat)
    requires Fits(c, h, true)
    ensures Fits(c, h, false)
  {
  }

  /** Uncle black, the red pair on the outside: the pair's top takes the grandparent's place. */
  lemma {:induction false} OuterFits(g: Ctx, d: bool, gp: Level, u: Tree, p: Level, sib: Tree, t: Tree)
    requires IsRed(t) && Shaped(t) && !IsRed(u)
    requires Fits(Up(Up(g, d, gp, Black, u), d, p, Red, sib), BlackHeight(t), false)
    ensures Fits(Up(g, d, p, Black, Join(d, sib, gp, Red, u)), BlackHeight(t), false)
  {
    assert Shaped(Join(d, sib, gp, Red, u));
    assert BlackHeight(Join(d, sib, gp, Red, u)) == BlackHeight(t);
  }

  /** Uncle black, the red pair on the inside: rotating the parent turns it to the outside. */
  lemma {:induction false} InnerFits(g: Ctx, d: bool, gp: Level, u: Tree, p: Level, sib: Tree, a: Tree, x: Level,
                                     b: Tree)
    requires Shaped(Join(d, a, x, Red, b)) && !IsRed(u)
    requires Fits(Up(Up(g, d, gp, Black, u), !d, p, Red, sib), BlackHeight(Join(d, a, x, Red, b)), false)
    ensures var r := Join(d, sib, p, Red, a);
            IsRed(r) && Shaped(r) && Fits(Up(Up(g, d, gp, Black, u), d, x, Red, b), BlackHeight(r), false)
  {
  }

  ghost function Depth(c: Ctx): nat {
    if c.Top? then 0 else 1 + Depth(c.up)
  }

  lemma {:induction false} ApexAround(c: Ctx, p: Level?)
    requires c.Up?
    ensures Apex(c, p) in Around(c)
  {
    if c.up.Up? {
      ApexAround(c.up, c.lv);
    }
  }

  /** The climb ends at the root or below a black parent; painting the root black finishes. */
  lemma {:induction false} ClimbDone(c: Ctx, t: Tree)
    requires IsRed(t) && Shaped(t) && Fits(c, BlackHeight(t), false) && (c.Up? ==> c.color == Black)
    ensures Plug(c, t).Node? && RedBlackTree(Paint(Plug(c, t), Black))
  {
    if c.Up? {
      FitsPlug(c, t);
      ApexPlug(c, t);
      ApexAround(c, t.lv);
    }
  }

  /** What the climb reads: below a red parent there is a black grandparent with an uncle. */
  lemma {:induction false} ClimbLinks(m: Mem, c: Ctx, t: Tree)
    requires Stored(t, Above(c), m) && StoredAround(c, Ptr(t), m) && OncePlugged(c, t)
    requires t.Node? && c.Up?
    ensures t.lv in m && m[t.lv].parent == c.lv && c.lv in m && m[c.lv].color == c.color
    ensures if c.onLeft then m[c.lv].left == t.lv && m[c.lv].right != t.lv
            else m[c.lv].right == t.lv && m[c.lv].left != t.lv
    ensures c.onLeft ==> m[c.lv].right == Ptr(c.sib)
    ensures !c.onLeft ==> m[c.lv].left == Ptr(c.sib)
    ensures c.sib.Node? ==> c.sib.lv in m && m[c.sib.lv].color == c.sib.color
  {
    assert t.lv in Levels(t);
    assert c.sib.Node? ==> c.sib.lv in Levels(c.sib);
  }

  // ---- Deletion: hanging subtrees elsewhere ----

  lemma {:induction false} ReparentStored(t: Tree, p: Level?, q: Level?, m: Mem)
    requires Stored(t, p, m) && OnceEach(t)
    ensures Stored(t, q, SetParent(m, Ptr(t), q))
  {
    if t.Node? {
      var n := SetParent(m, t.lv, q);
      StoredFrame(t.left, t.lv, m, n);
      StoredFrame(t.right, t.lv, m, n);
    }
  }

  /** Memory after hanging `v` into the hole of `c`. */
  ghost function Hung(m: Mem, c: Ctx, v: Level?): Mem {
    SetParent(SetChild(m, Above(c), c.Up? && c.onLeft, v), v, Above(c))
  }

  /** Hanging a subtree stored anywhere into a hole stores it there. */
  lemma {:induction false} HungStored(m: Mem, c: Ctx, u: Level?, t: Tree, p: Level?)
    requires StoredAround(c, u, m) && Stored(t, p, m)
    requires OncePlugged(c, t)
    ensures StoredAround(c, Ptr(t), Hung(m, c, Ptr(t))) && Stored(t, Above(c), Hung(m, c, Ptr(t)))
  {
    var n := SetChild(m, Above(c), c.Up? && c.onLeft, Ptr(t));
    var r := Hung(m, c, Ptr(t));
    assert t.Node? ==> t.lv in Levels(t);
    assert c.Up? ==> c.lv in Around(c);
    StoredFrame(t, p, m, n);
    ReparentStored(t, p, Above(c), n);
    if c.Up? {
      StoredFrame(c.sib, c.lv, m, r);
      StoredAroundFrame(c.up, c.lv, m, r);
    }
  }

  /** The context `sp` relative to `base`. */
  ghost function Graft(sp: Ctx, base: Ctx): Ctx {
    if sp.Top? then base else Up(Graft(sp.up, base), sp.onLeft, sp.lv, sp.color, sp.sib)
  }

  lemma {:induction false} GraftPlug(sp: Ctx, base: Ctx, t: Tree)
    ensures Plug(Graft(sp, base), t) == Plug(base, Plug(sp, t))
    decreases sp
  {
    if sp.Up? {
      GraftPlug(sp.up, base, Join(sp.onLeft, t, sp.lv, sp.color, sp.sib));
    }
  }

  lemma {:induction false} GraftStored(sp: Ctx, base: Ctx, t: Tree, m: Mem)
    ensures StoredAround(Graft(sp, base), Ptr(t), m) && Stored(t, Above(Graft(sp, base)), m)
       <==> StoredAround(base, Ptr(Plug(sp, t)), m) && Stored(Plug(sp, t), Above(base), m)
    decreases sp
  {
    if sp.Up? {
      GraftStored(sp.up, base, Join(sp.onLeft, t, sp.lv, sp.color, sp.sib), m);
    }
  }

  lemma {:induction false} GraftApex(sp: Ctx, base: Ctx, p: Level?)
    ensures Apex(Graft(sp, base), p) == Apex(base, Apex(sp, p))
  {
    if sp.Up? {
      GraftApex(sp.up, base, sp.lv);
    }
  }

  lemma {:induction false} GraftFits(sp: Ctx, base: Ctx, other: Ctx, h: nat, red: bool)
    requires forall h', r :: Fits(base, h', r) ==> Fits(other, h', r)
    requires Fits(Graft(sp, base), h, red)
    ensures Fits(Graft(sp, other), h, red)
  {
    if sp.Up? {
      GraftFits(sp.up, base, other, h + (if sp.color == Black then 1 else 0), sp.color == Red);
    }
  }

  lemma {:induction false} GraftAround(sp: Ctx, base: Ctx)
    ensures Around(Graft(sp, base)) == Around(sp) + Around(base)
    ensures OnceAround(Graft(sp, base)) <==> OnceAround(sp) && OnceAround(base) && Around(sp) !! Around(base)
  {
    if sp.Up? {
      GraftAround(sp.up, base);
    }
  }

  // ---- Deletion: the steps of the repair ----

  /** Taking out a node with at most one child leaves a subtree short of one black, or a whole tree. */
  lemma {:induction false} TakeOutFits(c: Ctx, color: Color, x: Tree)
    requires Shaped(x) && BlackHeight(x) == 1 && (color == Red ==> !IsRed(x))
    requires Fits(c, 1 + (if color == Black then 1 else 0), color == Red)
    ensures color == Black ==> Fits(c, BlackHeight(x) + 1, false)
    ensures color == Red ==> RedBlackTree(Plug(c, x))
  {
    if color == Red {
      FitsWeaken(c, 1);
      FitsPlug(c, x);
    }
  }

  /** Red sibling: it takes the parent's place, which then has a black sibling and is red. */
  lemma {:induction false} RedSiblingFits(u: Ctx, d: bool, p: Level, cp: Color, wi: Tree, w: Level, wo: Tree, h: nat)
    requires Fits(Up(u, d, p, cp, Join(d, wi, w, Red, wo)), h, false)
    ensures Fits(Up(Up(u, d, w, Black, wo), d, p, Red, wi), h, false)
  {
    assert IsRed(Join(d, wi, w, Red, wo)) && Shaped(Join(d, wi, w, Red, wo));
    assert Shaped(wi) && Shaped(wo) && !IsRed(wi) && BlackHeight(wi) == BlackHeight(wo) == h;
  }

  /** Black sibling without red child: painting it red moves the missing black up. */
  lemma {:induction false} BlackSiblingFits(u: Ctx, d: bool, p: Level, cp: Color, w: Tree, t: Tree)
    requires Shaped(t) && !IsRed(t) && w.Node? && w.color == Black && !IsRed(w.left) && !IsRed(w.right)
    requires Fits(Up(u, d, p, cp, w), BlackHeight(t) + 1, false)
    ensures var r := Join(d, t, p, cp, Paint(w, Red));
            Balanced(r) && Fits(u, BlackHeight(r) + 1, false)
  {
    if cp == Red { FitsWeaken(u, BlackHeight(t) + 1); }
  }

  /** Black sibling, inner child red, outer not: rotating the sibling brings the red child outside. */
  lemma {:induction false} InnerNephewFits(u: Ctx, d: bool, p: Level, cp: Color, a: Tree, wi: Level, b: Tree, w: Level,
                                           wo: Tree, h: nat)
    requires !IsRed(wo) && Fits(Up(u, d, p, cp, Join(d, Join(d, a, wi, Red, b), w, Black, wo)), h, false)
    ensures Fits(Up(u, d, p, cp, Join(d, a, wi, Black, Join(d, b, w, Red, wo))), h, false)
  {
    var i := Join(d, a, wi, Red, b);
    assert Shaped(Join(d, i, w, Black, wo));
    assert Shaped(i) && Shaped(wo) && Shaped(a) && Shaped(b) && !IsRed(b) && BlackHeight(i) == BlackHeight(wo);
    assert Shaped(Join(d, b, w, Red, wo));
  }

  /** Black sibling, outer child red: one rotation of the parent completes the tree. */
  lemma {:induction false} OuterNephewFits(u: Ctx, d: bool, p: Level, cp: Color, wi: Tree, w: Level, wo: Tree, t: Tree)
    requires Shaped(t) && !IsRed(t) && IsRed(wo)
    requires Fits(Up(u, d, p, cp, Join(d, wi, w, Black, wo)), BlackHeight(t) + 1, false)
    ensures RedBlackTree(Plug(u, Join(d, Join(d, t, p, Black, wi), w, cp, Paint(wo, Black))))
  {
    var r := Join(d, Join(d, t, p, Black, wi), w, cp, Paint(wo, Black));
    assert Shaped(wi) && Shaped(wo) && BlackHeight(wi) == BlackHeight(wo) == BlackHeight(t);
    assert Shaped(Join(d, t, p, Black, wi)) && Shaped(Paint(wo, Black));
    assert Shaped(r);
    FitsPlug(u, r);
  }

  /** The repair ends at the root or at a red node; painting it black finishes. */
  lemma {:induction false} RepairDone(c: Ctx, t: Tree)
    requires Balanced(t) && Fits(c, BlackHeight(t) + 1, false) && (c.Top? || IsRed(t))
    ensures RedBlackTree(Plug(c, Paint(t, Black)))
  {
    if t.Node? {
      if c.Top? || IsRed(t) {
        FitsPlug(c, Paint(t, Black));
      }
    }
  }

  // ---- Holes and nodes by in-order position ----

  /** The hole at position `k` of the in-order sequence of `t`. */
  lemma HoleAt(c0: Ctx, t: Tree, k: nat) returns (c: Ctx)
    requires k <= |InOrder(t)|
    ensures Plug(c, Leaf) == Plug(c0, t) && (c0.Up? || t.Node? ==> c.Up?)
    ensures |Before(c)| == |Before(c0)| + k
    decreases t
  {
    if t.Leaf? {
      c := c0;
    } else if k <= |InOrder(t.left)| {
      c := HoleAt(Up(c0, true, t.lv, t.color, t.right), t.left, k);
    } else {
      c := HoleAt(Up(c0, false, t.lv, t.color, t.left), t.right, k - |InOrder(t.left)| - 1);
    }
  }

  /** The subtree whose root is at position `k` of the in-order sequence. */
  lemma NodeAt(c0: Ctx, t: Tree, k: nat) returns (c: Ctx, s: Tree)
    requires k < |InOrder(t)|
    ensures Plug(c, s) == Plug(c0, t) && s.Node?
    ensures |Before(c)| + |InOrder(s.left)| == |Before(c0)| + k
    decreases t
  {
    var n := |InOrder(t.left)|;
    if k < n {
      c, s := NodeAt(Up(c0, true, t.lv, t.color, t.right), t.left, k);
    } else if k == n {
      c, s := c0, t;
    } else {
      c, s := NodeAt(Up(c0, false, t.lv, t.color, t.left), t.right, k - n - 1);
    }
  }

  /** The in-order predecessor of a non-empty place has a right child. */
  lemma {:induction false} PredHasRight(c: Ctx, child: Level?, m: Mem)
    requires StoredAround(c, child, m) && child != null && Before(c) != []
    ensures var p := Before(c)[|Before(c)| - 1]; p in m && m[p].right != null
  {
    if c.onLeft {
      PredHasRight(c.up, c.lv, m);
    }
  }

  // ---- Deletion of a node with two children ----

  /** Memory after `y`, holding `right` already, takes over a place, a left subtree and a colour. */
  ghost function Seated(m: Mem, c: Ctx, l: Tree, y: Level, color: Color): Mem {
    SetColor(SetParent(SetChild(Hung(m, c, y), y, true, Ptr(l)), Ptr(l), y), y, color)
  }

  lemma {:induction false} SeatedStored(m: Mem, c: Ctx, u: Level?, l: Tree, p: Level?, y: Level, color: Color, r: Tree)
    requires StoredAround(c, u, m) && Stored(l, p, m) && Stored(r, y, m)
    requires y in m && m[y].right == Ptr(r)
    requires OncePlugged(c, Node(l, y, color, r))
    ensures Stored(Node(l, y, color, r), Above(c), Seated(m, c, l, y, color))
    ensures StoredAround(c, y, Seated(m, c, l, y, color))
  {
    hide Seated, OncePlugged;
    var n := Seated(m, c, l, y, color);
    SeatedApart(c, l, y, color, r);
    SeatedCells(m, c, l, y, color);
    SeatedAgree(m, c, l, y, color, Levels(r));
    StoredFrame(r, y, m, n);
    if l.Node? {
      SeatedAgree(m, c, l, y, color, Levels(l.left));
      SeatedAgree(m, c, l, y, color, Levels(l.right));
      StoredFrame(l.left, l.lv, m, n);
      StoredFrame(l.right, l.lv, m, n);
    }
    if c.Up? {
      SeatedAgree(m, c, l, y, color, Levels(c.sib));
      SeatedAgree(m, c, l, y, color, Around(c.up));
      StoredFrame(c.sib, c.lv, m, n);
      StoredAroundFrame(c.up, c.lv, m, n);
    }
  }

  lemma SeatedApart(c: Ctx, l: Tree, y: Level, color: Color, r: Tree)
    requires OncePlugged(c, Node(l, y, color, r))
    ensures y !in Levels(l) + Levels(r) + Around(c)
    ensures l.Node? ==> l.lv !in Levels(l.left) + Levels(l.right) + Levels(r) + Around(c)
    ensures c.Up? ==> c.lv !in Levels(l) + Levels(r) + Levels(c.sib) + Around(c.up)
    ensures l.Node? ==> l.lv in Levels(l)
    ensures c.Up? ==> c.lv in Around(c) && Around(c) == {c.lv} + Levels(c.sib) + Around(c.up)
    ensures l.Node? ==> Levels(l) == {l.lv} + Levels(l.left) + Levels(l.right)
  {
    var t := Node(l, y, color, r);
    assert Levels(t) == Levels(l) + {y} + Levels(r) && OnceEach(l);
    assert y in Levels(t) && y !in Around(c);
    if l.Node? { assert l.lv in Levels(l) && l.lv !in Levels(r) && l.lv in Levels(t) && l.lv !in Around(c); }
    if c.Up? { assert c.lv in Around(c) && c.lv !in Levels(t); }
  }

  lemma SeatedAgree(m: Mem, c: Ctx, l: Tree, y: Level, color: Color, s: set<Level>)
    requires y in m && y != Ptr(l) && y != Above(c) && (l.Node? ==> l.lv in m && l.lv != Above(c))
    requires (c.Up? ==> c.lv in m)
    requires y !in s && (l.Node? ==> l.lv !in s) && (c.Up? ==> c.lv !in s)
    ensures Agree(m, Seated(m, c, l, y, color), s)
  {
    hide Seated;
    SeatedCells(m, c, l, y, color);
  }

  lemma SeatedCells(m: Mem, c: Ctx, l: Tree, y: Level, color: Color)
    requires y in m && y != Ptr(l) && y != Above(c) && (l.Node? ==> l.lv in m && l.lv != Above(c))
    requires (c.Up? ==> c.lv in m)
    ensures var n := Seated(m, c, l, y, color);
      && n.Keys == m.Keys
      && n[y] == Cell(Ptr(l), m[y].right, Above(c), color)
      && (l.Node? ==> n[l.lv] == m[l.lv].(parent := y))
      && (c.Up? ==> n[c.lv] == if c.onLeft then m[c.lv].(left := y) else m[c.lv].(right := y))
      && (forall v :: v in m && v != y && v != Ptr(l) && v != Above(c) ==> n[v] == m[v])
  {
  }

  /** Hanging a new red leaf into a hole stores the tree with that leaf. */
  lemma {:induction false} LeafStored(m: Mem, c: Ctx, v: Level)
    requires StoredAround(c, null, m) && OnceAround(c) && v !in Around(c)
    requires v in m && m[v] == Cell(null, null, null, Red)
    ensures var n := Hung(m, c, v);
      Stored(Node(Leaf, v, Red, Leaf), Above(c), n) && StoredAround(c, v, n)
  {
    HungStored(m, c, null, Node(Leaf, v, Red, Leaf), null);
  }

  /**
    * Which neighbour a hole hangs from: the next level if the hole is a left child, and then the
    * previous one has a right child.
    */
  lemma {:induction false} HoleNeighbours(c: Ctx, m: Mem)
    requires StoredAround(c, null, m) && c.Up?
    ensures c.lv in m
    ensures !c.onLeft ==> Before(c) != [] && Before(c)[|Before(c)| - 1] == c.lv && m[c.lv].right == null
    ensures c.onLeft ==> After(c) != [] && After(c)[0] == c.lv && m[c.lv].left == null
    ensures c.onLeft && Before(c) != [] ==> var p := Before(c)[|Before(c)| - 1]; p in m && m[p].right != null
  {
    if c.onLeft && Before(c) != [] {
      PredHasRight(c.up, c.lv, m);
    }
  }

  /** Taking the root of `s`, which has no left (or no right) child, out of its tree. */
  lemma {:induction false} SpliceOutStored(m: Mem, c: Ctx, s: Tree, r: Tree)
    requires s.Node? && (if s.left.Leaf? then r == s.right else s.right.Leaf? && r == s.left)
    requires Stored(s, Above(c), m) && StoredAround(c, s.lv, m) && OncePlugged(c, s)
    ensures var n := Hung(m, c, Ptr(r)); Stored(r, Above(c), n) && StoredAround(c, Ptr(r), n)
  {
    HungStored(m, c, s.lv, r, s.lv);
  }

  lemma {:induction false} SpliceOutFits(c: Ctx, s: Tree, r: Tree)
    requires s.Node? && (if s.left.Leaf? then r == s.right else s.right.Leaf? && r == s.left)
    requires RedBlackTree(Plug(c, s))
    ensures s.color == Black ==> Balanced(r) && Fits(c, BlackHeight(r) + 1, false)
    ensures s.color == Red ==> RedBlackTree(Plug(c, r))
  {
    FitsPlug(c, s);
    TakeOutFits(c, s.color, r);
  }

  /** The successor `y` of `z`, at the end of the spine `sp` of z's right subtree, leaves its place. */
  lemma {:induction false} SuccessorLeaves(m: Mem, c: Ctx, l: Tree, z: Level, cz: Color, sp: Ctx, y: Level, cy: Color,
                                           yr: Tree)
    requires var s := Node(l, z, cz, Plug(sp, Node(Leaf, y, cy, yr)));
      Stored(s, Above(c), m) && StoredAround(c, z, m) && OncePlugged(c, s)
    ensures var base := Up(c, false, z, cz, l); var n := Hung(m, Graft(sp, base), Ptr(yr));
      Stored(Plug(sp, yr), z, n) && StoredAround(base, Ptr(Plug(sp, yr)), n)
  {
    var base := Up(c, false, z, cz, l);
    var ys := Node(Leaf, y, cy, yr);
    GraftStored(sp, base, ys, m);
    OncePlug(sp, ys);
    GraftAround(sp, base);
    HungStored(m, Graft(sp, base), y, yr, y);
    GraftStored(sp, base, yr, Hung(m, Graft(sp, base), Ptr(yr)));
  }

  /** Colours and black heights after `y` took z's place and colour. */
  lemma {:induction false} SuccessorFits(c: Ctx, l: Tree, z: Level, cz: Color, sp: Ctx, y: Level, cy: Color, yr: Tree)
    requires RedBlackTree(Plug(c, Node(l, z, cz, Plug(sp, Node(Leaf, y, cy, yr)))))
    ensures var d := Graft(sp, Up(c, false, y, cz, l));
      && (cy == Black ==> Balanced(yr) && Fits(d, BlackHeight(yr) + 1, false))
      && (cy == Red ==> RedBlackTree(Plug(d, yr)))
  {
    var base := Up(c, false, z, cz, l);
    var ys := Node(Leaf, y, cy, yr);
    GraftPlug(sp, base, ys);
    FitsPlug(Graft(sp, base), ys);
    GraftFits(sp, base, Up(c, false, y, cz, l), BlackHeight(ys), IsRed(ys));
    TakeOutFits(Graft(sp, Up(c, false, y, cz, l)), cy, yr);
  }

  /** Memory after `y` took over z's right subtree. */
  ghost function RightTaken(m: Mem, y: Level, r: Tree): Mem {
    SetParent(SetChild(m, y, false, Ptr(r)), Ptr(r), y)
  }

  lemma {:induction false} RightTakenStored(m: Mem, c: Ctx, l: Tree, z: Level, cz: Color, r: Tree, y: Level)
    requires StoredAround(Up(c, false, z, cz, l), Ptr(r), m) && Stored(r, z, m) && y in m
    requires OncePlugged(c, Node(l, z, cz, r)) && OncePlugged(c, Node(l, y, cz, r)) && y != z
    ensures var n := RightTaken(m, y, r);
      && y in n && z in n && n[y].right == Ptr(r) && n[z] == m[z]
      && Stored(r, y, n) && Stored(l, z, n) && StoredAround(c, z, n)
  {
    var k := SetChild(m, y, false, Ptr(r));
    StoredFrame(r, z, m, k);
    ReparentStored(r, z, y, k);
    assert r.Node? ==> r.lv in Levels(r);
    StoredFrame(l, z, m, RightTaken(m, y, r));
    StoredAroundFrame(c, z, m, RightTaken(m, y, r));
  }

  /** The successor's move changes neither which levels occur nor, but for `z`, their order. */
  lemma {:induction false} SuccessorKeeps(c: Ctx, l: Tree, z: Level, cz: Color, sp: Ctx, y: Level, cy: Color, yr: Tree)
    requires Before(sp) == [] && OncePlugged(c, Node(l, z, cz, Plug(sp, Node(Leaf, y, cy, yr))))
    ensures var r := Plug(sp, yr);
      && OncePlugged(c, Node(l, z, cz, r)) && OncePlugged(c, Node(l, y, cz, r)) && y != z
      && (sp.Up? ==> sp.lv != z && r.Node?)
      && InOrder(Plug(sp, Node(Leaf, y, cy, yr))) == [y] + InOrder(r)
  {
    hide InOrder, Before;
    OncePlug(sp, Node(Leaf, y, cy, yr));
    OncePlug(sp, yr);
    SuccessorFirst(sp, y, cy, yr);
    if sp.Up? {
      assert sp.lv in Around(sp);
      ApexPlug(sp, yr);
      ApexAround(sp, Ptr(yr));
    }
  }

  lemma InOrderFirst(y: Level, cy: Color, yr: Tree)
    ensures InOrder(Node(Leaf, y, cy, yr)) == [y] + InOrder(yr)
  {
  }

  /** The minimum of a tree comes first. */
  lemma SuccessorFirst(sp: Ctx, y: Level, cy: Color, yr: Tree)
    requires Before(sp) == []
    ensures InOrder(Plug(sp, Node(Leaf, y, cy, yr))) == [y] + InOrder(Plug(sp, yr))
  {
    hide Plug, After;
    var ys := Node(Leaf, y, cy, yr);
    InOrderPlug(sp, ys);
    InOrderPlug(sp, yr);
    InOrderFirst(y, cy, yr);
    hide InOrder, Before;
    assert [y] + InOrder(yr) + After(sp) == [y] + (InOrder(yr) + After(sp));
  }

  // ---- Height ----

  ghost function Height(t: Tree): nat {
    if t.Leaf? then 0
    else 1 + if Height(t.left) > Height(t.right) then Height(t.left) else Height(t.right)
  }

  ghost function Pow2(n: nat): nat {
    if n == 0 then 1 else 2 * Pow2(n - 1)
  }

  lemma Pow2Sum(a: nat, b: nat)
    ensures Pow2(a + b) == Pow2(a) * Pow2(b) && Pow2(a) > 0
  {
    if a > 0 {
      Pow2Sum(a - 1, b);
      assert Pow2(a + b) == 2 * Pow2(a - 1 + b);
    }
  }

  lemma {:induction false} HeightByBlack(t: Tree)
    requires Shaped(t)
    ensures BlackHeight(t) >= 1
    ensures Height(t) <= 2 * (BlackHeight(t) - 1) + if IsRed(t) then 1 else 0
    ensures Pow2(BlackHeight(t) - 1) <= |InOrder(t)| + 1
  {
    if t.Node? {
      HeightByBlack(t.left);
      HeightByBlack(t.right);
    }
  }

  lemma {:induction false} Pow2Grows(a: nat, b: nat)
    requires a <= b
    ensures Pow2(a) <= Pow2(b)
  {
    Pow2Sum(a, b - a);
    Pow2Sum(b - a, 0);
    assert Pow2(a) * Pow2(b - a) >= Pow2(a) by { assert Pow2(b - a) >= 1; }
  }

  /** The height of a tree of `n` levels is at most twice the binary logarithm of `n + 1`. */
  lemma {:induction false} HeightBound(t: Tree)
    requires RedBlackTree(t)
    ensures Pow2(Height(t)) <= (|InOrder(t)| + 1) * (|InOrder(t)| + 1)
  {
    HeightByBlack(t);
    var b := BlackHeight(t) - 1;
    Pow2Grows(Height(t), b + b);
    Pow2Sum(b, b);
    SquareGrows(Pow2(b), |InOrder(t)| + 1);
  }

  lemma SquareGrows(p: nat, n: nat)
    requires p <= n
    ensures p * p <= n * n
  {
  }

  // ---- The search order, as the tree check tests it ----

  ghost predicate Ordered(t: Tree, lo: int, hi: int) {
    t.Node? ==> lo < t.lv.price < hi && Ordered(t.left, lo, t.lv.price) && Ordered(t.right, t.lv.price, hi)
  }

  lemma {:induction false} OrderedSorted(t: Tree, lo: int, hi: int)
    ensures Ordered(t, lo, hi) <==> Sorted(InOrder(t)) && forall v :: v in InOrder(t) ==> lo < v.price < hi
  {
    if t.Node? {
      OrderedSorted(t.left, lo, t.lv.price);
      OrderedSorted(t.right, t.lv.price, hi);
      SortedJoin(InOrder(t.left), t.lv, InOrder(t.right));
      var s := InOrder(t);
      assert t.lv in s;
      assert forall v :: v in InOrder(t.left) ==> v in s;
      assert forall v :: v in InOrder(t.right) ==> v in s;
      assert forall v :: v in s ==> v in InOrder(t.left) || v == t.lv || v in InOrder(t.right);
    }
  }

  lemma SortedJoin(s: seq<Level>, x: Level, t: seq<Level>)
    ensures Sorted(s + [x] + t) <==>
      (Sorted(s) && Sorted(t) && (forall v :: v in s ==> v.price < x.price) && (forall v :: v in t ==>
          x.price < v.price))
  {
    if Sorted(s + [x] + t) {
      SortedAround(s, x, t);
    }
    if Sorted(s) && Sorted(t) && (forall v :: v in s ==> v.price < x.price) && (forall v :: v in t ==>
        x.price < v.price) {
      SortedSplit(s, [x]);
      SortedSplit(s + [x], t);
    }
  }
}
