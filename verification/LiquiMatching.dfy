/**
  * What Liquibook's matching does to one side of its market: the pass of an ordinary order,
  * and the parts an all-or-none order takes from the side.
  */
module LiquiMatching {
  import opened Orders
  import opened Matching
  import opened LiquiOrders

  // ---- A side of the market ----

  ghost predicate InLine(s: seq<Tracker>, i: nat, j: nat)
    requires i < |s| && j < |s|
  {
    s[i].order != s[j].order && !Before(s[i].order.isBuy, s[j].order.price, s[i].order.price)
  }

  /** A resting tracker has something open, has a limit and is not immediate. */
  ghost predicate MayStay(buy: bool, t: Tracker) {
    t.order.isBuy == buy && t.order.price != MARKET && 0 < t.open <= t.order.qty < WORD && !t.ioc
  }

  /** The all-or-none orders of a side are untouched. */
  ghost predicate Whole(s: seq<Tracker>) {
    forall t :: t in s && t.aon ==> t.open == t.order.qty
  }

  /** Best price first, no order twice. */
  ghost predicate MarketSide(buy: bool, s: seq<Tracker>) {
    && (forall i :: 0 <= i < |s| ==> MayStay(buy, s[i]))
    && (forall i, j :: 0 <= i < j < |s| ==> InLine(s, i, j))
  }

  lemma {:induction false} WhereAt(buy: bool, s: seq<Tracker>, i: nat)
    requires MarketSide(buy, s) && i < |s|
    ensures Where(s, s[i].order) == i
  {
    var p := Where(s, s[i].order);
    assert p <= i;
    assert p < i ==> InLine(s, p, i);
  }

  // ---- An ordinary incoming order ----

  /** The side, the incoming order, the fills, and the all-or-none orders that wanted more than was left. */
  datatype Pass = Pass(current: seq<Tracker>, inbound: Tracker, fills: seq<Callback>, deferred: seq<SimpleOrder>)

  /** The incoming order after it has met `t`: an all-or-none order that wants more than is left is passed over. */
  function After(t: Tracker, i: Tracker): Tracker {
    if t.aon && t.open > i.open then i else i.(open := i.open - Min(i.open, t.open))
  }

  /** The rest `p` of a pass with its meeting with `t` in front. */
  function Meet(t: Tracker, i: Tracker, p: Pass): Pass {
    if t.aon && t.open > i.open then
      p.(current := [t] + p.current, deferred := [t.order] + p.deferred)
    else
      var q := Min(i.open, t.open);
      p.(current := (if t.open == q then [] else [t.(open := t.open - q)]) + p.current,
         fills := [OnFill(i.order, t.order, q, t.order.price)] + p.fills)
  }

  function RegularPass(s: seq<Tracker>, inbound: Tracker): Pass {
    if s == [] || inbound.open == 0 || !Matches(s[0].order.isBuy, s[0].order.price, inbound.order.price) then
      Pass(s, inbound, [], [])
    else
      Meet(s[0], inbound, RegularPass(s[1..], After(s[0], inbound)))
  }

  // ---- Parts taken from a side ----

  /** The side after every order has given up its part. */
  function Reduce(s: seq<Tracker>, f: seq<nat>): seq<Tracker>
    requires |f| == |s|
  {
    if s == [] then []
    else if f[0] >= s[0].open then Reduce(s[1..], f[1..])
    else [s[0].(open := s[0].open - f[0])] + Reduce(s[1..], f[1..])
  }

  /** What leaves the side: the parts given, and all of the orders that are dropped. */
  ghost function Leaving(s: seq<Tracker>, f: seq<nat>, drop: set<SimpleOrder>): (g: seq<nat>)
    requires |f| == |s|
    ensures |g| == |s| && forall i :: 0 <= i < |s| ==> g[i] == if s[i].order in drop then s[i].open else f[i]
    ensures drop == {} ==> g == f
  {
    seq(|s|, i requires 0 <= i < |s| => if s[i].order in drop then s[i].open else f[i])
  }

  /** Orders of the side that have something left. */
  ghost predicate Drops(s: seq<Tracker>, f: seq<nat>, drop: set<SimpleOrder>)
    requires |f| == |s|
  {
    forall o :: o in drop ==> Where(s, o) < |s| && f[Where(s, o)] < s[Where(s, o)].open
  }

  /** The fills reported when every order gives up its part. */
  function FillsOf(o: SimpleOrder, s: seq<Tracker>, f: seq<nat>): seq<Callback>
    requires |f| == |s|
  {
    if s == [] then []
    else
      var rest := FillsOf(o, s[1..], f[1..]);
      if f[0] == 0 then rest else [OnFill(o, s[0].order, f[0], s[0].order.price)] + rest
  }

  /** A part is no more than is open, and within the limit. */
  ghost predicate PartIn(s: seq<Tracker>, inbound: Tracker, f: seq<nat>, i: nat)
    requires i < |s| == |f|
  {
    f[i] <= s[i].open && (f[i] > 0 ==> Matches(s[i].order.isBuy, s[i].order.price, inbound.order.price))
  }

  /** Every order gives up no more than it has, and only if the limit reaches it. */
  ghost predicate Within(s: seq<Tracker>, inbound: Tracker, f: seq<nat>) {
    |f| == |s| && forall i :: 0 <= i < |f| ==> PartIn(s, inbound, f, i)
  }

  /** A part is no more than is open, within the limit, and whole if the order is all-or-none. */
  ghost predicate PartOk(s: seq<Tracker>, inbound: Tracker, f: seq<nat>, i: nat)
    requires i < |s| == |f|
  {
    PartIn(s, inbound, f, i) && (s[i].aon ==> f[i] == 0 || f[i] == s[i].open)
  }

  /** Every all-or-none order is filled whole or not at all, within the limit, and `total` is traded in all. */
  ghost predicate Taken(s: seq<Tracker>, inbound: Tracker, f: seq<nat>, total: nat) {
    |f| == |s| && Sum(f) == total && forall i :: 0 <= i < |f| ==> PartOk(s, inbound, f, i)
  }

  /** How many of the first `i` orders still have something open. */
  ghost function Kept(s: seq<Tracker>, f: seq<nat>, i: nat): nat
    requires i <= |s| == |f|
  {
    if i == 0 then 0 else Kept(s, f, i - 1) + if f[i - 1] < s[i - 1].open then 1 else 0
  }

  lemma KeptRest(s: seq<Tracker>, f: seq<nat>, i: nat)
    requires 0 < i <= |s| == |f|
    ensures Kept(s, f, i) == Kept(s[1..], f[1..], i - 1) + |Rest(s[0], f[0])|
  {
    if i > 1 { KeptRest(s, f, i - 1); }
  }

  /** Where a surviving order is after the parts are taken. */
  lemma {:induction false} ReduceAt(s: seq<Tracker>, f: seq<nat>, i: nat)
    requires i < |s| == |f| && f[i] < s[i].open
    ensures Kept(s, f, i) < |Reduce(s, f)| && Reduce(s, f)[Kept(s, f, i)] == s[i].(open := s[i].open - f[i])
  {
    if i > 0 {
      KeptRest(s, f, i);
      ReduceAt(s[1..], f[1..], i - 1);
    }
  }

  lemma SideRest(buy: bool, s: seq<Tracker>, n: nat)
    requires MarketSide(buy, s) && n <= |s|
    ensures MarketSide(buy, s[n..])
  {
    forall i, j | 0 <= i < j < |s[n..]| ensures InLine(s[n..], i, j) { assert InLine(s, n + i, n + j); }
  }

  /** Finding a surviving order after the parts are taken. */
  lemma {:induction false} WhereReduced(buy: bool, s: seq<Tracker>, f: seq<nat>, i: nat)
    requires MarketSide(buy, s) && i < |s| == |f| && f[i] < s[i].open
    ensures Where(Reduce(s, f), s[i].order) == Kept(s, f, i)
    decreases |s|
  {
    if i > 0 {
      KeptRest(s, f, i);
      SideRest(buy, s, 1);
      WhereReduced(buy, s[1..], f[1..], i - 1);
      assert InLine(s, 0, i);
    }
  }

  /** Taking a further part of one order. */
  lemma {:induction false} ReduceStep(s: seq<Tracker>, f: seq<nat>, i: nat, q: nat)
    requires i < |s| == |f| && f[i] < s[i].open && f[i] <= q <= s[i].open
    ensures var p := Kept(s, f, i); var r := Reduce(s, f);
      p < |r| && Reduce(s, f[i := q])
        == if q == s[i].open then r[..p] + r[p + 1..] else r[p := s[i].(open := s[i].open - q)]
  {
    hide Reduce, Kept, Rest;
    ReduceAt(s, f, i);
    ReduceCons(s, f);
    ReduceCons(s, f[i := q]);
    var h, t := Rest(s[0], f[0]), Reduce(s[1..], f[1..]);
    if i == 0 {
      KeptNone(s, f);
      assert f[0 := q][1..] == f[1..];
      RestStep(s[0], f[0], q, t);
    } else {
      KeptRest(s, f, i);
      ReduceStep(s[1..], f[1..], i - 1, q);
      assert f[i := q][1..] == f[1..][i - 1 := q];
      ShiftedStep(h, t, Kept(s[1..], f[1..], i - 1), s[i].(open := s[i].open - q));
    }
  }

  lemma RestStep(x: Tracker, a: nat, b: nat, t: seq<Tracker>)
    requires a < x.open && a <= b <= x.open
    ensures var r := Rest(x, a) + t;
      Rest(x, b) + t == if b == x.open then r[..0] + r[1..] else r[0 := x.(open := x.open - b)]
  {
  }

  lemma ShiftedStep(h: seq<Tracker>, t: seq<Tracker>, p: nat, x: Tracker)
    requires p < |t|
    ensures h + (t[..p] + t[p + 1..]) == (h + t)[..|h| + p] + (h + t)[|h| + p + 1..]
    ensures h + t[p := x] == (h + t)[|h| + p := x]
  {
  }

  lemma KeptNone(s: seq<Tracker>, f: seq<nat>)
    requires |f| == |s|
    ensures Kept(s, f, 0) == 0
  {
  }

  /** What stays of an order that gives up `q`. */
  ghost function Rest(t: Tracker, q: nat): (r: seq<Tracker>)
    ensures r == if q < t.open then [t.(open := t.open - q)] else []
  {
    if q < t.open then [t.(open := t.open - q)] else []
  }

  lemma ReduceCons(s: seq<Tracker>, f: seq<nat>)
    requires s != [] && |f| == |s|
    ensures Reduce(s, f) == Rest(s[0], f[0]) + Reduce(s[1..], f[1..])
  {
  }

  lemma SumStep(f: seq<nat>, i: nat, q: nat)
    requires i < |f| && f[i] == 0
    ensures Sum(f[i := q]) == Sum(f) + q
  {
    if i > 0 {
      SumStep(f[1..], i - 1, q);
      assert f[i := q][1..] == f[1..][i - 1 := q];
    } else {
      assert f[0 := q][1..] == f[1..];
    }
  }

  /** A further fill comes last if the orders behind it have none yet. */
  lemma FillsStep(o: SimpleOrder, s: seq<Tracker>, f: seq<nat>, i: nat, q: nat)
    requires i < |s| == |f| && q > 0 && forall j :: i <= j < |f| ==> f[j] == 0
    ensures FillsOf(o, s, f[i := q]) == FillsOf(o, s, f) + [OnFill(o, s[i].order, q, s[i].order.price)]
  {
    if i > 0 {
      FillsStep(o, s[1..], f[1..], i - 1, q);
      assert f[i := q][1..] == f[1..][i - 1 := q];
    } else {
      assert f[0 := q][1..] == f[1..];
      NoFills(o, s[1..], f[1..]);
    }
  }

  lemma {:induction false} NoFills(o: SimpleOrder, s: seq<Tracker>, f: seq<nat>)
    requires |f| == |s| && forall j :: 0 <= j < |f| ==> f[j] == 0
    ensures FillsOf(o, s, f) == [] && Sum(f) == 0
  {
    if s != [] { NoFills(o, s[1..], f[1..]); }
  }

  lemma {:induction false} NoneTaken(s: seq<Tracker>, f: seq<nat>)
    requires |f| == |s| && (forall j :: 0 <= j < |f| ==> f[j] == 0) && forall i :: 0 <= i < |s| ==> s[i].open > 0
    ensures Reduce(s, f) == s
  {
    if s != [] { NoneTaken(s[1..], f[1..]); }
  }

  ghost function NoParts(n: nat): (f: seq<nat>)
    ensures |f| == n && forall i :: 0 <= i < n ==> f[i] == 0
  {
    seq(n, i => 0)
  }

  lemma {:induction false} NothingTaken(o: SimpleOrder, s: seq<Tracker>)
    requires forall i :: 0 <= i < |s| ==> s[i].open > 0
    ensures var f := NoParts(|s|); Reduce(s, f) == s && FillsOf(o, s, f) == [] && Sum(f) == 0
  {
    NoFills(o, s, NoParts(|s|));
    NoneTaken(s, NoParts(|s|));
  }

  // ---- Proposals for the deferred orders ----

  /** First pass: how much each deferred order could give, up to `max` in all. */
  function Propose(ts: seq<Tracker>, max: nat): (p: seq<nat>)
    ensures |p| == |ts| && Sum(p) <= max
    ensures forall j :: 0 <= j < |p| ==> p[j] <= ts[j].open && (ts[j].aon ==> p[j] == 0 || p[j] == ts[j].open)
  {
    if ts == [] then []
    else
      var q := if ts[0].open > max then (if ts[0].aon then 0 else max) else ts[0].open;
      [q] + Propose(ts[1..], max - q)
  }

  ghost predicate Rises(d: seq<nat>, i: nat, j: nat)
    requires i < |d| && j < |d|
  {
    d[i] < d[j]
  }

  /** The deferred orders are those at the positions `d` of the side, in order, all before `k`. */
  ghost predicate Deferred(s: seq<Tracker>, d: seq<nat>, deferred: seq<SimpleOrder>, k: nat) {
    && |d| == |deferred| && k <= |s|
    && (forall j :: 0 <= j < |d| ==> d[j] < k && s[d[j]].order == deferred[j])
    && (forall i, j :: 0 <= i < j < |d| ==> Rises(d, i, j))
  }

  ghost function EntriesAt(s: seq<Tracker>, d: seq<nat>): (t: seq<Tracker>)
    requires forall j :: 0 <= j < |d| ==> d[j] < |s|
    ensures |t| == |d| && forall j :: 0 <= j < |d| ==> t[j] == s[d[j]]
  {
    seq(|d|, j requires 0 <= j < |d| => s[d[j]])
  }

  /** The first `n` proposals, at their positions; nothing elsewhere. */
  ghost function Scatter(len: nat, d: seq<nat>, p: seq<nat>, n: nat): (f: seq<nat>)
    requires n <= |d| == |p| && forall j :: 0 <= j < |d| ==> d[j] < len
    ensures |f| == len
  {
    if n == 0 then NoParts(len) else Scatter(len, d, p, n - 1)[d[n - 1] := p[n - 1]]
  }

  lemma {:induction false} ScatterAt(s: seq<Tracker>, d: seq<nat>, deferred: seq<SimpleOrder>, k: nat, p: seq<nat>,
                                     n: nat)
    requires Deferred(s, d, deferred, k) && n <= |d| == |p|
    ensures forall j :: 0 <= j < n ==> Scatter(|s|, d, p, n)[d[j]] == p[j]
    ensures forall i :: 0 <= i < |s| && Scatter(|s|, d, p, n)[i] != 0 ==> exists j :: 0 <= j < n && d[j] == i
    ensures forall i :: 0 <= i < |s| && (n == 0 || d[n - 1] < i) ==> Scatter(|s|, d, p, n)[i] == 0
  {
    if n > 0 {
      var m := n - 1;
      ScatterAt(s, d, deferred, k, p, m);
      assert m > 0 ==> Rises(d, m - 1, m);
      var f, g := Scatter(|s|, d, p, m), Scatter(|s|, d, p, n);
      forall j | 0 <= j < n ensures g[d[j]] == p[j] {
        if j < m { assert Rises(d, j, m); }
      }
      forall i | 0 <= i < |s| && g[i] != 0 ensures exists j :: 0 <= j < n && d[j] == i {
        if i == d[n - 1] {
          assert d[n - 1] == i;
        } else {
          assert f[i] != 0;
          var j :| 0 <= j < n - 1 && d[j] == i;
        }
      }
    }
  }

  lemma {:induction false} SumSplit(p: seq<nat>, n: nat)
    requires n <= |p|
    ensures Sum(p) == Sum(p[..n]) + Sum(p[n..])
  {
    if n > 0 {
      SumSplit(p[1..], n - 1);
      assert p[..n][1..] == p[1..][..n - 1] && p[n..] == p[1..][n - 1..];
    }
  }

  lemma {:induction false} SumNext(p: seq<nat>, n: nat)
    requires n < |p|
    ensures Sum(p[..n + 1]) == Sum(p[..n]) + p[n] && Sum(p[..n + 1]) <= Sum(p)
  {
    SumSplit(p, n + 1);
    SumSplit(p[..n + 1], n);
    assert p[..n + 1][..n] == p[..n] && p[..n + 1][n..] == [p[n]];
    assert [p[n]][1..] == [];
  }

  /** One more proposal is executed. */
  lemma ScatterStep(o: SimpleOrder, s: seq<Tracker>, d: seq<nat>, deferred: seq<SimpleOrder>, k: nat, p: seq<nat>,
                    n: nat)
    requires Deferred(s, d, deferred, k) && n < |d| == |p| && p[n] <= s[d[n]].open && s[d[n]].open > 0
    ensures var f, g := Scatter(|s|, d, p, n), Scatter(|s|, d, p, n + 1); var r, w := Reduce(s, f), Kept(s, f, d[n]);
      && f[d[n]] == 0 && w < |r| && r[w] == s[d[n]] && Sum(g) == Sum(f) + p[n]
      && Reduce(s, g)
        == (if p[n] == s[d[n]].open then r[..w] + r[w + 1..] else r[w := s[d[n]].(open := s[d[n]].open - p[n])])
      && FillsOf(o, s, g)
        == FillsOf(o, s, f) + (if p[n] == 0 then [] else [OnFill(o, s[d[n]].order, p[n], s[d[n]].order.price)])
  {
    ScatterAt(s, d, deferred, k, p, n);
    var f := Scatter(|s|, d, p, n);
    var i := d[n];
    assert n > 0 ==> Rises(d, n - 1, n);
    assert f[i] == 0;
    ReduceAt(s, f, i);
    ReduceStep(s, f, i, p[n]);
    SumStep(f, i, p[n]);
    if p[n] > 0 {
      FillsStep(o, s, f, i, p[n]);
    } else {
      assert f[i := 0] == f;
    }
  }

  /** The remaining proposals are nothing, so leaving them out changes nothing. */
  lemma {:induction false} ScatterRest(s: seq<Tracker>, d: seq<nat>, deferred: seq<SimpleOrder>, k: nat, p: seq<nat>,
                                       n: nat)
    requires Deferred(s, d, deferred, k) && n <= |d| == |p| && Sum(p[n..]) == 0
    ensures Scatter(|s|, d, p, n) == Scatter(|s|, d, p, |d|)
    decreases |d| - n
  {
    if n < |d| {
      assert p[n..][0] == p[n] && p[n..][1..] == p[n + 1..];
      ScatterAt(s, d, deferred, k, p, n);
      assert n > 0 ==> Rises(d, n - 1, n);
      assert Scatter(|s|, d, p, n)[d[n] := 0] == Scatter(|s|, d, p, n);
      ScatterRest(s, d, deferred, k, p, n + 1);
    }
  }

  // ---- What a pass takes from the side ----

  lemma TakenWithin(s: seq<Tracker>, inbound: Tracker, f: seq<nat>, total: nat)
    requires Taken(s, inbound, f, total)
    ensures Within(s, inbound, f) && Sum(f) == total
  {
    forall i | 0 <= i < |f| ensures PartIn(s, inbound, f, i) { assert PartOk(s, inbound, f, i); }
  }

  /** An order left on the side, and what it was before the parts were taken. */
  ghost predicate LeftOf(s: seq<Tracker>, f: seq<nat>, t: Tracker, i: nat)
    requires |f| == |s|
  {
    i < |s| && f[i] < s[i].open && t == s[i].(open := s[i].open - f[i])
  }

  /** What is left are orders of the side with their parts taken. */
  lemma LeftAt(s: seq<Tracker>, f: seq<nat>, t: Tracker) returns (i: nat)
    requires |f| == |s| && t in Reduce(s, f)
    ensures LeftOf(s, f, t, i)
  {
    if f[0] < s[0].open && t == s[0].(open := s[0].open - f[0]) {
      i := 0;
    } else {
      i := LeftAt(s[1..], f[1..], t);
      i := i + 1;
    }
  }

  /** Parts taken keep the side a side. */
  lemma {:induction false} ReduceSide(buy: bool, s: seq<Tracker>, f: seq<nat>)
    requires MarketSide(buy, s) && |f| == |s|
    ensures MarketSide(buy, Reduce(s, f))
    decreases |s|
  {
    hide MayStay, InLine;
    if s != [] {
      SideRest(buy, s, 1);
      ReduceSide(buy, s[1..], f[1..]);
      ReduceCons(s, f);
      FirstLeft(buy, s, f);
    }
  }

  lemma FirstLeft(buy: bool, s: seq<Tracker>, f: seq<nat>)
    requires MarketSide(buy, s) && s != [] && |f| == |s| && MarketSide(buy, Reduce(s[1..], f[1..]))
    ensures MarketSide(buy, Rest(s[0], f[0]) + Reduce(s[1..], f[1..]))
  {
    hide Reduce;
    assert MayStay(buy, s[0]);
    var r, u := Reduce(s[1..], f[1..]), Rest(s[0], f[0]) + Reduce(s[1..], f[1..]);
    if f[0] < s[0].open {
      forall i, j | 0 <= i < j < |u| ensures InLine(u, i, j) {
        assert u[j] == r[j - 1] && r[j - 1] in r;
        if i > 0 {
          assert InLine(r, i - 1, j - 1);
        } else {
          var k := LeftAt(s[1..], f[1..], r[j - 1]);
          assert InLine(s, 0, k + 1);
        }
      }
      forall i | 0 <= i < |u| ensures MayStay(buy, u[i]) { assert i > 0 ==> MayStay(buy, r[i - 1]); }
    } else {
      assert u == r;
    }
  }

  /** All-or-none orders taken whole or not at all leave those on the side untouched. */
  lemma ReduceWhole(s: seq<Tracker>, inbound: Tracker, f: seq<nat>, total: nat)
    requires Whole(s) && Taken(s, inbound, f, total)
    ensures Whole(Reduce(s, f))
  {
    forall t | t in Reduce(s, f) && t.aon ensures t.open == t.order.qty {
      var i := LeftAt(s, f, t);
      assert PartOk(s, inbound, f, i) && s[i] in s;
    }
  }

  /** The pass of an ordinary order, as the parts it takes. */
  lemma RegularIsTaken(buy: bool, s: seq<Tracker>, inbound: Tracker) returns (f: seq<nat>)
    requires MarketSide(buy, s)
    ensures var p := RegularPass(s, inbound);
      && Taken(s, inbound, f, Sum(f)) && Sum(f) <= inbound.open && p.inbound == inbound.(open := inbound.open - Sum(f))
      && p.current == Reduce(s, f) && p.fills == FillsOf(inbound.order, s, f)
    decreases |s|
  {
    hide Reduce, FillsOf, Sum, Matches;
    if s == [] || inbound.open == 0 || !Matches(s[0].order.isBuy, s[0].order.price, inbound.order.price) {
      f := NoParts(|s|);
      forall i | 0 <= i < |s| ensures s[i].open > 0 { assert MayStay(buy, s[i]); }
      NothingTaken(inbound.order, s);
    } else {
      assert MayStay(buy, s[0]);
      SideRest(buy, s, 1);
      var q := if s[0].aon && s[0].open > inbound.open then 0 else Min(inbound.open, s[0].open);
      var g := RegularIsTaken(buy, s[1..], inbound.(open := inbound.open - q));
      f := [q] + g;
      TakenFront(s, inbound, inbound.(open := inbound.open - q), q, g);
    }
  }

  lemma {:induction false} TakenFront(s: seq<Tracker>, inbound: Tracker, rest: Tracker, q: nat, g: seq<nat>)
    requires s != [] && Taken(s[1..], rest, g, Sum(g)) && rest.order == inbound.order && q <= s[0].open
    requires Matches(s[0].order.isBuy, s[0].order.price, inbound.order.price) && (s[0].aon ==> q == 0 || q == s[0].open)
    ensures Taken(s, inbound, [q] + g, q + Sum(g)) && Sum([q] + g) == q + Sum(g)
    ensures Reduce(s, [q] + g) == (if q == s[0].open then [] else [s[0].(open := s[0].open - q)]) + Reduce(s[1..], g)
    ensures FillsOf(inbound.order, s, [q] + g)
      == (if q == 0 then [] else [OnFill(inbound.order, s[0].order, q, s[0].order.price)])
        + FillsOf(inbound.order, s[1..], g)
  {
    var f := [q] + g;
    assert f[1..] == g;
    forall i | 0 <= i < |f| ensures PartOk(s, inbound, f, i) {
      if i > 0 { assert PartOk(s[1..], rest, g, i - 1); }
    }
  }

  // ---- The order objects after the callbacks ----

  /** What order `o` gives or gets in the fills of `x` from the side. */
  ghost function Share(o: SimpleOrder, x: SimpleOrder, s: seq<Tracker>, f: seq<nat>): nat
    requires |f| == |s|
  {
    if o == x then Sum(f) else if Where(s, o) < |s| then f[Where(s, o)] else 0
  }

  /** A status after a further `q` has been filled. */
  ghost predicate FilledBy(o: SimpleOrder, was: Status, now: Status, q: nat) {
    && now.filled == was.filled + q
    && now.state == if q > 0 && OpenOf(o, now) == 0 then CompleteOrder else was.state
  }

  /** The fills change every order object by its share. */
  lemma {:induction false} FillsTouch(buy: bool, o: SimpleOrder, st: Status, x: SimpleOrder, s: seq<Tracker>,
                                      f: seq<nat>)
    requires MarketSide(buy, s) && |f| == |s| && x.isBuy != buy
    ensures FilledBy(o, st, TouchAll(o, st, FillsOf(x, s, f)), Share(o, x, s, f))
    decreases |s|
  {
    if s != [] {
      assert MayStay(buy, s[0]);
      SideRest(buy, s, 1);
      var rest := FillsOf(x, s[1..], f[1..]);
      var cb := OnFill(x, s[0].order, f[0], s[0].order.price);
      var mid := if f[0] == 0 then st else Touch(o, st, cb);
      if f[0] > 0 { TouchFirst(o, st, cb, rest); }
      FillsTouch(buy, o, mid, x, s[1..], f[1..]);
      if s[0].order == o { NotBehind(buy, s); }
    }
  }

  /** A product in 32 bits. */
  ghost function Product(q: nat, px: nat): nat {
    (q * px) % 0x1_0000_0000
  }

  /** What the fills of `x` from the side come to for the order `o`, each a 32-bit product. */
  ghost function CostShare(o: SimpleOrder, x: SimpleOrder, s: seq<Tracker>, f: seq<nat>): nat
    requires |f| == |s|
  {
    if s == [] then 0
    else
      (if o == x || o == s[0].order then Product(f[0], s[0].order.price) else 0)
        + CostShare(o, x, s[1..], f[1..])
  }

  /** The fills add what they come to to the cost of every order object, in 32 bits. */
  lemma {:induction false} FillsCost(o: SimpleOrder, st: Status, x: SimpleOrder, s: seq<Tracker>, f: seq<nat>)
    requires |f| == |s| && st.cost < WORD && forall i :: 0 <= i < |s| ==> s[i].order != x
    ensures TouchAll(o, st, FillsOf(x, s, f)).cost == (st.cost + CostShare(o, x, s, f)) % 0x1_0000_0000
    decreases |s|
  {
    hide Touch, TouchAll, FillsOf, CostShare, Product;
    if s == [] {
      NoCost(o, st, x);
    } else {
      var cb := OnFill(x, s[0].order, f[0], s[0].order.price);
      var mid := if f[0] == 0 then st else Touch(o, st, cb);
      FillsFirst(o, st, x, s, f);
      FillCost(o, st, cb);
      FillsCost(o, mid, x, s[1..], f[1..]);
      CostFirst(o, st, mid, x, s, f);
    }
  }

  lemma NoCost(o: SimpleOrder, st: Status, x: SimpleOrder)
    ensures TouchAll(o, st, FillsOf(x, [], [])) == st && CostShare(o, x, [], []) == 0
  {
  }

  /** The fills from the first order of the side on. */
  lemma FillsFirst(o: SimpleOrder, st: Status, x: SimpleOrder, s: seq<Tracker>, f: seq<nat>)
    requires |f| == |s| > 0
    ensures var mid := if f[0] == 0 then st else Touch(o, st, OnFill(x, s[0].order, f[0], s[0].order.price));
      TouchAll(o, st, FillsOf(x, s, f)) == TouchAll(o, mid, FillsOf(x, s[1..], f[1..]))
  {
    hide Touch, TouchAll;
    if f[0] > 0 { TouchFirst(o, st, OnFill(x, s[0].order, f[0], s[0].order.price), FillsOf(x, s[1..], f[1..])); }
  }

  lemma CostFirst(o: SimpleOrder, st: Status, mid: Status, x: SimpleOrder, s: seq<Tracker>, f: seq<nat>)
    requires |f| == |s| > 0
    requires mid.cost
      == (st.cost + if o == x || o == s[0].order then Product(f[0], s[0].order.price) else 0) % 0x1_0000_0000
    ensures (mid.cost + CostShare(o, x, s[1..], f[1..])) % 0x1_0000_0000
      == (st.cost + CostShare(o, x, s, f)) % 0x1_0000_0000
  {
    hide Product;
    var c := if o == x || o == s[0].order then Product(f[0], s[0].order.price) else 0;
    SumCut(st.cost + c, CostShare(o, x, s[1..], f[1..]));
  }

  lemma FillCost(o: SimpleOrder, st: Status, cb: Callback)
    requires cb.OnFill? && cb.order != cb.matched && st.cost < WORD
    ensures Touch(o, st, cb).cost
      == (st.cost + if o == cb.order || o == cb.matched then Product(cb.qty, cb.price) else 0) % 0x1_0000_0000
    ensures cb.qty == 0 ==> Product(cb.qty, cb.price) == 0
  {
  }

  lemma SumCut(a: nat, b: nat)
    ensures (a % 0x1_0000_0000 + b) % 0x1_0000_0000 == (a + b) % 0x1_0000_0000
  {
  }

  lemma {:induction false} TouchFirst(o: SimpleOrder, st: Status, cb: Callback, rest: seq<Callback>)
    ensures TouchAll(o, st, [cb] + rest) == TouchAll(o, Touch(o, st, cb), rest)
  {
    TouchConcat(o, st, [cb], rest);
    assert [cb][..0] == [];
    assert TouchAll(o, st, [cb]) == Touch(o, TouchAll(o, st, []), cb);
  }

  lemma NotBehind(buy: bool, s: seq<Tracker>)
    requires MarketSide(buy, s) && s != []
    ensures Where(s[1..], s[0].order) == |s| - 1
  {
    forall j | 0 < j < |s| ensures s[j].order != s[0].order { assert InLine(s, 0, j); }
  }

  // ---- The deferred all-or-none orders ----

  ghost predicate Distinct(aons: seq<SimpleOrder>, i: nat, j: nat)
    requires i < |aons| && j < |aons|
  {
    aons[i] != aons[j]
  }

  /** Orders of the side, all-or-none, each once. */
  ghost predicate Listed(s: seq<Tracker>, aons: seq<SimpleOrder>) {
    && (forall j :: 0 <= j < |aons| ==> Where(s, aons[j]) < |s| && s[Where(s, aons[j])].aon)
    && (forall i, j :: 0 <= i < j < |aons| ==> Distinct(aons, i, j))
  }

  /** The order is one of the side's all-or-none orders. */
  ghost predicate AonOf(s: seq<Tracker>, o: SimpleOrder) {
    exists i :: 0 <= i < |s| && s[i].order == o && s[i].aon
  }

  /** The all-or-none orders passed over stay on the side. */
  lemma {:induction false} PassedOver(buy: bool, s: seq<Tracker>, inbound: Tracker)
    requires MarketSide(buy, s)
    ensures var p := RegularPass(s, inbound);
      Listed(p.current, p.deferred) && forall o :: o in p.deferred ==> AonOf(s, o)
    decreases |s|
  {
    hide RegularPass, Listed, AonOf, Matches;
    if s == [] || inbound.open == 0 || !Matches(s[0].order.isBuy, s[0].order.price, inbound.order.price) {
      PassEnds(s, inbound);
    } else {
      SideRest(buy, s, 1);
      forall j | 0 < j < |s| ensures s[j].order != s[0].order { assert InLine(s, 0, j); }
      if s[0].aon && s[0].open > inbound.open {
        PassedOver(buy, s[1..], inbound);
        PassDefers(s, inbound);
        PassedFirst(s, RegularPass(s[1..], inbound).current, RegularPass(s[1..], inbound).deferred);
      } else {
        PassedOver(buy, s[1..], inbound.(open := inbound.open - Min(inbound.open, s[0].open)));
        PassTakes(s, inbound);
        forall o | o in RegularPass(s, inbound).deferred ensures AonOf(s, o) { AonBehind(s, o); }
      }
    }
  }

  lemma PassEnds(s: seq<Tracker>, inbound: Tracker)
    requires s == [] || inbound.open == 0 || !Matches(s[0].order.isBuy, s[0].order.price, inbound.order.price)
    ensures RegularPass(s, inbound).deferred == [] && Listed(RegularPass(s, inbound).current, [])
  {
  }

  lemma PassDefers(s: seq<Tracker>, inbound: Tracker)
    requires s != [] && inbound.open > 0 && Matches(s[0].order.isBuy, s[0].order.price, inbound.order.price)
    requires s[0].aon && s[0].open > inbound.open
    ensures RegularPass(s, inbound).current == [s[0]] + RegularPass(s[1..], inbound).current
    ensures RegularPass(s, inbound).deferred == [s[0].order] + RegularPass(s[1..], inbound).deferred
  {
  }

  /** A trade that leaves the resting order something is the last of the pass. */
  lemma PassTakes(s: seq<Tracker>, inbound: Tracker)
    requires s != [] && inbound.open > 0 && Matches(s[0].order.isBuy, s[0].order.price, inbound.order.price)
    requires !(s[0].aon && s[0].open > inbound.open)
    ensures var p := RegularPass(s[1..], inbound.(open := inbound.open - Min(inbound.open, s[0].open)));
      && RegularPass(s, inbound).deferred == p.deferred
      && (Listed(p.current, p.deferred) ==> Listed(RegularPass(s, inbound).current, p.deferred))
  {
    hide Listed, Matches, RegularPass;
    PassHead(s, inbound);
    var rest := inbound.(open := inbound.open - Min(inbound.open, s[0].open));
    if inbound.open < s[0].open {
      PassEnds(s[1..], rest);
      NoneListed(RegularPass(s, inbound).current);
    } else {
      assert RegularPass(s, inbound).current == RegularPass(s[1..], rest).current;
    }
  }

  lemma PassHead(s: seq<Tracker>, inbound: Tracker)
    requires s != [] && inbound.open > 0 && Matches(s[0].order.isBuy, s[0].order.price, inbound.order.price)
    ensures RegularPass(s, inbound) == Meet(s[0], inbound, RegularPass(s[1..], After(s[0], inbound)))
  {
    hide Meet, After, Matches;
  }

  lemma NoneListed(s: seq<Tracker>)
    ensures Listed(s, [])
  {
  }

  lemma AonBehind(s: seq<Tracker>, o: SimpleOrder)
    requires s != [] && AonOf(s[1..], o)
    ensures AonOf(s, o)
  {
    var i :| 0 <= i < |s[1..]| && s[1..][i].order == o && s[1..][i].aon;
    assert s[i + 1].order == o;
  }

  lemma PassedFirst(s: seq<Tracker>, c: seq<Tracker>, aons: seq<SimpleOrder>)
    requires s != [] && s[0].aon && Listed(c, aons) && forall j :: 0 < j < |s| ==> s[j].order != s[0].order
    requires forall o :: o in aons ==> AonOf(s[1..], o)
    ensures Listed([s[0]] + c, [s[0].order] + aons)
    ensures forall o :: o in [s[0].order] + aons ==> AonOf(s, o)
  {
    assert AonOf(s, s[0].order);
    var u, l := [s[0]] + c, [s[0].order] + aons;
    forall o | o in aons ensures o != s[0].order && AonOf(s, o) {
      var i :| 0 <= i < |s[1..]| && s[1..][i].order == o && s[1..][i].aon;
      assert s[i + 1].order == o;
    }
    assert u[1..] == c;
    forall j | 0 <= j < |l| ensures Where(u, l[j]) < |u| && u[Where(u, l[j])].aon {
      if j > 0 { assert l[j] == aons[j - 1] && aons[j - 1] in aons; }
    }
    forall i, j | 0 <= i < j < |l| ensures Distinct(l, i, j) {
      assert l[j] == aons[j - 1] && aons[j - 1] in aons;
      if i > 0 { assert Distinct(aons, i - 1, j - 1); }
    }
  }

  /** All-or-none orders that give nothing stay on the side. */
  lemma {:induction false} AonsStay(buy: bool, s: seq<Tracker>, f: seq<nat>, e: seq<nat>, aons: seq<SimpleOrder>)
    requires MarketSide(buy, s) && |f| == |s|
    requires Deferred(s, e, aons, |s|) && forall j :: 0 <= j < |e| ==> s[e[j]].aon && f[e[j]] == 0
    ensures Listed(Reduce(s, f), aons)
  {
    forall j | 0 <= j < |aons|
      ensures Where(Reduce(s, f), aons[j]) < |Reduce(s, f)| && Reduce(s, f)[Where(Reduce(s, f), aons[j])].aon
    {
      assert MayStay(buy, s[e[j]]);
      WhereReduced(buy, s, f, e[j]);
      ReduceAt(s, f, e[j]);
    }
    forall i, j | 0 <= i < j < |aons| ensures Distinct(aons, i, j) {
      assert Rises(e, i, j) && InLine(s, e[i], e[j]);
    }
  }

  // ---- Regular matching one entry at a time ----

  /** From entry `k` on, the pass goes on as `p` says it ends. */
  ghost predicate Passing(p: Pass, c: seq<Tracker>, k: nat, i: Tracker, fills: seq<Callback>, aons: seq<SimpleOrder>) {
    k <= |c| &&
    var r := RegularPass(c[k..], i);
    p.current == c[..k] + r.current && p.inbound == r.inbound && p.fills == fills + r.fills
      && p.deferred == aons + r.deferred
  }

  lemma {:induction false} PassStart(s: seq<Tracker>, i: Tracker)
    ensures Passing(RegularPass(s, i), s, 0, i, [], [])
  {
    assert s[0..] == s;
  }

  lemma PassStop(p: Pass, c: seq<Tracker>, k: nat, i: Tracker, fills: seq<Callback>, aons: seq<SimpleOrder>)
    requires Passing(p, c, k, i, fills, aons)
    requires k == |c| || i.open == 0 || !Matches(c[k].order.isBuy, c[k].order.price, i.order.price)
    ensures p == Pass(c, i, fills, aons)
  {
    assert c[..k] + c[k..] == c && fills + [] == fills && aons + [] == aons;
  }

  lemma PassDefer(p: Pass, c: seq<Tracker>, k: nat, i: Tracker, fills: seq<Callback>, aons: seq<SimpleOrder>)
    requires Passing(p, c, k, i, fills, aons)
    requires k < |c| && i.open > 0 && Matches(c[k].order.isBuy, c[k].order.price, i.order.price) && c[k].aon
    requires c[k].open > i.open
    ensures Passing(p, c, k + 1, i, fills, aons + [c[k].order])
  {
    assert c[k..][1..] == c[k + 1..];
    var r := RegularPass(c[k + 1..], i);
    assert c[..k] + ([c[k]] + r.current) == c[..k + 1] + r.current;
    assert aons + ([c[k].order] + r.deferred) == (aons + [c[k].order]) + r.deferred;
  }

  lemma PassTrade(p: Pass, c: seq<Tracker>, k: nat, i: Tracker, fills: seq<Callback>, aons: seq<SimpleOrder>)
    requires Passing(p, c, k, i, fills, aons)
    requires k < |c| && i.open > 0 && Matches(c[k].order.isBuy, c[k].order.price, i.order.price)
    requires !(c[k].aon && c[k].open > i.open)
    ensures var q := Min(i.open, c[k].open); var fills' := fills + [OnFill(i.order, c[k].order, q, c[k].order.price)];
      if q == c[k].open then Passing(p, c[..k] + c[k + 1..], k, i.(open := i.open - q), fills', aons)
      else Passing(p, c[k := c[k].(open := c[k].open - q)], k + 1, i.(open := i.open - q), fills', aons)
  {
    var q := Min(i.open, c[k].open);
    assert c[k..][1..] == c[k + 1..] && c[k..][0] == c[k];
    var r := RegularPass(c[k + 1..], i.(open := i.open - q));
    var x := OnFill(i.order, c[k].order, q, c[k].order.price);
    assert fills + ([x] + r.fills) == (fills + [x]) + r.fills;
    if q == c[k].open {
      var u := c[..k] + c[k + 1..];
      assert u[..k] == c[..k] && u[k..] == c[k + 1..] && [] + r.current == r.current;
    } else {
      var t := c[k].(open := c[k].open - q);
      var u := c[k := t];
      assert u[..k + 1] == c[..k] + [t] && u[k + 1..] == c[k + 1..];
      assert c[..k] + ([t] + r.current) == (c[..k] + [t]) + r.current;
    }
  }

  ghost predicate NoAons(s: seq<Tracker>) {
    forall i :: 0 <= i < |s| ==> !s[i].aon
  }

  lemma {:induction false} NoneDeferred(s: seq<Tracker>, inbound: Tracker)
    requires NoAons(s)
    ensures RegularPass(s, inbound).deferred == [] && NoAons(RegularPass(s, inbound).current)
  {
    if s != [] {
      NoneDeferred(s[1..], inbound.(open := inbound.open - Min(inbound.open, s[0].open)));
    }
  }
}
