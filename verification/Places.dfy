/**
  * Where in the list of a side an order of a level belongs: after everything at its price
  * or better. The place is found from the level next to it on the better side.
  */
module Places {
  import opened Orders
  import opened Layout
  import opened RedBlack
  import opened LevelTrees
  import opened Blocks
  import opened Queues

  /** The same orders of the same levels, wherever they are. */
  ghost predicate SamePays(s: seq<Item>, t: seq<Item>) {
    |s| == |t| && forall k :: 0 <= k < |s| ==> s[k].pay == t[k].pay
  }

  lemma SamePaysChain(r: seq<Item>, s: seq<Item>, t: seq<Item>, order: seq<Level>)
    requires SamePays(r, s) && SamePays(s, t) && SameLevels(r, s, order) && SameLevels(s, t, order)
    ensures SamePays(r, t) && SameLevels(r, t, order)
  {
  }

  /** Just after the last order of a level: after everything at its price or better. */
  lemma AfterTail(bid: bool, s: seq<Item>, order: seq<Level>, v: Level, k: nat)
    requires Sorted(order) && Owned(s, order) && Ranked(bid, s) && v in order
    requires k < |s| && s[k].pay.level == v && NoneOf(s[k + 1..], v)
    ensures Cuts(bid, s, k + 1, v.price)
  {
    WithoutAfter(s, k + 1, v);
    forall i | 0 <= i < k + 1 ensures !Better(bid, v.price, KeyOf(s[i])) {
      if i < k { assert InRank(bid, s, i, k); }
    }
    forall i | k + 1 <= i < |s| ensures Better(bid, v.price, KeyOf(s[i])) {
      assert InRank(bid, s, k, i);
      SamePrice(order, v, s[i].pay.level);
    }
  }

  /** The neighbour of the level at position `m` on the better side. */
  ghost function BetterThan(bid: bool, order: seq<Level>, m: int): Level? {
    if bid then LevelAt(order, m + 1) else LevelAt(order, m - 1)
  }

  /** No level lies between a level and its better neighbour. */
  lemma NextBetter(bid: bool, order: seq<Level>, m: nat, u: Level)
    requires Sorted(order) && m < |order| && u in order && u != order[m]
    ensures var w := BetterThan(bid, order, m);
      && (w == null ==> Better(bid, order[m].price, u.price))
      && (w != null ==> Better(bid, w.price, order[m].price))
      && (w != null ==> u == w || Better(bid, u.price, w.price) || Better(bid, order[m].price, u.price))
  {
    var q :| 0 <= q < |order| && order[q] == u;
    var b := if bid then m + 1 else m - 1;
    assert 0 <= b < |order| && m < b ==> Ascends(order, m, b);
    assert 0 <= b < |order| && b < m ==> Ascends(order, b, m);
    assert 0 <= b < |order| && q < b ==> Ascends(order, q, b);
    assert 0 <= b < |order| && b < q ==> Ascends(order, b, q);
    assert m < q ==> Ascends(order, m, q);
    assert q < m ==> Ascends(order, q, m);
  }

  lemma BetterNeighbour(bid: bool, order: seq<Level>, m: nat)
    requires Sorted(order) && m < |order|
    ensures var w := BetterThan(bid, order, m); w != null ==> w in order && w != order[m]
  {
    assert m + 1 < |order| ==> Ascends(order, m, m + 1);
    assert 0 < m ==> Ascends(order, m - 1, m);
  }

  /** The place of a new level is just after the last order of the next better one. */
  lemma AfterBetter(bid: bool, s: seq<Item>, order: seq<Level>, m: nat, k: nat)
    requires Sorted(order) && Owned(s, order) && Ranked(bid, s) && m < |order| && NoneOf(s, order[m])
    requires BetterThan(bid, order, m) != null && k < |s| && s[k].pay.level == BetterThan(bid, order, m)
    requires NoneOf(s[k + 1..], BetterThan(bid, order, m))
    ensures Cuts(bid, s, k + 1, order[m].price)
  {
    var w := BetterThan(bid, order, m);
    BetterNeighbour(bid, order, m);
    AfterTail(bid, s, order, w, k);
    NextBetter(bid, order, m, w);
    WithoutAfter(s, k + 1, w);
    forall i | k + 1 <= i < |s| ensures Better(bid, order[m].price, KeyOf(s[i])) {
      NextBetter(bid, order, m, s[i].pay.level);
    }
  }

  /** The place of a new best level is the front. */
  lemma BeforeAll(bid: bool, s: seq<Item>, order: seq<Level>, m: nat)
    requires Sorted(order) && Owned(s, order) && m < |order| && NoneOf(s, order[m])
    requires BetterThan(bid, order, m) == null
    ensures Cuts(bid, s, 0, order[m].price)
  {
    forall i | 0 <= i < |s| ensures Better(bid, order[m].price, KeyOf(s[i])) {
      NextBetter(bid, order, m, s[i].pay.level);
    }
  }

  lemma CutsShifted(bid: bool, s: seq<Item>, t: seq<Item>, p: nat, key: nat)
    requires Cuts(bid, s, p, key) && SamePays(s, t)
    ensures Cuts(bid, t, p, key)
  {
  }

  lemma IdsShifted(s: seq<Item>, index: map<nat, Loc>, t: seq<Item>, index': map<nat, Loc>)
    requires Indexed(s, index) && Indexed(t, index') && SamePays(s, t)
    ensures index'.Keys <= index.Keys
  {
    forall id | id in index' ensures id in index {
      assert Present(t, id);
      var k :| 0 <= k < |t| && t[k].pay.order.id == id;
      assert s[k].pay.order.id == id;
    }
  }

  lemma PlacedWithout(s: seq<Item>, p: nat, x: Item)
    requires p <= |s| && Placed(InsertAt(s, p, x))
    ensures Placed(s)
  {
    var u := InsertAt(s, p, x);
    forall i | 0 <= i < |s| ensures s[i].loc != Nil { assert u[if i < p then i else i + 1] == s[i]; }
    forall i, j | 0 <= i < j < |s| ensures Elsewhere(s, i, j) {
      assert Elsewhere(u, if i < p then i else i + 1, if j < p then j else j + 1);
    }
  }

  /** `now` is `was` with an order of a level added at position `p`, wherever the others are. */
  ghost predicate Added(was: seq<Item>, now: seq<Item>, p: nat, pay: Payload) {
    && p <= |was| && |now| == |was| + 1
    && forall i {:trigger now[i]} :: 0 <= i < |now| ==>
        now[i].pay == if i < p then was[i].pay else if i == p then pay else was[i - 1].pay
  }

  lemma AddedShifted(was: seq<Item>, mid: seq<Item>, p: nat, x: Item)
    requires SamePays(was, mid) && p <= |mid|
    ensures Added(was, InsertAt(mid, p, x), p, x.pay)
  {
  }

  // ---- The list as a queue ----

  ghost function EntriesOf(s: seq<Item>): (e: seq<Entry>)
    ensures |e| == |s|
    ensures forall i {:trigger e[i]} :: 0 <= i < |s| ==> e[i] == Entry(KeyOf(s[i]), s[i].pay.order)
  {
    seq(|s|, i requires 0 <= i < |s| => Entry(KeyOf(s[i]), s[i].pay.order))
  }

  lemma {:induction false} CutIsPlace(bid: bool, e: seq<Entry>, p: nat, key: nat)
    requires p <= |e|
    requires forall i :: 0 <= i < p ==> !Better(bid, key, e[i].key)
    requires forall i :: p <= i < |e| ==> Better(bid, key, e[i].key)
    ensures PlaceOf(bid, e, key) == p
  {
    if p > 0 { CutIsPlace(bid, e[1..], p - 1, key); }
  }

  lemma AddedIsEnqueued(bid: bool, was: seq<Item>, now: seq<Item>, p: nat, pay: Payload)
    requires pay.level != null && Added(was, now, p, pay) && Cuts(bid, was, p, pay.level.price)
    ensures EntriesOf(now) == Enqueue(bid, EntriesOf(was), Entry(pay.level.price, pay.order))
  {
    var e, x := EntriesOf(was), Entry(pay.level.price, pay.order);
    CutIsPlace(bid, e, p, x.key);
    var r := InsertAt(e, p, x);
    forall i | 0 <= i < |now| ensures EntriesOf(now)[i] == r[i] {
      if i > p { assert r[i] == e[i - 1] && now[i].pay == was[i - 1].pay; }
      if i < p { assert now[i].pay == was[i].pay; }
    }
    assert EntriesOf(now) == r;
  }

  lemma RewrittenEntries(s: seq<Item>, k: nat, o: Order)
    requires k < |s|
    ensures EntriesOf(s[k := s[k].(pay := s[k].pay.(order := o))]) == EntriesOf(s)[k := EntriesOf(s)[k].(order := o)]
  {
  }

  /** `now` is `was` without the order with an id; the others have not moved. */
  ghost predicate Erased(was: seq<Item>, now: seq<Item>, id: nat) {
    now == if Has(EntriesOf(was), id) then RemoveAt(was, IndexOf(EntriesOf(was), id)) else was
  }

  lemma {:induction false} ErasedAt(was: seq<Item>, now: seq<Item>, k: nat, id: nat)
    requires k < |was| && IndexOf(EntriesOf(was), id) == k && Erased(was, now, id)
    ensures now == RemoveAt(was, k)
  {
  }

  lemma DequeueIsRemove(s: seq<Item>, index: map<nat, Loc>, k: nat)
    requires Placed(s) && Indexed(s, index) && k < |s|
    ensures IndexOf(EntriesOf(s), s[k].pay.order.id) == k
    ensures Dequeue(EntriesOf(s), s[k].pay.order.id) == EntriesOf(RemoveAt(s, k))
  {
    var e, id := EntriesOf(s), s[k].pay.order.id;
    var p := IndexOf(e, id);
    assert e[k].order.id == id;
    OneId(s, index, p, k);
    assert e[..k] + e[k + 1..] == EntriesOf(RemoveAt(s, k));
  }

  lemma IdKnown(s: seq<Item>, index: map<nat, Loc>, p: nat)
    requires Indexed(s, index) && p < |s|
    ensures s[p].pay.order.id in index
  {
  }

  lemma DequeueUnknown(s: seq<Item>, index: map<nat, Loc>, id: nat)
    requires Indexed(s, index) && id !in index
    ensures Dequeue(EntriesOf(s), id) == EntriesOf(s) && !Has(EntriesOf(s), id)
  {
    var p := IndexOf(EntriesOf(s), id);
    if p < |s| { IdKnown(s, index, p); }
  }

  // ---- The levels in order of priority ----

  ghost function BestFirstOrder(bid: bool, order: seq<Level>): (r: seq<Level>)
    ensures |r| == |order|
    ensures forall i {:trigger r[i]} :: 0 <= i < |r| ==> r[i] == order[if bid then |order| - 1 - i else i]
  {
    seq(|order|, i requires 0 <= i < |order| => order[if bid then |order| - 1 - i else i])
  }

  // ---- The fast paths around the best level ----

  ghost function TopAt(bid: bool, order: seq<Level>): int {
    if bid then |order| - 1 else 0
  }

  /** Beyond the best level. */
  lemma BeyondBest(bid: bool, order: seq<Level>, price: nat)
    requires Sorted(order) && order != [] && Better(bid, price, order[TopAt(bid, order)].price)
    ensures SplitsAt(order, if bid then |order| else 0, price)
  {
    var b := TopAt(bid, order);
    forall i | 0 <= i < |order| ensures if bid then order[i].price < price else price < order[i].price {
      assert if i < b then Ascends(order, i, b) else i == b || Ascends(order, b, i);
    }
  }

  /** Behind the only level. */
  lemma BehindOnly(bid: bool, order: seq<Level>, price: nat)
    requires |order| == 1 && Better(bid, order[0].price, price)
    ensures SplitsAt(order, if bid then 0 else 1, price)
  {
  }

  /** Between the best level and the next. */
  lemma BelowBest(bid: bool, order: seq<Level>, price: nat)
    requires Sorted(order) && |order| > 1
    requires Better(bid, order[TopAt(bid, order)].price, price)
    requires Better(bid, price, order[if bid then |order| - 2 else 1].price)
    ensures SplitsAt(order, if bid then |order| - 1 else 1, price)
  {
    var n := if bid then |order| - 2 else 1;
    forall i | 0 <= i < |order| && i != TopAt(bid, order)
      ensures if bid then order[i].price < price else price < order[i].price
    {
      assert if i < n then Ascends(order, i, n) else i == n || Ascends(order, n, i);
    }
  }

  /** Any two answers to a neighbour search agree: a fast path answers as the search would. */
  lemma NeighborsUnique(order: seq<Level>, price: nat, e: Level?, p: Level?, s: Level?, k: nat, e': Level?, p': Level?,
                        s': Level?, k': nat)
    requires Sorted(order) && Neighbors(order, price, e, p, s, k) && Neighbors(order, price, e', p', s', k')
    ensures e == e' && p == p' && s == s' && k == k'
  {
    if e != null && e' != null {
      OnePlace(order, k, k');
    } else if e == null && e' == null {
      SplitOnce(order, k, k', price);
      SplitOnce(order, k', k, price);
    } else if e == null {
      SplitMisses(order, k, price);
    } else {
      SplitMisses(order, k', price);
    }
  }

  lemma SplitOnce(order: seq<Level>, k: nat, k': nat, price: nat)
    requires SplitsAt(order, k, price) && SplitsAt(order, k', price)
    ensures k <= k'
  {
    var x := if k' < |order| then order[k'].price else 0;
  }

  lemma SplitMisses(order: seq<Level>, k: nat, price: nat)
    requires SplitsAt(order, k, price)
    ensures forall v :: v in order ==> v.price != price
  {
  }
}
