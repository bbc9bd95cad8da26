/** What every call of the matching book keeps, over every run. */
module BookLaws {
  import opened Orders
  import opened Queues
  import opened Matching
  import opened Books

  // ---- The state between steps ----

  /**
    * An order that may rest: it has a limit, is not immediate, has something open, and if it is
    * all-or-none nothing filled.
    */
  ghost predicate MayRest(buy: bool, e: Entry) {
    && e.key == e.order.price && e.order.price != MARKET && e.order.isBuy == buy && !e.order.ioc
    && e.order.Open() > 0 && (e.order.aon ==> e.order.filled == 0)
    && e.order.qty < WORD && e.order.price < WORD
  }

  ghost predicate RestingSide(buy: bool, s: seq<Entry>) {
    ByKey(buy, s) && UniqueIds(s) && forall i :: 0 <= i < |s| ==> MayRest(buy, s[i])
  }

  /** A stop may be parked while it is untouched. */
  ghost predicate MayPark(buy: bool, e: Entry) {
    && e.key == e.order.stop && e.order.isBuy == buy && e.order.stop != 0
    && e.order.filled == 0 && 0 < e.order.qty < WORD && e.order.price < WORD
  }

  ghost predicate ParkedSide(buy: bool, s: seq<Entry>) {
    ByKey(!buy, s) && UniqueIds(s) && forall i :: 0 <= i < |s| ==> MayPark(buy, s[i])
  }

  ghost function Ids(s: seq<Entry>): set<nat> {
    set i | 0 <= i < |s| :: s[i].order.id
  }

  ghost function Live(b: Book): set<nat> {
    Ids(b.bids) + Ids(b.asks) + Ids(b.stopBids) + Ids(b.stopAsks)
  }

  lemma HasIds(s: seq<Entry>, id: nat)
    ensures Has(s, id) <==> id in Ids(s)
  {
    var p := IndexOf(s, id);
    if p < |s| { assert s[p].order.id == id; }
  }

  /** A bid and an ask do not cross, or one of them is all-or-none. */
  ghost predicate Compatible(bid: Order, ask: Order) {
    bid.price >= ask.price ==> bid.aon || ask.aon
  }

  ghost predicate Uncrossed(bids: seq<Entry>, asks: seq<Entry>) {
    forall i, j :: 0 <= i < |bids| && 0 <= j < |asks| ==> Compatible(bids[i].order, asks[j].order)
  }

  ghost predicate Sound(b: Book) {
    && RestingSide(true, b.bids) && RestingSide(false, b.asks)
    && ParkedSide(true, b.stopBids) && ParkedSide(false, b.stopAsks)
    && Ids(b.bids) !! Ids(b.asks) !! Ids(b.stopBids) !! Ids(b.stopAsks)
    && Uncrossed(b.bids, b.asks)
  }

  /** No parked stop is triggered. */
  ghost predicate Quiet(b: Book) {
    && (forall i :: 0 <= i < |b.stopBids| ==> !Triggered(true, b.stopBids[i].key, b.market))
    && (forall i :: 0 <= i < |b.stopAsks| ==> !Triggered(false, b.stopAsks[i].key, b.market))
  }

  lemma EmptyIsSound()
    ensures Sound(EMPTY_BOOK) && Quiet(EMPTY_BOOK)
  {
  }

  // ---- A side after some of its orders have traded or left ----

  /** The same order, further filled but not done; an all-or-none order unchanged. */
  ghost predicate Derived(x: Entry, y: Entry) {
    && y == x.(order := x.order.(filled := y.order.filled, cost := y.order.cost))
    && y.order.Open() > 0 && (x.order.aon ==> y == x)
  }

  ghost predicate Climbs(g: seq<nat>, i: nat, j: nat)
    requires i < |g| && j < |g|
  {
    g[i] < g[j]
  }

  /** Entry `k` of `t` derives from entry `g[k]` of `s`, in order. */
  ghost predicate Embeds(s: seq<Entry>, t: seq<Entry>, g: seq<nat>) {
    && |g| == |t|
    && (forall k :: 0 <= k < |g| ==> g[k] < |s| && Derived(s[g[k]], t[k]))
    && (forall i, j :: 0 <= i < j < |g| ==> Climbs(g, i, j))
  }

  ghost function Lifted(g: seq<nat>, d: nat): (r: seq<nat>)
    ensures |r| == |g| && forall k :: 0 <= k < |g| ==> r[k] == g[k] + d
  {
    seq(|g|, k requires 0 <= k < |g| => g[k] + d)
  }

  lemma EmbedsSelf(s: seq<Entry>) returns (g: seq<nat>)
    requires AllOpen(s)
    ensures Embeds(s, s, g)
  {
    g := seq(|s|, k => k);
  }

  /** An embedding of the rest, with what is left of the first entry in front. */
  lemma EmbedsFirst(s: seq<Entry>, l: seq<Entry>, t: seq<Entry>, g: seq<nat>) returns (h: seq<nat>)
    requires s != [] && Embeds(s[1..], t, g) && |l| <= 1 && (l != [] ==> Derived(s[0], l[0]))
    ensures Embeds(s, l + t, h)
  {
    hide Derived;
    h := seq(|l|, k => 0) + Lifted(g, 1);
    forall k | 0 <= k < |h| ensures h[k] < |s| && Derived(s[h[k]], (l + t)[k]) {
      if k >= |l| { assert s[1..][g[k - |l|]] == s[h[k]]; }
    }
    forall i, j | 0 <= i < j < |h| ensures Climbs(h, i, j) {
      if i >= |l| { assert Climbs(g, i - |l|, j - |l|); }
    }
  }

  /** What survives regular matching. */
  lemma Survivors(opp: seq<Entry>, taker: Order, market: nat) returns (g: seq<nat>)
    requires AllOpen(opp)
    ensures Embeds(opp, MatchRegular(opp, taker, market).opp, g)
  {
    if opp == [] || taker.Open() == 0 || !Crosses(opp[0].order, taker) {
      g := EmbedsSelf(opp);
    } else if Skips(opp[0].order, taker) {
      var h := Survivors(opp[1..], taker, market);
      g := EmbedsFirst(opp, [opp[0]], MatchRegular(opp[1..], taker, market).opp, h);
    } else {
      var maker := opp[0].order;
      var q := Min(taker.Open(), maker.Open());
      var t := taker.Fill(q, Cost(q, maker.price));
      var h := Survivors(opp[1..], t, maker.price);
      g := EmbedsFirst(opp, Left(opp[0], q), MatchRegular(opp[1..], t, maker.price).opp, h);
    }
  }

  /** A resting side stays one when its orders only trade or leave. */
  lemma SideKept(buy: bool, s: seq<Entry>, t: seq<Entry>, g: seq<nat>)
    requires RestingSide(buy, s) && Embeds(s, t, g)
    ensures RestingSide(buy, t) && Ids(t) <= Ids(s)
  {
    forall i, j | 0 <= i < j < |t| ensures KeyOrder(buy, t, i, j) && IdsDiffer(t, i, j) {
      assert Climbs(g, i, j) && KeyOrder(buy, s, g[i], g[j]) && IdsDiffer(s, g[i], g[j]);
    }
    forall k | 0 <= k < |t| ensures MayRest(buy, t[k]) && t[k].order.id in Ids(s) {
      assert Derived(s[g[k]], t[k]) && MayRest(buy, s[g[k]]);
    }
  }

  lemma UncrossedKept(s: seq<Entry>, t: seq<Entry>, g: seq<nat>, other: seq<Entry>)
    requires Embeds(s, t, g)
    ensures Uncrossed(s, other) ==> Uncrossed(t, other)
    ensures Uncrossed(other, s) ==> Uncrossed(other, t)
  {
    assert forall k :: 0 <= k < |t| ==> Derived(s[g[k]], t[k]);
  }

  /** If something of the order is left, whatever it still crosses is all-or-none. */
  lemma {:induction false} Residue(opp: seq<Entry>, taker: Order, market: nat)
    requires ReachIsPrefix(opp, taker) && MatchRegular(opp, taker, market).taker.Open() > 0
    ensures forall k :: 0 <= k < |MatchRegular(opp, taker, market).opp| ==>
      Crosses(MatchRegular(opp, taker, market).opp[k].order, taker) ==>
        MatchRegular(opp, taker, market).opp[k].order.aon
  {
    if opp == [] || taker.Open() == 0 || !Crosses(opp[0].order, taker) {
      forall k | 0 <= k < |opp| ensures !Crosses(opp[k].order, taker) {
        assert k > 0 ==> CrossBefore(opp, taker, 0, k);
      }
    } else if Skips(opp[0].order, taker) {
      RestReach(opp, taker, taker);
      Residue(opp[1..], taker, market);
    } else {
      var maker := opp[0].order;
      var q := Min(taker.Open(), maker.Open());
      var t := taker.Fill(q, Cost(q, maker.price));
      RestReach(opp, taker, t);
      Residue(opp[1..], t, maker.price);
      TakerKept(opp[1..], t, maker.price);
      assert q == maker.Open();
    }
  }

  /** Matching changes only what has been filled of the incoming order. */
  lemma {:induction false} TakerKept(opp: seq<Entry>, taker: Order, market: nat)
    ensures var t := MatchRegular(opp, taker, market).taker;
      t == taker.(filled := t.filled, cost := t.cost) && t.Open() <= taker.Open() && taker.filled <= t.filled
    ensures taker.Open() > 0 ==> MatchRegular(opp, taker, market).taker.filled <= taker.qty
  {
    if opp == [] || taker.Open() == 0 || !Crosses(opp[0].order, taker) {
    } else if Skips(opp[0].order, taker) {
      TakerKept(opp[1..], taker, market);
    } else {
      var maker := opp[0].order;
      var q := Min(taker.Open(), maker.Open());
      TakerKept(opp[1..], taker.Fill(q, Cost(q, maker.price)), maker.price);
    }
  }

  // ---- Submitting an order ----

  /** An order as it is when it is submitted: something is open, and if it is all-or-none nothing is filled. */
  ghost predicate MaySubmit(o: Order) {
    o.Open() > 0 && (o.aon ==> o.filled == 0) && o.qty < WORD && o.price < WORD
  }

  lemma ReachOfSide(buy: bool, opp: seq<Entry>, taker: Order)
    requires RestingSide(buy, opp) && taker.isBuy != buy
    ensures ReachIsPrefix(opp, taker)
  {
    forall i, j | 0 <= i < j < |opp| ensures CrossBefore(opp, taker, i, j) {
      assert KeyOrder(buy, opp, i, j) && MayRest(buy, opp[i]) && MayRest(buy, opp[j]);
    }
  }

  /** Whatever the limit of `o` still reaches in `opp` is all-or-none, or `o` is. */
  ghost predicate Spent(opp: seq<Entry>, o: Order) {
    forall k :: 0 <= k < |opp| ==> Crosses(opp[k].order, o) ==> opp[k].order.aon || o.aon
  }

  /** What matching does to the incoming order. */
  ghost predicate TakerAfter(o: Order, t: Order) {
    && t == o.(filled := t.filled, cost := t.cost)
    && (t.Open() > 0 && o.aon ==> t == o) && t.filled <= o.qty && o.filled <= t.filled
  }

  /** What matching asks of the opposite side. */
  lemma MatchReady(b: Book)
    requires Sound(b)
    ensures UniqueIds(b.bids) && AllOpen(b.bids) && UniqueIds(b.asks) && AllOpen(b.asks)
  {
  }

  lemma MatchLaws(buy: bool, opp: seq<Entry>, o: Order, market: nat) returns (g: seq<nat>)
    requires RestingSide(buy, opp) && o.isBuy != buy && MaySubmit(o)
    ensures var m := Match(opp, o, market);
      && Embeds(opp, m.opp, g) && RestingSide(buy, m.opp) && Ids(m.opp) <= Ids(opp)
      && TakerAfter(o, m.taker) && (m.taker.Open() > 0 ==> Spent(m.opp, o))
  {
    ReachOfSide(buy, opp, o);
    TakerKept(opp, o, market);
    if o.aon { AonIsAllOrNothing(opp, o, market); }
    if MatchRegular(opp, o, market).taker.Open() > 0 { Residue(opp, o, market); }
    if Match(opp, o, market).opp == opp { g := EmbedsSelf(opp); } else { g := Survivors(opp, o, market); }
    SideKept(buy, opp, Match(opp, o, market).opp, g);
  }

  lemma {:induction false} PlaceSplits(high: bool, s: seq<Entry>, key: nat)
    requires ByKey(high, s)
    ensures forall i :: 0 <= i < PlaceOf(high, s, key) ==> !Better(high, key, s[i].key)
    ensures forall i :: PlaceOf(high, s, key) <= i < |s| ==> Better(high, key, s[i].key)
  {
    if s != [] {
      if Better(high, key, s[0].key) {
        forall i | 0 <= i < |s| ensures Better(high, key, s[i].key) { assert i > 0 ==> KeyOrder(high, s, 0, i); }
      } else {
        forall i, j | 0 <= i < j < |s[1..]|
          ensures KeyOrder(high, s[1..], i, j)
        {
          assert KeyOrder(high, s, i + 1, j + 1);
        }
        PlaceSplits(high, s[1..], key);
        assert forall i {:trigger s[i]} :: 1 <= i < |s| ==> s[i] == s[1..][i - 1];
      }
    }
  }

  /** Where an entry of the longer list was in the shorter one. */
  ghost function WasAt(p: nat, i: nat): nat
    requires i != p
  {
    if i < p then i else i - 1
  }

  lemma {:induction false} EnqueueAt(high: bool, s: seq<Entry>, e: Entry, i: nat)
    requires i <= |s|
    ensures |Enqueue(high, s, e)| == |s| + 1 && PlaceOf(high, s, e.key) <= |s|
    ensures var p := PlaceOf(high, s, e.key);
      Enqueue(high, s, e)[i] == if i == p then e else s[WasAt(p, i)]
  {
  }

  lemma EnqueueKept(high: bool, s: seq<Entry>, e: Entry)
    requires ByKey(high, s) && UniqueIds(s) && e.order.id !in Ids(s)
    ensures ByKey(high, Enqueue(high, s, e)) && UniqueIds(Enqueue(high, s, e))
    ensures Ids(Enqueue(high, s, e)) == Ids(s) + {e.order.id}
    ensures forall x :: x in Enqueue(high, s, e) <==> x == e || x in s
  {
    var u, p := Enqueue(high, s, e), PlaceOf(high, s, e.key);
    PlaceSplits(high, s, e.key);
    forall i, j | 0 <= i < j < |u| ensures KeyOrder(high, u, i, j) && IdsDiffer(u, i, j) {
      EnqueueAt(high, s, e, i);
      EnqueueAt(high, s, e, j);
      if i != p && j != p {
        assert KeyOrder(high, s, WasAt(p, i), WasAt(p, j)) && IdsDiffer(s, WasAt(p, i), WasAt(p, j));
      }
    }
    assert u == s[..p] + [e] + s[p..];
    assert s == s[..p] + s[p..];
    IdsConcat(s[..p], [e]);
    IdsConcat(s[..p] + [e], s[p..]);
    IdsConcat(s[..p], s[p..]);
    assert [e][0] == e && Ids([e]) == {e.order.id};
  }

  lemma IdsConcat(s: seq<Entry>, t: seq<Entry>)
    ensures Ids(s + t) == Ids(s) + Ids(t)
  {
    forall x | x in Ids(s) + Ids(t) ensures x in Ids(s + t) {
      if x in Ids(s) {
        var i :| 0 <= i < |s| && s[i].order.id == x;
        assert (s + t)[i].order.id == x;
      } else {
        var i :| 0 <= i < |t| && t[i].order.id == x;
        assert (s + t)[|s| + i].order.id == x;
      }
    }
  }

  lemma FirstApart(s: seq<Entry>)
    requires s != [] && UniqueIds(s)
    ensures UniqueIds(s[1..]) && s[0].order.id !in Ids(s[1..]) && Ids(s) == {s[0].order.id} + Ids(s[1..])
  {
    forall i, j | 0 <= i < j < |s[1..]| ensures IdsDiffer(s[1..], i, j) { assert IdsDiffer(s, i + 1, j + 1); }
    forall x | x in Ids(s[1..]) ensures x != s[0].order.id {
      var i :| 0 <= i < |s[1..]| && s[1..][i].order.id == x;
      assert IdsDiffer(s, 0, i + 1);
    }
    assert s == [s[0]] + s[1..];
    IdsConcat([s[0]], s[1..]);
    assert [s[0]][0] == s[0] && Ids([s[0]]) == {s[0].order.id};
  }

  lemma RestKept(buy: bool, s: seq<Entry>, e: Entry)
    requires RestingSide(buy, s) && MayRest(buy, e) && e.order.id !in Ids(s)
    ensures RestingSide(buy, Enqueue(buy, s, e)) && Ids(Enqueue(buy, s, e)) == Ids(s) + {e.order.id}
    ensures forall x :: x in Enqueue(buy, s, e) <==> x == e || x in s
  {
    EnqueueKept(buy, s, e);
    var u := Enqueue(buy, s, e);
    forall i | 0 <= i < |u| ensures MayRest(buy, u[i]) { assert u[i] in u; }
  }

  lemma SubmitSound(b: Book, o: Order)
    requires Sound(b) && MaySubmit(o) && o.id !in Live(b)
    ensures Sound(Submit(b, o)) && Live(Submit(b, o)) <= Live(b) + {o.id}
  {
    if o.isBuy { SubmitBuy(b, o); } else { SubmitSell(b, o); }
  }

  lemma SubmitBuy(b: Book, o: Order)
    requires Sound(b) && MaySubmit(o) && o.id !in Live(b) && o.isBuy
    ensures Sound(Submit(b, o)) && Live(Submit(b, o)) <= Live(b) + {o.id}
  {
    var m := Match(b.asks, o, b.market);
    var g := MatchLaws(false, b.asks, o, b.market);
    UncrossedKept(b.asks, m.opp, g, b.bids);
    var t := m.taker;
    var e := Entry(t.price, t);
    if t.price != MARKET && !t.ioc && t.Open() > 0 {
      RestKept(true, b.bids, e);
      forall i, j | 0 <= i < |Enqueue(true, b.bids, e)| && 0 <= j < |m.opp|
        ensures Compatible(Enqueue(true, b.bids, e)[i].order, m.opp[j].order)
      {
        var x := Enqueue(true, b.bids, e)[i];
        assert x in Enqueue(true, b.bids, e);
        if x == e { assert Crosses(m.opp[j].order, o) <==> m.opp[j].order.price <= t.price; }
      }
    }
  }

  lemma SubmitSell(b: Book, o: Order)
    requires Sound(b) && MaySubmit(o) && o.id !in Live(b) && !o.isBuy
    ensures Sound(Submit(b, o)) && Live(Submit(b, o)) <= Live(b) + {o.id}
  {
    var m := Match(b.bids, o, b.market);
    var g := MatchLaws(true, b.bids, o, b.market);
    UncrossedKept(b.bids, m.opp, g, b.asks);
    var t := m.taker;
    var e := Entry(t.price, t);
    if t.price != MARKET && !t.ioc && t.Open() > 0 {
      RestKept(false, b.asks, e);
      forall i, j | 0 <= i < |m.opp| && 0 <= j < |Enqueue(false, b.asks, e)|
        ensures Compatible(m.opp[i].order, Enqueue(false, b.asks, e)[j].order)
      {
        var x := Enqueue(false, b.asks, e)[j];
        assert x in Enqueue(false, b.asks, e);
        if x == e { assert Crosses(m.opp[i].order, o) <==> m.opp[i].order.price >= t.price; }
      }
    }
  }

  /** Orders of a list that may all be submitted, with ids of their own. */
  ghost predicate Batch(s: seq<Entry>, live: set<nat>) {
    UniqueIds(s) && Ids(s) !! live && forall i :: 0 <= i < |s| ==> MaySubmit(s[i].order)
  }

  lemma BatchRest(s: seq<Entry>, live: set<nat>, more: set<nat>)
    requires s != [] && Batch(s, live) && more <= live + {s[0].order.id}
    ensures MaySubmit(s[0].order) && s[0].order.id !in live && Batch(s[1..], more)
  {
    assert s[0].order.id in Ids(s);
    forall i, j | 0 <= i < j < |s[1..]| ensures IdsDiffer(s[1..], i, j) { assert IdsDiffer(s, i + 1, j + 1); }
    forall x | x in Ids(s[1..]) ensures x in Ids(s) && x != s[0].order.id {
      var i :| 0 <= i < |s[1..]| && s[1..][i].order.id == x;
      assert s[i + 1].order.id == x && IdsDiffer(s, 0, i + 1);
    }
  }

  lemma {:induction false} SubmitAllSound(b: Book, s: seq<Entry>)
    requires Sound(b) && Batch(s, Live(b))
    ensures Sound(SubmitAll(b, s)) && Live(SubmitAll(b, s)) <= Live(b) + Ids(s)
    decreases |s|
  {
    if s != [] {
      var c := Submit(b, s[0].order);
      BatchRest(s, Live(b), Live(b));
      SubmitSound(b, s[0].order);
      BatchRest(s, Live(b), Live(c));
      SubmitAllSound(c, s[1..]);
      assert s == [s[0]] + s[1..];
      IdsConcat([s[0]], s[1..]);
      assert [s[0]][0] == s[0] && Ids([s[0]]) == {s[0].order.id};
    }
  }

  // ---- Firing stops ----

  lemma ParkedSplit(buy: bool, s: seq<Entry>, n: nat)
    requires ParkedSide(buy, s) && n <= |s|
    ensures ParkedSide(buy, s[n..]) && UniqueIds(s[..n])
    ensures Ids(s) == Ids(s[..n]) + Ids(s[n..]) && Ids(s[..n]) !! Ids(s[n..])
    ensures forall i :: 0 <= i < n ==> MaySubmit(s[..n][i].order)
  {
    var high := !buy;
    forall i, j | 0 <= i < j < |s[n..]| ensures KeyOrder(high, s[n..], i, j) && IdsDiffer(s[n..], i, j) {
      assert KeyOrder(high, s, n + i, n + j) && IdsDiffer(s, n + i, n + j);
    }
    forall i | 0 <= i < |s[n..]| ensures MayPark(buy, s[n..][i]) { assert MayPark(buy, s[n + i]); }
    forall i, j | 0 <= i < j < n ensures IdsDiffer(s[..n], i, j) { assert IdsDiffer(s, i, j); }
    assert s == s[..n] + s[n..];
    IdsConcat(s[..n], s[n..]);
    forall i, j | 0 <= i < n && 0 <= j < |s[n..]| ensures s[..n][i].order.id != s[n..][j].order.id {
      assert IdsDiffer(s, i, n + j);
    }
    forall i | 0 <= i < n ensures MaySubmit(s[..n][i].order) { assert MayPark(buy, s[i]); }
  }

  lemma UniqueJoin(s: seq<Entry>, t: seq<Entry>)
    requires UniqueIds(s) && UniqueIds(t) && Ids(s) !! Ids(t)
    ensures UniqueIds(s + t) && Ids(s + t) == Ids(s) + Ids(t)
  {
    IdsConcat(s, t);
    forall i, j | 0 <= i < j < |s + t| ensures IdsDiffer(s + t, i, j) {
      if j < |s| {
        assert IdsDiffer(s, i, j);
      } else if i >= |s| {
        assert IdsDiffer(t, i - |s|, j - |s|);
      } else {
        assert s[i].order.id in Ids(s) && t[j - |s|].order.id in Ids(t);
      }
    }
  }

  /** The book and the orders of one round of firing. */
  lemma RoundSound(b: Book, n: nat, k: nat)
    requires Sound(b) && n <= |b.stopBids| && k <= |b.stopAsks|
    ensures var c := b.(stopBids := b.stopBids[n..], stopAsks := b.stopAsks[k..]);
      var fired := b.stopBids[..n] + b.stopAsks[..k];
      Sound(c) && Batch(fired, Live(c)) && Live(c) + Ids(fired) == Live(b)
  {
    ParkedSplit(true, b.stopBids, n);
    ParkedSplit(false, b.stopAsks, k);
    UniqueJoin(b.stopBids[..n], b.stopAsks[..k]);
  }

  lemma {:induction false} NoneFires(buy: bool, s: seq<Entry>, market: nat)
    requires ParkedSide(buy, s) && Firing(buy, s, market) == 0
    ensures forall i :: 0 <= i < |s| ==> !Triggered(buy, s[i].key, market)
  {
    forall i | 0 <= i < |s| ensures !Triggered(buy, s[i].key, market) { assert i > 0 ==> KeyOrder(!buy, s, 0, i); }
  }

  /** Firing ends with no triggered stop left. */
  lemma {:induction false} ProcessSound(b: Book)
    requires Sound(b)
    ensures Sound(Process(b)) && Quiet(Process(b)) && Live(Process(b)) <= Live(b)
    decreases |b.stopBids| + |b.stopAsks|
  {
    var n, k := Firing(true, b.stopBids, b.market), Firing(false, b.stopAsks, b.market);
    if n + k == 0 {
      NoneFires(true, b.stopBids, b.market);
      NoneFires(false, b.stopAsks, b.market);
    } else {
      var c := b.(stopBids := b.stopBids[n..], stopAsks := b.stopAsks[k..]);
      var fired := b.stopBids[..n] + b.stopAsks[..k];
      RoundSound(b, n, k);
      SubmitAllSound(c, fired);
      ProcessSound(SubmitAll(c, fired));
    }
  }

  // ---- Firing one stop at a time ----

  /** The first `k` stops of `all` have fired, `e` are left, and `n` will fire in all. */
  ghost predicate FiringOn(buy: bool, all: seq<Entry>, n: nat, fired: seq<Order>, e: seq<Entry>, market: nat) {
    && |fired| <= n <= |all| && e == all[|fired|..] && fired == OrdersOf(all[..|fired|])
    && n == |fired| + Firing(buy, e, market)
  }

  lemma {:induction false} FiringStart(buy: bool, all: seq<Entry>, market: nat)
    ensures FiringOn(buy, all, Firing(buy, all, market), [], all, market)
  {
    assert all[0..] == all;
  }

  lemma FiringStep(buy: bool, all: seq<Entry>, n: nat, fired: seq<Order>, e: seq<Entry>, market: nat)
    requires FiringOn(buy, all, n, fired, e, market) && e != [] && Triggered(buy, e[0].key, market)
    ensures FiringOn(buy, all, n, fired + [e[0].order], e[1..], market)
  {
    assert all[|fired|..][1..] == all[|fired| + 1..] && all[|fired|] == e[0];
    assert OrdersOf(all[..|fired| + 1]) == fired + [e[0].order];
  }

  lemma FiringStop(buy: bool, all: seq<Entry>, n: nat, fired: seq<Order>, e: seq<Entry>, market: nat)
    requires FiringOn(buy, all, n, fired, e, market) && (e == [] || !Triggered(buy, e[0].key, market))
    ensures |fired| == n && fired == OrdersOf(all[..n]) && e == all[n..]
  {
  }

  // ---- The public calls ----

  /** An order as callers hand it in. */
  ghost predicate Fresh(o: Order) {
    o.filled == 0 && o.qty < WORD && o.price < WORD
  }

  lemma ParkKept(b: Book, o: Order)
    requires Sound(b) && Quiet(b) && Fresh(o) && o.qty > 0 && o.id !in Live(b) && o.stop != 0 && Stopped(o, b.market)
    ensures Sound(Park(b, o)) && Quiet(Park(b, o)) && Live(Park(b, o)) == Live(b) + {o.id}
  {
    var e := Entry(o.stop, o);
    var s := if o.isBuy then b.stopBids else b.stopAsks;
    var u := Enqueue(!o.isBuy, s, e);
    EnqueueKept(!o.isBuy, s, e);
    forall i | 0 <= i < |u| ensures MayPark(o.isBuy, u[i]) && !Triggered(o.isBuy, u[i].key, b.market) {
      assert u[i] in u;
    }
  }

  lemma AddSound(b: Book, o: Order)
    requires Sound(b) && Quiet(b) && Fresh(o) && o.id !in Live(b)
    ensures Sound(Add(b, o)) && Quiet(Add(b, o)) && Live(Add(b, o)) <= Live(b) + {o.id}
  {
    if o.qty > 0 {
      var c := Tell(b, Accepted(o.id));
      assert Live(c) == Live(b);
      if o.stop != 0 && Stopped(o, b.market) {
        ParkKept(c, o);
      } else {
        SubmitSound(c, o);
        ProcessSound(Submit(c, o));
      }
    }
  }

  ghost function Skipping(n: nat, p: nat): (r: seq<nat>)
    requires p < n
    ensures |r| == n - 1 && forall k :: 0 <= k < n - 1 ==> r[k] == if k < p then k else k + 1
  {
    seq(n - 1, k => if k < p then k else k + 1)
  }

  lemma DequeueKept(buy: bool, s: seq<Entry>, id: nat) returns (g: seq<nat>)
    requires RestingSide(buy, s) && Has(s, id)
    ensures Embeds(s, Dequeue(s, id), g) && RestingSide(buy, Dequeue(s, id)) && Ids(Dequeue(s, id)) == Ids(s) - {id}
  {
    hide Derived, MayRest, KeyOrder, Ids, UniqueIds, ByKey;
    forall x | x in s ensures Derived(x, x) {
      var i :| 0 <= i < |s| && s[i] == x;
      DerivesSelf(buy, x);
    }
    g := SkippingEmbeds(s, IndexOf(s, id));
    SideKept(buy, s, Dequeue(s, id), g);
    DequeueIds(s, id);
  }

  lemma DerivesSelf(buy: bool, x: Entry)
    requires MayRest(buy, x)
    ensures Derived(x, x)
  {
  }

  lemma SkippingEmbeds(s: seq<Entry>, p: nat) returns (g: seq<nat>)
    requires p < |s| && forall x :: x in s ==> Derived(x, x)
    ensures Embeds(s, s[..p] + s[p + 1..], g)
  {
    hide Derived;
    g := Skipping(|s|, p);
    var t := s[..p] + s[p + 1..];
    forall k | 0 <= k < |t| ensures g[k] < |s| && Derived(s[g[k]], t[k]) { assert s[g[k]] == t[k] && t[k] in s; }
    assert forall i, j :: 0 <= i < j < |g| ==> Climbs(g, i, j);
  }

  lemma DequeueIds(s: seq<Entry>, id: nat)
    requires UniqueIds(s) && Has(s, id)
    ensures Ids(Dequeue(s, id)) == Ids(s) - {id} && UniqueIds(Dequeue(s, id))
    ensures forall x :: x in Dequeue(s, id) ==> x in s
  {
    var p := IndexOf(s, id);
    var a, b := s[..p], s[p + 1..];
    assert s == a + [s[p]] + b;
    IdsConcat(a, [s[p]]);
    IdsConcat(a + [s[p]], b);
    IdsConcat(a, b);
    assert [s[p]][0] == s[p] && Ids([s[p]]) == {id};
    assert id !in Ids(b) by {
      forall x | x in Ids(b) ensures x != id {
        var i :| 0 <= i < |b| && b[i].order.id == x;
        assert IdsDiffer(s, p, p + 1 + i);
      }
    }
    UniqueLeft(a, s[p], b, []);
    assert a + [] + b == a + b;
  }

  lemma DequeueParked(buy: bool, s: seq<Entry>, id: nat)
    requires ParkedSide(buy, s) && Has(s, id)
    ensures ParkedSide(buy, Dequeue(s, id)) && Ids(Dequeue(s, id)) == Ids(s) - {id}
    ensures forall x :: x in Dequeue(s, id) ==> x in s
  {
    DequeueIds(s, id);
    var high, u, p := !buy, Dequeue(s, id), IndexOf(s, id);
    forall i, j | 0 <= i < j < |u| ensures KeyOrder(high, u, i, j) {
      assert KeyOrder(high, s, if i < p then i else i + 1, if j < p then j else j + 1);
    }
    forall i | 0 <= i < |u| ensures MayPark(buy, u[i]) { assert u[i] in s; }
  }

  lemma WithdrawKept(b: Book, id: nat)
    requires Sound(b) && (Has(b.bids, id) || Has(b.asks, id))
    ensures Sound(Withdraw(b, id)) && Live(Withdraw(b, id)) == Live(b) - {id} && (Quiet(b) ==> Quiet(Withdraw(b, id)))
  {
    if Has(b.bids, id) {
      var g := DequeueKept(true, b.bids, id);
      UncrossedKept(b.bids, Dequeue(b.bids, id), g, b.asks);
      assert id in Ids(b.bids) by { assert b.bids[IndexOf(b.bids, id)].order.id == id; }
    } else {
      var g := DequeueKept(false, b.asks, id);
      UncrossedKept(b.asks, Dequeue(b.asks, id), g, b.bids);
      assert id in Ids(b.asks) by { assert b.asks[IndexOf(b.asks, id)].order.id == id; }
    }
  }

  lemma CancelSound(b: Book, id: nat)
    requires Sound(b) && Quiet(b)
    ensures Sound(Cancel(b, id)) && Quiet(Cancel(b, id)) && Live(Cancel(b, id)) <= Live(b)
  {
    if Has(b.bids, id) || Has(b.asks, id) {
      WithdrawKept(b, id);
    } else if Has(b.stopBids, id) {
      DequeueParked(true, b.stopBids, id);
      var u := Dequeue(b.stopBids, id);
      forall i | 0 <= i < |u| ensures !Triggered(true, u[i].key, b.market) { assert u[i] in b.stopBids; }
    } else if Has(b.stopAsks, id) {
      DequeueParked(false, b.stopAsks, id);
      var u := Dequeue(b.stopAsks, id);
      forall i | 0 <= i < |u| ensures !Triggered(false, u[i].key, b.market) { assert u[i] in b.stopAsks; }
    }
  }

  /** A side with one order's quantity changed in place. */
  lemma {:induction false} RewriteKept(buy: bool, s: seq<Entry>, id: nat, o: Order)
    requires RestingSide(buy, s) && Has(s, id)
    requires var x := s[IndexOf(s, id)].order; o == x.(qty := o.qty) && o.Open() > 0 && o.qty < WORD
    ensures RestingSide(buy, Rewrite(s, id, o)) && Ids(Rewrite(s, id, o)) == Ids(s)
  {
    var u, p := Rewrite(s, id, o), IndexOf(s, id);
    assert forall i :: 0 <= i < |s| ==> u[i].key == s[i].key && u[i].order.id == s[i].order.id;
    forall i, j | 0 <= i < j < |u| ensures KeyOrder(buy, u, i, j) && IdsDiffer(u, i, j) {
      assert KeyOrder(buy, s, i, j) && IdsDiffer(s, i, j);
    }
    forall i | 0 <= i < |u| ensures MayRest(buy, u[i]) { assert MayRest(buy, s[i]); }
    forall x | x in Ids(s) ensures x in Ids(u) {
      var i :| 0 <= i < |s| && s[i].order.id == x;
      assert u[i].order.id == x;
    }
  }

  lemma ResizeSound(b: Book, id: nat, o: Order)
    requires Sound(b) && (Has(b.bids, id) || Has(b.asks, id))
    requires o == Resting(b, id).(qty := o.qty) && o.Open() > 0 && o.qty < WORD
    ensures Sound(Change(b, id, o)) && Live(Change(b, id, o)) == Live(b)
  {
    if Has(b.bids, id) {
      RewriteKept(true, b.bids, id, o);
      var u := Rewrite(b.bids, id, o);
      assert forall i :: 0 <= i < |u| ==>
          u[i].order.price == b.bids[i].order.price && u[i].order.aon == b.bids[i].order.aon;
    } else {
      RewriteKept(false, b.asks, id, o);
      var u := Rewrite(b.asks, id, o);
      assert forall i :: 0 <= i < |u| ==>
          u[i].order.price == b.asks[i].order.price && u[i].order.aon == b.asks[i].order.aon;
    }
  }

  lemma ReplaceSound(b: Book, id: nat, delta: int, price: nat)
    requires Sound(b) && Quiet(b)
    requires Has(b.bids, id) || Has(b.asks, id) ==> Replaceable(Resting(b, id), delta, price)
    ensures Sound(Replace(b, id, delta, price)) && Quiet(Replace(b, id, delta, price))
    ensures Live(Replace(b, id, delta, price)) <= Live(b)
  {
    if Has(b.bids, id) || Has(b.asks, id) {
      var o := Resting(b, id);
      assert id == o.id && id in Live(b) by { RestingIsLive(b, id); }
      WithdrawKept(b, id);
      if !Reprices(o, price) {
        if !(delta < 0 && -delta >= o.Open()) { ResizeSound(b, id, o.Modify(delta, MARKET)); }
      } else {
        var n := o.Modify(delta, price);
        var c := Tell(Withdraw(b, id), Replaced(id, delta, n.price));
        assert Live(c) == Live(b) - {id};
        if n.Open() > 0 {
          SubmitSound(c, n);
          ProcessSound(Submit(c, n));
        }
      }
    }
  }

  /** A book stays sound exactly if the replacement leaves something of an order that stays to be traded. */
  lemma ReplaceExact(b: Book, id: nat, delta: int, price: nat)
    requires Sound(b) && Quiet(b) && (Has(b.bids, id) || Has(b.asks, id)) && Adds32(Resting(b, id).qty, delta)
    ensures Sound(Replace(b, id, delta, price)) <==> LeavesOpen(Resting(b, id), delta, price)
  {
    hide Process, Submit, Quiet, Uncrossed;
    var o := Resting(b, id);
    if LeavesOpen(o, delta, price) {
      ReplaceSound(b, id, delta, price);
    } else {
      var c := Replace(b, id, delta, price);
      var s, buy := if Has(b.bids, id) then c.bids else c.asks, Has(b.bids, id);
      var k := IndexOf(if buy then b.bids else b.asks, id);
      assert s[k].order == o.Modify(delta, MARKET) && !MayRest(buy, s[k]);
    }
  }

  /** An order added to the empty book rests. */
  lemma FirstRests(o: Order)
    requires Fresh(o) && o.qty > 0 && o.stop == 0 && o.price != MARKET && !o.ioc
    ensures var b, s := Add(EMPTY_BOOK, o), [Entry(o.price, o)];
      b.bids == (if o.isBuy then s else []) && b.asks == (if o.isBuy then [] else s)
  {
    var c := Submit(Tell(EMPTY_BOOK, Accepted(o.id)), o);
    assert Process(c) == c;
    assert [] + [Entry(o.price, o)] + [] == [Entry(o.price, o)];
  }

  /** Growing the largest order by one unit leaves it on its side with nothing open. */
  lemma GrowthEmpties(o: Order)
    requires Fresh(o) && o.qty == WORD - 1 && o.stop == 0 && o.price != MARKET && !o.ioc
    ensures var b := Add(EMPTY_BOOK, o); var c := Replace(b, o.id, 1, MARKET);
      && Sound(b) && !Sound(c)
      && (if o.isBuy then c.bids else c.asks) == [Entry(o.price, o.(qty := 0))]
  {
    hide Add, Sound, Quiet, Process, Submit;
    var b, s := Add(EMPTY_BOOK, o), [Entry(o.price, o)];
    EmptyIsSound();
    AddSound(EMPTY_BOOK, o);
    FirstRests(o);
    assert s[0].order.id == o.id && IndexOf(s, o.id) == 0;
    assert Resting(b, o.id) == o && Wrap(WORD) == 0;
    ReplaceExact(b, o.id, 1, MARKET);
    assert s[0 := s[0].(order := o.(qty := 0))] == [Entry(o.price, o.(qty := 0))];
  }

  /** Growing an order in place opens what is asked for exactly if its quantity stays within 32 bits. */
  lemma GrowthExact(o: Order, delta: int)
    requires o.filled < o.qty < WORD && 0 < delta < WORD
    ensures o.Modify(delta, MARKET).Open() == o.Open() + delta <==> o.qty + delta < WORD
  {
    if o.qty + delta >= WORD { assert Wrap(o.qty + delta) == o.qty + delta - WORD; }
  }

  lemma RestingIsLive(b: Book, id: nat)
    requires Sound(b) && (Has(b.bids, id) || Has(b.asks, id))
    ensures Resting(b, id).id == id && id in Live(b) && Resting(b, id).Open() > 0
    ensures Resting(b, id).aon ==> Resting(b, id).filled == 0
  {
    var s := if Has(b.bids, id) then b.bids else b.asks;
    assert MayRest(Has(b.bids, id), s[IndexOf(s, id)]);
  }

  // ---- Runs ----

  datatype Op =
    | AddOp(order: Order)
    | CancelOp(id: nat)
    | ReplaceOp(id: nat, delta: int, price: nat)
    | MarketOp(price: nat)

  /** What the book demands of its callers. */
  ghost predicate Allowed(b: Book, op: Op) {
    match op
    case AddOp(o) => Fresh(o) && o.id !in Live(b)
    case CancelOp(_) => true
    case ReplaceOp(id, delta, price) => Has(b.bids, id) || Has(b.asks, id) ==> Replaceable(Resting(b, id), delta, price)
    case MarketOp(_) => true
  }

  ghost function Step(b: Book, op: Op): Book
    requires Allowed(b, op)
  {
    match op
    case AddOp(o) => Add(b, o)
    case CancelOp(id) => Cancel(b, id)
    case ReplaceOp(id, delta, price) => Replace(b, id, delta, price)
    case MarketOp(price) => SetMarketPrice(b, price)
  }

  /** Every call of the run is allowed when it is made. */
  ghost predicate Runs(b: Book, ops: seq<Op>)
    decreases |ops|
  {
    ops == [] || (Allowed(b, ops[0]) && Runs(Step(b, ops[0]), ops[1..]))
  }

  ghost function After(b: Book, ops: seq<Op>): Book
    requires Runs(b, ops)
    decreases |ops|
  {
    if ops == [] then b else After(Step(b, ops[0]), ops[1..])
  }

  lemma StepSound(b: Book, op: Op)
    requires Sound(b) && Quiet(b) && Allowed(b, op)
    ensures Sound(Step(b, op)) && Quiet(Step(b, op))
  {
    match op
    case AddOp(o) => AddSound(b, o);
    case CancelOp(id) => CancelSound(b, id);
    case ReplaceOp(id, delta, price) => ReplaceSound(b, id, delta, price);
    case MarketOp(price) => ProcessSound(b.(market := price));
  }

  /**
    * In every reachable state the sides are in order, resting all-or-none orders are untouched,
    * and no stop is triggered.
    */
  lemma {:induction false} RunsKeep(b: Book, ops: seq<Op>)
    requires Sound(b) && Quiet(b) && Runs(b, ops)
    ensures Sound(After(b, ops)) && Quiet(After(b, ops))
    decreases |ops|
  {
    if ops != [] {
      StepSound(b, ops[0]);
      RunsKeep(Step(b, ops[0]), ops[1..]);
    }
  }

  /** A bid and an ask that cross in a reachable state include an all-or-none order. */
  lemma {:induction false} ReachableUncrossed(ops: seq<Op>, i: nat, j: nat)
    requires Runs(EMPTY_BOOK, ops)
    requires i < |After(EMPTY_BOOK, ops).bids| && j < |After(EMPTY_BOOK, ops).asks|
    ensures var b := After(EMPTY_BOOK, ops);
      && (b.bids[i].key >= b.asks[j].key ==> b.bids[i].order.aon || b.asks[j].order.aon)
      && (b.bids[i].order.aon ==> b.bids[i].order.filled == 0)
      && (b.asks[j].order.aon ==> b.asks[j].order.filled == 0)
  {
    RunsKeep(EMPTY_BOOK, ops);
    var b := After(EMPTY_BOOK, ops);
    assert MayRest(true, b.bids[i]) && MayRest(false, b.asks[j]) && Compatible(b.bids[i].order, b.asks[j].order);
  }

  // ---- Runs without all-or-none orders ----

  ghost predicate PlainSide(s: seq<Entry>) {
    forall e :: e in s ==> !e.order.aon
  }

  ghost predicate Plain(b: Book) {
    PlainSide(b.bids) && PlainSide(b.asks) && PlainSide(b.stopBids) && PlainSide(b.stopAsks)
  }

  lemma PlainEnqueue(high: bool, s: seq<Entry>, e: Entry)
    requires PlainSide(s) && !e.order.aon
    ensures PlainSide(Enqueue(high, s, e))
  {
  }

  lemma {:induction false} PlainMatch(opp: seq<Entry>, taker: Order, market: nat)
    requires PlainSide(opp) && !taker.aon
    ensures PlainSide(MatchRegular(opp, taker, market).opp)
  {
    if !(opp == [] || taker.Open() == 0 || !Crosses(opp[0].order, taker)) {
      assert opp[0] in opp;
      var q := Min(taker.Open(), opp[0].order.Open());
      PlainMatch(opp[1..], taker.Fill(q, Cost(q, opp[0].order.price)), opp[0].order.price);
    }
  }

  lemma PlainSubmit(b: Book, o: Order)
    requires Plain(b) && !o.aon
    ensures Plain(Submit(b, o))
  {
    var opp := if o.isBuy then b.asks else b.bids;
    PlainMatch(opp, o, b.market);
    TakerKept(opp, o, b.market);
    var t := MatchRegular(opp, o, b.market).taker;
    PlainEnqueue(o.isBuy, if o.isBuy then b.bids else b.asks, Entry(t.price, t));
  }

  lemma {:induction false} PlainSubmitAll(b: Book, s: seq<Entry>)
    requires Plain(b) && PlainSide(s)
    ensures Plain(SubmitAll(b, s))
    decreases |s|
  {
    if s != [] {
      assert s[0] in s;
      PlainSubmit(b, s[0].order);
      PlainSubmitAll(Submit(b, s[0].order), s[1..]);
    }
  }

  lemma {:induction false} PlainProcess(b: Book)
    requires Plain(b)
    ensures Plain(Process(b))
    decreases |b.stopBids| + |b.stopAsks|
  {
    var n, k := Firing(true, b.stopBids, b.market), Firing(false, b.stopAsks, b.market);
    if n + k > 0 {
      var c := b.(stopBids := b.stopBids[n..], stopAsks := b.stopAsks[k..]);
      PlainSubmitAll(c, b.stopBids[..n] + b.stopAsks[..k]);
      PlainProcess(SubmitAll(c, b.stopBids[..n] + b.stopAsks[..k]));
    }
  }

  lemma PlainStep(b: Book, op: Op)
    requires Plain(b) && Allowed(b, op) && (op.AddOp? ==> !op.order.aon)
    ensures Plain(Step(b, op))
  {
    hide Submit, Process, Replace, Cancel, Replaceable, Enqueue, Dequeue;
    match op
    case AddOp(o) =>
      PlainEnqueue(!o.isBuy, if o.isBuy then b.stopBids else b.stopAsks, Entry(o.stop, o));
      PlainSubmit(Tell(b, Accepted(o.id)), o);
      PlainProcess(Submit(Tell(b, Accepted(o.id)), o));
    case CancelOp(id) => PlainCancel(b, id);
    case ReplaceOp(id, delta, price) => PlainReplace(b, id, delta, price);
    case MarketOp(price) => PlainProcess(b.(market := price));
  }

  lemma PlainCancel(b: Book, id: nat)
    requires Plain(b)
    ensures Plain(Cancel(b, id))
  {
  }

  lemma PlainReplace(b: Book, id: nat, delta: int, price: nat)
    requires Plain(b) && (Has(b.bids, id) || Has(b.asks, id) ==> Replaceable(Resting(b, id), delta, price))
    ensures Plain(Replace(b, id, delta, price))
  {
    if Has(b.bids, id) || Has(b.asks, id) {
      var o := Resting(b, id);
      var s := if Has(b.bids, id) then b.bids else b.asks;
      assert s[IndexOf(s, id)] in s;
      if Reprices(o, price) {
        var n := o.Modify(delta, price);
        var c := Tell(Withdraw(b, id), Replaced(id, delta, n.price));
        PlainSubmit(c, n);
        PlainProcess(Submit(c, n));
      }
    }
  }

  lemma {:induction false} PlainRuns(b: Book, ops: seq<Op>)
    requires Plain(b) && Runs(b, ops) && forall op :: op in ops && op.AddOp? ==> !op.order.aon
    ensures Plain(After(b, ops))
    decreases |ops|
  {
    if ops != [] {
      assert ops[0] in ops;
      PlainStep(b, ops[0]);
      PlainRuns(Step(b, ops[0]), ops[1..]);
    }
  }

  /** Without all-or-none orders the best bid is always below the best ask. */
  lemma {:induction false} PlainRunsNeverCross(ops: seq<Op>)
    requires Runs(EMPTY_BOOK, ops) && forall op :: op in ops && op.AddOp? ==> !op.order.aon
    ensures var b := After(EMPTY_BOOK, ops);
      b.bids != [] && b.asks != [] ==> b.bids[0].key < b.asks[0].key
  {
    PlainRuns(EMPTY_BOOK, ops);
    var b := After(EMPTY_BOOK, ops);
    if b.bids != [] && b.asks != [] {
      ReachableUncrossed(ops, 0, 0);
      assert b.bids[0] in b.bids && b.asks[0] in b.asks;
    }
  }

  // ---- Conservation ----

  function TotalOpen(s: seq<Entry>): nat {
    if s == [] then 0 else s[0].order.Open() + TotalOpen(s[1..])
  }

  function Volume(log: seq<Event>): nat {
    if log == [] then 0 else (if log[0].Filled? then log[0].qty else 0) + Volume(log[1..])
  }

  /** What the incoming order gains the resting orders lose, and it is what the listener is told. */
  lemma {:induction false} Conserved(opp: seq<Entry>, taker: Order, market: nat)
    ensures var m := MatchRegular(opp, taker, market);
      && taker.Open() - m.taker.Open() == TotalOpen(opp) - TotalOpen(m.opp) == Volume(m.log)
      && m.taker.filled - taker.filled == Volume(m.log)
  {
    if opp == [] || taker.Open() == 0 || !Crosses(opp[0].order, taker) {
    } else if Skips(opp[0].order, taker) {
      var m := MatchRegular(opp[1..], taker, market);
      Conserved(opp[1..], taker, market);
      assert ([opp[0]] + m.opp)[1..] == m.opp;
    } else {
      var maker := opp[0].order;
      var q := Min(taker.Open(), maker.Open());
      var c := Cost(q, maker.price);
      var m := MatchRegular(opp[1..], taker.Fill(q, c), maker.price);
      Conserved(opp[1..], taker.Fill(q, c), maker.price);
      LeftOpen(opp[0], q, m.opp);
      assert ([Filled(taker.id, maker.id, q, c)] + m.log)[1..] == m.log;
    }
  }

  lemma {:induction false} LeftOpen(e: Entry, q: nat, rest: seq<Entry>)
    requires q <= e.order.Open()
    ensures TotalOpen(Left(e, q) + rest) == e.order.Open() - q + TotalOpen(rest)
  {
    var l := Left(e, q);
    if l == [] { assert l + rest == rest; } else { assert (l + rest)[1..] == rest; }
  }
}
