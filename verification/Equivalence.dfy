/**
  * The two engines answer every sequence of messages with the same reports. The states are
  * related entry by entry: same order, same price, same open quantity, no all-or-none order.
  */
module Equivalence {
  import opened Orders
  import opened Queues
  import opened Matching
  import opened Books
  import opened BookLaws
  import opened LiquiOrders
  import opened LiquiMatching
  import opened LiquiSync
  import opened Adapters

  // ---- The simulation relation ----

  /** An entry of one engine and a tracker of the other are the same order. */
  ghost predicate Same(e: Entry, t: Tracker, l: Liqui) {
    && e.key == e.order.price == t.order.price && e.order.price != MARKET
    && e.order.isBuy == t.order.isBuy && e.order.Open() == t.open
    && !e.order.aon && !t.aon
    && t.order.id in l.ext && l.ext[t.order.id] == e.order.id
    && e.order.id in l.orders && l.orders[e.order.id] == t.order
  }

  ghost predicate SameSide(s: seq<Entry>, u: seq<Tracker>, l: Liqui) {
    |s| == |u| && forall k :: 0 <= k < |s| ==> Same(s[k], u[k], l)
  }

  /** The current order object of an id was made for that id. */
  ghost predicate Labelled(l: Liqui) {
    forall id :: id in l.orders ==> l.orders[id].id in l.ext && l.ext[l.orders[id].id] == id
  }

  ghost predicate Sim(b: Book, l: Liqui) {
    && BookLaws.Sound(b) && b.stopBids == [] && b.stopAsks == []
    && MarketSide(true, l.bids) && MarketSide(false, l.asks)
    && SameSide(b.bids, l.bids, l) && SameSide(b.asks, l.asks, l)
    && Labelled(l)
  }

  // ---- Matching ----

  /** The incoming orders are the same. */
  ghost predicate SameTaker(o: Order, t: Tracker, ext: map<nat, nat>) {
    && o.price == t.order.price && o.price != MARKET && o.isBuy == t.order.isBuy && o.Open() == t.open && !o.aon
      && !t.aon
    && Label(ext, t.order.id) == o.id
  }

  lemma {:induction false} TradesFirst(cb: Callback, rest: seq<Callback>, seqNo: nat, ext: map<nat, nat>)
    ensures HeardAll([cb] + rest) == Heard(cb) + HeardAll(rest)
    ensures LiquiTrades(HeardAll([cb] + rest), seqNo, ext)
      == LiquiTrades(Heard(cb), seqNo, ext) + LiquiTrades(HeardAll(rest), seqNo, ext)
    ensures FilledQty(HeardAll([cb] + rest)) == FilledQty(Heard(cb)) + FilledQty(HeardAll(rest))
  {
    HeardConcat([cb], rest);
    assert [cb][..0] == [];
    TradesConcat(Heard(cb), HeardAll(rest), seqNo, ext);
  }

  lemma {:induction false} TradesConcat(a: seq<Event>, b: seq<Event>, seqNo: nat, ext: map<nat, nat>)
    ensures LiquiTrades(a + b, seqNo, ext) == LiquiTrades(a, seqNo, ext) + LiquiTrades(b, seqNo, ext)
    ensures BaboTrades(a + b, seqNo) == BaboTrades(a, seqNo) + BaboTrades(b, seqNo)
    ensures FilledQty(a + b) == FilledQty(a) + FilledQty(b)
  {
    LiquiTradesConcat(a, b, seqNo, ext);
    BaboTradesConcat(a, b, seqNo);
    FilledConcat(a, b);
  }

  lemma LiquiTradesFrom(a: seq<Event>, seqNo: nat, ext: map<nat, nat>)
    ensures LiquiTrades(a, seqNo, ext)
      == if a == [] then [] else LiquiTrade(a[0], seqNo, ext) + LiquiTrades(a[1..], seqNo, ext)
  {
  }

  lemma {:induction false} LiquiTradesConcat(a: seq<Event>, b: seq<Event>, seqNo: nat, ext: map<nat, nat>)
    ensures LiquiTrades(a + b, seqNo, ext) == LiquiTrades(a, seqNo, ext) + LiquiTrades(b, seqNo, ext)
  {
    hide LiquiTrade, LiquiTrades;
    LiquiTradesFrom(a, seqNo, ext);
    LiquiTradesFrom(a + b, seqNo, ext);
    if a == [] {
      assert a + b == b && [] + LiquiTrades(b, seqNo, ext) == LiquiTrades(b, seqNo, ext);
    } else {
      LiquiTradesConcat(a[1..], b, seqNo, ext);
      var t, x, y := LiquiTrade(a[0], seqNo, ext), LiquiTrades(a[1..], seqNo, ext), LiquiTrades(b, seqNo, ext);
      assert (a + b)[0] == a[0] && (a + b)[1..] == a[1..] + b && (t + x) + y == t + (x + y);
    }
  }

  lemma BaboTradesFrom(a: seq<Event>, seqNo: nat)
    ensures BaboTrades(a, seqNo) == if a == [] then [] else BaboTrade(a[0], seqNo) + BaboTrades(a[1..], seqNo)
  {
  }

  lemma {:induction false} BaboTradesConcat(a: seq<Event>, b: seq<Event>, seqNo: nat)
    ensures BaboTrades(a + b, seqNo) == BaboTrades(a, seqNo) + BaboTrades(b, seqNo)
  {
    hide BaboTrade, BaboTrades;
    BaboTradesFrom(a, seqNo);
    BaboTradesFrom(a + b, seqNo);
    if a == [] {
      assert a + b == b && [] + BaboTrades(b, seqNo) == BaboTrades(b, seqNo);
    } else {
      BaboTradesConcat(a[1..], b, seqNo);
      var t, x, y := BaboTrade(a[0], seqNo), BaboTrades(a[1..], seqNo), BaboTrades(b, seqNo);
      assert (a + b)[0] == a[0] && (a + b)[1..] == a[1..] + b && (t + x) + y == t + (x + y);
    }
  }

  lemma {:induction false} FilledConcat(a: seq<Event>, b: seq<Event>)
    ensures FilledQty(a + b) == FilledQty(a) + FilledQty(b)
  {
    if a == [] {
      assert a + b == b;
    } else {
      FilledConcat(a[1..], b);
      assert (a + b)[1..] == a[1..] + b;
    }
  }

  lemma SameRest(s: seq<Entry>, u: seq<Tracker>, l: Liqui)
    requires SameSide(s, u, l) && s != []
    ensures Same(s[0], u[0], l) && SameSide(s[1..], u[1..], l)
  {
  }

  /** Both engines trade the same quantities with the same orders at the same prices. */
  lemma {:induction false} SameTrades(s: seq<Entry>, u: seq<Tracker>, l: Liqui, o: Order, t: Tracker, market: nat,
                                      seqNo: nat)
    requires SameSide(s, u, l) && SameTaker(o, t, l.ext) && (forall k :: 0 <= k < |s| ==> s[k].order.isBuy != o.isBuy)
    ensures var m := MatchRegular(s, o, market); var p := RegularPass(u, t);
      && SameSide(m.opp, p.current, l) && SameTaker(m.taker, p.inbound, l.ext)
      && BaboTrades(m.log, seqNo) == LiquiTrades(HeardAll(p.fills), seqNo, l.ext)
      && FilledQty(m.log) == FilledQty(HeardAll(p.fills))
    decreases |s|
  {
    if s != [] { SameRest(s, u, l); }
    if s == [] || o.Open() == 0 || !Crosses(s[0].order, o) {
      assert HeardAll([]) == [];
    } else {
      TradeStep(s, u, l, o, t, market, seqNo);
    }
  }

  lemma {:induction false} TradeStep(s: seq<Entry>, u: seq<Tracker>, l: Liqui, o: Order, t: Tracker, market: nat,
                                     seqNo: nat)
    requires SameSide(s, u, l) && SameTaker(o, t, l.ext) && (forall k :: 0 <= k < |s| ==> s[k].order.isBuy != o.isBuy)
    requires s != [] && u != [] && o.Open() > 0 && Crosses(s[0].order, o) && Same(s[0], u[0], l)
    requires SameSide(s[1..], u[1..], l)
    ensures var m := MatchRegular(s, o, market); var p := RegularPass(u, t);
      && SameSide(m.opp, p.current, l) && SameTaker(m.taker, p.inbound, l.ext)
      && BaboTrades(m.log, seqNo) == LiquiTrades(HeardAll(p.fills), seqNo, l.ext)
      && FilledQty(m.log) == FilledQty(HeardAll(p.fills))
    decreases |s|, 0
  {
    hide MatchRegular, RegularPass, SameSide, BaboTrades, LiquiTrades, HeardAll, FilledQty, Left, Cost;
    var maker := s[0].order;
    var q := Min(o.Open(), maker.Open());
    var c := Cost(q, maker.price);
    var o', t' := o.Fill(q, c), t.(open := t.open - q);
    BuyersRest(s, o);
    SameTrades(s[1..], u[1..], l, o', t', maker.price, seqNo);
    var m, p := MatchRegular(s[1..], o', maker.price), RegularPass(u[1..], t');
    var cb := OnFill(t.order, u[0].order, q, u[0].order.price);
    RegularStep(s, o, market);
    PassStep(u, t);
    TradesFirst(cb, p.fills, seqNo, l.ext);
    LogFirst(Filled(o.id, maker.id, q, c), m.log, seqNo);
    OneTrade(cb, seqNo, l.ext);
    SameLeft(s[0], u[0], q, l, m.opp, p.current);
  }

  lemma BuyersRest(s: seq<Entry>, o: Order)
    requires s != [] && forall k :: 0 <= k < |s| ==> s[k].order.isBuy != o.isBuy
    ensures s[0].order.isBuy != o.isBuy && forall k :: 0 <= k < |s[1..]| ==> s[1..][k].order.isBuy != o.isBuy
  {
  }

  lemma {:induction false} PassStep(u: seq<Tracker>, t: Tracker)
    requires u != [] && t.open > 0 && Matches(u[0].order.isBuy, u[0].order.price, t.order.price) && !u[0].aon
    ensures var q := Min(t.open, u[0].open); var p := RegularPass(u[1..], t.(open := t.open - q));
      RegularPass(u, t) == p.(current := (if u[0].open == q then [] else [u[0].(open := u[0].open - q)]) + p.current,
                              fills := [OnFill(t.order, u[0].order, q, u[0].order.price)] + p.fills)
  {
  }

  lemma {:induction false} LogFirst(e: Event, log: seq<Event>, seqNo: nat)
    ensures BaboTrades([e] + log, seqNo) == BaboTrades([e], seqNo) + BaboTrades(log, seqNo)
    ensures FilledQty([e] + log) == FilledQty([e]) + FilledQty(log)
  {
    TradesConcat([e], log, seqNo, map[]);
  }

  lemma {:induction false} OneTrade(cb: Callback, seqNo: nat, ext: map<nat, nat>)
    requires cb.OnFill?
    ensures var c := Cost(cb.qty, cb.price);
      var e := Filled(Label(ext, cb.order.id), Label(ext, cb.matched.id), cb.qty, c);
      && LiquiTrades(Heard(cb), seqNo, ext) == BaboTrades([e], seqNo)
      && FilledQty(Heard(cb)) == FilledQty([e]) == cb.qty
  {
    var c := Cost(cb.qty, cb.price);
    var e := Filled(Label(ext, cb.order.id), Label(ext, cb.matched.id), cb.qty, c);
    assert Heard(cb)[1..] == [] && [e][1..] == [];
  }

  lemma SameLeft(e: Entry, t: Tracker, q: nat, l: Liqui, s: seq<Entry>, u: seq<Tracker>)
    requires Same(e, t, l) && q <= t.open && SameSide(s, u, l)
    ensures SameSide(Left(e, q) + s, (if t.open == q then [] else [t.(open := t.open - q)]) + u, l)
  {
  }

  // ---- Resting ----

  /** The two ways to find the place of a new order agree. */
  lemma {:induction false} SamePlace(buy: bool, s: seq<Entry>, u: seq<Tracker>, l: Liqui, price: nat)
    requires SameSide(s, u, l) && price != MARKET
    ensures PlaceOf(buy, s, price) == UpperBound(buy, u, price)
    decreases |s|
  {
    if s != [] {
      SameRest(s, u, l);
      SamePlace(buy, s[1..], u[1..], l, price);
    }
  }

  lemma SameEnqueued(buy: bool, s: seq<Entry>, u: seq<Tracker>, l: Liqui, e: Entry, t: Tracker)
    requires SameSide(s, u, l) && Same(e, t, l)
    ensures SameSide(Enqueue(buy, s, e), Emplace(buy, u, t), l)
  {
    SamePlace(buy, s, u, l, e.key);
    var p := PlaceOf(buy, s, e.key);
    var a, b := Enqueue(buy, s, e), Emplace(buy, u, t);
    forall k | 0 <= k < |a| ensures Same(a[k], b[k], l) {
      EnqueueAt(buy, s, e, k);
      EmplaceAt(buy, u, t, k);
    }
  }

  /** A new label and a new current object disturb no order on the book. */
  lemma SameRelabelled(s: seq<Entry>, u: seq<Tracker>, l: Liqui, m: Liqui, id: nat, lo: SimpleOrder)
    requires SameSide(s, u, l) && lo.id !in l.ext && id !in Ids(s)
    requires m.orders == l.orders[id := lo] && m.ext == l.ext[lo.id := id]
    ensures SameSide(s, u, m)
  {
    forall k | 0 <= k < |s| ensures Same(s[k], u[k], m) {
      assert s[k].order.id in Ids(s);
    }
  }

  // ---- Adding an order ----

  /** The order object Liquibook is given is the order the matching book is given. */
  ghost predicate MadeFor(lo: SimpleOrder, o: Order, l: Liqui) {
    && lo.id !in l.ext && lo.isBuy == o.isBuy && lo.price == o.price && lo.qty == o.qty
    && 0 < o.price < WORD && o.qty < WORD && o.filled == 0 && o.stop == 0 && !o.aon
  }

  /** Liquibook after it has been given the order. */
  ghost function Given(l: Liqui, o: Order, lo: SimpleOrder): Liqui {
    var r := PlainOutcome(l.bids, l.asks, lo, o.ioc);
    Liqui(r.bids, r.asks, l.orders[o.id := lo], l.ext[lo.id := o.id])
  }

  /** Without stops nothing fires. */
  lemma {:induction false} NothingFires(b: Book)
    requires b.stopBids == [] && b.stopAsks == []
    ensures Process(b) == b
  {
  }

  lemma MatchedSide(b: Book, l: Liqui, o: Order, lo: SimpleOrder, seqNo: nat)
    requires Sim(b, l) && MadeFor(lo, o, l) && o.qty > 0 && o.id !in Live(b)
    ensures var n := Given(l, o, lo);
      var s, u := if o.isBuy then b.asks else b.bids, if o.isBuy then l.asks else l.bids;
      var m, p := MatchRegular(s, o, b.market), RegularPass(u, Tracker(lo, lo.qty, false, o.ioc));
      && SameSide(m.opp, p.current, n) && SameTaker(m.taker, p.inbound, n.ext)
      && BaboTrades(m.log, seqNo) == LiquiTrades(HeardAll(p.fills), seqNo, n.ext)
        && FilledQty(m.log) == FilledQty(HeardAll(p.fills))
  {
    hide PlainOutcome, RegularPass, MatchRegular, SameSide, RestingSide, MarketSide, Ids;
    var n := Given(l, o, lo);
    var s, u := if o.isBuy then b.asks else b.bids, if o.isBuy then l.asks else l.bids;
    SameRelabelled(s, u, l, n, o.id, lo);
    BuySide(!o.isBuy, s);
    SameTrades(s, u, n, o, Tracker(lo, lo.qty, false, o.ioc), b.market, seqNo);
  }

  lemma BuySide(buy: bool, s: seq<Entry>)
    requires RestingSide(buy, s)
    ensures forall k :: 0 <= k < |s| ==> s[k].order.isBuy == buy
  {
    forall k | 0 <= k < |s| ensures s[k].order.isBuy == buy { assert MayRest(buy, s[k]); }
  }

  /** What the callbacks of a submission tell the adapter. */
  lemma {:induction false} OutcomeTrades(lo: SimpleOrder, fills: seq<Callback>, tail: seq<Callback>, seqNo: nat,
                                         ext: map<nat, nat>)
    requires forall k :: 0 <= k < |tail| ==> tail[k].OnCancel? || tail[k].OnBookUpdate?
    ensures LiquiTrades(HeardAll([OnAccept(lo)] + fills + tail), seqNo, ext) == LiquiTrades(HeardAll(fills), seqNo, ext)
    ensures FilledQty(HeardAll([OnAccept(lo)] + fills + tail)) == FilledQty(HeardAll(fills))
  {
    assert [OnAccept(lo)] + fills + tail == [OnAccept(lo)] + (fills + tail);
    TradesFirst(OnAccept(lo), fills + tail, seqNo, ext);
    assert Heard(OnAccept(lo))[1..] == [];
    HeardConcat(fills, tail);
    TradesConcat(HeardAll(fills), HeardAll(tail), seqNo, ext);
    QuietTail(tail, seqNo, ext);
  }

  lemma {:induction false} QuietTail(tail: seq<Callback>, seqNo: nat, ext: map<nat, nat>)
    requires forall k :: 0 <= k < |tail| ==> tail[k].OnCancel? || tail[k].OnBookUpdate?
    ensures LiquiTrades(HeardAll(tail), seqNo, ext) == [] && FilledQty(HeardAll(tail)) == 0
  {
    if tail != [] {
      hide HeardAll, Heard, LiquiTrades, FilledQty;
      QuietTail(tail[1..], seqNo, ext);
      assert tail == [tail[0]] + tail[1..];
      TradesFirst(tail[0], tail[1..], seqNo, ext);
      QuietOne(tail[0], seqNo, ext);
    }
  }

  lemma QuietOne(cb: Callback, seqNo: nat, ext: map<nat, nat>)
    requires cb.OnCancel? || cb.OnBookUpdate?
    ensures LiquiTrades(Heard(cb), seqNo, ext) == [] && FilledQty(Heard(cb)) == 0
  {
    assert Heard(cb) != [] ==> Heard(cb)[1..] == [];
  }

  /** An order that may not fire any stop. */
  lemma SubmitAlone(b: Book, o: Order)
    requires b.stopBids == [] && b.stopAsks == []
    ensures Process(Submit(b, o)) == Submit(b, o)
  {
    hide MatchRegular, MatchAon, Enqueue, Process;
    NothingFires(Submit(b, o));
  }

  lemma SubmitLog(b: Book, o: Order)
    requires !o.aon
    ensures Submit(b, o).log == b.log + MatchRegular(if o.isBuy then b.asks else b.bids, o, b.market).log
  {
    hide MatchRegular, MatchAon, Enqueue;
  }

  lemma AcceptedFirst(id: nat, log: seq<Event>, seqNo: nat)
    ensures BaboTrades([Accepted(id)] + log, seqNo) == BaboTrades(log, seqNo)
    ensures FilledQty([Accepted(id)] + log) == FilledQty(log)
  {
    assert ([Accepted(id)] + log)[1..] == log;
  }

  /** The log of the matching book after an accepted order: its acceptance and its fills. */
  lemma AddLog(b: Book, o: Order, seqNo: nat)
    requires b.stopBids == [] && b.stopAsks == [] && o.qty > 0 && o.stop == 0 && !o.aon
    ensures var m := MatchRegular(if o.isBuy then b.asks else b.bids, o, b.market);
      && Since(Add(b, o).log, |b.log|) == [Accepted(o.id)] + m.log
      && BaboTrades([Accepted(o.id)] + m.log, seqNo) == BaboTrades(m.log, seqNo)
      && FilledQty([Accepted(o.id)] + m.log) == FilledQty(m.log)
      && Add(b, o) == Submit(Tell(b, Accepted(o.id)), o)
  {
    hide Submit, MatchRegular, Process, BaboTrades, FilledQty;
    var c := Tell(b, Accepted(o.id));
    var m := MatchRegular(if o.isBuy then b.asks else b.bids, o, b.market);
    SubmitAlone(c, o);
    SubmitLog(c, o);
    AcceptedFirst(o.id, m.log, seqNo);
    assert (b.log + [Accepted(o.id)]) + m.log == b.log + ([Accepted(o.id)] + m.log);
  }

  lemma LabelledStill(l: Liqui, m: Liqui, id: nat, lo: SimpleOrder)
    requires Labelled(l) && lo.id !in l.ext && m.orders == l.orders[id := lo] && m.ext == l.ext[lo.id := id]
    ensures Labelled(m)
  {
  }

  /** An order object without a label is on no side. */
  lemma Unlabelled(s: seq<Entry>, u: seq<Tracker>, l: Liqui, lo: SimpleOrder)
    requires SameSide(s, u, l) && lo.id !in l.ext
    ensures Nowhere(u, lo)
  {
    var p := Where(u, lo);
    assert p < |u| ==> Same(s[p], u[p], l);
  }

  /** The side an order is matched against stays a side, and what is left of the order may rest. */
  lemma {:induction false} PassedSide(buy: bool, u: seq<Tracker>, own: seq<Tracker>, t: Tracker)
    requires MarketSide(buy, u) && MarketSide(!buy, own) && Nowhere(own, t.order)
    requires t.order.isBuy != buy && t.order.price != MARKET && 0 < t.open == t.order.qty < WORD && !t.aon
    ensures var p := RegularPass(u, t);
      && MarketSide(buy, p.current) && p.inbound.order == t.order && !p.inbound.aon
      && (p.inbound.open > 0 && !t.ioc ==> MarketSide(!buy, Emplace(!buy, own, p.inbound)))
  {
    var f := RegularIsTaken(buy, u, t);
    ReduceSide(buy, u, f);
    var p := RegularPass(u, t);
    if p.inbound.open > 0 && !t.ioc {
      assert MayStay(!buy, p.inbound);
      EmplaceSide(!buy, own, p.inbound);
    }
  }

  /** The sides of both engines after an accepted order. */
  lemma AddedSides(b: Book, l: Liqui, o: Order, lo: SimpleOrder)
    requires Sim(b, l) && MadeFor(lo, o, l) && o.qty > 0 && o.id !in Live(b)
    ensures var c, n := Submit(Tell(b, Accepted(o.id)), o), Given(l, o, lo);
      && SameSide(c.bids, n.bids, n) && SameSide(c.asks, n.asks, n)
      && MarketSide(true, n.bids) && MarketSide(false, n.asks)
  {
    hide RegularPass, MatchRegular, SameSide, RestingSide, MarketSide, Ids, Where, Enqueue, Emplace;
    var n := Given(l, o, lo);
    var s, u := if o.isBuy then b.asks else b.bids, if o.isBuy then l.asks else l.bids;
    var own, mine := if o.isBuy then b.bids else b.asks, if o.isBuy then l.bids else l.asks;
    var t := Tracker(lo, lo.qty, false, o.ioc);
    MatchedSide(b, l, o, lo, 0);
    SameRelabelled(own, mine, l, n, o.id, lo);
    Unlabelled(own, mine, l, lo);
    PassedSide(!o.isBuy, u, mine, t);
    var m, p := MatchRegular(s, o, b.market), RegularPass(u, t);
    TakerKept(s, o, b.market);
    if m.taker.Open() > 0 && !o.ioc {
      SameEnqueued(o.isBuy, own, mine, n, Entry(m.taker.price, m.taker), p.inbound);
    }
  }

  /** An order given to both engines: same fills told, and the states stay related. */
  lemma {:induction false} AddSim(b: Book, l: Liqui, o: Order, lo: SimpleOrder, seqNo: nat)
    requires Sim(b, l) && MadeFor(lo, o, l) && o.id !in Live(b)
    ensures Sim(Add(b, o), Given(l, o, lo))
    ensures var log, heard := Since(Add(b, o).log, |b.log|), HeardAll(PlainOutcome(l.bids, l.asks, lo, o.ioc).cbs);
      && BaboTrades(log, seqNo) == LiquiTrades(heard, seqNo, l.ext[lo.id := o.id]) && FilledQty(log) == FilledQty(heard)
  {
    var n := Given(l, o, lo);
    assert Quiet(b);
    AddSound(b, o);
    LabelledStill(l, n, o.id, lo);
    if o.qty == 0 {
      SameRelabelled(b.bids, l.bids, l, n, o.id, lo);
      SameRelabelled(b.asks, l.asks, l, n, o.id, lo);
      RefusedTrades(b, o, lo, seqNo, n.ext);
    } else {
      AddLog(b, o, seqNo);
      AddedSides(b, l, o, lo);
      MatchedSide(b, l, o, lo, seqNo);
      AcceptedTrades(l, o, lo, seqNo);
    }
  }

  lemma {:induction false} RefusedTrades(b: Book, o: Order, lo: SimpleOrder, seqNo: nat, ext: map<nat, nat>)
    requires o.qty == 0
    ensures var log, heard := Since(Add(b, o).log, |b.log|), HeardAll([OnReject(lo)]);
      BaboTrades(log, seqNo) == LiquiTrades(heard, seqNo, ext) == [] && FilledQty(log) == FilledQty(heard) == 0
  {
    assert (b.log + [Rejected(o.id)])[|b.log|..] == [Rejected(o.id)];
    assert [Rejected(o.id)][1..] == [] && [OnReject(lo)][..0] == [] && Heard(OnReject(lo))[1..] == [];
  }

  lemma AcceptedTrades(l: Liqui, o: Order, lo: SimpleOrder, seqNo: nat)
    requires lo.qty > 0
    ensures var p := RegularPass(if lo.isBuy then l.asks else l.bids, Tracker(lo, lo.qty, false, o.ioc));
      var heard, ext := HeardAll(PlainOutcome(l.bids, l.asks, lo, o.ioc).cbs), l.ext[lo.id := o.id];
      LiquiTrades(heard, seqNo, ext) == LiquiTrades(HeardAll(p.fills), seqNo, ext)
        && FilledQty(heard) == FilledQty(HeardAll(p.fills))
  {
    var a := PlainAdd(l.bids, l.asks, Tracker(lo, lo.qty, false, o.ioc));
    var more := if o.ioc && a.inbound.open > 0 then [OnCancel(lo)] else [];
    assert [OnAccept(lo)] + a.fills + more + [OnBookUpdate] == [OnAccept(lo)] + a.fills + (more + [OnBookUpdate]);
    OutcomeTrades(lo, a.fills, more + [OnBookUpdate], seqNo, l.ext[lo.id := o.id]);
  }

  // ---- Cancelling ----

  /** An id names an entry of one engine exactly where its current object is on the other. */
  lemma {:induction false} FoundAlike(buy: bool, s: seq<Entry>, u: seq<Tracker>, l: Liqui, id: nat)
    requires SameSide(s, u, l) && UniqueIds(s) && MarketSide(buy, u) && Labelled(l)
    ensures Has(s, id) ==> id in l.orders && Where(u, l.orders[id]) == IndexOf(s, id) && OpenIn(u, l.orders[id]) > 0
    ensures id in l.orders && OpenIn(u, l.orders[id]) > 0 ==> Has(s, id)
  {
    var k := IndexOf(s, id);
    if k < |s| {
      assert Same(s[k], u[k], l) && MayStay(buy, u[k]);
      WhereAt(buy, u, k);
    }
    if id in l.orders && OpenIn(u, l.orders[id]) > 0 { HeldNamed(s, u, l, id); }
  }

  lemma {:induction false} HeldNamed(s: seq<Entry>, u: seq<Tracker>, l: Liqui, id: nat)
    requires SameSide(s, u, l) && Labelled(l) && id in l.orders && Where(u, l.orders[id]) < |u|
    ensures Has(s, id)
  {
    var w := Where(u, l.orders[id]);
    assert Same(s[w], u[w], l);
    assert s[w].order.id == id;
  }

  lemma RestsAlike(b: Book, l: Liqui, id: nat)
    requires Sim(b, l)
    ensures BaboRests(b, id) <==> LiquiRests(l, id)
    ensures id in Live(b) <==> BaboRests(b, id)
  {
    FoundAlike(true, b.bids, l.bids, l, id);
    FoundAlike(false, b.asks, l.asks, l, id);
    HasIds(b.bids, id);
    HasIds(b.asks, id);
    hide Has, IndexOf, OpenIn, SameSide, MarketSide;
  }

  lemma {:induction false} SameWithout(buy: bool, s: seq<Entry>, u: seq<Tracker>, l: Liqui, id: nat)
    requires SameSide(s, u, l) && UniqueIds(s) && MarketSide(buy, u) && Labelled(l) && Has(s, id)
    ensures id in l.orders && Where(u, l.orders[id]) == IndexOf(s, id) < |u|
    ensures SameSide(Dequeue(s, id), Without(u, IndexOf(s, id)), l) && MarketSide(buy, Without(u, IndexOf(s, id)))
    ensures s[IndexOf(s, id)].order.price == l.orders[id].price
    ensures s[IndexOf(s, id)].order.isBuy == l.orders[id].isBuy == buy
  {
    var k := IndexOf(s, id);
    FoundAlike(buy, s, u, l, id);
    assert Same(s[k], u[k], l) && MayStay(buy, u[k]);
    WithoutSide(buy, u, k);
    var t, v := Dequeue(s, id), Without(u, k);
    forall i | 0 <= i < |t|
      ensures Same(t[i], v[i], l)
    {
      assert Same(s[if i < k then i else i + 1], u[if i < k then i else i + 1], l);
    }
  }

  /** A cancelled order leaves both engines, which name the same side and price. */
  lemma CancelSim(b: Book, l: Liqui, id: nat)
    requires Sim(b, l) && BaboRests(b, id)
    ensures id in l.orders && Sim(Cancel(b, id), LiquiWithdraw(l, l.orders[id]))
    ensures !BaboRests(Cancel(b, id), id)
    ensures Resting(b, id).price == l.orders[id].price && (Has(b.bids, id) <==> l.orders[id].isBuy)
  {
    assert Quiet(b);
    CancelSound(b, id);
    WithdrawKept(b, id);
    if Has(b.bids, id) { SameWithout(true, b.bids, l.bids, l, id); } else { SameWithout(false, b.asks, l.asks, l, id); }
    hide SameSide, MarketSide, RestingSide, Ids, Has, Dequeue;
    GoneAlike(b, id);
  }

  lemma GoneAlike(b: Book, id: nat)
    requires BookLaws.Sound(b) && BaboRests(b, id)
    ensures !BaboRests(Cancel(b, id), id)
  {
    HasIds(b.bids, id);
    HasIds(b.asks, id);
    if Has(b.bids, id) {
      DequeueIds(b.bids, id);
      HasIds(Dequeue(b.bids, id), id);
    } else {
      DequeueIds(b.asks, id);
      HasIds(Dequeue(b.asks, id), id);
    }
  }

  // ---- Messages ----

  /** A message and the order object Liquibook's adapter makes for it. */
  datatype Turn = Turn(msg: Msg, lo: SimpleOrder)

  ghost predicate Made(lo: SimpleOrder, side: nat, price: nat, qty: nat, ext: map<nat, nat>) {
    lo.id !in ext && lo.isBuy == (side == 0) && lo.price == price && lo.qty == qty && 0 < price < WORD && qty < WORD
  }

  /**
    * Ids, limit prices and quantities of 32 bits, no new order under a resting id, and a new
    * object for each order made.
    */
  ghost predicate Admissible(b: Book, l: Liqui, t: Turn) {
    t.msg.id < WORD &&
    match t.msg
    case NewMsg(_, id, side, price, qty, _) => !BaboRests(b, id) && Made(t.lo, side, price, qty, l.ext)
    case CancelMsg(_, _) => true
    case ModifyMsg(_, _, side, price, qty) => Made(t.lo, side, price, qty, l.ext)
  }

  lemma CancelAlike(b: Book, l: Liqui, m: Msg)
    requires Sim(b, l) && m.CancelMsg?
    ensures BaboCancel(b, m).reports == LiquiCancel(l, m).reports && Sim(BaboCancel(b, m).book, LiquiCancel(l, m).state)
  {
    hide Sim, Cancel, LiquiWithdraw, BaboRests, LiquiRests;
    RestsAlike(b, l, m.id);
    RestsUnfolds(b, l, m.id);
    if BaboRests(b, m.id) { CancelSim(b, l, m.id); }
  }

  lemma RestsUnfolds(b: Book, l: Liqui, id: nat)
    ensures BaboRests(b, id) <==> Has(b.bids, id) || Has(b.asks, id)
    ensures LiquiRests(l, id) ==> id in l.orders
  {
  }

  /** One message: the same reports, and the states stay related. */
  lemma MsgSim(b: Book, l: Liqui, t: Turn)
    requires Sim(b, l) && Admissible(b, l, t)
    ensures var x, y := BaboMsg(b, t.msg), LiquiMsg(l, t.msg, t.lo);
      x.reports == y.reports && Sim(x.book, y.state)
  {
    hide Sim, Add, Cancel, PlainOutcome, BaboTrades, LiquiTrades, LiquiRests, BaboRests;
    RestsAlike(b, l, t.msg.id);
    match t.msg
    case NewMsg(seqNo, id, side, price, qty, ioc) =>
      AddSim(b, l, Order(id, side == 0, price, 0, qty, 0, 0, false, ioc), t.lo, seqNo);
    case CancelMsg(seqNo, id) =>
      CancelAlike(b, l, t.msg);
    case ModifyMsg(seqNo, id, side, price, qty) =>
      if BaboRests(b, id) {
        CancelSim(b, l, id);
        var c, m := Cancel(b, id), LiquiWithdraw(l, l.orders[id]);
        RestsAlike(c, m, id);
        AddSim(c, m, Order(id, side == 0, price, 0, qty, 0, 0, false, false), t.lo, seqNo);
      }
  }

  ghost predicate AdmissibleRun(b: Book, l: Liqui, run: seq<Turn>)
    decreases |run|
  {
    run == [] ||
    (Admissible(b, l, run[0]) && AdmissibleRun(BaboMsg(b, run[0].msg).book, LiquiMsg(l, run[0].msg, run[0].lo).state,
        run[1..]))
  }

  ghost function BaboReports(b: Book, run: seq<Turn>): seq<Report>
    decreases |run|
  {
    if run == [] then [] else BaboMsg(b, run[0].msg).reports + BaboReports(BaboMsg(b, run[0].msg).book, run[1..])
  }

  ghost function LiquiReports(l: Liqui, run: seq<Turn>): seq<Report>
    decreases |run|
  {
    if run == [] then []
    else LiquiMsg(l, run[0].msg, run[0].lo).reports + LiquiReports(LiquiMsg(l, run[0].msg, run[0].lo).state, run[1..])
  }

  /** The states after a run. */
  ghost function BaboAfter(b: Book, run: seq<Turn>): Book
    decreases |run|
  {
    if run == [] then b else BaboAfter(BaboMsg(b, run[0].msg).book, run[1..])
  }

  ghost function LiquiAfter(l: Liqui, run: seq<Turn>): Liqui
    decreases |run|
  {
    if run == [] then l else LiquiAfter(LiquiMsg(l, run[0].msg, run[0].lo).state, run[1..])
  }

  /** From related states both engines report the same over every run, and stay related. */
  lemma {:induction false} RunsAgree(b: Book, l: Liqui, run: seq<Turn>)
    requires Sim(b, l) && AdmissibleRun(b, l, run)
    ensures BaboReports(b, run) == LiquiReports(l, run)
    ensures Sim(BaboAfter(b, run), LiquiAfter(l, run))
    decreases |run|
  {
    hide Sim, BaboMsg, LiquiMsg, Admissible;
    if run != [] {
      MsgSim(b, l, run[0]);
      RunsAgree(BaboMsg(b, run[0].msg).book, LiquiMsg(l, run[0].msg, run[0].lo).state, run[1..]);
    }
  }

  const EMPTY_LIQUI := Liqui([], [], map[], map[])

  /** Every query is answered alike. */
  ghost predicate AnswersAlike(b: Book, l: Liqui) {
    && BaboBest(b.bids) == LiquiBest(l.bids) && BaboBest(b.asks) == LiquiBest(l.asks)
    && forall price: nat ::
         && BaboDepthAt(b.bids, price) == LiquiDepthAt(true, l.bids, price)
         && BaboDepthAt(b.asks, price) == LiquiDepthAt(false, l.asks, price)
  }

  /** Both engines, started empty, emit identical report streams and answer every query alike. */
  lemma {:induction false} EnginesAgree(run: seq<Turn>)
    requires AdmissibleRun(EMPTY_BOOK, EMPTY_LIQUI, run)
    ensures BaboReports(EMPTY_BOOK, run) == LiquiReports(EMPTY_LIQUI, run)
    ensures AnswersAlike(BaboAfter(EMPTY_BOOK, run), LiquiAfter(EMPTY_LIQUI, run))
  {
    hide Sim, AnswersAlike;
    StartAlike();
    RunsAgree(EMPTY_BOOK, EMPTY_LIQUI, run);
    QueriesAgree(BaboAfter(EMPTY_BOOK, run), LiquiAfter(EMPTY_LIQUI, run));
  }

  lemma StartAlike()
    ensures Sim(EMPTY_BOOK, EMPTY_LIQUI)
  {
  }

  /** Related states answer every query alike. */
  lemma QueriesAgree(b: Book, l: Liqui)
    requires Sim(b, l)
    ensures AnswersAlike(b, l)
  {
    hide RestingSide, BaboDepthAt, LiquiDepthAt;
    forall price: nat
      ensures BaboDepthAt(b.bids, price) == LiquiDepthAt(true, l.bids, price)
      ensures BaboDepthAt(b.asks, price) == LiquiDepthAt(false, l.asks, price)
    {
      SameDepth(true, b.bids, l.bids, l, price);
      SameDepth(false, b.asks, l.asks, l, price);
    }
    SameBest(b.bids, l.bids, l);
    SameBest(b.asks, l.asks, l);
  }

  lemma SameBest(s: seq<Entry>, u: seq<Tracker>, l: Liqui)
    requires SameSide(s, u, l)
    ensures BaboBest(s) == LiquiBest(u)
  {
    if s != [] { assert Same(s[0], u[0], l); }
  }

  /** Summing a whole side and summing the entries equal to the price give the same. */
  lemma {:induction false} SameDepth(buy: bool, s: seq<Entry>, u: seq<Tracker>, l: Liqui, price: nat)
    requires SameSide(s, u, l) && MarketSide(buy, u)
    ensures BaboDepthAt(s, price) == LiquiDepthAt(buy, u, price)
    decreases |s|
  {
    if price == MARKET {
      NoneAtMarket(s, u, l);
    } else if s != [] && Before(buy, u[0].order.price, price) {
      SameRest(s, u, l);
      SideRest(buy, u, 1);
      SameDepth(buy, s[1..], u[1..], l, price);
    } else {
      SameRun(buy, s, u, l, price);
    }
  }

  /** Nothing rests at price zero, and no entry comes before it. */
  lemma {:induction false} NoneAtMarket(s: seq<Entry>, u: seq<Tracker>, l: Liqui)
    requires SameSide(s, u, l)
    ensures BaboDepthAt(s, MARKET) == 0 && RunAt(u, MARKET) == 0
    ensures u != [] ==> !Before(u[0].order.isBuy, u[0].order.price, MARKET)
  {
    if s != [] {
      assert Same(s[0], u[0], l);
      SameRest(s, u, l);
      NoneAtMarket(s[1..], u[1..], l);
    }
  }

  /** From an entry not before the price on, only the run at the price counts. */
  lemma {:induction false} SameRun(buy: bool, s: seq<Entry>, u: seq<Tracker>, l: Liqui, price: nat)
    requires SameSide(s, u, l) && MarketSide(buy, u) && price != MARKET
    requires u != [] ==> !Before(buy, u[0].order.price, price)
    ensures BaboDepthAt(s, price) == RunAt(u, price)
    ensures u != [] && Before(buy, price, u[0].order.price) ==> BaboDepthAt(s, price) == 0
    decreases |s|
  {
    if s != [] {
      SameRest(s, u, l);
      SideRest(buy, u, 1);
      assert MayStay(buy, u[0]);
      if |u| > 1 { assert InLine(u, 0, 1) && MayStay(buy, u[1]); }
      SameRun(buy, s[1..], u[1..], l, price);
    }
  }

  // ---- The price of a trade report ----

  /** The adapters report the maker's price exactly if the cost of the fill fits 32 bits. */
  lemma PriceExact(q: nat, px: nat)
    requires 0 < q < WORD && px < WORD
    ensures PriceOf(Cost(q, px), q) == px <==> q * px < WORD
  {
    var c := Cost(q, px);
    if q * px < WORD {
      assert c == q * px;
      Divides(q, px, c);
    } else {
      assert c < q * px;
      var r := c / q;
      assert q * r <= c;
      if r >= px { MulMono(q, px, r); }
    }
  }

  /** 65536 units at 65536 cost 2^32, which is 0 in 32 bits, and are reported at price 0. */
  lemma PriceLost()
    ensures PriceOf(Cost(65536, 65536), 65536) == 0
  {
    assert 65536 * 65536 == WORD;
    assert Wrap(WORD) == 0;
  }

  lemma Divides(q: nat, px: nat, c: nat)
    requires q > 0 && c == q * px
    ensures c / q == px
  {
    var d := px - c / q;
    assert q * d == c - q * (c / q) == c % q;
    MulApart(q, d);
  }

  lemma MulApart(q: nat, d: int)
    requires q > 0
    ensures d > 0 ==> q * d >= q
    ensures d < 0 ==> q * d + q <= 0
  {
  }

  lemma MulMono(q: nat, a: nat, b: nat)
    requires a <= b
    ensures q * a <= q * b
  {
  }
}
