/** The two adapters as the benchmark drives them: message handlers that push reports. */
module Engines {
  import opened Orders
  import opened Layout
  import opened Queues
  import opened Matching
  import opened Books
  import opened BookLaws
  import opened NarbTrees
  import opened Blocks
  import opened MatchingBooks
  import opened LiquiOrders
  import opened LiquiMatching
  import opened LiquiSync
  import LiquiSteps
  import opened Liquibook
  import opened Adapters
  import opened Equivalence

  /** What the benchmark may send: 32-bit ids, limit prices and quantities. */
  ghost predicate Sendable(m: Msg) {
    m.id < WORD && (m.CancelMsg? || (0 < m.price < WORD && m.qty < WORD))
  }

  /** The benchmark may send the messages one after the other: no new order reuses a resting id. */
  ghost predicate Orderly(b: Book, msgs: seq<Msg>)
    decreases |msgs|
  {
    msgs == [] ||
    (Sendable(msgs[0]) && (msgs[0].NewMsg? ==> !BaboRests(b, msgs[0].id)) && Orderly(BaboMsg(b, msgs[0]).book,
        msgs[1..]))
  }

  /** What is reported of a batch. */
  ghost function BatchReports(b: Book, msgs: seq<Msg>): seq<Report>
    decreases |msgs|
  {
    if msgs == [] then [] else BaboMsg(b, msgs[0]).reports + BatchReports(BaboMsg(b, msgs[0]).book, msgs[1..])
  }

  lemma {:induction false} BatchNext(b: Book, msgs: seq<Msg>, k: nat, was: seq<Report>)
    requires k < |msgs| && Orderly(b, msgs[k..])
    ensures Sendable(msgs[k]) && (msgs[k].NewMsg? ==> !BaboRests(b, msgs[k].id))
    ensures Orderly(BaboMsg(b, msgs[k]).book, msgs[k + 1..])
    ensures was + BatchReports(b, msgs[k..])
      == (was + BaboMsg(b, msgs[k]).reports) + BatchReports(BaboMsg(b, msgs[k]).book, msgs[k + 1..])
  {
    hide BaboMsg, Sendable, BaboRests;
    assert msgs[k..][0] == msgs[k] && msgs[k..][1..] == msgs[k + 1..];
  }

  lemma {:induction false} BatchDone(b: Book, was: seq<Report>)
    ensures was + BatchReports(b, []) == was
  {
  }

  lemma NewTurn(b: Book, l: Liqui, m: Msg, lo: SimpleOrder)
    requires Sendable(m) && m.NewMsg? && !BaboRests(b, m.id)
    requires lo.id !in l.ext && lo.isBuy == (m.side == 0) && lo.price == m.price && lo.qty == m.qty
    ensures Admissible(b, l, Turn(m, lo))
  {
  }

  lemma ModifyTurn(b: Book, l: Liqui, m: Msg, lo: SimpleOrder)
    requires Sendable(m) && m.ModifyMsg?
    requires lo.id !in l.ext && lo.isBuy == (m.side == 0) && lo.price == m.price && lo.qty == m.qty
    ensures Admissible(b, l, Turn(m, lo))
  {
  }

  lemma NoneParked(b: Book, l: Liqui, id: nat)
    requires Sim(b, l)
    ensures Unparked(b, id)
  {
  }

  lemma BothReject(b: Book, m: Msg)
    requires m.ModifyMsg? && !BaboRests(b, m.id)
    ensures BaboMsg(b, m) == BaboStep(b, [Ack(ModifyReject, m.seqNo, m.id, 0, 0, 0)])
  {
  }

  /** Without all-or-none orders there are none after a plain order either. */
  lemma StillNoAons(bids: seq<Tracker>, asks: seq<Tracker>, lo: SimpleOrder, ioc: bool)
    requires NoAons(bids) && NoAons(asks)
    ensures NoAons(PlainOutcome(bids, asks, lo, ioc).bids) && NoAons(PlainOutcome(bids, asks, lo, ioc).asks)
  {
    if lo.qty > 0 {
      var t := Tracker(lo, lo.qty, false, ioc);
      NoneDeferred(if lo.isBuy then asks else bids, t);
      PassKeeps(if lo.isBuy then asks else bids, t);
    }
  }

  lemma {:induction false} PassKeeps(s: seq<Tracker>, t: Tracker)
    ensures RegularPass(s, t).inbound.aon == t.aon
  {
    if !(s == [] || t.open == 0 || !Matches(s[0].order.isBuy, s[0].order.price, t.order.price)) {
      if s[0].aon && s[0].open > t.open { PassKeeps(s[1..], t); }
      else { PassKeeps(s[1..], t.(open := t.open - Min(t.open, s[0].open))); }
    }
  }

  /** No stop is parked under the id. */
  ghost predicate Unparked(b: Book, id: nat) {
    id !in Ids(b.stopBids) && id !in Ids(b.stopAsks)
  }

  /** Adding an order only appends to what the listener has been told. */
  lemma AddTells(b: Book, o: Order)
    ensures |b.log| <= |Books.Add(b, o).log|
  {
    if o.qty > 0 && !(o.stop != 0 && Stopped(o, b.market)) {
      var c := Tell(b, Accepted(o.id));
      ProcessTells(Books.Submit(c, o));
    }
  }

  lemma {:induction false} SubmitAllTells(b: Book, s: seq<Entry>)
    ensures |b.log| <= |SubmitAll(b, s).log|
    decreases |s|
  {
    if s != [] { SubmitAllTells(Books.Submit(b, s[0].order), s[1..]); }
  }

  lemma {:induction false} ProcessTells(b: Book)
    ensures |b.log| <= |Process(b).log|
    decreases |b.stopBids| + |b.stopAsks|
  {
    var n, k := Firing(true, b.stopBids, b.market), Firing(false, b.stopAsks, b.market);
    if n + k > 0 {
      var c := b.(stopBids := b.stopBids[n..], stopAsks := b.stopAsks[k..]);
      var fired := b.stopBids[..n] + b.stopAsks[..k];
      SubmitAllTells(c, fired);
      ProcessTells(SubmitAll(c, fired));
    }
  }

  class BaboAdapter {
    const book: MatchingBook
    var reports: seq<Report>

    ghost predicate Valid()
      reads this, book, book.bids.chain, book.asks.chain, book.stopBids.chain, book.stopAsks.chain, book.Repr()
    {
      this !in book.Repr() && book.Valid()
    }

    constructor (cap: nat)
      requires 0 < cap < NPOS
      ensures Valid() && reports == [] && book.Abs() == EMPTY_BOOK && fresh(book.Repr())
    {
      hide MatchingBook.Valid, MatchingBook.Abs;
      book := new MatchingBook(cap);
      reports := [];
    }

    method EmitAck(kind: Kind, seqNo: nat, id: nat, side: nat, price: nat, qty: nat)
      requires Valid()
      modifies this`reports
      ensures Valid() && Repr() == old(Repr()) && book.Abs() == old(book.Abs())
      ensures reports == old(reports) + [Ack(kind, seqNo, id, side, price, qty)]
    {
      hide MatchingBook.Valid, MatchingBook.Abs;
      reports := reports + [Ack(kind, seqNo, id, side, price, qty)];
    }

    /** What the listener does with the fills told since `n`. */
    method PushTrades(n: nat, seqNo: nat) returns (filled: nat)
      requires n <= |book.log|
      modifies this`reports
      ensures reports == old(reports) + BaboTrades(Since(book.log, n), seqNo)
      ensures filled == FilledQty(Since(book.log, n))
    {
      hide BaboTrades, FilledQty;
      filled := 0;
      var k := n;
      while k < |book.log|
        invariant n <= k <= |book.log|
        invariant reports + BaboTrades(book.log[k..], seqNo) == old(reports) + BaboTrades(book.log[n..], seqNo)
        invariant filled + FilledQty(book.log[k..]) == FilledQty(book.log[n..])
        decreases |book.log| - k
      {
        BaboTradeFrom(book.log, k, seqNo);
        var e := book.log[k];
        k := k + 1;
        if e.Filled? {
          var r := TradeReport(seqNo, e.taker, e.maker, e.qty, e.cost);
          assert reports + ([r] + BaboTrades(book.log[k..], seqNo))
            == (reports + [r]) + BaboTrades(book.log[k..], seqNo);
          reports := reports + [r];
          filled := filled + e.qty;
        }
      }
      BaboTradeFrom(book.log, k, seqNo);
    }

    lemma BaboTradeFrom(log: seq<Event>, k: nat, seqNo: nat)
      requires k <= |log|
      ensures k == |log| ==> BaboTrades(log[k..], seqNo) == [] && FilledQty(log[k..]) == 0
      ensures k < |log| ==> BaboTrades(log[k..], seqNo) == BaboTrade(log[k], seqNo) + BaboTrades(log[k + 1..], seqNo)
      ensures k < |log| ==> FilledQty(log[k..]) == (if log[k].Filled? then log[k].qty else 0) + FilledQty(log[k + 1..])
    {
      hide BaboTrade;
      assert k < |log| ==> log[k..][0] == log[k] && log[k..][1..] == log[k + 1..];
    }

    ghost function Repr(): set<object>
      reads book.bids.chain, book.asks.chain, book.stopBids.chain, book.stopAsks.chain
    {
      {this} + book.Repr()
    }

    /** Gives the book an order and reports its fills; says how much was filled. */
    method Trade(o: Order, seqNo: nat) returns (filled: nat)
      requires Valid() && Fresh(o) && o.id !in Live(book.Abs())
      modifies Repr()
      ensures Valid() && Repr() >= old(Repr()) && fresh(Repr() - old(Repr()))
      ensures var b := old(book.Abs()); var c := Books.Add(b, o); var log := Since(c.log, |b.log|);
        book.Abs() == c && reports == old(reports) + BaboTrades(log, seqNo) && filled == FilledQty(log)
    {
      hide MatchingBook.Valid, MatchingBook.Abs, Books.Add, BaboTrades, FilledQty, Live;
      ghost var b := book.Abs();
      AddTells(b, o);
      LogIs();
      var n := |book.log|;
      book.Add(o);
      LogIs();
      filled := PushTrades(n, seqNo);
    }

    lemma LogIs()
      ensures book.log == book.Abs().log
    {
    }

    method OnNewOrder(m: Msg)
      requires Valid() && m.NewMsg? && Sendable(m) && m.id !in Live(book.Abs())
      modifies Repr()
      ensures Valid() && Repr() >= old(Repr()) && fresh(Repr() - old(Repr()))
      ensures var r := BaboMsg(old(book.Abs()), m); book.Abs() == r.book && reports == old(reports) + r.reports
    {
      hide Valid, MatchingBook.Valid, MatchingBook.Abs, Books.Add, BaboTrades, FilledQty, Live;
      EmitAck(OrderAck, m.seqNo, m.id, m.side, m.price, m.qty);
      var o := Order(m.id, m.side == 0, m.price, 0, m.qty, 0, 0, false, m.ioc);
      var filled := Trade(o, m.seqNo);
      if m.ioc && filled < m.qty {
        EmitAck(CancelAck, m.seqNo, m.id, m.side, m.price, m.qty - filled);
      }
    }

    /** The side and price of a resting order, bids before asks. */
    method FindResting(id: nat) returns (found: bool, isBuy: bool, price: nat)
      requires Valid()
      ensures found <==> BaboRests(book.Abs(), id)
      ensures found ==> (isBuy <==> Has(book.Abs().bids, id)) && price == Resting(book.Abs(), id).price
    {
      hide MatchingBook.Valid, MatchingBook.Abs, Has;
      var loc, o;
      isBuy, loc, o := book.Find(id);
      found, price := loc != Nil, o.price;
    }

    /** Cancels in the book. */
    method Withdraw(id: nat)
      requires Valid()
      modifies Repr()
      ensures Valid() && Repr() == old(Repr()) && reports == old(reports)
      ensures book.Abs() == Books.Cancel(old(book.Abs()), id)
    {
      hide MatchingBook.Valid, MatchingBook.Abs, Books.Cancel;
      book.Cancel(id);
    }

    method OnCancel(m: Msg)
      requires Valid() && m.CancelMsg?
      modifies Repr()
      ensures Valid() && Repr() == old(Repr())
      ensures var r := BaboMsg(old(book.Abs()), m); book.Abs() == r.book && reports == old(reports) + r.reports
    {
      hide Valid, MatchingBook.Abs, Books.Cancel, Has, BaboRests;
      var found, isBuy, px := FindResting(m.id);
      if found {
        Withdraw(m.id);
        EmitAck(CancelAck, m.seqNo, m.id, if isBuy then 0 else 1, px, 0);
      } else {
        EmitAck(CancelReject, m.seqNo, m.id, 0, 0, 0);
      }
    }

    method OnModify(m: Msg)
      requires Valid() && m.ModifyMsg? && Sendable(m) && Unparked(book.Abs(), m.id)
      modifies Repr()
      ensures Valid() && Repr() >= old(Repr()) && fresh(Repr() - old(Repr()))
      ensures var r := BaboMsg(old(book.Abs()), m); book.Abs() == r.book && reports == old(reports) + r.reports
    {
      hide Valid, MatchingBook.Abs, Books.Cancel, Books.Add, Has, BaboTrades, FilledQty, Live, Unparked, BaboRests;
      var found, isBuy, px := FindResting(m.id);
      if found {
        Resubmits(m.id);
        Withdraw(m.id);
        var n := Order(m.id, m.side == 0, m.price, 0, m.qty, 0, 0, false, false);
        var filled := Trade(n, m.seqNo);
        EmitAck(ModifyAck, m.seqNo, m.id, m.side, m.price, m.qty);
      } else {
        EmitAck(ModifyReject, m.seqNo, m.id, 0, 0, 0);
      }
    }

    lemma Resubmits(id: nat)
      requires Valid() && BaboRests(book.Abs(), id) && Unparked(book.Abs(), id)
      ensures id !in Live(Books.Cancel(book.Abs(), id))
    {
      hide MatchingBook.Abs, MatchingBook.Wired, BookLaws.Sound, Quiet;
      WithdrawKept(book.Abs(), id);
    }

    method QueryBestBid() returns (r: Best)
      requires Valid()
      ensures r == BaboBest(book.Abs().bids)
    {
      hide NarbTree.Valid;
      book.bids.BestIsFirst();
      var lvl := book.bids.levels.best;
      r := if lvl != null then BestAt(lvl.price) else NoLevel;
    }

    method QueryBestAsk() returns (r: Best)
      requires Valid()
      ensures r == BaboBest(book.Abs().asks)
    {
      hide NarbTree.Valid;
      book.asks.BestIsFirst();
      var lvl := book.asks.levels.best;
      r := if lvl != null then BestAt(lvl.price) else NoLevel;
    }

    /** Sums what is open at a price over a whole side. */
    method QueryDepthAt(price: nat, side: nat) returns (total: nat)
      requires Valid()
      ensures total == BaboDepthAt(if side == 0 then book.Abs().bids else book.Abs().asks, price)
    {
      hide NarbTree.Valid, BaboDepthAt;
      if side == 0 { total := SumSide(book.bids, price); } else { total := SumSide(book.asks, price); }
    }

    static method SumSide(t: NarbTree, price: nat) returns (total: nat)
      requires t.Valid()
      ensures total == BaboDepthAt(t.Entries(), price)
    {
      hide NarbTree.Valid, NarbTree.Entries, NarbTree.List;
      total := 0;
      ghost var k := 0;
      var it := t.OrdersBegin();
      t.AtEnd(0);
      assert t.Entries()[0..] == t.Entries();
      while it != Nil
        invariant k <= |t.List()| && it == LocAt(t.List(), k) && (it == Nil <==> k >= |t.List()|)
        invariant total + BaboDepthAt(t.Entries()[k..], price) == BaboDepthAt(t.Entries(), price)
        decreases |t.List()| - k
      {
        var o := t.Get(it, k);
        assert t.Entries()[k..][1..] == t.Entries()[k + 1..] && t.Entries()[k..][0] == t.Entries()[k];
        if o.price == price { total := total + o.Open(); }
        it := t.Next(it, k);
        k := k + 1;
        t.AtEnd(k);
      }
      assert t.Entries()[k..] == [];
    }
  }

  class LiquiAdapter {
    const book: OrderBook
    /** The current order object of each external id. */
    var orders: map<nat, SimpleOrder>
    /** The external id of each order object's own id. */
    var ext: map<nat, nat>
    var lastId: nat
    var reports: seq<Report>

    ghost predicate Valid()
      reads this, book, book.pool
    {
      && this as object !in book.pool && book as object !in book.pool && book.Valid()
      && book.lost == {}
      && NoAons(book.bids) && NoAons(book.asks)
      && (forall id :: id in orders ==> orders[id] in book.pool && orders[id].price != MARKET)
      && (forall k :: k in ext ==> k <= lastId)
    }

    ghost function Abs(): Liqui
      reads this, book
    {
      Liqui(book.bids, book.asks, orders, ext)
    }

    ghost function Repr(): set<object>
      reads book
    {
      {this, book} + book.pool
    }

    constructor ()
      ensures Valid() && reports == [] && Abs() == EMPTY_LIQUI && fresh(book) && book.pool == {}
    {
      book := new OrderBook();
      orders, ext, lastId, reports := map[], map[], 0, [];
    }

    method EmitAck(kind: Kind, seqNo: nat, id: nat, side: nat, price: nat, qty: nat)
      modifies this`reports
      ensures reports == old(reports) + [Ack(kind, seqNo, id, side, price, qty)]
    {
      reports := reports + [Ack(kind, seqNo, id, side, price, qty)];
    }

    /** What the listener does with the fills told since `n`. */
    method PushTrades(n: nat, seqNo: nat) returns (filled: nat)
      requires n <= |book.told|
      modifies this`reports
      ensures reports == old(reports) + LiquiTrades(book.told[n..], seqNo, ext)
      ensures filled == FilledQty(book.told[n..])
    {
      hide LiquiTrades, FilledQty;
      filled := 0;
      var k := n;
      while k < |book.told|
        invariant n <= k <= |book.told|
        invariant reports + LiquiTrades(book.told[k..], seqNo, ext)
          == old(reports) + LiquiTrades(book.told[n..], seqNo, ext)
        invariant filled + FilledQty(book.told[k..]) == FilledQty(book.told[n..])
        decreases |book.told| - k
      {
        LiquiTradeFrom(book.told, k, seqNo, ext);
        var e := book.told[k];
        k := k + 1;
        if e.Filled? {
          var r := TradeReport(seqNo, Label(ext, e.taker), Label(ext, e.maker), e.qty, e.cost);
          assert reports + ([r] + LiquiTrades(book.told[k..], seqNo, ext))
            == (reports + [r]) + LiquiTrades(book.told[k..], seqNo, ext);
          reports := reports + [r];
          filled := filled + e.qty;
        }
      }
      LiquiTradeFrom(book.told, k, seqNo, ext);
    }

    lemma LiquiTradeFrom(log: seq<Event>, k: nat, seqNo: nat, ext: map<nat, nat>)
      requires k <= |log|
      ensures k == |log| ==> LiquiTrades(log[k..], seqNo, ext) == [] && FilledQty(log[k..]) == 0
      ensures k < |log| ==>
        LiquiTrades(log[k..], seqNo, ext) == LiquiTrade(log[k], seqNo, ext) + LiquiTrades(log[k + 1..], seqNo, ext)
      ensures k < |log| ==> FilledQty(log[k..]) == (if log[k].Filled? then log[k].qty else 0) + FilledQty(log[k + 1..])
    {
      hide LiquiTrade;
      assert k < |log| ==> log[k..][0] == log[k] && log[k..][1..] == log[k + 1..];
    }

    /** Builds an order object and labels it. */
    method MakeOrder(side: nat, price: nat, qty: nat, id: nat) returns (lo: SimpleOrder)
      requires Valid()
      modifies this`ext, this`lastId
      ensures Valid() && fresh(lo) && lo.View() == FRESH && lo.id !in old(ext) && ext == old(ext)[lo.id := id]
      ensures lo.isBuy == (side == 0) && lo.price == price && lo.qty == qty
    {
      lastId := lastId + 1;
      lo := new SimpleOrder(lastId, side == 0, price, qty);
      ext := ext[lo.id := id];
    }

    /** Gives the book a new order for an id and reports its fills. */
    method Trade(id: nat, lo: SimpleOrder, ioc: bool, seqNo: nat) returns (filled: nat)
      requires Valid() && lo !in book.pool && lo.View() == FRESH && 0 < lo.price < WORD && lo.qty < WORD
      modifies this`orders, this`reports, book, book.pool, lo
      ensures Valid() && book.pool == old(book.pool) + {lo} && ext == old(ext) && orders == old(orders)[id := lo]
      ensures var r := PlainOutcome(old(book.bids), old(book.asks), lo, ioc); var heard := HeardAll(r.cbs);
        && book.bids == r.bids && book.asks == r.asks
        && reports == old(reports) + LiquiTrades(heard, seqNo, ext) && filled == FilledQty(heard)
    {
      hide OrderBook.Valid, PlainOutcome, HeardAll, NoAons, LiquiTrades, FilledQty;
      hide LiquiSteps.Outcomes, LiquiSteps.Joining, LiquiSteps.FillTold, LiquiSteps.SafeIn, LiquiSteps.Secure;
      LiquiSteps.PlainOutcomes(book.bids, book.asks, lo, ioc);
      StillNoAons(book.bids, book.asks, lo, ioc);
      orders := orders[id := lo];
      var n := |book.told|;
      ghost var told := book.told;
      var matched, ok := book.Add(lo, false, ioc);
      assert book.told[n..] == HeardAll(PlainOutcome(old(book.bids), old(book.asks), lo, ioc).cbs);
      filled := PushTrades(n, seqNo);
    }

    method OnNewOrder(m: Msg) returns (lo: SimpleOrder)
      requires Valid() && m.NewMsg? && Sendable(m)
      modifies Repr()
      ensures Valid() && fresh(lo) && Repr() == old(Repr()) + {lo}
      ensures lo.id !in old(ext) && lo.isBuy == (m.side == 0) && lo.price == m.price && lo.qty == m.qty
      ensures var r := LiquiMsg(old(Abs()), m, lo); Abs() == r.state && reports == old(reports) + r.reports
    {
      hide OrderBook.Valid, PlainOutcome, HeardAll, NoAons, LiquiTrades, FilledQty;
      EmitAck(OrderAck, m.seqNo, m.id, m.side, m.price, m.qty);
      lo := MakeOrder(m.side, m.price, m.qty, m.id);
      var filled := Trade(m.id, lo, m.ioc, m.seqNo);
      if m.ioc && filled < m.qty {
        EmitAck(CancelAck, m.seqNo, m.id, m.side, m.price, m.qty - filled);
      }
    }

    /** The order object of an id, if it is accepted and has something open. */
    method FindResting(id: nat) returns (lo: SimpleOrder?)
      requires Valid()
      ensures lo != null <==> LiquiRests(Abs(), id)
      ensures lo != null ==> id in orders && lo == orders[id] && lo in book.pool && lo.price != MARKET
    {
      hide OrderBook.Valid, OpenIn, NoAons;
      lo := null;
      if id in orders {
        var o := orders[id];
        book.StandsIfHeld(o);
        if o.state == AcceptedOrder && o.OpenQty() > 0 { lo := o; }
      }
    }

    /** Cancels an order object in the book. */
    method Withdraw(lo: SimpleOrder)
      requires Valid() && lo in book.pool && lo.price != MARKET
      modifies Repr()
      ensures Valid() && book.pool == old(book.pool) && orders == old(orders) && ext == old(ext)
      ensures reports == old(reports) && lastId == old(lastId)
      ensures Abs() == LiquiWithdraw(old(Abs()), lo)
    {
      hide OrderBook.Valid, Where;
      book.Cancel(lo);
    }

    method OnCancel(m: Msg)
      requires Valid() && m.CancelMsg?
      modifies Repr()
      ensures Valid() && Repr() == old(Repr())
      ensures var r := LiquiCancel(old(Abs()), m); Abs() == r.state && reports == old(reports) + r.reports
    {
      hide OrderBook.Valid, NoAons, LiquiWithdraw;
      var lo := FindResting(m.id);
      if lo != null {
        Withdraw(lo);
        EmitAck(CancelAck, m.seqNo, m.id, if lo.isBuy then 0 else 1, lo.price, 0);
      } else {
        EmitAck(CancelReject, m.seqNo, m.id, 0, 0, 0);
      }
    }

    method OnModify(m: Msg) returns (lo: SimpleOrder?)
      requires Valid() && m.ModifyMsg? && Sendable(m)
      modifies Repr()
      ensures Valid() && (lo != null <==> LiquiRests(old(Abs()), m.id))
      ensures lo != null ==> fresh(lo) && Repr() == old(Repr()) + {lo} && lo.id !in old(ext)
      ensures lo != null ==> lo.isBuy == (m.side == 0) && lo.price == m.price && lo.qty == m.qty
      ensures lo != null ==>
        var r := LiquiMsg(old(Abs()), m, lo); Abs() == r.state && reports == old(reports) + r.reports
      ensures lo == null ==> Repr() == old(Repr()) && Abs() == old(Abs())
      ensures lo == null ==> reports == old(reports) + [Ack(ModifyReject, m.seqNo, m.id, 0, 0, 0)]
    {
      hide OrderBook.Valid, PlainOutcome, HeardAll, NoAons, LiquiTrades, FilledQty, LiquiWithdraw;
      var cur := FindResting(m.id);
      if cur == null {
        EmitAck(ModifyReject, m.seqNo, m.id, 0, 0, 0);
        return null;
      }
      Withdraw(cur);
      lo := MakeOrder(m.side, m.price, m.qty, m.id);
      var filled := Trade(m.id, lo, false, m.seqNo);
      EmitAck(ModifyAck, m.seqNo, m.id, m.side, m.price, m.qty);
    }

    method QueryBestBid() returns (r: Best)
      ensures r == LiquiBest(Abs().bids)
    {
      r := if book.bids == [] then NoLevel else BestAt(book.bids[0].order.price);
    }

    method QueryBestAsk() returns (r: Best)
      ensures r == LiquiBest(Abs().asks)
    {
      r := if book.asks == [] then NoLevel else BestAt(book.asks[0].order.price);
    }

    /** Sums what is open over the entries that compare equal to the price. */
    method QueryDepthAt(price: nat, side: nat) returns (total: nat)
      ensures total == LiquiDepthAt(side == 0, if side == 0 then Abs().bids else Abs().asks, price)
    {
      var s, buy := if side == 0 then book.bids else book.asks, side == 0;
      total := 0;
      var it := 0;
      assert s[0..] == s;
      while it < |s| && Before(buy, s[it].order.price, price)
        invariant it <= |s| && LiquiDepthAt(buy, s[it..], price) == LiquiDepthAt(buy, s, price)
      {
        assert s[it..][1..] == s[it + 1..] && s[it..][0] == s[it];
        it := it + 1;
      }
      assert it < |s| ==> s[it..][0] == s[it];
      while it < |s| && s[it].order.price == price
        invariant it <= |s| && total + RunAt(s[it..], price) == LiquiDepthAt(buy, s, price)
      {
        assert s[it..][1..] == s[it + 1..] && s[it..][0] == s[it];
        total := total + s[it].open;
        it := it + 1;
      }
      assert it < |s| ==> s[it..][0] == s[it];
    }
  }

  /** The first adapter handles a message; the other is not touched. */
  method BaboHandles(babo: BaboAdapter, liqui: LiquiAdapter, m: Msg)
    requires babo.Valid() && liqui.Valid() && babo.Repr() !! liqui.Repr() && Sendable(m)
    requires (m.NewMsg? ==> m.id !in Live(babo.book.Abs())) && Unparked(babo.book.Abs(), m.id)
    modifies babo.Repr()
    ensures babo.Valid() && liqui.Valid() && babo.Repr() !! liqui.Repr() && liqui.Repr() == old(liqui.Repr())
    ensures liqui.Abs() == old(liqui.Abs()) && liqui.reports == old(liqui.reports)
    ensures var r := BaboMsg(old(babo.book.Abs()), m);
      babo.book.Abs() == r.book && babo.reports == old(babo.reports) + r.reports
    ensures fresh(babo.Repr() - old(babo.Repr()))
  {
    hide BaboAdapter.Valid, LiquiAdapter.Valid, MatchingBook.Abs, BaboMsg, Live, Unparked;
    ghost var was := liqui.Repr();
    match m {
      case NewMsg(_, _, _, _, _, _) => babo.OnNewOrder(m);
      case CancelMsg(_, _) => babo.OnCancel(m);
      case ModifyMsg(_, _, _, _, _) => babo.OnModify(m);
    }
    assert liqui.Repr() == was;
  }

  /** The other adapter handles the message as the first one's book `b` demands. */
  method LiquiAnswers(liqui: LiquiAdapter, m: Msg, ghost b: Book)
    requires liqui.Valid() && Sendable(m)
    requires Sim(b, liqui.Abs()) && (m.NewMsg? ==> !BaboRests(b, m.id))
    modifies liqui.Repr()
    ensures liqui.Valid() && liqui.Repr() >= old(liqui.Repr()) && fresh(liqui.Repr() - old(liqui.Repr()))
    ensures Sim(BaboMsg(b, m).book, liqui.Abs()) && liqui.reports == old(liqui.reports) + BaboMsg(b, m).reports
  {
    hide LiquiAdapter.Valid, Sim, BaboNew, BaboCancel, BaboModify, BaboRests, LiquiRests;
    hide LiquiNew, LiquiCancel, LiquiModify;
    ghost var l := liqui.Abs();
    RestsAlike(b, l, m.id);
    match m {
      case NewMsg(_, _, _, _, _, _) =>
        var lo := liqui.OnNewOrder(m);
        NewTurn(b, l, m, lo);
        MsgSim(b, l, Turn(m, lo));
      case CancelMsg(_, _) =>
        liqui.OnCancel(m);
        CancelAlike(b, l, m);
      case ModifyMsg(_, _, _, _, _) =>
        var lo := liqui.OnModify(m);
        if lo != null {
          ModifyTurn(b, l, m, lo);
          MsgSim(b, l, Turn(m, lo));
        } else {
          BothReject(b, m);
        }
    }
  }

  /** The other adapter handles the message; the first is not touched. */
  method LiquiHandles(babo: BaboAdapter, liqui: LiquiAdapter, m: Msg, ghost b: Book)
    requires babo.Valid() && liqui.Valid() && babo.Repr() !! liqui.Repr() && Sendable(m)
    requires Sim(b, liqui.Abs()) && (m.NewMsg? ==> !BaboRests(b, m.id))
    modifies liqui.Repr()
    ensures babo.Valid() && liqui.Valid() && babo.Repr() !! liqui.Repr()
    ensures babo.book.Abs() == old(babo.book.Abs()) && babo.reports == old(babo.reports)
    ensures Sim(BaboMsg(b, m).book, liqui.Abs()) && liqui.reports == old(liqui.reports) + BaboMsg(b, m).reports
    ensures fresh(liqui.Repr() - old(liqui.Repr())) && babo.Repr() == old(babo.Repr())
  {
    hide BaboAdapter.Valid, LiquiAdapter.Valid, LiquiAdapter.Abs, LiquiAdapter.Repr;
    hide MatchingBook.Abs, Sim, BaboMsg, BaboRests;
    ghost var was := babo.Repr();
    LiquiAnswers(liqui, m, b);
    assert babo.Repr() == was;
  }

  /** One message for both adapters: from related states, the same reports and related states. */
  method Deliver(babo: BaboAdapter, liqui: LiquiAdapter, m: Msg)
    requires babo.Valid() && liqui.Valid() && babo.Repr() !! liqui.Repr()
    requires Sim(babo.book.Abs(), liqui.Abs()) && babo.reports == liqui.reports
    requires Sendable(m) && (m.NewMsg? ==> !BaboRests(babo.book.Abs(), m.id))
    modifies babo.Repr(), liqui.Repr()
    ensures babo.Valid() && liqui.Valid() && babo.Repr() !! liqui.Repr()
    ensures Sim(babo.book.Abs(), liqui.Abs()) && babo.reports == liqui.reports
    ensures var r := BaboMsg(old(babo.book.Abs()), m);
      babo.book.Abs() == r.book && babo.reports == old(babo.reports) + r.reports
    ensures fresh(babo.Repr() - old(babo.Repr())) && fresh(liqui.Repr() - old(liqui.Repr()))
  {
    hide BaboAdapter.Valid, LiquiAdapter.Valid, LiquiAdapter.Abs, MatchingBook.Abs, MatchingBook.Repr;
    hide Sim, BaboMsg, BaboRests, LiquiRests, Live, Unparked;
    ghost var b := babo.book.Abs();
    RestsAlike(b, liqui.Abs(), m.id);
    NoneParked(b, liqui.Abs(), m.id);
    BaboHandles(babo, liqui, m);
    LiquiHandles(babo, liqui, m, b);
  }

  /** A batch of messages for two new adapters: the same reports, and the same answers afterwards. */
  method OnBatch(cap: nat, msgs: seq<Msg>) returns (babo: BaboAdapter, liqui: LiquiAdapter)
    requires 0 < cap < NPOS && Orderly(EMPTY_BOOK, msgs)
    ensures babo.Valid() && liqui.Valid() && babo.reports == liqui.reports == BatchReports(EMPTY_BOOK, msgs)
    ensures AnswersAlike(babo.book.Abs(), liqui.Abs())
  {
    hide BaboAdapter.Valid, LiquiAdapter.Valid, LiquiAdapter.Abs, MatchingBook.Abs;
    hide Sim, BaboMsg, BaboRests, Orderly, BatchReports, Sendable, AnswersAlike;
    babo, liqui := StartBoth(cap);
    assert msgs[0..] == msgs;
    var k := 0;
    while k < |msgs|
      invariant k <= |msgs| && babo.Valid() && liqui.Valid() && babo.Repr() !! liqui.Repr()
      invariant fresh(babo.Repr()) && fresh(liqui.Repr())
      invariant Sim(babo.book.Abs(), liqui.Abs()) && babo.reports == liqui.reports
      invariant Orderly(babo.book.Abs(), msgs[k..])
      invariant BatchReports(EMPTY_BOOK, msgs) == babo.reports + BatchReports(babo.book.Abs(), msgs[k..])
    {
      BatchNext(babo.book.Abs(), msgs, k, babo.reports);
      Deliver(babo, liqui, msgs[k]);
      k := k + 1;
    }
    assert msgs[k..] == [];
    BatchDone(babo.book.Abs(), babo.reports);
    QueriesAgree(babo.book.Abs(), liqui.Abs());
  }

  /** Two new adapters that share nothing. */
  method StartBoth(cap: nat) returns (babo: BaboAdapter, liqui: LiquiAdapter)
    requires 0 < cap < NPOS
    ensures babo.Valid() && liqui.Valid() && babo.Repr() !! liqui.Repr() && fresh(babo.Repr()) && fresh(liqui.Repr())
    ensures babo.book.Abs() == EMPTY_BOOK && Sim(EMPTY_BOOK, liqui.Abs()) && babo.reports == liqui.reports == []
  {
    hide BaboAdapter.Valid, LiquiAdapter.Valid, MatchingBook.Abs, Sim;
    liqui := new LiquiAdapter();
    ghost var r := liqui.Repr();
    babo := new BaboAdapter(cap);
    assert liqui.Repr() == r;
    StartAlike();
  }
}
