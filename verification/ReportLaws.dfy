/**
  * What the reports of one message say, field by field, in terms of the message and of the orders
  * that rested before it.
  */
module ReportLaws {
  import opened Orders
  import opened Queues
  import opened Matching
  import opened Books
  import opened BookLaws
  import opened LiquiOrders
  import opened Adapters
  import opened Equivalence
  import opened Fates
  import opened CallEffects

  /** A resting order and what it gives. */
  datatype Deal = Deal(maker: nat, qty: nat, price: nat)

  /** The parts of a side that are not zero, in the order of the side. */
  ghost function Deals(opp: seq<Entry>, f: seq<nat>): seq<Deal>
    requires |f| == |opp|
  {
    if opp == [] then []
    else (if f[0] == 0 then [] else [Deal(opp[0].order.id, f[0], opp[0].order.price)]) + Deals(opp[1..], f[1..])
  }

  /**
    * A report of a trade. Its price is the cost, a 32-bit product, divided by the quantity: the
    * maker's price if the product fits.
    */
  ghost predicate TellsDeal(r: Adapters.Report, d: Deal, seqNo: nat, taker: nat) {
    && r.kind == Trade && r.seqNo == seqNo && r.id == 0 && r.side == 0
    && r.maker == d.maker && r.taker == taker && r.qty == d.qty > 0
    && r.price == ((d.qty * d.price) % 0x1_0000_0000) / d.qty
    && (d.qty * d.price < 0x1_0000_0000 ==> r.price == d.price)
  }

  /** The trades come in turn from position `at` on. */
  ghost predicate TellsDeals(r: seq<Adapters.Report>, at: nat, d: seq<Deal>, seqNo: nat, taker: nat) {
    |r| >= at + |d| && forall k :: 0 <= k < |d| ==> TellsDeal(r[at + k], d[k], seqNo, taker)
  }

  /** An acknowledgement or a rejection. */
  ghost predicate Answers(r: Adapters.Report, kind: Kind, m: Msg, side: nat, price: nat, qty: nat) {
    && r.kind == kind && r.seqNo == m.seqNo && r.id == m.id && r.side == side && r.price == price && r.qty == qty
    && r.maker == 0 && r.taker == 0
  }

  lemma OneDeal(d: Deal, seqNo: nat, taker: nat)
    requires 0 < d.qty < WORD && d.price < WORD
    ensures var r := BaboTrade(Filled(taker, d.maker, d.qty, Cost(d.qty, d.price)), seqNo);
      |r| == 1 && TellsDeal(r[0], d, seqNo, taker)
  {
    if d.qty * d.price < WORD { PriceExact(d.qty, d.price); }
  }

  /** The trades of a match are reported in turn, one report a part. */
  lemma {:induction false} DealsTold(opp: seq<Entry>, f: seq<nat>, taker: nat, seqNo: nat)
    requires |f| == |opp|
    requires forall i :: 0 <= i < |f| ==> f[i] < WORD && opp[i].order.price < WORD
    ensures var r, d := BaboTrades(Matching.Report(opp, f, taker), seqNo), Deals(opp, f);
      && |r| == |d| && FilledQty(Matching.Report(opp, f, taker)) == Sum(f)
      && forall k :: 0 <= k < |d| ==> TellsDeal(r[k], d[k], seqNo, taker)
  {
    hide BaboTrade, TellsDeal, Cost;
    if opp != [] {
      DealsTold(opp[1..], f[1..], taker, seqNo);
      if f[0] > 0 {
        var d := Deal(opp[0].order.id, f[0], opp[0].order.price);
        OneDeal(d, seqNo, taker);
        var e, rest := Filled(taker, d.maker, d.qty, Cost(d.qty, d.price)), Matching.Report(opp[1..], f[1..], taker);
        assert ([e] + rest)[1..] == rest && ([e] + rest)[0] == e;
      }
    }
  }

  /** The order a message asks for. */
  ghost function OrderFor(m: Msg): Order
    requires m.NewMsg? || m.ModifyMsg?
  {
    Order(m.id, m.side == 0, m.price, 0, m.qty, 0, 0, false, m.NewMsg? && m.ioc)
  }

  /** What the books are fed by the adapters: no stops, and fields of 32 bits. */
  ghost predicate Fed(b: Book, m: Msg) {
    && Sound(b) && b.stopBids == [] && b.stopAsks == []
    && (m.NewMsg? || m.ModifyMsg? ==> m.price < WORD && m.qty < WORD)
  }

  /** The log of an added order, by the parts it takes of the other side. */
  lemma AddParts(b: Book, o: Order, seqNo: nat) returns (f: seq<nat>)
    requires Sound(b) && b.stopBids == [] && b.stopAsks == [] && Fresh(o) && o.stop == 0 && !o.aon && o.id !in Live(b)
    ensures var opp, log := OppositeSide(b, o), Since(Add(b, o).log, |b.log|);
      && |f| == |opp| && Allotment(opp, o, f) && FilledQty(log) == Sum(f)
      && |BaboTrades(log, seqNo)| == |Deals(opp, f)|
      && TellsDeals(BaboTrades(log, seqNo), 0, Deals(opp, f), seqNo, o.id)
  {
    hide Sound, Allotment, Submit, Process, BaboTrades, FilledQty, MatchRegular, Sum, TellsDeal, LastPrice, Remains;
    hide Matching.Report, Deals;
    var opp := OppositeSide(b, o);
    if o.qty > 0 {
      Meets(b, o);
      f := MatchParts(!o.isBuy, opp, o, b.market);
      AddLog(b, o, seqNo);
    } else {
      f := RefusedParts(b, o);
      RejectedTells(b, o, seqNo);
    }
    PartsFit(b, o, f);
    DealsTold(opp, f, o.id, seqNo);
  }

  lemma Meets(b: Book, o: Order)
    requires Sound(b) && Fresh(o) && o.qty > 0
    ensures RestingSide(!o.isBuy, OppositeSide(b, o)) && MaySubmit(o)
  {
  }

  lemma RefusedParts(b: Book, o: Order) returns (f: seq<nat>)
    requires Sound(b) && o.qty == 0
    ensures var opp := OppositeSide(b, o); |f| == |opp| && Allotment(opp, o, f) && Matching.Report(opp, f, o.id) == []
  {
    var opp := OppositeSide(b, o);
    ReachOfSide(!o.isBuy, opp, o);
    NothingTrades(opp, o);
    f := seq(|opp|, i => 0);
  }

  lemma RejectedTells(b: Book, o: Order, seqNo: nat)
    requires o.qty == 0
    ensures var log := Since(Add(b, o).log, |b.log|);
      BaboTrades(log, seqNo) == BaboTrades([], seqNo) && FilledQty(log) == FilledQty([])
  {
    assert Since(Add(b, o).log, |b.log|) == [Rejected(o.id)] && [Rejected(o.id)][1..] == [];
  }

  lemma PartsFit(b: Book, o: Order, f: seq<nat>)
    requires Sound(b) && Fresh(o) && |f| == |OppositeSide(b, o)| && Allotment(OppositeSide(b, o), o, f)
    ensures forall i :: 0 <= i < |f| ==> f[i] < WORD && OppositeSide(b, o)[i].order.price < WORD
  {
    var opp := OppositeSide(b, o);
    forall i | 0 <= i < |f| ensures f[i] < WORD && opp[i].order.price < WORD {
      assert Fair(opp, o, f, i) && MayRest(!o.isBuy, opp[i]);
    }
  }

  /**
    * The reports of a new order: its acknowledgement, its trades with orders of the other side, and
    * for an immediate order the quantity it has left.
    */
  lemma NewTells(b: Book, m: Msg) returns (f: seq<nat>)
    requires Fed(b, m) && m.NewMsg? && !BaboRests(b, m.id)
    ensures var r, o := BaboMsg(b, m).reports, OrderFor(m); var opp := if m.side == 0 then b.asks else b.bids;
      && |f| == |opp| && Allotment(opp, o, f)
      && var n, left := |Deals(opp, f)|, m.ioc && Sum(f) < m.qty;
         && |r| == 1 + n + (if left then 1 else 0)
         && Answers(r[0], OrderAck, m, m.side, m.price, m.qty)
         && TellsDeals(r, 1, Deals(opp, f), m.seqNo, m.id)
         && (left ==> Answers(r[n + 1], CancelAck, m, m.side, m.price, m.qty - Sum(f)))
  {
    hide Sound, Add, Allotment, BaboTrades, FilledQty, Deals, Sum, TellsDeals;
    NotLive(b, m.id);
    var o := OrderFor(m);
    f := AddParts(b, o, m.seqNo);
    var log := Since(Add(b, o).log, |b.log|);
    Framed(Ack(OrderAck, m.seqNo, m.id, m.side, m.price, m.qty), BaboTrades(log, m.seqNo), Residual(m, FilledQty(log)),
        Deals(OppositeSide(b, o), f), m.seqNo, m.id);
  }

  /** The trades behind an answer and in front of what follows. */
  lemma Framed(head: Adapters.Report, r: seq<Adapters.Report>, tail: seq<Adapters.Report>, d: seq<Deal>, seqNo: nat,
               taker: nat)
    requires |r| == |d| && TellsDeals(r, 0, d, seqNo, taker)
    ensures var all := [head] + r + tail;
      && TellsDeals(all, 1, d, seqNo, taker) && all[0] == head && |all| == 1 + |d| + |tail|
      && (|tail| == 1 ==> all[|d| + 1] == tail[0])
  {
    hide TellsDeal;
    forall k | 0 <= k < |d| ensures TellsDeal(([head] + r + tail)[1 + k], d[k], seqNo, taker) {
      assert ([head] + r + tail)[1 + k] == r[0 + k];
    }
  }

  lemma NotLive(b: Book, id: nat)
    requires b.stopBids == [] && b.stopAsks == [] && !BaboRests(b, id)
    ensures id !in Live(b)
  {
    HasIds(b.bids, id);
    HasIds(b.asks, id);
  }

  /** The report of a cancellation: side and price of the order that rested, or a rejection. */
  lemma CancelTells(b: Book, m: Msg)
    requires Fed(b, m) && m.CancelMsg?
    ensures var r, x := BaboMsg(b, m).reports, SpotOf(b, m.id);
      && |r| == 1
      && (x.Rests? ==> Answers(r[0], CancelAck, m, if x.order.isBuy then 0 else 1, x.order.price, 0))
      && (!x.Rests? ==> Answers(r[0], CancelReject, m, 0, 0, 0))
  {
    hide Sound, Cancel, Has, SpotOf;
    RestsOrNot(b, m.id);
    if SpotOf(b, m.id).Rests? { RestsIf(b, m.id); }
  }

  /**
    * The reports of a modification: the old order leaves, the trades of the new one with orders of
    * the other side, and the acknowledgement; or a rejection.
    */
  lemma ModifyTells(b: Book, m: Msg) returns (f: seq<nat>)
    requires Fed(b, m) && m.ModifyMsg?
    ensures var r, o := BaboMsg(b, m).reports, OrderFor(m);
      var opp := Others(if m.side == 0 then b.asks else b.bids, m.id);
      && (SpotOf(b, m.id).Rests? ==>
           && |f| == |opp| && Allotment(opp, o, f) && |r| == |Deals(opp, f)| + 1
           && TellsDeals(r, 0, Deals(opp, f), m.seqNo, m.id)
           && Answers(r[|r| - 1], ModifyAck, m, m.side, m.price, m.qty))
      && (!SpotOf(b, m.id).Rests? ==> |r| == 1 && Answers(r[0], ModifyReject, m, 0, 0, 0))
  {
    hide Sound, Cancel, Add, Allotment, BaboTrades, FilledQty, Deals, Sum, TellsDeal, SpotOf, Others, Has;
    RestsOrNot(b, m.id);
    f := [];
    if SpotOf(b, m.id).Rests? {
      CancelEffect(b, m.id);
      CancelKeeps(b, m.id);
      f := AddParts(Cancel(b, m.id), OrderFor(m), m.seqNo);
    }
  }

  lemma CancelKeeps(b: Book, id: nat)
    requires Sound(b) && b.stopBids == [] && b.stopAsks == []
    ensures Sound(Cancel(b, id)) && Others([], id) == []
  {
    CancelSound(b, id);
  }

  /** Both adapters report this: related states answer an admissible message with the same reports. */
  lemma BothTell(b: Book, l: Liqui, t: Turn)
    requires Sim(b, l) && Admissible(b, l, t)
    ensures Fed(b, t.msg) && LiquiMsg(l, t.msg, t.lo).reports == BaboMsg(b, t.msg).reports
  {
    hide Sound, BaboMsg, LiquiMsg, SameSide, Labelled;
    MsgSim(b, l, t);
  }

  // ---- What a message leaves ----

  /** The order handed in has traded and rests with what it has left; every other one has only traded. */
  ghost predicate LeftAs(b: Book, c: Book, o: Order, id: nat) {
    && Grows(b, c)
    && (id == o.id ==> EndsUp(o, TradedOf(News(b, c), id), SpotOf(c, id)))
    && (id != o.id ==> Evolves(SpotOf(b, id), SpotOf(c, id), TradedOf(News(b, c), id)))
  }

  /** A new order ends up by its quantity, and every other one has only traded. */
  lemma NewLeaves(b: Book, m: Msg, id: nat)
    requires Fed(b, m) && m.NewMsg? && !BaboRests(b, m.id)
    ensures LeftAs(b, BaboMsg(b, m).book, OrderFor(m), id)
  {
    hide Sound, Add, LeftAs;
    NotLive(b, m.id);
    AddLeaves(b, OrderFor(m), id);
  }

  lemma AddLeaves(b: Book, o: Order, id: nat)
    requires Sound(b) && b.stopBids == [] && b.stopAsks == [] && Fresh(o) && o.stop == 0 && o.id !in Live(b)
    ensures LeftAs(b, Add(b, o), o, id)
  {
    hide Sound, Add, SpotOf, TradedOf, Evolves, Live, Matching.Report, Allotment, Sum;
    NoStops(b);
    if id != o.id {
      AddEvolves(b, o, id);
    } else {
      var f := AddEffect(b, o);
      if o.qty == 0 { TellsGone(b, o); }
    }
  }

  lemma NoStops(b: Book)
    requires b.stopBids == [] && b.stopAsks == []
    ensures Quiet(b)
  {
  }

  lemma TellsGone(b: Book, o: Order)
    requires Sound(b) && o.id !in Live(b)
    ensures var c := b.(log := b.log + [Rejected(o.id)]);
      Grows(b, c) && TradedOf(News(b, c), o.id) == 0 && SpotOf(c, o.id) == Absent
  {
    hide Sound, SpotOf, TradedOf;
    TellSame(b, Rejected(o.id), o.id);
    SpotMeans(b, o.id);
  }

  /** After a cancellation its order rests no more, and every other one is where it was. */
  lemma CancelLeaves(b: Book, m: Msg, id: nat)
    requires Fed(b, m) && m.CancelMsg?
    ensures var c := BaboMsg(b, m).book;
      if id == m.id then SpotOf(c, id) == Absent else SpotOf(c, id) == SpotOf(b, id)
  {
    hide Sound, SpotOf, Cancel, Has, Others;
    RestsOrNot(b, m.id);
    CancelEffect(b, m.id);
    NoStops(b);
    CancelSound(b, m.id);
    SpotMeans(b, m.id);
    SpotMeans(Cancel(b, m.id), m.id);
    NeverParked(b, m.id);
    if id != m.id { OthersSame(b, Cancel(b, m.id), m.id, id); }
  }

  lemma NeverParked(b: Book, id: nat)
    requires b.stopBids == [] && b.stopAsks == []
    ensures !SpotOf(b, id).Parks?
  {
  }

  /** A modification of a resting order leaves the new order in its stead; any other changes nothing. */
  lemma ModifyLeaves(b: Book, m: Msg, id: nat)
    requires Fed(b, m) && m.ModifyMsg?
    ensures !SpotOf(b, m.id).Rests? ==> BaboMsg(b, m).book == b
    ensures SpotOf(b, m.id).Rests? ==> LeftAs(b, BaboMsg(b, m).book, OrderFor(m), id)
  {
    hide Sound, SpotOf, Cancel, Has, Others, Add, TradedOf, Evolves, EndsUp, Live;
    RestsOrNot(b, m.id);
    if SpotOf(b, m.id).Rests? {
      var w := Cancel(b, m.id);
      CancelEffect(b, m.id);
      CancelKeeps(b, m.id);
      NoStops(b);
      AddLeaves(w, OrderFor(m), id);
      SpotMeans(b, m.id);
      CancelTold(b, w, m.id, id);
      NewsOn(b, w, Add(w, OrderFor(m)), id);
      if id != m.id { OthersSame(b, w, m.id, id); }
    }
  }

  lemma CancelTold(b: Book, w: Book, gone: nat, id: nat)
    requires w.log == b.log + [Cancelled(gone)]
    ensures Grows(b, w) && TradedOf(News(b, w), id) == 0
  {
    assert News(b, w) == [Cancelled(gone)] && [Cancelled(gone)][1..] == [];
  }

  // ---- Queries ----

  ghost function AtPrice(s: seq<Entry>, price: nat): seq<Entry> {
    if s == [] then [] else (if s[0].order.price == price then [s[0]] else []) + AtPrice(s[1..], price)
  }

  lemma {:induction false} DepthTells(s: seq<Entry>, price: nat)
    ensures BaboDepthAt(s, price) == TotalOpen(AtPrice(s, price))
  {
    if s != [] {
      DepthTells(s[1..], price);
      var rest := AtPrice(s[1..], price);
      assert ([s[0]] + rest)[1..] == rest && [] + rest == rest;
    }
  }

  /** The best bid is the highest price at which one rests, the best ask the lowest. */
  lemma BestTells(b: Book)
    requires Sound(b)
    ensures BaboBest(b.bids) == NoLevel <==> b.bids == []
    ensures BaboBest(b.asks) == NoLevel <==> b.asks == []
    ensures b.bids != [] ==> var p := BaboBest(b.bids).price;
      b.bids[0].order.price == p && forall i :: 0 <= i < |b.bids| ==> b.bids[i].order.price <= p
    ensures b.asks != [] ==> var p := BaboBest(b.asks).price;
      b.asks[0].order.price == p && forall i :: 0 <= i < |b.asks| ==> b.asks[i].order.price >= p
  {
    SideBest(true, b.bids);
    SideBest(false, b.asks);
  }

  lemma SideBest(buy: bool, s: seq<Entry>)
    requires RestingSide(buy, s)
    ensures s != [] ==> s[0].key == s[0].order.price
    ensures buy ==> forall i :: 0 <= i < |s| ==> s[i].order.price <= s[0].order.price
    ensures !buy ==> forall i :: 0 <= i < |s| ==> s[i].order.price >= s[0].order.price
  {
    if s != [] { assert MayRest(buy, s[0]); }
    forall i | 0 <= i < |s|
      ensures (buy ==> s[i].order.price <= s[0].order.price) && (!buy ==> s[i].order.price >= s[0].order.price)
    {
      assert MayRest(buy, s[i]) && (i > 0 ==> KeyOrder(buy, s, 0, i));
    }
  }
}
