/**
  * The two adapters as functions from messages to reports: one over the matching book, one
  * over Liquibook. A message carries what arrives on the wire, cast as the adapters cast it.
  */
module Adapters {
  import opened Orders
  import opened Queues
  import opened Matching
  import opened Books
  import opened LiquiOrders
  import opened LiquiMatching
  import opened LiquiSync

  datatype Msg =
    | NewMsg(seqNo: nat, id: nat, side: nat, price: nat, qty: nat, ioc: bool)
    | CancelMsg(seqNo: nat, id: nat)
    | ModifyMsg(seqNo: nat, id: nat, side: nat, price: nat, qty: nat)

  datatype Kind = OrderAck | Trade | CancelAck | ModifyAck | CancelReject | ModifyReject

  datatype Report = Report(kind: Kind, seqNo: nat, id: nat, side: nat, price: nat, qty: nat, maker: nat, taker: nat)

  function Ack(kind: Kind, seqNo: nat, id: nat, side: nat, price: nat, qty: nat): Report {
    Report(kind, seqNo, id, side, price, qty, 0, 0)
  }

  /** Trade price as the adapters recover it from the cost of the fill. */
  function PriceOf(cost: nat, qty: nat): nat {
    if qty == 0 then 0 else cost / qty
  }

  function TradeReport(seqNo: nat, taker: nat, maker: nat, qty: nat, cost: nat): Report {
    Report(Trade, seqNo, 0, 0, PriceOf(cost, qty), qty, maker, taker)
  }

  /** Looking up a table whose unwritten slots hold zero. */
  function Label(ext: map<nat, nat>, id: nat): nat {
    if id in ext then ext[id] else 0
  }

  // ---- Over the matching book ----

  /** What the listener reports of an event: trades only. */
  function BaboTrade(e: Event, seqNo: nat): seq<Report> {
    if e.Filled? then [TradeReport(seqNo, e.taker, e.maker, e.qty, e.cost)] else []
  }

  function BaboTrades(log: seq<Event>, seqNo: nat): seq<Report> {
    if log == [] then [] else BaboTrade(log[0], seqNo) + BaboTrades(log[1..], seqNo)
  }

  function FilledQty(log: seq<Event>): nat {
    if log == [] then 0 else (if log[0].Filled? then log[0].qty else 0) + FilledQty(log[1..])
  }

  function Since(log: seq<Event>, n: nat): seq<Event> {
    if n <= |log| then log[n..] else []
  }

  /** CancelAck for what an immediate order left unfilled. */
  function Residual(m: Msg, filled: nat): seq<Report>
    requires m.NewMsg?
  {
    if m.ioc && filled < m.qty then [Ack(CancelAck, m.seqNo, m.id, m.side, m.price, m.qty - filled)] else []
  }

  datatype BaboStep = BaboStep(book: Book, reports: seq<Report>)

  function BaboNew(b: Book, m: Msg): BaboStep
    requires m.NewMsg?
  {
    var c := Add(b, Order(m.id, m.side == 0, m.price, 0, m.qty, 0, 0, false, m.ioc));
    var log := Since(c.log, |b.log|);
    BaboStep(c, [Ack(OrderAck, m.seqNo, m.id, m.side, m.price, m.qty)] + BaboTrades(log, m.seqNo) + Residual(m,
        FilledQty(log)))
  }

  predicate BaboRests(b: Book, id: nat) {
    Has(b.bids, id) || Has(b.asks, id)
  }

  function BaboCancel(b: Book, m: Msg): BaboStep
    requires m.CancelMsg?
  {
    if BaboRests(b, m.id) then
      BaboStep(Cancel(b, m.id),
               [Ack(CancelAck, m.seqNo, m.id, if Has(b.bids, m.id) then 0 else 1, Resting(b, m.id).price, 0)])
    else BaboStep(b, [Ack(CancelReject, m.seqNo, m.id, 0, 0, 0)])
  }

  function BaboModify(b: Book, m: Msg): BaboStep
    requires m.ModifyMsg?
  {
    if BaboRests(b, m.id) then
      var b := Cancel(b, m.id);
      var c := Add(b, Order(m.id, m.side == 0, m.price, 0, m.qty, 0, 0, false, false));
      BaboStep(c, BaboTrades(Since(c.log, |b.log|), m.seqNo) + [Ack(ModifyAck, m.seqNo, m.id, m.side, m.price, m.qty)])
    else BaboStep(b, [Ack(ModifyReject, m.seqNo, m.id, 0, 0, 0)])
  }

  function BaboMsg(b: Book, m: Msg): BaboStep {
    match m
    case NewMsg(_, _, _, _, _, _) => BaboNew(b, m)
    case CancelMsg(_, _) => BaboCancel(b, m)
    case ModifyMsg(_, _, _, _, _) => BaboModify(b, m)
  }

  // ---- Over Liquibook ----

  /** The sides, the current order object of an id, and the id an order object was made for. */
  datatype Liqui = Liqui(bids: seq<Tracker>, asks: seq<Tracker>, orders: map<nat, SimpleOrder>, ext: map<nat, nat>)

  datatype LiquiStep = LiquiStep(state: Liqui, reports: seq<Report>)

  function LiquiTrade(e: Event, seqNo: nat, ext: map<nat, nat>): seq<Report> {
    if e.Filled? then [TradeReport(seqNo, Label(ext, e.taker), Label(ext, e.maker), e.qty, e.cost)] else []
  }

  function LiquiTrades(log: seq<Event>, seqNo: nat, ext: map<nat, nat>): seq<Report> {
    if log == [] then [] else LiquiTrade(log[0], seqNo, ext) + LiquiTrades(log[1..], seqNo, ext)
  }

  /** The id has an order object and that object stands on the book. */
  predicate LiquiRests(l: Liqui, id: nat) {
    id in l.orders && OpenIn(l.bids, l.orders[id]) + OpenIn(l.asks, l.orders[id]) > 0
  }

  function LiquiNew(l: Liqui, m: Msg, lo: SimpleOrder): LiquiStep
    requires m.NewMsg?
  {
    var ext := l.ext[lo.id := m.id];
    var r := PlainOutcome(l.bids, l.asks, lo, m.ioc);
    var log := HeardAll(r.cbs);
    LiquiStep(Liqui(r.bids, r.asks, l.orders[m.id := lo], ext),
              [Ack(OrderAck, m.seqNo, m.id, m.side, m.price, m.qty)] + LiquiTrades(log, m.seqNo, ext)
                + Residual(m, FilledQty(log)))
  }

  /** The book without an order object. */
  function LiquiWithdraw(l: Liqui, o: SimpleOrder): Liqui {
    if o.isBuy then (if Where(l.bids, o) < |l.bids| then l.(bids := Without(l.bids, Where(l.bids, o))) else l)
    else (if Where(l.asks, o) < |l.asks| then l.(asks := Without(l.asks, Where(l.asks, o))) else l)
  }

  function LiquiCancel(l: Liqui, m: Msg): LiquiStep
    requires m.CancelMsg?
  {
    if LiquiRests(l, m.id) then
      var o := l.orders[m.id];
      LiquiStep(LiquiWithdraw(l, o), [Ack(CancelAck, m.seqNo, m.id, if o.isBuy then 0 else 1, o.price, 0)])
    else LiquiStep(l, [Ack(CancelReject, m.seqNo, m.id, 0, 0, 0)])
  }

  function LiquiModify(l: Liqui, m: Msg, lo: SimpleOrder): LiquiStep
    requires m.ModifyMsg?
  {
    if LiquiRests(l, m.id) then
      var l := LiquiWithdraw(l, l.orders[m.id]);
      var ext := l.ext[lo.id := m.id];
      var r := PlainOutcome(l.bids, l.asks, lo, false);
      LiquiStep(Liqui(r.bids, r.asks, l.orders[m.id := lo], ext),
                LiquiTrades(HeardAll(r.cbs), m.seqNo, ext) + [Ack(ModifyAck, m.seqNo, m.id, m.side, m.price, m.qty)])
    else LiquiStep(l, [Ack(ModifyReject, m.seqNo, m.id, 0, 0, 0)])
  }

  /** `lo` is the order object made for the message, if one is made. */
  function LiquiMsg(l: Liqui, m: Msg, lo: SimpleOrder): LiquiStep {
    match m
    case NewMsg(_, _, _, _, _, _) => LiquiNew(l, m, lo)
    case CancelMsg(_, _) => LiquiCancel(l, m)
    case ModifyMsg(_, _, _, _, _) => LiquiModify(l, m, lo)
  }

  // ---- Queries ----

  datatype Best = NoLevel | BestAt(price: nat)

  function BaboBest(s: seq<Entry>): Best {
    if s == [] then NoLevel else BestAt(s[0].key)
  }

  function LiquiBest(s: seq<Tracker>): Best {
    if s == [] then NoLevel else BestAt(s[0].order.price)
  }

  /** Walks the whole side. */
  function BaboDepthAt(s: seq<Entry>, price: nat): nat {
    if s == [] then 0 else (if s[0].order.price == price then s[0].order.Open() else 0) + BaboDepthAt(s[1..], price)
  }

  /** Walks the entries that compare equal to the price: past those before it, while they are at it. */
  function LiquiDepthAt(buy: bool, s: seq<Tracker>, price: nat): nat {
    if s != [] && Before(buy, s[0].order.price, price) then LiquiDepthAt(buy, s[1..], price) else RunAt(s, price)
  }

  function RunAt(s: seq<Tracker>, price: nat): nat {
    if s == [] || s[0].order.price != price then 0 else s[0].open + RunAt(s[1..], price)
  }
}
