/**
  * The matching book as a state machine over four ranked lists, and what every call keeps.
  */
module Books {
  import opened Orders
  import opened Queues
  import opened Matching

  /** The four sides, the market price, and everything the listener has been told. */
  datatype Book = Book(
    bids: seq<Entry>, asks: seq<Entry>, stopBids: seq<Entry>, stopAsks: seq<Entry>,
    market: nat, log: seq<Event>)

  const EMPTY_BOOK := Book([], [], [], [], 0, [])

  function Tell(b: Book, e: Event): Book {
    b.(log := b.log + [e])
  }

  /** Leaves an order on its own side, unless it is a market or immediate order or done. */
  function Rest(b: Book, o: Order): Book {
    if o.price == MARKET || o.ioc || o.Open() == 0 then b
    else if o.isBuy then b.(bids := Enqueue(true, b.bids, Entry(o.price, o)))
    else b.(asks := Enqueue(false, b.asks, Entry(o.price, o)))
  }

  /** Matches an order against the opposite side, then rests it. */
  function Submit(b: Book, o: Order): (r: Book)
    ensures r.stopBids == b.stopBids && r.stopAsks == b.stopAsks
  {
    if o.isBuy then
      var m := Match(b.asks, o, b.market);
      Rest(b.(asks := m.opp, market := m.market, log := b.log + m.log), m.taker)
    else
      var m := Match(b.bids, o, b.market);
      Rest(b.(bids := m.opp, market := m.market, log := b.log + m.log), m.taker)
  }

  function SubmitAll(b: Book, s: seq<Entry>): (r: Book)
    ensures r.stopBids == b.stopBids && r.stopAsks == b.stopAsks
    decreases |s|
  {
    if s == [] then b else SubmitAll(Submit(b, s[0].order), s[1..])
  }

  // ---- Stops ----

  /** A parked stop at `key` fires at this market price. */
  predicate Triggered(buy: bool, key: nat, market: nat) {
    if buy then key <= market else key >= market
  }

  predicate Stopped(o: Order, market: nat) {
    if o.isBuy then market < o.stop else market > o.stop
  }

  function Park(b: Book, o: Order): Book {
    if o.isBuy then b.(stopBids := Enqueue(false, b.stopBids, Entry(o.stop, o)))
    else b.(stopAsks := Enqueue(true, b.stopAsks, Entry(o.stop, o)))
  }

  /** How many stops at the front of a side fire. */
  function Firing(buy: bool, s: seq<Entry>, market: nat): (n: nat)
    ensures n <= |s|
    ensures forall i :: 0 <= i < n ==> Triggered(buy, s[i].key, market)
    ensures n < |s| ==> !Triggered(buy, s[n].key, market)
  {
    if s == [] || !Triggered(buy, s[0].key, market) then 0 else 1 + Firing(buy, s[1..], market)
  }

  function OrdersOf(s: seq<Entry>): (r: seq<Order>)
    ensures |r| == |s| && forall i :: 0 <= i < |s| ==> r[i] == s[i].order
  {
    seq(|s|, i requires 0 <= i < |s| => s[i].order)
  }

  /** Fires stops, buys first, round after round until none is triggered. */
  function Process(b: Book): Book
    decreases |b.stopBids| + |b.stopAsks|
  {
    var n, k := Firing(true, b.stopBids, b.market), Firing(false, b.stopAsks, b.market);
    if n + k == 0 then b
    else Process(SubmitAll(b.(stopBids := b.stopBids[n..], stopAsks := b.stopAsks[k..]),
        b.stopBids[..n] + b.stopAsks[..k]))
  }

  // ---- The public calls ----

  function Add(b: Book, o: Order): Book {
    if o.qty == 0 then Tell(b, Rejected(o.id))
    else
      var b := Tell(b, Accepted(o.id));
      if o.stop != 0 && Stopped(o, b.market) then Park(b, o) else Process(Submit(b, o))
  }

  function Cancel(b: Book, id: nat): Book {
    if Has(b.bids, id) then Tell(b.(bids := Dequeue(b.bids, id)), Cancelled(id))
    else if Has(b.asks, id) then Tell(b.(asks := Dequeue(b.asks, id)), Cancelled(id))
    else if Has(b.stopBids, id) then Tell(b.(stopBids := Dequeue(b.stopBids, id)), Cancelled(id))
    else if Has(b.stopAsks, id) then Tell(b.(stopAsks := Dequeue(b.stopAsks, id)), Cancelled(id))
    else Tell(b, CancelRejected(id))
  }

  /** The resting order with an id, bids before asks. */
  function Resting(b: Book, id: nat): Order
    requires Has(b.bids, id) || Has(b.asks, id)
  {
    if Has(b.bids, id) then b.bids[IndexOf(b.bids, id)].order else b.asks[IndexOf(b.asks, id)].order
  }

  function Withdraw(b: Book, id: nat): Book {
    if Has(b.bids, id) then b.(bids := Dequeue(b.bids, id)) else b.(asks := Dequeue(b.asks, id))
  }

  /** A replacement keeps its place in the queue if the price is the same or zero. */
  predicate Reprices(o: Order, price: nat) {
    price != MARKET && price != o.price
  }

  function Rewrite(s: seq<Entry>, id: nat, o: Order): seq<Entry>
    requires Has(s, id)
  {
    var p := IndexOf(s, id);
    s[p := s[p].(order := o)]
  }

  /**
    * After a replacement the order is submitted, or gone, or has something open when its new
    * quantity has been cut to 32 bits.
    */
  predicate LeavesOpen(o: Order, delta: int, price: nat) {
    Reprices(o, price) || (delta < 0 && -delta >= o.Open()) || o.filled < Wrap(o.qty + delta)
  }

  /** The sum is taken in signed 32 bits, whose overflow is undefined, and leaves something to rest if it must. */
  predicate Replaceable(o: Order, delta: int, price: nat) {
    Adds32(o.qty, delta) && LeavesOpen(o, delta, price)
  }

  /** The book after the resting order with an id has become `n`. */
  function Change(b: Book, id: nat, n: Order): Book
    requires Has(b.bids, id) || Has(b.asks, id)
  {
    if Has(b.bids, id) then b.(bids := Rewrite(b.bids, id, n)) else b.(asks := Rewrite(b.asks, id, n))
  }

  /** The book after a resting order has changed its size at its place in the queue. */
  function Regrown(b: Book, id: nat, delta: int): Book
    requires Has(b.bids, id) || Has(b.asks, id)
  {
    Change(b, id, Resting(b, id).Modify(delta, MARKET))
  }

  /** Changes the size of an order at its place in the queue, or takes it out if nothing would be left. */
  function Amend(b: Book, id: nat, delta: int): Book
    requires Has(b.bids, id) || Has(b.asks, id)
  {
    var o := Resting(b, id);
    if delta < 0 && -delta >= o.Open() then Tell(Withdraw(b, id), Replaced(id, delta, o.price))
    else Tell(Regrown(b, id, delta), Replaced(id, delta, o.price))
  }

  /** Takes an order out and submits it with its new size and price. */
  function Reprice(b: Book, id: nat, delta: int, price: nat): Book
    requires Has(b.bids, id) || Has(b.asks, id)
  {
    var n := Resting(b, id).Modify(delta, price);
    var b := Tell(Withdraw(b, id), Replaced(id, delta, n.price));
    if n.Open() == 0 then b else Process(Submit(b, n))
  }

  function Replace(b: Book, id: nat, delta: int, price: nat): Book
    requires Has(b.bids, id) || Has(b.asks, id) ==> Adds32(Resting(b, id).qty, delta)
  {
    if !(Has(b.bids, id) || Has(b.asks, id)) then Tell(b, ReplaceRejected(id))
    else if Reprices(Resting(b, id), price) then Reprice(b, id, delta, price)
    else Amend(b, id, delta)
  }

  function SetMarketPrice(b: Book, px: nat): Book {
    Process(b.(market := px))
  }
}
