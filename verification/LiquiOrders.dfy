/**
  * Orders of the Liquibook baseline: the order object with its state machine, the tracker that
  * holds the book's own copy of the open quantity, and the callbacks that keep the two in step.
  */
module LiquiOrders {
  import opened Orders
  import opened Matching

  datatype OrderState = NewOrder | AcceptedOrder | CompleteOrder | CancelledOrder

  /** The part of an order object that callbacks change. */
  datatype Status = Status(state: OrderState, filled: nat, cost: nat)

  const FRESH := Status(NewOrder, 0, 0)

  function OpenOf(o: SimpleOrder, s: Status): nat {
    if s.filled < o.qty then o.qty - s.filled else 0
  }

  function AcceptStatus(s: Status): Status {
    if s.state == NewOrder then s.(state := AcceptedOrder) else s
  }

  function FillStatus(o: SimpleOrder, s: Status, q: nat, c: nat): Status {
    var s := s.(filled := s.filled + q, cost := Wrap(s.cost + c));
    if OpenOf(o, s) == 0 then s.(state := CompleteOrder) else s
  }

  function CancelStatus(s: Status): Status {
    if s.state != CompleteOrder then s.(state := CancelledOrder) else s
  }

  /** An order object; its limit, size and side never change here, as replacing is not modelled. */
  class SimpleOrder {
    const id: nat
    const isBuy: bool
    const price: nat
    const qty: nat
    var state: OrderState
    var filled: nat
    var cost: nat

    constructor (id: nat, isBuy: bool, price: nat, qty: nat)
      ensures this.id == id && this.isBuy == isBuy && this.price == price && this.qty == qty && View() == FRESH
    {
      this.id, this.isBuy, this.price, this.qty := id, isBuy, price, qty;
      state, filled, cost := NewOrder, 0, 0;
    }

    function View(): Status
      reads this
    {
      Status(state, filled, cost)
    }

    function OpenQty(): nat
      reads this
    {
      if filled < qty then qty - filled else 0
    }

    method Accept()
      modifies this
      ensures View() == AcceptStatus(old(View()))
    {
      if state == NewOrder { state := AcceptedOrder; }
    }

    method Fill(q: nat, c: nat)
      modifies this
      ensures View() == FillStatus(this, old(View()), q, c)
    {
      filled := filled + q;
      cost := Wrap(cost + c);
      if OpenQty() == 0 { state := CompleteOrder; }
    }

    method Cancel()
      modifies this
      ensures View() == CancelStatus(old(View()))
    {
      if state != CompleteOrder { state := CancelledOrder; }
    }
  }

  /** The book's own record of a resting order. */
  datatype Tracker = Tracker(order: SimpleOrder, open: nat, aon: bool, ioc: bool)

  datatype Callback =
    | OnAccept(order: SimpleOrder)
    | OnReject(order: SimpleOrder)
    | OnFill(order: SimpleOrder, matched: SimpleOrder, qty: nat, price: nat)
    | OnCancel(order: SimpleOrder)
    | OnCancelReject(order: SimpleOrder)
    | OnBookUpdate

  /** What the order listener hears of a callback. */
  function Heard(cb: Callback): seq<Event> {
    match cb
    case OnAccept(o) => [Accepted(o.id)]
    case OnReject(o) => [Rejected(o.id)]
    case OnFill(o, m, q, px) => [Filled(o.id, m.id, q, Cost(q, px))]
    case OnCancel(o) => [Cancelled(o.id)]
    case OnCancelReject(o) => [CancelRejected(o.id)]
    case OnBookUpdate => []
  }

  function HeardAll(cbs: seq<Callback>): seq<Event> {
    if cbs == [] then [] else HeardAll(cbs[..|cbs| - 1]) + Heard(cbs[|cbs| - 1])
  }

  /** What a callback does to the order object `o`. */
  function Touch(o: SimpleOrder, s: Status, cb: Callback): Status {
    match cb
    case OnAccept(x) => if x == o then AcceptStatus(s) else s
    case OnFill(x, m, q, px) =>
      var s := if m == o then FillStatus(o, s, q, Cost(q, px)) else s;
      if x == o then FillStatus(o, s, q, Cost(q, px)) else s
    case OnCancel(x) => if x == o then CancelStatus(s) else s
    case _ => s
  }

  function TouchAll(o: SimpleOrder, s: Status, cbs: seq<Callback>): Status {
    if cbs == [] then s else Touch(o, TouchAll(o, s, cbs[..|cbs| - 1]), cbs[|cbs| - 1])
  }

  lemma {:induction false} TouchConcat(o: SimpleOrder, s: Status, a: seq<Callback>, b: seq<Callback>)
    ensures TouchAll(o, s, a + b) == TouchAll(o, TouchAll(o, s, a), b)
    decreases |b|
  {
    hide Touch;
    if b == [] {
      assert a + b == a;
    } else {
      assert (a + b)[..|a + b| - 1] == a + b[..|b| - 1];
      TouchConcat(o, s, a, b[..|b| - 1]);
    }
  }

  lemma {:induction false} HeardConcat(a: seq<Callback>, b: seq<Callback>)
    ensures HeardAll(a + b) == HeardAll(a) + HeardAll(b)
    decreases |b|
  {
    hide Heard;
    if b == [] {
      assert a + b == a;
    } else {
      assert (a + b)[..|a + b| - 1] == a + b[..|b| - 1];
      HeardConcat(a, b[..|b| - 1]);
    }
  }

  // ---- The two maps of a market: all orders of a side, best price first ----

  /** `ComparablePrice` order of two limit prices of a side. */
  predicate Before(buy: bool, p: nat, q: nat) {
    if p == MARKET then q != MARKET
    else if q == MARKET then false
    else if buy then q < p else p < q
  }

  /** Whether the resting price `p` can trade with the limit `q` of the other side. */
  predicate Matches(buy: bool, p: nat, q: nat) {
    p == q || if buy then q < p || p == MARKET else p < q || q == MARKET
  }

  /** Where a multimap puts a new entry: behind everything not after it. */
  function UpperBound(buy: bool, s: seq<Tracker>, price: nat): (p: nat)
    ensures p <= |s|
  {
    if s == [] || Before(buy, price, s[0].order.price) then 0 else 1 + UpperBound(buy, s[1..], price)
  }

  function Emplace(buy: bool, s: seq<Tracker>, t: Tracker): seq<Tracker> {
    var p := UpperBound(buy, s, t.order.price);
    s[..p] + [t] + s[p..]
  }

  /** The entry an iterator denotes, by the order it holds; the end if it holds none. */
  function Where(s: seq<Tracker>, o: SimpleOrder): (p: nat)
    ensures p <= |s|
    ensures p < |s| ==> s[p].order == o
    ensures forall i :: 0 <= i < p ==> s[i].order != o
  {
    if s == [] || s[0].order == o then 0 else 1 + Where(s[1..], o)
  }
}
