/**
  * Liquibook's depth over whole runs: as long as no quantity is found too low, the rows of a
  * side are its live orders added up price by price.
  */
module LiquiTraces {
  import opened Orders
  import opened Layout
  import opened LiquiRows
  import opened LiquiDepth

  /** An order that is on the book, with what it has open. */
  datatype Live = Live(price: nat, qty: nat)

  function CountAt(live: seq<Live>, price: nat): nat {
    if live == [] then 0 else (if live[0].price == price then 1 else 0) + CountAt(live[1..], price)
  }

  function SumAt(live: seq<Live>, price: nat): nat {
    if live == [] then 0 else (if live[0].price == price then live[0].qty else 0) + SumAt(live[1..], price)
  }

  /** The rows are the live orders, price by price, their quantities added in 32 bits. */
  ghost predicate Aggregates(bid: bool, rows: seq<Row>, live: seq<Live>) {
    && Ranked(bid, rows) && (forall i :: 0 <= i < |rows| ==> rows[i].count > 0)
    && (forall k :: 0 <= k < |live| ==> live[k].price != INVALID && live[k].qty < WORD)
    && forall p: nat :: PriceRow(bid, rows, p) == Row(p, CountAt(live, p), Wrap(SumAt(live, p)))
  }

  // ---- There is only one such list of rows ----

  lemma SameRows(bid: bool, a: seq<Row>, b: seq<Row>)
    requires Ranked(bid, a) && Ranked(bid, b) && forall p: nat :: PriceRow(bid, a, p) == PriceRow(bid, b, p)
    requires (forall i :: 0 <= i < |a| ==> a[i].count > 0) && (forall i :: 0 <= i < |b| ==> b[i].count > 0)
    ensures a == b
    decreases |a|
  {
    hide Place;
    if a == [] {
      if b != [] {
        PriceRowAt(bid, b, 0);
        assert PriceRow(bid, a, b[0].price) == b[0];
        NoRow(bid, b[0].price);
      }
    } else {
      FirstNotAfter(bid, a, b);
      FirstNotAfter(bid, b, a);
      PriceRowAt(bid, a, 0);
      PriceRowAt(bid, b, 0);
      assert PriceRow(bid, a, a[0].price) == PriceRow(bid, b, a[0].price);
      assert RemoveAt(a, 0) == a[1..] && RemoveAt(b, 0) == b[1..];
      RankedRest(bid, a);
      RankedRest(bid, b);
      forall p: nat ensures PriceRow(bid, a[1..], p) == PriceRow(bid, b[1..], p) {
        RemovedRow(bid, a, 0, p);
        RemovedRow(bid, b, 0, p);
        assert PriceRow(bid, a, p) == PriceRow(bid, b, p);
      }
      SameRows(bid, a[1..], b[1..]);
      assert a == [a[0]] + a[1..] && b == [b[0]] + b[1..];
    }
  }

  lemma NoRow(bid: bool, price: nat)
    ensures PriceRow(bid, [], price) == Row(price, 0, 0)
  {
  }

  /** The first row of one list is on the other, so it is not better than the first there. */
  lemma FirstNotAfter(bid: bool, a: seq<Row>, b: seq<Row>)
    requires a != [] && Ranked(bid, a) && Ranked(bid, b) && a[0].count > 0
    requires PriceRow(bid, a, a[0].price) == PriceRow(bid, b, a[0].price)
    ensures b != [] && (a[0].price == b[0].price || Better(bid, b[0].price, a[0].price))
  {
    PriceRowAt(bid, a, 0);
    var p := Place(bid, b, a[0].price);
    assert p < |b| && b[p].price == a[0].price;
    if p > 0 { assert Ordered(bid, b, 0, p); }
  }

  /** The live orders determine the rows. */
  lemma RowsUnique(bid: bool, a: seq<Row>, b: seq<Row>, live: seq<Live>)
    requires Aggregates(bid, a, live) && Aggregates(bid, b, live)
    ensures a == b
  {
    forall p: nat ensures PriceRow(bid, a, p) == PriceRow(bid, b, p) {
      assert PriceRow(bid, a, p) == Row(p, CountAt(live, p), Wrap(SumAt(live, p)));
    }
    SameRows(bid, a, b);
  }

  // ---- Counts and sums ----

  lemma {:induction false} Appended(live: seq<Live>, x: Live, price: nat)
    ensures CountAt(live + [x], price) == CountAt(live, price) + (if x.price == price then 1 else 0)
    ensures SumAt(live + [x], price) == SumAt(live, price) + (if x.price == price then x.qty else 0)
  {
    if live == [] {
      assert live + [x] == [x] && [x][1..] == [];
    } else {
      Appended(live[1..], x, price);
      assert (live + [x])[1..] == live[1..] + [x];
    }
  }

  lemma {:induction false} Removed(live: seq<Live>, k: nat, price: nat)
    requires k < |live|
    ensures CountAt(live, price) == CountAt(RemoveAt(live, k), price) + (if live[k].price == price then 1 else 0)
    ensures SumAt(live, price) == SumAt(RemoveAt(live, k), price) + (if live[k].price == price then live[k].qty else 0)
  {
    if k == 0 {
      assert RemoveAt(live, 0) == live[1..];
    } else {
      Removed(live[1..], k - 1, price);
      assert RemoveAt(live, k)[1..] == RemoveAt(live[1..], k - 1);
    }
  }

  lemma ResizedSums(live: seq<Live>, k: nat, qty: nat, price: nat)
    requires k < |live|
    ensures var u := live[k := Live(live[k].price, qty)];
      && CountAt(u, price) == CountAt(live, price)
      && SumAt(u, price) == SumAt(live, price) + if live[k].price == price then qty - live[k].qty else 0
  {
    var u := live[k := Live(live[k].price, qty)];
    if k == 0 {
      assert u[1..] == live[1..];
    } else {
      ResizedSums(live[1..], k - 1, qty, price);
      assert u[1..] == live[1..][k - 1 := Live(live[k].price, qty)];
    }
  }

  /** An order counts at its price; if it is the only one there, its quantity is the sum. */
  lemma {:induction false} AloneAt(live: seq<Live>, k: nat)
    requires k < |live|
    ensures CountAt(live, live[k].price) > 0 && SumAt(live, live[k].price) >= live[k].qty
    ensures CountAt(live, live[k].price) == 1 ==> SumAt(live, live[k].price) == live[k].qty
  {
    Removed(live, k, live[k].price);
    NoneAt(RemoveAt(live, k), live[k].price);
  }

  lemma {:induction false} NoneAt(live: seq<Live>, price: nat)
    ensures CountAt(live, price) == 0 ==> SumAt(live, price) == 0
  {
    if live != [] { NoneAt(live[1..], price); }
  }

  lemma WrapSum(a: int, b: int)
    ensures Wrap(Wrap(a) + b) == Wrap(a + b)
  {
  }

  // ---- When an order can be closed ----

  /** The quantity of the level covers the order, or the order is the last one there. */
  predicate CanClose(live: seq<Live>, k: nat)
    requires k < |live|
  {
    CountAt(live, live[k].price) == 1 || live[k].qty <= Wrap(SumAt(live, live[k].price))
  }

  /** A live order is closed without an exception exactly if its level covers it. */
  lemma CloseExact(bid: bool, rows: seq<Row>, live: seq<Live>, k: nat)
    requires Aggregates(bid, rows, live) && k < |live|
    ensures HasRow(bid, rows, live[k].price)
    ensures var x := live[k]; var c := ClosingOf(rows[Place(bid, rows, x.price)], x.qty);
      && (CanClose(live, k) <==> c == Erased || c == Stays)
      && (!CanClose(live, k) <==> c == QtyTooLow)
  {
    hide Place;
    AloneAt(live, k);
    assert PriceRow(bid, rows, live[k].price).count > 0;
  }

  /** An order can be closed if the quantities at its price make less than 2^32. */
  lemma SumFits(live: seq<Live>, k: nat)
    requires k < |live| && SumAt(live, live[k].price) < WORD
    ensures CanClose(live, k)
  {
    AloneAt(live, k);
  }

  // ---- What each operation keeps ----

  lemma AddAggregates(bid: bool, rows: seq<Row>, live: seq<Live>, price: nat, qty: nat)
    requires Aggregates(bid, rows, live) && price != INVALID && qty < WORD
    ensures Aggregates(bid, Raised(bid, rows, price, qty), live + [Live(price, qty)])
  {
    hide Place, HasRow, Raised, PriceRow, CountAt, SumAt, Ranked;
    var u, l := Raised(bid, rows, price, qty), live + [Live(price, qty)];
    forall p: nat ensures PriceRow(bid, u, p) == Row(p, CountAt(l, p), Wrap(SumAt(l, p))) {
      RaisedRow(bid, rows, price, qty, p);
      Appended(live, Live(price, qty), p);
      WrapSum(SumAt(live, p), qty);
    }
    RaisedRow(bid, rows, price, qty, price);
    forall i | 0 <= i < |u| ensures u[i].count > 0 {
      PriceRowAt(bid, u, i);
      RaisedRow(bid, rows, price, qty, u[i].price);
      if u[i].price != price { RowThere(bid, rows, u[i].price); }
    }
  }

  lemma RowThere(bid: bool, rows: seq<Row>, price: nat)
    requires HasRow(bid, rows, price) && forall i :: 0 <= i < |rows| ==> rows[i].count > 0
    ensures PriceRow(bid, rows, price).count > 0
  {
  }

  lemma {:induction false} CloseAggregates(bid: bool, rows: seq<Row>, live: seq<Live>, k: nat)
    requires Aggregates(bid, rows, live) && k < |live| && CanClose(live, k)
    ensures HasRow(bid, rows, live[k].price)
    ensures Aggregates(bid, Closed(rows, Place(bid, rows, live[k].price), live[k].qty), RemoveAt(live, k))
  {
    hide Place, Closed, PriceRow, CountAt, SumAt, Ranked;
    var x := live[k];
    CloseExact(bid, rows, live, k);
    AloneAt(live, k);
    var at := Place(bid, rows, x.price);
    var u, l := Closed(rows, at, x.qty), RemoveAt(live, k);
    PriceRowIs(bid, rows, x.price);
    forall p: nat ensures PriceRow(bid, u, p) == Row(p, CountAt(l, p), Wrap(SumAt(l, p))) {
      ClosedRow(bid, rows, x.price, x.qty, p);
      Removed(live, k, p);
      NoneAt(l, p);
    }
    ClosedRow(bid, rows, x.price, x.qty, x.price);
    ClosedCounts(rows, at, x.qty);
  }

  /**
    * A close that throws has happened by half: the order at `k` no longer counts at its price, and
    * its quantity is still in the sum there.
    */
  ghost predicate Torn(bid: bool, rows: seq<Row>, live: seq<Live>, k: nat)
    requires k < |live|
  {
    && Ranked(bid, rows) && (forall i :: 0 <= i < |rows| ==> rows[i].count > 0)
    && forall p: nat :: PriceRow(bid, rows, p) == Row(p, CountAt(RemoveAt(live, k), p), Wrap(SumAt(live, p)))
  }

  lemma {:induction false} CloseTears(bid: bool, rows: seq<Row>, live: seq<Live>, k: nat)
    requires Aggregates(bid, rows, live) && k < |live| && !CanClose(live, k)
    ensures HasRow(bid, rows, live[k].price)
    ensures Torn(bid, Closed(rows, Place(bid, rows, live[k].price), live[k].qty), live, k)
  {
    hide Place, Closed, PriceRow, CountAt, SumAt, Ranked;
    var x := live[k];
    CloseExact(bid, rows, live, k);
    var at := Place(bid, rows, x.price);
    var u, l := Closed(rows, at, x.qty), RemoveAt(live, k);
    PriceRowIs(bid, rows, x.price);
    forall p: nat ensures PriceRow(bid, u, p) == Row(p, CountAt(l, p), Wrap(SumAt(live, p))) {
      ClosedRow(bid, rows, x.price, x.qty, p);
      Removed(live, k, p);
    }
    ClosedRow(bid, rows, x.price, x.qty, x.price);
    ClosedCounts(rows, at, x.qty);
  }

  lemma PriceRowIs(bid: bool, rows: seq<Row>, price: nat)
    requires HasRow(bid, rows, price)
    ensures PriceRow(bid, rows, price) == rows[Place(bid, rows, price)]
  {
  }

  lemma ClosedCounts(rows: seq<Row>, p: nat, qty: nat)
    requires p < |rows| && forall i :: 0 <= i < |rows| ==> rows[i].count > 0
    ensures forall i :: 0 <= i < |Closed(rows, p, qty)| ==> Closed(rows, p, qty)[i].count > 0
  {
  }

  lemma {:induction false} ResizeAggregates(bid: bool, rows: seq<Row>, live: seq<Live>, k: nat, qty: nat)
    requires Aggregates(bid, rows, live) && k < |live| && qty < WORD
    ensures HasRow(bid, rows, live[k].price)
    ensures Aggregates(bid, Adjusted(rows, Place(bid, rows, live[k].price), qty - live[k].qty),
        live[k := Live(live[k].price, qty)])
  {
    hide Place, PriceRow, CountAt, SumAt, Ranked;
    var x := live[k];
    CloseExact(bid, rows, live, k);
    var at := Place(bid, rows, x.price);
    var row := rows[at].(qty := Wrap(rows[at].qty + (qty - x.qty)));
    var u, l := Adjusted(rows, at, qty - x.qty), live[k := Live(x.price, qty)];
    PriceRowIs(bid, rows, x.price);
    forall p: nat ensures PriceRow(bid, u, p) == Row(p, CountAt(l, p), Wrap(SumAt(l, p))) {
      RewrittenRow(bid, rows, at, row, p);
      ResizedSums(live, k, qty, p);
      WrapSum(SumAt(live, p), qty - x.qty);
    }
    RewrittenRow(bid, rows, at, row, x.price);
  }

  // ---- Runs ----

  /** The live orders of both sides. */
  datatype Lives = Lives(bids: seq<Live>, asks: seq<Live>) {
    function Of(isBid: bool): seq<Live> {
      if isBid then bids else asks
    }

    function With(isBid: bool, live: seq<Live>): Lives {
      if isBid then this.(bids := live) else this.(asks := live)
    }
  }

  const NONE := Lives([], [])

  /** What the book tells the depth; `k` names a live order of the side. */
  datatype Op =
    | Add(isBid: bool, price: nat, qty: nat)
    | Close(isBid: bool, k: nat)
    | Change(isBid: bool, k: nat, delta: int)
    | Replace(isBid: bool, k: nat, price: nat, qty: nat)

  /** The operation is about a live order, and keeps quantities within 32 bits. */
  predicate Fits(b: Lives, op: Op) {
    match op
    case Add(_, price, qty) => price != INVALID && qty < WORD
    case Close(isBid, k) => k < |b.Of(isBid)|
    case Change(isBid, k, delta) => k < |b.Of(isBid)| && 0 <= b.Of(isBid)[k].qty + delta < WORD
    case Replace(isBid, k, price, qty) => k < |b.Of(isBid)| && price != INVALID && qty < WORD
  }

  function After(b: Lives, op: Op): Lives {
    if !Fits(b, op) then b
    else
      var live := b.Of(op.isBid);
      match op
      case Add(isBid, price, qty) => b.With(isBid, live + [Live(price, qty)])
      case Close(isBid, k) => b.With(isBid, RemoveAt(live, k))
      case Change(isBid, k, delta) => b.With(isBid, live[k := Live(live[k].price, live[k].qty + delta)])
      case Replace(isBid, k, price, qty) =>
        b.With(isBid, if price == live[k].price then live[k := Live(price, qty)] else RemoveAt(live + [Live(price,
            qty)], k))
  }

  /** The operation closes an order that its level does not cover. */
  predicate Throws(b: Lives, op: Op) {
    match op
    case Add(_, _, _) => false
    case Close(isBid, k) => k < |b.Of(isBid)| && !CanClose(b.Of(isBid), k)
    case Change(_, _, _) => false
    case Replace(isBid, k, price, _) =>
      k < |b.Of(isBid)| && price != b.Of(isBid)[k].price && !CanClose(b.Of(isBid), k)
  }

  function AfterAll(ops: seq<Op>): Lives {
    if ops == [] then NONE else After(AfterAll(ops[..|ops| - 1]), ops[|ops| - 1])
  }

  /** Every operation fits the live orders that those before it leave. */
  predicate WellFormed(ops: seq<Op>) {
    forall i :: 0 <= i < |ops| ==> Fits(AfterAll(ops[..i]), ops[i])
  }

  /** Both sides of the depth are the live orders. */
  ghost predicate Tracks(depth: Depth, b: Lives)
    reads depth, depth.levels
  {
    depth.Valid() && Aggregates(true, depth.bidRows, b.bids) && Aggregates(false, depth.askRows, b.asks)
  }

  /** The live orders of the operation's side when it closes one of them. */
  function AtClose(b: Lives, op: Op): seq<Live> {
    if op.Replace? then b.Of(op.isBid) + [Live(op.price, op.qty)] else b.Of(op.isBid)
  }

  /** The operation has thrown: its order is half closed, and the other side is as it was. */
  ghost predicate LeftBy(depth: Depth, b: Lives, op: Op)
    requires Throws(b, op)
    reads depth, depth.levels
  {
    && depth.Valid() && Torn(op.isBid, depth.Rows(op.isBid), AtClose(b, op), op.k)
    && Aggregates(!op.isBid, depth.Rows(!op.isBid), b.Of(!op.isBid))
  }

  /** One operation performed on the depth; the live orders it is about are the caller's. */
  method Perform(depth: Depth, b: Lives, op: Op) returns (thrown: bool)
    requires Tracks(depth, b) && Fits(b, op)
    modifies depth, depth.levels
    ensures thrown <==> Throws(b, op)
    ensures if thrown then LeftBy(depth, b, op) else Tracks(depth, After(b, op))
  {
    hide Aggregates, Raised, Closed, Adjusted, Place, HasRow, CanClose, Depth.Valid, Torn;
    ghost var rows := depth.Rows(op.isBid);
    var live := b.Of(op.isBid);
    TrackedSide(depth, b, op.isBid);
    thrown := false;
    match op {
      case Add(isBid, price, qty) =>
        AddAggregates(isBid, rows, live, price, qty);
        depth.AddOrder(price, qty, isBid);
      case Close(isBid, k) =>
        CloseExact(isBid, rows, live, k);
        if CanClose(live, k) { CloseAggregates(isBid, rows, live, k); } else { CloseTears(isBid, rows, live, k); }
        var c := depth.CloseOrder(live[k].price, live[k].qty, isBid);
        thrown := c == QtyTooLow;
      case Change(isBid, k, delta) =>
        ResizeAggregates(isBid, rows, live, k, live[k].qty + delta);
        QtyBelow(isBid, rows, live, k);
        depth.ChangeQtyOrder(live[k].price, delta, isBid);
      case Replace(isBid, k, price, qty) =>
        ReplaceAggregates(isBid, rows, live, k, price, qty);
        QtyBelow(isBid, rows, live, k);
        var c := depth.ReplaceOrder(live[k].price, price, live[k].qty, qty, isBid);
        thrown := c == QtyTooLow;
    }
  }

  lemma TrackedSide(depth: Depth, b: Lives, isBid: bool)
    requires Tracks(depth, b)
    ensures Aggregates(isBid, depth.Rows(isBid), b.Of(isBid))
  {
  }

  lemma QtyBelow(bid: bool, rows: seq<Row>, live: seq<Live>, k: nat)
    requires Aggregates(bid, rows, live) && k < |live|
    ensures live[k].price != INVALID && live[k].qty < WORD
  {
  }

  /** A replaced order: resized in place, or added at its new price and closed at the old one. */
  lemma {:induction false} ReplaceAggregates(bid: bool, rows: seq<Row>, live: seq<Live>, k: nat, price: nat, qty: nat)
    requires Aggregates(bid, rows, live) && k < |live| && price != INVALID && qty < WORD
    ensures HasRow(bid, rows, live[k].price)
    ensures price == live[k].price ==>
      Aggregates(bid, Adjusted(rows, Place(bid, rows, price), qty - live[k].qty), live[k := Live(price, qty)])
    ensures price != live[k].price ==> var u, l := Raised(bid, rows, price, qty), live + [Live(price, qty)];
      && HasRow(bid, u, live[k].price) && l[k] == live[k] && (CanClose(l, k) <==> CanClose(live, k))
      && (ClosingOf(u[Place(bid, u, live[k].price)], live[k].qty) == QtyTooLow <==> !CanClose(live, k))
      && (CanClose(live, k) ==> Aggregates(bid, Closed(u, Place(bid, u, live[k].price), live[k].qty), RemoveAt(l, k)))
      && (!CanClose(live, k) ==> Torn(bid, Closed(u, Place(bid, u, live[k].price), live[k].qty), l, k))
  {
    hide Aggregates, Place, HasRow, Raised, Closed, Adjusted, CountAt, SumAt, Torn;
    CloseExact(bid, rows, live, k);
    if price == live[k].price {
      ResizeAggregates(bid, rows, live, k, qty);
    } else {
      AddAggregates(bid, rows, live, price, qty);
      var u, l := Raised(bid, rows, price, qty), live + [Live(price, qty)];
      Appended(live, Live(price, qty), live[k].price);
      CloseExact(bid, u, l, k);
      if CanClose(live, k) { CloseAggregates(bid, u, l, k); } else { CloseTears(bid, u, l, k); }
    }
  }

  /**
    * A run of operations on a new depth, up to the first that throws. Before that the rows are the
    * live orders; all is performed exactly if no level is ever found too low. The operation that
    * throws leaves its order half closed.
    */
  method Replay(size: nat, ops: seq<Op>) returns (depth: Depth, n: nat)
    requires size > 0 && WellFormed(ops)
    ensures n <= |ops| && forall i :: 0 <= i < n ==> !Throws(AfterAll(ops[..i]), ops[i])
    ensures n < |ops| ==> Throws(AfterAll(ops[..n]), ops[n]) && LeftBy(depth, AfterAll(ops[..n]), ops[n])
    ensures n == |ops| ==> Tracks(depth, AfterAll(ops))
  {
    hide Aggregates, Fits, Throws, After, Torn;
    depth := new Depth(size);
    NothingLive();
    n := 0;
    var b := NONE;
    while n < |ops|
      invariant n <= |ops| && fresh(depth) && fresh(depth.levels) && b == AfterAll(ops[..n]) && Tracks(depth, b)
      invariant forall i :: 0 <= i < n ==> !Throws(AfterAll(ops[..i]), ops[i])
    {
      var thrown := Perform(depth, b, ops[n]);
      if thrown { return; }
      assert ops[..n + 1][..n] == ops[..n];
      b := After(b, ops[n]);
      n := n + 1;
    }
    assert ops[..n] == ops;
  }

  lemma NothingLive()
    ensures Aggregates(true, [], []) && Aggregates(false, [], [])
  {
  }

  // ---- A level found too low ----

  /** Two orders whose quantities make 2^32 or more: neither can be closed while both are there. */
  lemma TooMuchAtAPrice(x: Live, y: Live)
    requires x.price == y.price && x.qty < WORD && y.qty < WORD
    ensures CanClose([x, y], 0) <==> x.qty + y.qty < WORD
    ensures CanClose([x, y], 1) <==> x.qty + y.qty < WORD
  {
    assert [x, y][1..] == [y] && [y][1..] == [];
    assert CountAt([y], x.price) == 1 && SumAt([y], x.price) == y.qty;
    assert CountAt([x, y], x.price) == 2 && SumAt([x, y], x.price) == x.qty + y.qty;
    if x.qty + y.qty >= WORD { assert Wrap(x.qty + y.qty) == x.qty + y.qty - WORD; }
  }

  lemma TwoHugeAsks(q: nat)
    requires q == 3000000000
    ensures Raised(false, [], 100, q) == [Row(100, 1, q)]
    ensures Raised(false, [Row(100, 1, q)], 100, q) == [Row(100, 2, 1705032704)]
    ensures var rows := [Row(100, 2, 1705032704)];
      && HasRow(false, rows, 100) && Place(false, rows, 100) == 0
      && ClosingOf(rows[0], q) == QtyTooLow && Closed(rows, 0, q) == [Row(100, 1, 1705032704)]
  {
    var one, two := [Row(100, 1, q)], [Row(100, 2, 1705032704)];
    assert Place(false, [], 100) == Place(false, one, 100) == Place(false, two, 100) == 0;
    assert WithRow(false, [], 100) == [Row(100, 0, 0)] && WithRow(false, one, 100) == one;
    assert Wrap(q + q) == 1705032704;
  }

  /** The first of two asks of 3000000000 is closed. */
  method CloseTooLow() returns (depth: Depth, c: Closing)
    ensures c == QtyTooLow && depth.askRows == [Row(100, 1, 1705032704)]
  {
    hide Raised, Closed, ClosingOf, HasRow, Place, Depth.Valid;
    TwoHugeAsks(3000000000);
    depth := new Depth(5);
    depth.AddOrder(100, 3000000000, false);
    depth.AddOrder(100, 3000000000, false);
    c := depth.CloseOrder(100, 3000000000, false);
  }
}
