/**
  * The rows of a side of Liquibook's depth, and what the window on its best levels and the map
  * of the levels that do not fit say about them.
  */
module LiquiRows {
  import opened Orders
  import opened Layout

  /** Price of a blank level. */
  const INVALID: nat := 0

  /** A level of the window or of the excess, with the stamp of its last change. */
  datatype DepthLevel = DepthLevel(price: nat, count: nat, qty: nat, excess: bool, stamp: nat)

  /** Blank out or set up a level; the stamp is the caller's. */
  function Init(l: DepthLevel, price: nat, excess: bool): DepthLevel {
    l.(price := price, count := 0, qty := 0, excess := excess)
  }

  /** Assignment of levels: the excess flag stays, and the stamp of a blank level is not copied. */
  function Copied(to: DepthLevel, from: DepthLevel): DepthLevel {
    DepthLevel(from.price, from.count, from.qty, to.excess, if from.price != INVALID then from.stamp else to.stamp)
  }

  /** One price of a side: number of orders and open quantity. */
  datatype Row = Row(price: nat, count: nat, qty: nat)

  // ---- The rows of a side ----

  ghost predicate Ordered(bid: bool, rows: seq<Row>, i: nat, j: nat)
    requires i < |rows| && j < |rows|
  {
    Better(bid, rows[i].price, rows[j].price)
  }

  ghost predicate Ranked(bid: bool, rows: seq<Row>) {
    && (forall i :: 0 <= i < |rows| ==> rows[i].price != INVALID && rows[i].qty < WORD)
    && (forall i, j :: 0 <= i < j < |rows| ==> Ordered(bid, rows, i, j))
  }

  /** How many rows are strictly better than a price. */
  ghost function Place(bid: bool, rows: seq<Row>, price: nat): (p: nat)
    ensures p <= |rows|
  {
    if rows == [] || !Better(bid, rows[0].price, price) then 0 else 1 + Place(bid, rows[1..], price)
  }

  ghost predicate HasRow(bid: bool, rows: seq<Row>, price: nat) {
    Place(bid, rows, price) < |rows| && rows[Place(bid, rows, price)].price == price
  }

  lemma {:induction false} PlaceSplits(bid: bool, rows: seq<Row>, price: nat)
    requires Ranked(bid, rows)
    ensures forall i :: 0 <= i < Place(bid, rows, price) ==> Better(bid, rows[i].price, price)
    ensures forall i :: Place(bid, rows, price) <= i < |rows| ==> !Better(bid, rows[i].price, price)
    ensures forall i :: 0 <= i < |rows| && rows[i].price == price ==> i == Place(bid, rows, price)
  {
    if rows != [] {
      if Better(bid, rows[0].price, price) {
        RankedRest(bid, rows);
        PlaceSplits(bid, rows[1..], price);
        assert forall i {:trigger rows[i]} :: 1 <= i < |rows| ==> rows[i] == rows[1..][i - 1];
      } else {
        forall i | 0 <= i < |rows| ensures !Better(bid, rows[i].price, price) && (rows[i].price == price ==> i == 0) {
          assert i > 0 ==> Ordered(bid, rows, 0, i);
        }
      }
    }
  }

  lemma RankedRest(bid: bool, rows: seq<Row>)
    requires Ranked(bid, rows) && rows != []
    ensures Ranked(bid, rows[1..])
  {
    forall i, j | 0 <= i < j < |rows[1..]|
      ensures Ordered(bid, rows[1..], i, j)
    {
      assert Ordered(bid, rows, i + 1, j + 1);
    }
  }

  /** The rows with a row for the price, a new empty one if there was none. */
  ghost function WithRow(bid: bool, rows: seq<Row>, price: nat): seq<Row> {
    if HasRow(bid, rows, price) then rows else InsertAt(rows, Place(bid, rows, price), Row(price, 0, 0))
  }

  lemma {:induction false} WithRowRanked(bid: bool, rows: seq<Row>, price: nat)
    requires Ranked(bid, rows) && price != INVALID
    ensures Ranked(bid, WithRow(bid, rows, price))
    ensures Place(bid, WithRow(bid, rows, price), price) == Place(bid, rows, price)
    ensures HasRow(bid, WithRow(bid, rows, price), price)
  {
    PlaceSplits(bid, rows, price);
    var u, p := WithRow(bid, rows, price), Place(bid, rows, price);
    if !HasRow(bid, rows, price) {
      forall i, j | 0 <= i < j < |u| ensures Ordered(bid, u, i, j) {
        if i != p && j != p { assert Ordered(bid, rows, if i < p then i else i - 1, if j < p then j else j - 1); }
      }
    }
    PlaceSplits(bid, u, price);
    assert u[p].price == price;
  }

  /** One more order at a price. */
  ghost function Raised(bid: bool, rows: seq<Row>, price: nat, qty: nat): seq<Row> {
    var u, p := WithRow(bid, rows, price), Place(bid, rows, price);
    if p < |u| then u[p := u[p].(count := u[p].count + 1, qty := Wrap(u[p].qty + qty))] else u
  }

  /** What comes of closing an order of a level: the level goes, it stays, or an exception is thrown. */
  datatype Closing = Erased | Stays | CountTooLow | QtyTooLow

  function ClosingOf(row: Row, qty: nat): Closing {
    if row.count == 0 then CountTooLow
    else if row.count == 1 then Erased
    else if qty <= row.qty then Stays
    else QtyTooLow
  }

  /** The rows after an order has been closed; the count goes down before the quantity is looked at. */
  ghost function Closed(rows: seq<Row>, p: nat, qty: nat): seq<Row>
    requires p < |rows|
  {
    var row := rows[p];
    match ClosingOf(row, qty)
    case Erased => RemoveAt(rows, p)
    case Stays => rows[p := row.(count := row.count - 1, qty := row.qty - qty)]
    case QtyTooLow => rows[p := row.(count := row.count - 1)]
    case CountTooLow => rows
  }

  /** A change of the quantity of the row at a position. */
  ghost function Adjusted(rows: seq<Row>, p: nat, delta: int): seq<Row>
    requires p < |rows|
  {
    rows[p := rows[p].(qty := Wrap(rows[p].qty + delta))]
  }

  lemma SamePricesRanked(bid: bool, rows: seq<Row>, u: seq<Row>)
    requires Ranked(bid, rows) && |u| == |rows| && forall i :: 0 <= i < |u| ==>
      u[i].price == rows[i].price && u[i].qty < WORD
    ensures Ranked(bid, u)
  {
    forall i, j | 0 <= i < j < |u| ensures Ordered(bid, u, i, j) { assert Ordered(bid, rows, i, j); }
  }

  lemma RemovedRanked(bid: bool, rows: seq<Row>, p: nat)
    requires Ranked(bid, rows) && p < |rows|
    ensures Ranked(bid, RemoveAt(rows, p))
  {
    var u := RemoveAt(rows, p);
    forall i, j | 0 <= i < j < |u| ensures Ordered(bid, u, i, j) {
      assert Ordered(bid, rows, if i < p then i else i + 1, if j < p then j else j + 1);
    }
  }

  // ---- What window and excess say about the rows ----

  function Content(l: DepthLevel): Row {
    Row(l.price, l.count, l.qty)
  }

  /**
    * A blank level at position `i`. The first one of a side may hold a quantity: a change at a bid
    * price that is nowhere is written into the first ask level even if there are no asks.
    */
  function Blank(l: DepthLevel, i: nat): Row {
    Row(INVALID, 0, if i == 0 then l.qty else 0)
  }

  /** The window shows the best rows in order, and blanks after the last. */
  ghost predicate Shows(s: seq<DepthLevel>, rows: seq<Row>) {
    forall i :: 0 <= i < |s| ==>
      !s[i].excess && s[i].qty < WORD && Content(s[i]) == if i < |rows| then rows[i] else Blank(s[i], i)
  }

  /** The excess holds exactly the rows that do not fit in the window. */
  ghost predicate Overflow(m: map<nat, DepthLevel>, rows: seq<Row>, size: nat) {
    && (forall i :: size <= i < |rows| ==>
        rows[i].price in m && m[rows[i].price].excess && Content(m[rows[i].price]) == rows[i])
    && (forall p :: p in m ==> exists i :: size <= i < |rows| && rows[i].price == p)
  }

  ghost predicate SideHolds(bid: bool, s: seq<DepthLevel>, m: map<nat, DepthLevel>, rows: seq<Row>) {
    Ranked(bid, rows) && Shows(s, rows) && Overflow(m, rows, |s|)
  }

  /** Every level of the window that is not what it was has a newer stamp. */
  ghost predicate Stamped(was: seq<DepthLevel>, now: seq<DepthLevel>, last: nat) {
    |now| == |was| && forall i :: 0 <= i < |now| ==> now[i] == was[i] || now[i].stamp > last
  }

  // ---- Making room for a level ----

  function Restamped(l: DepthLevel, from: DepthLevel, stamp: nat): DepthLevel {
    if from.price != INVALID then l.(stamp := stamp) else l
  }

  /** Level `j` of the window after a level for `price` has been put at `k` and those below shifted down. */
  function Pushed(w: seq<DepthLevel>, k: nat, j: nat, price: nat, stamp: nat): DepthLevel
    requires j < |w|
  {
    if j < k then w[j]
    else if j == k then Init(w[j], price, false)
    else Restamped(Copied(w[j], w[j - 1]), w[j - 1], stamp)
  }

  /** The excess after the last visible level, if it was in use, has been saved. */
  function Saved(w: seq<DepthLevel>, m: map<nat, DepthLevel>): map<nat, DepthLevel>
    requires w != []
  {
    var last := w[|w| - 1];
    if last.price == INVALID || last.price in m then m
    else m[last.price := Copied(DepthLevel(0, 0, 0, true, 0), last)]
  }

  lemma PushShows(w: seq<DepthLevel>, rows: seq<Row>, k: nat, price: nat, stamp: nat, u: seq<DepthLevel>)
    requires Shows(w, rows) && k < |w| && k < |rows|
    requires |u| == |w| && forall j :: 0 <= j < |u| ==> u[j] == Pushed(w, k, j, price, stamp)
    ensures Shows(u, InsertAt(rows, k, Row(price, 0, 0)))
  {
    forall j | 0 <= j < |u|
      ensures !u[j].excess && u[j].qty < WORD
      ensures Content(u[j]) == if j < |rows| + 1 then InsertAt(rows, k, Row(price, 0, 0))[j] else Blank(u[j], j)
    {
      assert u[j] == Pushed(w, k, j, price, stamp);
      if j > k { assert !w[j - 1].excess && !w[j].excess; }
    }
  }

  lemma PushOverflows(bid: bool, w: seq<DepthLevel>, m: map<nat, DepthLevel>, rows: seq<Row>, k: nat, price: nat)
    requires SideHolds(bid, w, m, rows) && k < |w| && k < |rows| && price != INVALID
    ensures Overflow(Saved(w, m), InsertAt(rows, k, Row(price, 0, 0)), |w|)
  {
    var u, n, size := InsertAt(rows, k, Row(price, 0, 0)), Saved(w, m), |w|;
    var last := w[size - 1];
    assert Content(last) == if size - 1 < |rows| then rows[size - 1] else Blank(last, size - 1);
    forall i | size <= i < |rows| ensures rows[i].price != last.price { assert Ordered(bid, rows, size - 1, i); }
    forall i | size <= i < |u|
      ensures u[i].price in n && n[u[i].price].excess && Content(n[u[i].price]) == u[i]
    {
      assert u[i] == rows[i - 1];
      if i - 1 >= size { assert Ordered(bid, rows, size - 1, i - 1); }
    }
    forall p | p in n ensures exists i :: size <= i < |u| && u[i].price == p {
      if p in m {
        var i :| size <= i < |rows| && rows[i].price == p;
        assert u[i + 1] == rows[i];
      } else {
        assert u[size] == rows[size - 1];
      }
    }
  }

  lemma PushStamps(bid: bool, w: seq<DepthLevel>, rows: seq<Row>, k: nat, price: nat, last: nat, u: seq<DepthLevel>)
    requires Ranked(bid, rows) && Shows(w, rows) && k < |w| && k < |rows|
    requires |u| == |w| && forall j :: 0 <= j < |u| ==> u[j] == Pushed(w, k, j, price, last + 1)
    ensures forall j :: 0 <= j < |u| && j != k ==> u[j] == w[j] || u[j].stamp > last
  {
    forall j | 0 <= j < |u| && j != k ensures u[j] == w[j] || u[j].stamp > last {
      assert u[j] == Pushed(w, k, j, price, last + 1);
      if j > k {
        assert Content(w[j - 1]) == if j - 1 < |rows| then rows[j - 1] else Blank(w[j - 1], j - 1);
        assert Content(w[j]) == if j < |rows| then rows[j] else Blank(w[j], j);
      }
    }
  }

  // ---- Closing the gap of an erased level ----

  /** Level `j` of the window after the level at `k` has been overwritten by those below it, the last one aside. */
  function Pulled(w: seq<DepthLevel>, k: nat, j: nat, stamp: nat): DepthLevel
    requires j + 1 < |w|
  {
    if j < k || (j > k && w[j].price == INVALID) then w[j] else Copied(w[j], w[j + 1]).(stamp := stamp)
  }

  /** The last level after an erasure: as it was, restored from the excess, or blank. */
  function Restored(w: seq<DepthLevel>, k: nat, best: Spare, stamp: nat): DepthLevel
    requires k < |w|
  {
    var last := w[|w| - 1];
    if k != |w| - 1 && last.price == INVALID then last
    else match best
      case Found(l) => Copied(last, l).(stamp := stamp)
      case Missing => Init(last, INVALID, false).(stamp := stamp)
  }

  datatype Spare = Found(level: DepthLevel) | Missing

  /** The best level of the excess. */
  ghost predicate BestSpare(m: map<nat, DepthLevel>, rows: seq<Row>, size: nat, best: Spare) {
    best == if size < |rows| && rows[size].price in m then Found(m[rows[size].price]) else Missing
  }

  ghost predicate Erasing(w: seq<DepthLevel>, k: nat, best: Spare, stamp: nat, u: seq<DepthLevel>) {
    && k < |w| == |u|
    && (forall j :: 0 <= j < |u| - 1 ==> u[j] == Pulled(w, k, j, stamp))
    && u[|u| - 1] == Restored(w, k, best, stamp)
  }

  lemma PullShows(bid: bool, w: seq<DepthLevel>, m: map<nat, DepthLevel>, rows: seq<Row>, k: nat, best: Spare,
                  stamp: nat, u: seq<DepthLevel>)
    requires SideHolds(bid, w, m, rows) && k < |rows| && BestSpare(m, rows, |w|, best) && Erasing(w, k, best, stamp, u)
    ensures Shows(u, RemoveAt(rows, k))
  {
    var r, size := RemoveAt(rows, k), |w|;
    forall j | 0 <= j < size
      ensures !u[j].excess && u[j].qty < WORD && Content(u[j]) == if j < |r| then r[j] else Blank(u[j], j)
    {
      assert !w[j].excess && w[j].qty < WORD && Content(w[j]) == if j < |rows| then rows[j] else Blank(w[j], j);
      if j + 1 < size {
        assert u[j] == Pulled(w, k, j, stamp);
        assert w[j + 1].qty < WORD;
        assert Content(w[j + 1]) == if j + 1 < |rows| then rows[j + 1] else Blank(w[j + 1], j + 1);
      }
    }
  }

  lemma PullOverflows(bid: bool, w: seq<DepthLevel>, m: map<nat, DepthLevel>, rows: seq<Row>, k: nat)
    requires SideHolds(bid, w, m, rows) && k < |w| && k < |rows|
    ensures Overflow(if |w| < |rows| then m - {rows[|w|].price} else m, RemoveAt(rows, k), |w|)
    ensures |w| < |rows| ==> w[|w| - 1].price != INVALID && rows[|w|].price in m
    ensures |w| >= |rows| ==> m == map[]
  {
    var r, size := RemoveAt(rows, k), |w|;
    assert Content(w[size - 1]) == if size - 1 < |rows| then rows[size - 1] else Blank(w[size - 1], size - 1);
    if size < |rows| {
      var n := m - {rows[size].price};
      forall i | size <= i < |r| ensures r[i].price in n && n[r[i].price].excess && Content(n[r[i].price]) == r[i] {
        assert r[i] == rows[i + 1] && Ordered(bid, rows, size, i + 1);
      }
      forall p | p in n ensures exists i :: size <= i < |r| && r[i].price == p {
        var i :| size <= i < |rows| && rows[i].price == p;
        assert r[i - 1] == rows[i];
      }
    } else {
      assert m.Keys == {} by {
        forall p ensures p !in m {}
      }
    }
  }

  lemma PullStamps(w: seq<DepthLevel>, rows: seq<Row>, bid: bool, m: map<nat, DepthLevel>, k: nat, best: Spare,
                   stamp: nat, u: seq<DepthLevel>, last: nat)
    requires SideHolds(bid, w, m, rows) && k < |rows| && Erasing(w, k, best, stamp, u) && stamp > last
    ensures Stamped(w, u, last)
  {
    forall j | 0 <= j < |u| ensures u[j] == w[j] || u[j].stamp > last {
      if j < |u| - 1 { assert u[j] == Pulled(w, k, j, stamp); }
    }
  }

  lemma StampedChain(a: seq<DepthLevel>, b: seq<DepthLevel>, c: seq<DepthLevel>, last: nat, mid: nat)
    requires Stamped(a, b, last) && Stamped(b, c, mid) && last <= mid
    ensures Stamped(a, c, last)
  {
  }

  /** The first key of the excess map. */
  predicate IsBest(bid: bool, m: map<nat, DepthLevel>, b: nat) {
    b in m && forall q :: q in m ==> !Better(bid, q, b)
  }

  // ---- What the operations on the window find and leave ----

  lemma {:induction false} Inserted(isBid: bool, rows: seq<Row>, price: nat)
    requires Ranked(isBid, rows) && price != INVALID && !HasRow(isBid, rows, price)
    ensures Ranked(isBid, InsertAt(rows, Place(isBid, rows, price), Row(price, 0, 0)))
  {
    WithRowRanked(isBid, rows, price);
  }

  lemma ShownAt(w: seq<DepthLevel>, rows: seq<Row>, k: nat)
    requires Shows(w, rows) && k < |w|
    ensures !w[k].excess && w[k].qty < WORD && Content(w[k]) == if k < |rows| then rows[k] else Blank(w[k], k)
  {
  }

  /** What the search has found at position `k` of the window. */
  lemma {:induction false} Landing(isBid: bool, w: seq<DepthLevel>, rows: seq<Row>, k: nat, price: nat)
    requires Ranked(isBid, rows) && Shows(w, rows) && k < |w| && price != INVALID && k == Place(isBid, rows, price)
    ensures w[k].price == price <==> HasRow(isBid, rows, price)
    ensures w[k].price == INVALID <==> k == |rows|
    ensures k <= |rows|
  {
    ShownAt(w, rows, k);
  }

  lemma {:induction false} BlankFilled(isBid: bool, w: seq<DepthLevel>, rows: seq<Row>, m: map<nat, DepthLevel>, k: nat,
                                       price: nat)
    requires SideHolds(isBid, w, m, rows) && k < |w| && k == Place(isBid, rows, price) == |rows| && price != INVALID
    ensures SideHolds(isBid, w[k := Init(w[k], price, false)], m, InsertAt(rows, k, Row(price, 0, 0)))
  {
    WithRowRanked(isBid, rows, price);
    ShownAt(w, rows, k);
  }

  lemma {:induction false} SpareKnown(isBid: bool, w: seq<DepthLevel>, m: map<nat, DepthLevel>, rows: seq<Row>,
                                      price: nat)
    requires SideHolds(isBid, w, m, rows) && price != INVALID
    ensures price in m ==> HasRow(isBid, rows, price) && WithRow(isBid, rows, price) == rows
    ensures HasRow(isBid, rows, price) && Place(isBid, rows, price) >= |w| ==> price in m
  {
    PlaceSplits(isBid, rows, price);
    if price in m {
      var i :| |w| <= i < |rows| && rows[i].price == price;
      assert i == Place(isBid, rows, price);
    }
  }

  lemma {:induction false} SpareMade(isBid: bool, w: seq<DepthLevel>, m: map<nat, DepthLevel>, rows: seq<Row>,
                                     price: nat)
    requires SideHolds(isBid, w, m, rows) && price != INVALID && price !in m && Place(isBid, rows, price) >= |w|
    ensures SideHolds(isBid, w, m[price := DepthLevel(price, 0, 0, true, 0)], WithRow(isBid, rows, price))
  {
    SpareKnown(isBid, w, m, rows, price);
    WithRowRanked(isBid, rows, price);
    var p, u, n := Place(isBid, rows, price), WithRow(isBid, rows, price), m[price := DepthLevel(price, 0, 0, true, 0)];
    PlaceSplits(isBid, rows, price);
    forall i | |w| <= i < |u| ensures u[i].price in n && n[u[i].price].excess && Content(n[u[i].price]) == u[i] {
      if i != p { assert u[i] == rows[if i < p then i else i - 1] && u[i].price != price; }
    }
    forall q | q in n ensures exists i :: |w| <= i < |u| && u[i].price == q {
      if q == price {
        assert u[p].price == price;
      } else {
        var i :| |w| <= i < |rows| && rows[i].price == q;
        assert u[if i < p then i else i + 1] == rows[i];
      }
    }
  }

  lemma RowRewritten(isBid: bool, w: seq<DepthLevel>, m: map<nat, DepthLevel>, rows: seq<Row>, p: nat, l: DepthLevel)
    requires SideHolds(isBid, w, m, rows) && p < |rows| && l.price == rows[p].price && l.qty < WORD
    requires (l.excess <==> p >= |w|)
    ensures p < |w| ==> SideHolds(isBid, w[p := l], m, rows[p := Content(l)])
    ensures p >= |w| ==> SideHolds(isBid, w, m[l.price := l], rows[p := Content(l)])
  {
    var u := rows[p := Content(l)];
    SamePricesRanked(isBid, rows, u);
    var n := if p < |w| then m else m[l.price := l];
    forall i | |w| <= i < |u| ensures u[i].price in n && n[u[i].price].excess && Content(n[u[i].price]) == u[i] {
      assert i < p ==> Ordered(isBid, rows, i, p);
      assert p < i ==> Ordered(isBid, rows, p, i);
    }
    forall q | q in n ensures exists i :: |w| <= i < |u| && u[i].price == q {
      assert q in m;
      var i :| |w| <= i < |rows| && rows[i].price == q;
      assert u[i].price == q;
    }
  }

  lemma {:induction false} RowIsThere(isBid: bool, rows: seq<Row>, price: nat)
    requires Ranked(isBid, rows) && price != INVALID
    ensures var p := Place(isBid, rows, price);
      p < |WithRow(isBid, rows, price)| && WithRow(isBid, rows, price)[p].price == price
  {
    WithRowRanked(isBid, rows, price);
  }

  lemma {:induction false} RowAt(isBid: bool, rows: seq<Row>, price: nat)
    requires HasRow(isBid, rows, price)
    ensures Place(isBid, rows, price) < |rows| && rows[Place(isBid, rows, price)].price == price
  {
  }

  lemma Gone(isBid: bool, rows: seq<Row>, p: nat)
    requires Ranked(isBid, rows) && p < |rows|
    ensures Ranked(isBid, RemoveAt(rows, p))
  {
    RemovedRanked(isBid, rows, p);
  }

  lemma SpareErased(isBid: bool, w: seq<DepthLevel>, m: map<nat, DepthLevel>, rows: seq<Row>, p: nat)
    requires SideHolds(isBid, w, m, rows) && |w| <= p < |rows|
    ensures SideHolds(isBid, w, m - {rows[p].price}, RemoveAt(rows, p))
  {
    RemovedRanked(isBid, rows, p);
    var u, n := RemoveAt(rows, p), m - {rows[p].price};
    forall i | |w| <= i < |u| ensures u[i].price in n && n[u[i].price].excess && Content(n[u[i].price]) == u[i] {
      assert i < p ==> Ordered(isBid, rows, i, p);
      assert i >= p ==> Ordered(isBid, rows, p, i + 1);
    }
    forall q | q in n ensures exists i :: |w| <= i < |u| && u[i].price == q {
      var i :| |w| <= i < |rows| && rows[i].price == q;
      assert u[if i < p then i else i - 1] == rows[i];
    }
  }

  lemma LastWritten(a: seq<DepthLevel>, size: nat, isBid: bool, l: DepthLevel)
    requires size > 0 && |a| == 2 * size
    ensures var last := (if isBid then 0 else size) + size - 1; var b := a[last := l];
      && Half(b, size, isBid) == Half(a, size, isBid)[size - 1 := l] && Half(b, size, !isBid) == Half(a, size, !isBid)
      && a[last] == Half(a, size, isBid)[size - 1]
  {
    var b := a[(if isBid then 0 else size) + size - 1 := l];
    var other := !isBid;
    var x, y := Half(b, size, other), Half(a, size, other);
    assert forall i :: 0 <= i < size ==> x[i] == y[i];
  }

  /** The best price of the excess is that of the first row that does not fit. */
  lemma SpareBest(isBid: bool, w: seq<DepthLevel>, m: map<nat, DepthLevel>, rows: seq<Row>)
    requires SideHolds(isBid, w, m, rows)
    ensures m != map[] <==> |w| < |rows|
    ensures |w| < |rows| ==> rows[|w|].price in m && IsBest(isBid, m, rows[|w|].price)
    ensures |w| < |rows| ==> forall b :: IsBest(isBid, m, b) ==> b in m && b == rows[|w|].price
  {
    if |w| < |rows| {
      forall q | q in m ensures q == rows[|w|].price || Better(isBid, rows[|w|].price, q) {
        var i :| |w| <= i < |rows| && rows[i].price == q;
        assert i > |w| ==> Ordered(isBid, rows, |w|, i);
      }
      assert rows[|w|].price in m;
    } else {
      forall p ensures p !in m {}
    }
  }


  lemma NotStamped(w: seq<DepthLevel>, last: nat)
    ensures Stamped(w, w, last)
  {
  }

  lemma BlankRewritten(isBid: bool, w: seq<DepthLevel>, m: map<nat, DepthLevel>, l: DepthLevel)
    requires SideHolds(isBid, w, m, []) && w != [] && Content(l) == Blank(l, 0) && !l.excess && l.qty < WORD
    ensures SideHolds(isBid, w[0 := l], m, [])
  {
  }

  // ---- What the operations do to each price ----

  /** The row of a price, an empty one if the price is not on the side. */
  ghost function PriceRow(bid: bool, rows: seq<Row>, price: nat): (r: Row)
    ensures r.price == price
  {
    if HasRow(bid, rows, price) then rows[Place(bid, rows, price)] else Row(price, 0, 0)
  }

  lemma PriceRowAt(bid: bool, rows: seq<Row>, i: nat)
    requires Ranked(bid, rows) && i < |rows|
    ensures HasRow(bid, rows, rows[i].price) && PriceRow(bid, rows, rows[i].price) == rows[i]
  {
    PlaceSplits(bid, rows, rows[i].price);
  }

  lemma PriceRowNone(bid: bool, rows: seq<Row>, price: nat)
    requires Ranked(bid, rows) && forall i :: 0 <= i < |rows| ==> rows[i].price != price
    ensures !HasRow(bid, rows, price) && PriceRow(bid, rows, price) == Row(price, 0, 0)
  {
  }

  /** The row at a position rewritten without a change of its price. */
  lemma RewrittenRow(bid: bool, rows: seq<Row>, p: nat, row: Row, x: nat)
    requires Ranked(bid, rows) && p < |rows| && row.price == rows[p].price && row.qty < WORD
    ensures var u := rows[p := row];
      && Ranked(bid, u) && (HasRow(bid, u, x) <==> HasRow(bid, rows, x))
      && PriceRow(bid, u, x) == (if x == row.price then row else PriceRow(bid, rows, x))
  {
    var u := rows[p := row];
    SamePricesRanked(bid, rows, u);
    PriceRowAt(bid, u, p);
    PriceRowAt(bid, rows, p);
    if x != row.price {
      if HasRow(bid, rows, x) {
        PriceRowAt(bid, u, Place(bid, rows, x));
      } else {
        PlaceSplits(bid, rows, x);
        PriceRowNone(bid, u, x);
      }
    }
  }

  /** Making a row for a price changes the row of no price. */
  lemma WithRowSame(bid: bool, rows: seq<Row>, price: nat, x: nat)
    requires Ranked(bid, rows) && price != INVALID
    ensures PriceRow(bid, WithRow(bid, rows, price), x) == PriceRow(bid, rows, x)
    ensures x != price ==> (HasRow(bid, WithRow(bid, rows, price), x) <==> HasRow(bid, rows, x))
  {
    WithRowRanked(bid, rows, price);
    var p, u := Place(bid, rows, price), WithRow(bid, rows, price);
    if !HasRow(bid, rows, price) {
      PriceRowAt(bid, u, p);
      if x != price {
        if HasRow(bid, rows, x) {
          var q := Place(bid, rows, x);
          PriceRowAt(bid, u, if q < p then q else q + 1);
        } else {
          PlaceSplits(bid, rows, x);
          PriceRowNone(bid, u, x);
        }
      }
    }
  }

  /** An order added rewrites the row made for its price. */
  lemma {:induction false} RaisedAs(bid: bool, rows: seq<Row>, price: nat, qty: nat)
    requires Ranked(bid, rows) && price != INVALID
    ensures var u, p, r := WithRow(bid, rows, price), Place(bid, rows, price), PriceRow(bid, rows, price);
      && Ranked(bid, u) && HasRow(bid, u, price) && p < |u| && u[p] == r
      && Raised(bid, rows, price, qty) == u[p := Row(price, r.count + 1, Wrap(r.qty + qty))]
  {
    WithRowRanked(bid, rows, price);
    WithRowSame(bid, rows, price, price);
    RowAt(bid, WithRow(bid, rows, price), price);
    hide WithRow, Place, Ranked;
  }

  /** An order added changes the row of its price only. */
  lemma RaisedRow(bid: bool, rows: seq<Row>, price: nat, qty: nat, x: nat)
    requires Ranked(bid, rows) && price != INVALID
    ensures var u := Raised(bid, rows, price, qty); var r := PriceRow(bid, rows, price);
      && Ranked(bid, u)
      && PriceRow(bid, u, x)
        == (if x == price then Row(price, r.count + 1, Wrap(r.qty + qty)) else PriceRow(bid, rows, x))
      && HasRow(bid, u, price) && (x != price ==> (HasRow(bid, u, x) <==> HasRow(bid, rows, x)))
  {
    hide Raised, WithRow, Place, Ranked, PriceRow, HasRow;
    RaisedAs(bid, rows, price, qty);
    var r := PriceRow(bid, rows, price);
    var u, p, row := WithRow(bid, rows, price), Place(bid, rows, price), Row(price, r.count + 1, Wrap(r.qty + qty));
    RewrittenRow(bid, u, p, row, x);
    RewrittenRow(bid, u, p, row, price);
    WithRowSame(bid, rows, price, x);
  }

  lemma RemovedRow(bid: bool, rows: seq<Row>, p: nat, x: nat)
    requires Ranked(bid, rows) && p < |rows|
    ensures var u := RemoveAt(rows, p);
      && Ranked(bid, u) && (HasRow(bid, u, x) <==> x != rows[p].price && HasRow(bid, rows, x))
      && PriceRow(bid, u, x) == (if x == rows[p].price then Row(x, 0, 0) else PriceRow(bid, rows, x))
  {
    var u := RemoveAt(rows, p);
    RemovedRanked(bid, rows, p);
    if x == rows[p].price {
      forall i | 0 <= i < |u| ensures u[i].price != x {
        assert i < p ==> Ordered(bid, rows, i, p);
        assert i >= p ==> Ordered(bid, rows, p, i + 1);
      }
      PriceRowNone(bid, u, x);
    } else if HasRow(bid, rows, x) {
      var q := Place(bid, rows, x);
      PriceRowAt(bid, u, if q < p then q else q - 1);
    } else {
      PlaceSplits(bid, rows, x);
      PriceRowNone(bid, u, x);
    }
  }

  /** An order closed changes the row of its price only. */
  lemma {:induction false} ClosedRow(bid: bool, rows: seq<Row>, price: nat, qty: nat, x: nat)
    requires Ranked(bid, rows) && HasRow(bid, rows, price)
    ensures var p := Place(bid, rows, price); var u, r, c := Closed(rows, p, qty), rows[p], ClosingOf(rows[p], qty);
      && Ranked(bid, u)
      && (x != price ==> PriceRow(bid, u, x) == PriceRow(bid, rows, x))
      && (c == Erased ==> PriceRow(bid, u, price) == Row(price, 0, 0))
      && (c == Stays ==> PriceRow(bid, u, price) == Row(price, r.count - 1, r.qty - qty))
      && (c == QtyTooLow ==> PriceRow(bid, u, price) == Row(price, r.count - 1, r.qty))
  {
    hide Place;
    var p := Place(bid, rows, price);
    var r := rows[p];
    match ClosingOf(r, qty)
    case Erased =>
      RemovedRow(bid, rows, p, x);
      RemovedRow(bid, rows, p, price);
    case Stays =>
      RewrittenRow(bid, rows, p, r.(count := r.count - 1, qty := r.qty - qty), x);
      RewrittenRow(bid, rows, p, r.(count := r.count - 1, qty := r.qty - qty), price);
    case QtyTooLow =>
      RewrittenRow(bid, rows, p, r.(count := r.count - 1), x);
      RewrittenRow(bid, rows, p, r.(count := r.count - 1), price);
    case CountTooLow =>
  }

  /** Closing the order just added gives back the rows. */
  lemma {:induction false} CloseUndoesAdd(isBid: bool, rows: seq<Row>, price: nat, qty: nat)
    requires Ranked(isBid, rows) && price != INVALID
    requires (forall i :: 0 <= i < |rows| ==> rows[i].count > 0 && rows[i].qty + qty < WORD)
    ensures var u := Raised(isBid, rows, price, qty);
      qty < WORD ==> HasRow(isBid, u, price) && Closed(u, Place(isBid, u, price), qty) == rows
  {
    WithRowRanked(isBid, rows, price);
    var p, u, v := Place(isBid, rows, price), WithRow(isBid, rows, price), Raised(isBid, rows, price, qty);
    SamePricesRanked(isBid, u, v);
    PlaceSplits(isBid, v, price);
    assert v[p].price == price;
    if !HasRow(isBid, rows, price) {
      assert RemoveAt(v, p) == rows;
    }
  }

  // ---- Stamps, and the loops over the array ----

  /** The level below position `i` of the array. */
  function Below(a: seq<DepthLevel>, i: nat): DepthLevel
    requires i < |a|
  {
    if i + 1 < |a| then a[i + 1] else a[i]
  }

  /** Levels from `k` up to `c` hold what was one below them, unless they were blank, the rest what they held. */
  ghost predicate MovedTo(a: seq<DepthLevel>, b: seq<DepthLevel>, k: nat, c: nat, stamp: nat) {
    |b| == |a| && forall i :: 0 <= i < |b| ==>
      b[i] == if k <= i < c
        && (a[i].price != INVALID || i == k) then Copied(a[i], Below(a, i)).(stamp := stamp) else a[i]
  }

  lemma StartMove(a: seq<DepthLevel>, k: nat, stamp: nat)
    ensures MovedTo(a, a, k, k, stamp)
  {
  }

  lemma StillThere(a: seq<DepthLevel>, b: seq<DepthLevel>, k: nat, c: nat, stamp: nat)
    requires MovedTo(a, b, k, c, stamp) && c + 1 < |a|
    ensures |b| == |a| && b[c] == a[c] && b[c + 1] == a[c + 1]
  {
  }

  lemma MoveStep(a: seq<DepthLevel>, b: seq<DepthLevel>, n: seq<DepthLevel>, k: nat, c: nat, stamp: nat)
    requires MovedTo(a, b, k, c, stamp) && k <= c && c + 1 < |a| == |b| && b[c] == a[c] && b[c + 1] == a[c + 1]
    requires n == if b[c].price != INVALID || c == k then b[c := Copied(b[c], b[c + 1]).(stamp := stamp)] else b
    ensures MovedTo(a, n, k, c + 1, stamp)
  {
    assert Below(a, c) == a[c + 1];
  }

  lemma MovedWindow(a: seq<DepthLevel>, b: seq<DepthLevel>, isBid: bool, size: nat, k: nat, stamp: nat)
    requires |a| == 2 * size && k < size
    requires var lo := if isBid then 0 else size; MovedTo(a, b, lo + k, lo + size - 1, stamp)
    ensures |b| == |a| && Half(b, size, isBid)[size - 1] == Half(a, size, isBid)[size - 1]
    ensures forall j :: 0 <= j < size - 1 ==> Half(b, size, isBid)[j] == Pulled(Half(a, size, isBid), k, j, stamp)
    ensures Half(b, size, !isBid) == Half(a, size, !isBid)
  {
    hide MovedTo, Half, Copied;
    var lo, at := if isBid then 0 else size, if isBid then size else 0;
    var w, other := Half(a, size, isBid), !isBid;
    MovedAt(a, b, lo + k, lo + size - 1, stamp, lo + size - 1);
    forall j | 0 <= j < size - 1 ensures Half(b, size, isBid)[j] == Pulled(w, k, j, stamp) {
      MovedAt(a, b, lo + k, lo + size - 1, stamp, lo + j);
      assert Below(a, lo + j) == w[j + 1];
    }
    var x, y := Half(b, size, other), Half(a, size, other);
    forall i | 0 <= i < size ensures x[i] == y[i] { MovedAt(a, b, lo + k, lo + size - 1, stamp, at + i); }
  }

  lemma MovedAt(a: seq<DepthLevel>, b: seq<DepthLevel>, k: nat, c: nat, stamp: nat, i: nat)
    requires MovedTo(a, b, k, c, stamp) && i < |a|
    ensures |b| == |a|
    ensures b[i]
      == if k <= i < c && (a[i].price != INVALID || i == k) then Copied(a[i], Below(a, i)).(stamp := stamp) else a[i]
  {
  }

  lemma FirstStamped(w: seq<DepthLevel>, k: nat, best: Spare, stamp: nat, u: seq<DepthLevel>)
    requires Erasing(w, k, best, stamp, u)
    ensures u[k].stamp == stamp
  {
    if k < |u| - 1 { assert u[k] == Pulled(w, k, k, stamp); }
  }

  lemma EmptiedStamps(w: seq<DepthLevel>, x: seq<DepthLevel>, y: seq<DepthLevel>, p: nat, last: nat)
    requires |w| == |x| && (forall j :: 0 <= j < |w| && j != p ==> x[j] == w[j])
    requires if p < |x| then Stamped(x, y, last) && y[p].stamp > last else y == x
    ensures Stamped(w, y, last)
  {
  }

  lemma RewriteStamps(w: seq<DepthLevel>, y: seq<DepthLevel>, p: nat, l: DepthLevel, last: nat)
    requires y == if p < |w| then w[p := l] else w
    requires l.stamp > last
    ensures Stamped(w, y, last)
  {
  }

  lemma AddStamps(w: seq<DepthLevel>, x: seq<DepthLevel>, y: seq<DepthLevel>, p: nat, l: DepthLevel, last: nat)
    requires |w| == |x| && forall j :: 0 <= j < |w| && j != p ==> x[j] == w[j] || x[j].stamp > last
    requires y == if p < |x| then x[p := l] else x
    requires p < |x| ==> l.stamp > last
    ensures Stamped(w, y, last)
  {
  }

  lemma BothStamped(isBid: bool, w: seq<DepthLevel>, y: seq<DepthLevel>, v: seq<DepthLevel>, last: nat)
    requires Stamped(w, y, last)
    ensures Stamped(v, v, last)
    ensures Stamped(if isBid then w else v, if isBid then y else v, last)
    ensures Stamped(if isBid then v else w, if isBid then v else y, last)
  {
  }

  /** The level above position `i` of the array. */
  function Above(a: seq<DepthLevel>, i: nat): DepthLevel
    requires i < |a|
  {
    if i > 0 then a[i - 1] else a[i]
  }

  /** Levels after `c` and before `end` hold what was one above them, the rest what they held. */
  ghost predicate ShiftedFrom(a: seq<DepthLevel>, b: seq<DepthLevel>, c: nat, end: nat, stamp: nat) {
    |b| == |a| && forall i :: 0 <= i < |b| ==>
      b[i] == if c < i < end then Restamped(Copied(a[i], Above(a, i)), Above(a, i), stamp) else a[i]
  }

  lemma StartShift(a: seq<DepthLevel>, lo: nat, size: nat, stamp: nat)
    requires size > 0
    ensures ShiftedFrom(a, a, lo + size - 1, lo + size, stamp)
  {
  }

  lemma ShiftStep(a: seq<DepthLevel>, b: seq<DepthLevel>, c: seq<DepthLevel>, k: nat, end: nat, stamp: nat)
    requires ShiftedFrom(a, b, k + 1, end, stamp) && k + 1 < end <= |a|
    requires c == b[k + 1 := Restamped(Copied(b[k + 1], b[k]), b[k], stamp)]
    ensures ShiftedFrom(a, c, k, end, stamp)
  {
    assert Above(a, k + 1) == a[k];
  }

  /** The half of the array that belongs to a side. */
  function Half(a: seq<DepthLevel>, size: nat, isBid: bool): (w: seq<DepthLevel>)
    requires |a| == 2 * size
    ensures |w| == size
    ensures forall j {:trigger w[j]} :: 0 <= j < size ==> w[j] == a[if isBid then j else size + j]
  {
    if isBid then a[..size] else a[size..]
  }

  lemma ShiftedWindow(a: seq<DepthLevel>, b: seq<DepthLevel>, c: seq<DepthLevel>, isBid: bool, size: nat, k: nat,
                      price: nat, stamp: nat)
    requires |a| == 2 * size && k < size
    requires var lo := if isBid then 0 else size;
      ShiftedFrom(a, b, lo + k, lo + size, stamp) && c == b[lo + k := Init(b[lo + k], price, false)]
    ensures forall j :: 0 <= j < size ==> Half(c, size, isBid)[j] == Pushed(Half(a, size, isBid), k, j, price, stamp)
    ensures Half(c, size, !isBid) == Half(a, size, !isBid)
  {
    var lo := if isBid then 0 else size;
    var w := Half(a, size, isBid);
    forall j | 0 <= j < size ensures Half(c, size, isBid)[j] == Pushed(w, k, j, price, stamp) {
      if j > k { assert Above(a, lo + j) == w[j - 1]; }
    }
    var other := !isBid;
    var x, y := Half(c, size, other), Half(a, size, other);
    assert forall i :: 0 <= i < size ==> x[i] == y[i];
  }
}
