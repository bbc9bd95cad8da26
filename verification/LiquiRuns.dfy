/** Calls on a new Liquibook order book in which a sum of quantities wraps. */
module LiquiRuns {
  import opened Orders
  import opened Matching
  import opened LiquiOrders
  import opened LiquiMatching
  import opened LiquiAons
  import opened LiquiSync
  import opened LiquiSteps
  import opened LiquiWraps
  import opened Liquibook

  // ---- Orders that come to a book without bids ----

  /** An order at the one price of these runs, as it comes in. */
  ghost predicate Priced(t: Tracker, buy: bool) {
    t.order.isBuy == buy && t.order.price == 100 && t.open == t.order.qty > 0 && !t.ioc
  }

  ghost predicate Asked(t: Tracker, q: nat, aon: bool) {
    Priced(t, false) && t.open == q && t.aon == aon
  }

  /** An ask queues behind the others when there are no bids. */
  lemma AskQueues(asks: seq<Tracker>, t: Tracker)
    requires Priced(t, false) && forall i :: 0 <= i < |asks| ==> asks[i].order.price == 100
    ensures Joining([], asks, t) == Joined([], asks + [t], [], false, {}, true)
    ensures Outcomes([], asks, t).bids == [] && Outcomes([], asks, t).asks == asks + [t]
  {
    hide Aon, UpperBound;
    AtEnd(asks, 100);
    assert asks[..|asks|] == asks && asks[|asks|..] == [];
    NothingThere(t);
  }

  lemma NothingThere(t: Tracker)
    requires t.open > 0
    ensures MatchOf([], t) == Pass([], t, [], []) && Defined([], t) && !Hits([], t) && LostOf([], t) == {}
  {
    if t.aon {
      WalkEnds([], t, Start([]));
      assert t.(open := t.open - 0) == t;
    }
  }

  lemma {:induction false} AtEnd(asks: seq<Tracker>, price: nat)
    requires forall i :: 0 <= i < |asks| ==> asks[i].order.price == price
    ensures UpperBound(false, asks, price) == |asks|
  {
    if asks != [] { AtEnd(asks[1..], price); }
  }

  /** What becomes of an all-or-none bid that passes over no order. */
  lemma BidComes(asks: seq<Tracker>, t: Tracker, st: Seek)
    requires Priced(t, true) && t.aon && st == Aon(asks, t) && st.e == [] && st.fate != Undefined
    ensures var c, drop := Reduce(asks, Leaving(asks, st.f, DropOf(asks, st))), DropOf(asks, st);
      var rest := if Sum(st.f) < t.open then [t.(open := t.open - Sum(st.f))] else [];
      && Joining([], asks, t) == Joined(c, rest, FillsOf(t.order, asks, st.f), st.hit, drop, true)
      && Outcomes([], asks, t).bids == rest && Outcomes([], asks, t).asks == c
  {
    hide Aon, Reduce, FillsOf, Leaving, Sum, DropOf;
    var i := t.(open := t.open - Sum(st.f));
    assert OrdersAt(asks, st.e) == [];
    assert Emplace(true, [], i) == [i];
    var fills := FillsOf(t.order, asks, st.f);
    assert fills + [] == fills;
  }

  /** The first of the orders is filled, or a part of it, and the others are not touched. */
  lemma FirstGives(asks: seq<Tracker>, f: seq<nat>)
    requires |f| == |asks| > 0 && f[0] == asks[0].open
    requires forall i :: 0 < i < |f| ==> f[i] == 0 < asks[i].open
    ensures Reduce(asks, f) == asks[1..]
  {
    NoneTaken(asks[1..], f[1..]);
  }

  /** A new book with asks of these quantities, at one price. */
  method AsksOf(qty: seq<nat>, aons: seq<bool>) returns (book: OrderBook)
    requires |qty| == |aons| && forall i :: 0 <= i < |qty| ==> 0 < qty[i] < WORD
    ensures fresh(book) && fresh(book.pool) && book.Valid() && book.bids == [] && book.lost == {}
    ensures |book.asks| == |qty| && forall i :: 0 <= i < |qty| ==> Asked(book.asks[i], qty[i], aons[i])
    ensures MarketSide(false, book.asks) && forall i :: 0 <= i < |qty| ==> book.asks[i].order in book.pool
  {
    hide OrderBook.Valid, Outcomes, Joining, FillTold, SafeIn, Secure, HeardAll;
    book := new OrderBook();
    var n := 0;
    while n < |qty|
      invariant n <= |qty| && fresh(book.pool) && book.Valid() && book.bids == [] && book.lost == {}
      invariant |book.asks| == n && forall i :: 0 <= i < n ==> Asked(book.asks[i], qty[i], aons[i])
      invariant forall i :: 0 <= i < n ==> book.asks[i].order in book.pool
    {
      var ask := new SimpleOrder(n, false, 100, qty[n]);
      AskQueues(book.asks, Tracker(ask, qty[n], aons[n], false));
      var matched, ok := book.Add(ask, aons[n], false);
      n := n + 1;
    }
    SidesOf(book);
  }

  lemma SidesOf(book: OrderBook)
    requires book.Valid()
    ensures MarketSide(false, book.asks)
  {
    hide MarketSide;
  }

  // ---- Left half filled ----

  /** Three asks, and an all-or-none bid that trades with the first of them and rests half filled. */
  method HalfFilledRun() returns (book: OrderBook, bid: SimpleOrder)
    ensures book.Valid() && bid.qty == 4294967295
    ensures book.bids == [Tracker(bid, 2147483647, true, false)] && |book.asks| == 2 && !Whole(book.bids)
  {
    hide OrderBook.Valid, Outcomes, Joining, FillTold, SafeIn, Secure, HeardAll;
    book := AsksOf([2147483648, 2147483653, 4294967290], [false, false, false]);
    bid := new SimpleOrder(4, true, 100, 4294967295);
    BidHalfFilled(book.asks, Tracker(bid, 4294967295, true, false));
    var matched, ok := book.Add(bid, true, false);
    assert book.bids[0] in book.bids;
  }

  lemma BidHalfFilled(asks: seq<Tracker>, t: Tracker)
    requires Wrapping(asks, t) && Priced(t, true) && t.aon
    ensures Joining([], asks, t).defined
    ensures Outcomes([], asks, t).bids == [t.(open := 2147483647)] && Outcomes([], asks, t).asks == asks[1..]
  {
    hide Aon, Reduce, Outcomes, Joining;
    HalfFilled(asks, t);
    BidComes(asks, t, Aon(asks, t));
    FirstGives(asks, [2147483648, 0, 0]);
  }

  /** Four asks, each at most one unit too large for an all-or-none bid of `q`, which rests with one unit. */
  method OneShortRun(q: nat) returns (book: OrderBook, bid: SimpleOrder)
    requires 3 <= q <= WORD / 2 + 1
    ensures book.Valid() && bid.qty == q && book.bids == [Tracker(bid, 1, true, false)] && !Whole(book.bids)
    ensures |book.asks| == 3 && forall i :: 0 <= i < 3 ==> book.asks[i].open + q <= WORD + 1
  {
    hide OrderBook.Valid, Outcomes, Joining, FillTold, SafeIn, Secure, HeardAll;
    book := AsksOf([q - 1, WORD + 1 - q, 1, WORD + 1 - q], [false, false, false, false]);
    bid := new SimpleOrder(4, true, 100, q);
    BidOneShort(book.asks, Tracker(bid, q, true, false));
    var matched, ok := book.Add(bid, true, false);
    assert book.bids[0] in book.bids;
  }

  lemma BidOneShort(asks: seq<Tracker>, t: Tracker)
    requires OneOver(asks, t) && Priced(t, true) && t.aon
    ensures Joining([], asks, t).defined
    ensures Outcomes([], asks, t).bids == [t.(open := 1)] && Outcomes([], asks, t).asks == asks[1..]
  {
    hide Aon, Reduce, Outcomes, Joining;
    OneShort(asks, t);
    BidComes(asks, t, Aon(asks, t));
    FirstGives(asks, [t.open - 1, 0, 0, 0]);
  }

  // ---- Dropped ----

  /**
    * Four asks, the last of them all-or-none and as large as an all-or-none bid: it gives the bid its
    * last 8 units and leaves the book, although its order stands with the rest.
    */
  method DroppedRun() returns (book: OrderBook, bid: SimpleOrder, last: SimpleOrder)
    ensures book.Valid() && book.bids == [] && |book.asks| == 2 && book.lost == {last}
    ensures last.qty == 2147483658 && Standing(last, last.View()) && Nowhere(book.asks, last)
    ensures book.told != [] && book.told[|book.told| - 1] == Filled(bid.id, last.id, 8, 800)
  {
    hide OrderBook.Valid, Outcomes, Joining, FillTold, SafeIn, Secure, HeardAll, Standing, Nowhere;
    book := AsksOf([2147483650, 2147483650, 2147483654, 2147483658], [false, false, false, true]);
    last := book.asks[3].order;
    bid := new SimpleOrder(4, true, 100, 2147483658);
    BidDrops(book.asks, Tracker(bid, 2147483658, true, false));
    var matched, ok := book.Add(bid, true, false);
    book.StandsIfHeld(last);
  }

  /** With an ordinary order in the place of the last, the bid is matched through an erased entry. */
  method UndefinedRun() returns (ok: bool)
    ensures !ok
  {
    hide OrderBook.Valid, Outcomes, Joining, FillTold, SafeIn, Secure, HeardAll;
    var book := AsksOf([2147483650, 2147483650, 2147483654, 2147483658], [false, false, false, false]);
    var bid := new SimpleOrder(4, true, 100, 2147483658);
    BidReadsErased(book.asks, Tracker(bid, 2147483658, true, false));
    var matched;
    matched, ok := book.Add(bid, true, false);
  }

  lemma BidReadsErased(asks: seq<Tracker>, t: Tracker)
    requires InVain(asks, t) && !asks[3].aon && t.order.isBuy && t.aon
    ensures !Joining([], asks, t).defined
  {
    hide Aon, MatchOf, Hits;
    ErasedIsRead(asks, t);
  }

  /** The last two of the callbacks that the bid brings about. */
  lemma BidDrops(asks: seq<Tracker>, t: Tracker)
    requires InVain(asks, t) && asks[3].aon && asks[3].order.price == 100 && MarketSide(false, asks)
    requires Priced(t, true) && t.aon
    ensures Joining([], asks, t).defined && Joining([], asks, t).lost == {asks[3].order}
    ensures var r := Outcomes([], asks, t); r.bids == [] && r.asks == asks[1..3]
    ensures var h := HeardAll(Outcomes([], asks, t).cbs);
      h != [] && h[|h| - 1] == Filled(t.order.id, asks[3].order.id, 8, 800)
  {
    hide Aon, Reduce, FillsOf, HeardAll, MarketSide, Leaving;
    LastIsDropped(asks, t);
    var st := Aon(asks, t);
    DroppedFills(asks, t.order, st.f);
    DroppedSide(asks, st);
    BidComes(asks, t, st);
    var fill := OnFill(t.order, asks[3].order, 8, 100);
    var first := OnFill(t.order, asks[0].order, 2147483650, asks[0].order.price);
    LastHeard([OnAccept(t.order), first], fill);
    assert [OnAccept(t.order)] + [first, fill] + [] + [OnBookUpdate]
      == [OnAccept(t.order), first] + [fill, OnBookUpdate];
  }

  lemma DroppedSide(asks: seq<Tracker>, st: Seek)
    requires |asks| == 4 && MarketSide(false, asks) && st.f == [2147483650, 0, 0, 8] && st.k == 4 && st.fate == Dropped
    requires asks[0].open == 2147483650
    ensures DropOf(asks, st) == {asks[3].order} && Reduce(asks, Leaving(asks, st.f, {asks[3].order})) == asks[1..3]
    ensures Sum(st.f) == 2147483658
  {
    hide MarketSide, Reduce;
    AllOthers(false, asks, st.f, 3);
    var g := Leaving(asks, st.f, {asks[3].order});
    AllOpenSide(false, asks);
    ReduceTwice(asks, g);
    NoSum([0, 0, 0]);
    assert [2147483650, 0, 0, 0][1..] == [0, 0, 0];
    SumStep([2147483650, 0, 0, 0], 3, 8);
    assert [2147483650, 0, 0, 0][3 := 8] == st.f;
  }

  /** The first and the last of the side give all they have, and the two between give nothing. */
  lemma ReduceTwice(s: seq<Tracker>, g: seq<nat>)
    requires |s| == |g| == 4 && g[0] == s[0].open && g[3] == s[3].open
    requires g[1] == g[2] == 0 < s[1].open && s[2].open > 0
    ensures Reduce(s, g) == s[1..3]
  {
    assert s[1..][1..][1..][1..] == [];
    assert Reduce(s[1..][1..][1..], g[1..][1..][1..]) == [];
    assert Reduce(s[1..][1..], g[1..][1..]) == [s[2]];
    assert Reduce(s[1..], g[1..]) == [s[1], s[2]];
  }

  lemma DroppedFills(s: seq<Tracker>, x: SimpleOrder, f: seq<nat>)
    requires |s| == 4 && f == [2147483650, 0, 0, 8]
    ensures FillsOf(x, s, f)
      == [OnFill(x, s[0].order, 2147483650, s[0].order.price), OnFill(x, s[3].order, 8, s[3].order.price)]
  {
    assert s[1..][1..][1..][1..] == [] && f[1..] == [0, 0, 8] && [0, 0, 8][1..] == [0, 8] && [0, 8][1..] == [8];
    assert FillsOf(x, s[1..][1..][1..], [8]) == [OnFill(x, s[3].order, 8, s[3].order.price)];
    assert FillsOf(x, s[1..][1..], [0, 8]) == FillsOf(x, s[1..], [0, 0, 8]) == FillsOf(x, s[1..][1..][1..], [8]);
  }

  /** The listener hears of the fill last. */
  lemma LastHeard(cbs: seq<Callback>, fill: Callback)
    requires fill.OnFill?
    ensures var h := HeardAll(cbs + [fill, OnBookUpdate]); h != [] && [h[|h| - 1]] == Heard(fill)
  {
    HeardTwo(cbs, fill);
    HeardTwo(cbs + [fill], OnBookUpdate);
    assert cbs + [fill] + [OnBookUpdate] == cbs + [fill, OnBookUpdate];
  }
}
