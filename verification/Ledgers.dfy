/**
  * The fills the listener is told of are the fills the orders record: over every run, what a
  * live order has filled and what it has cost are the totals told under its id since it was
  * last accepted.
  */
module Ledgers {
  import opened Orders
  import opened Queues
  import opened Matching
  import opened Books
  import opened BookLaws

  /** Quantity and wrapping cost traded under an id. */
  datatype Tally = Tally(filled: nat, cost: nat)

  /** What an event adds to the account of an id; acceptance opens it anew. */
  ghost function Post(t: Tally, e: Event, id: nat): Tally {
    match e
    case Accepted(x) => if x == id then Tally(0, 0) else t
    case Filled(x, m, q, c) => if x == id || m == id then Tally(t.filled + q, Wrap(t.cost + c)) else t
    case _ => t
  }

  ghost function Account(log: seq<Event>, id: nat): Tally {
    if log == [] then Tally(0, 0) else Post(Account(log[..|log| - 1], id), log[|log| - 1], id)
  }

  ghost predicate Squares(log: seq<Event>, o: Order) {
    Account(log, o.id) == Tally(o.filled, o.cost)
  }

  ghost predicate Squared(log: seq<Event>, s: seq<Entry>) {
    forall e :: e in s ==> Squares(log, e.order)
  }

  ghost predicate Settled(b: Book) {
    Squared(b.log, b.bids) && Squared(b.log, b.asks) && Squared(b.log, b.stopBids) && Squared(b.log, b.stopAsks)
  }

  lemma AccountTold(log: seq<Event>, e: Event, id: nat)
    ensures Account(log + [e], id) == Post(Account(log, id), e, id)
  {
    assert (log + [e])[..|log|] == log;
  }

  /** The accounts of all other ids are as they were. */
  ghost predicate KeptApart(was: seq<Event>, now: seq<Event>, ids: set<nat>) {
    forall id :: id !in ids ==> Account(now, id) == Account(was, id)
  }

  lemma StillSquared(was: seq<Event>, now: seq<Event>, ids: set<nat>, s: seq<Entry>)
    requires Squared(was, s) && KeptApart(was, now, ids) && Ids(s) !! ids
    ensures Squared(now, s)
  {
    forall e | e in s ensures Squares(now, e.order) {
      assert Squares(was, e.order);
      var i :| 0 <= i < |s| && s[i] == e;
      assert s[i].order.id in Ids(s);
    }
  }

  /** A trade enters the accounts of its two orders and no other. */
  lemma TradePosted(log: seq<Event>, taker: Order, maker: Order, q: nat, c: nat)
    requires Squares(log, taker) && Squares(log, maker) && taker.id != maker.id
    ensures var now := log + [Filled(taker.id, maker.id, q, c)];
      Squares(now, taker.Fill(q, c)) && Squares(now, maker.Fill(q, c)) && KeptApart(log, now, {taker.id, maker.id})
  {
    forall id
      ensures Account(log + [Filled(taker.id, maker.id, q, c)], id)
        == Post(Account(log, id), Filled(taker.id, maker.id, q, c), id)
    {
      AccountTold(log, Filled(taker.id, maker.id, q, c), id);
    }
  }

  /** Matching posts every trade to the taker and to the maker. */
  lemma {:induction false} MatchSquares(opp: seq<Entry>, taker: Order, market: nat, log: seq<Event>)
    requires UniqueIds(opp) && taker.id !in Ids(opp) && Squared(log, opp) && Squares(log, taker)
    ensures var m := MatchRegular(opp, taker, market); var now := log + m.log;
      Squared(now, m.opp) && Squares(now, m.taker) && KeptApart(log, now, Ids(opp) + {taker.id})
  {
    hide Account, Squares, UniqueIds;
    if opp == [] || taker.Open() == 0 || !Crosses(opp[0].order, taker) {
      assert log + [] == log;
    } else {
      FirstApart(opp);
      assert opp[0] in opp;
      if Skips(opp[0].order, taker) {
        MatchSquares(opp[1..], taker, market, log);
        var now := log + MatchRegular(opp[1..], taker, market).log;
        OneStill(log, now, Ids(opp[1..]) + {taker.id}, opp[0].order);
      } else {
        var maker := opp[0].order;
        var q := Min(taker.Open(), maker.Open());
        var c := Cost(q, maker.price);
        RegularStep(opp, taker, market);
        TradePosted(log, taker, maker, q, c);
        var mid := log + [Filled(taker.id, maker.id, q, c)];
        StillSquared(log, mid, {taker.id, maker.id}, opp[1..]);
        MatchSquares(opp[1..], taker.Fill(q, c), maker.price, mid);
        var m := MatchRegular(opp[1..], taker.Fill(q, c), maker.price);
        assert log + ([Filled(taker.id, maker.id, q, c)] + m.log) == mid + m.log;
        OneStill(mid, mid + m.log, Ids(opp[1..]) + {taker.id}, maker.Fill(q, c));
      }
    }
  }

  lemma OneStill(was: seq<Event>, now: seq<Event>, ids: set<nat>, o: Order)
    requires Squares(was, o) && KeptApart(was, now, ids) && o.id !in ids
    ensures Squares(now, o)
  {
  }

  /** What the listener hears beside trades leaves the accounts alone, but for an acceptance. */
  lemma ToldApart(log: seq<Event>, e: Event)
    requires !e.Filled?
    ensures KeptApart(log, log + [e], if e.Accepted? then {e.id} else {})
  {
    forall id ensures Account(log + [e], id) == Post(Account(log, id), e, id) { AccountTold(log, e, id); }
  }

  lemma TellSettled(b: Book, e: Event)
    requires Settled(b) && !e.Filled? && (e.Accepted? ==> e.id !in Live(b))
    ensures Settled(Tell(b, e))
  {
    var ids, now := if e.Accepted? then {e.id} else {}, b.log + [e];
    ToldApart(b.log, e);
    StillSquared(b.log, now, ids, b.bids);
    StillSquared(b.log, now, ids, b.asks);
    StillSquared(b.log, now, ids, b.stopBids);
    StillSquared(b.log, now, ids, b.stopAsks);
  }

  /** Submitting an order settles its trades, and keeps every other account. */
  lemma SubmitSettled(b: Book, o: Order)
    requires BookLaws.Sound(b) && Settled(b) && o.id !in Live(b) && Squares(b.log, o)
    ensures Settled(Submit(b, o)) && KeptApart(b.log, Submit(b, o).log, Ids(b.bids) + Ids(b.asks) + {o.id})
  {
    hide Account, Squares, MatchRegular, MatchAon, UniqueIds, Ids;
    var opp, own := if o.isBuy then b.asks else b.bids, if o.isBuy then b.bids else b.asks;
    var m := Match(opp, o, b.market);
    var now, ids := b.log + m.log, Ids(opp) + {o.id};
    MatchSquares(opp, o, b.market, b.log);
    if o.aon { AonIsAllOrNothing(opp, o, b.market); }
    assert b.log + [] == b.log;
    TakerKept(opp, o, b.market);
    StillSquared(b.log, now, ids, own);
    StillSquared(b.log, now, ids, b.stopBids);
    StillSquared(b.log, now, ids, b.stopAsks);
  }

  lemma {:induction false} SubmitAllSettled(b: Book, s: seq<Entry>)
    requires BookLaws.Sound(b) && Settled(b) && Batch(s, Live(b)) && Squared(b.log, s)
    ensures Settled(SubmitAll(b, s))
    decreases |s|
  {
    if s != [] {
      var o := s[0].order;
      assert s[0] in s;
      BatchRest(s, Live(b), Live(b));
      SubmitSound(b, o);
      SubmitSettled(b, o);
      var c := Submit(b, o);
      BatchRest(s, Live(b), Live(c));
      FirstApart(s);
      StillSquared(b.log, c.log, Ids(b.bids) + Ids(b.asks) + {o.id}, s[1..]);
      SubmitAllSettled(c, s[1..]);
    }
  }

  lemma {:induction false} ProcessSettled(b: Book)
    requires BookLaws.Sound(b) && Settled(b)
    ensures Settled(Process(b))
    decreases |b.stopBids| + |b.stopAsks|
  {
    var n, k := Firing(true, b.stopBids, b.market), Firing(false, b.stopAsks, b.market);
    if n + k > 0 {
      var c := b.(stopBids := b.stopBids[n..], stopAsks := b.stopAsks[k..]);
      var fired := b.stopBids[..n] + b.stopAsks[..k];
      RoundSound(b, n, k);
      SubmitAllSound(c, fired);
      SubmitAllSettled(c, fired);
      ProcessSettled(SubmitAll(c, fired));
    }
  }

  /** Acceptance opens the account of an order that has filled nothing. */
  lemma AcceptedOpens(b: Book, o: Order)
    requires BookLaws.Sound(b) && Settled(b) && o.filled == 0 && o.cost == 0 && o.id !in Live(b)
    ensures var c := Tell(b, Accepted(o.id));
      BookLaws.Sound(c) && Settled(c) && Live(c) == Live(b) && c.market == b.market && Squares(c.log, o)
  {
    TellSettled(b, Accepted(o.id));
    AccountTold(b.log, Accepted(o.id), o.id);
    hide Settled, RestingSide, ParkedSide, Uncrossed, Ids, Account;
  }

  lemma ParkSettled(b: Book, o: Order)
    requires Settled(b) && Squares(b.log, o)
    ensures Settled(Park(b, o))
  {
    hide Account, Squares;
  }

  lemma AddSettled(b: Book, o: Order)
    requires BookLaws.Sound(b) && Settled(b) && Fresh(o) && o.cost == 0 && o.id !in Live(b)
    ensures Settled(Add(b, o))
  {
    hide BookLaws.Sound, Settled, Squares, Live, Books.Submit, Process, Park, Tell, Stopped;
    if o.qty == 0 {
      TellSettled(b, Rejected(o.id));
    } else {
      var c := Tell(b, Accepted(o.id));
      AcceptedOpens(b, o);
      if o.stop != 0 && Stopped(o, b.market) {
        ParkSettled(c, o);
      } else {
        SubmitSound(c, o);
        SubmitSettled(c, o);
        ProcessSettled(Books.Submit(c, o));
      }
    }
  }

  lemma WithdrawSettled(b: Book, id: nat)
    requires Settled(b) && (Has(b.bids, id) || Has(b.asks, id))
    ensures Settled(Withdraw(b, id)) && Squares(b.log, Resting(b, id))
  {
    var s := if Has(b.bids, id) then b.bids else b.asks;
    assert s[IndexOf(s, id)] in s;
  }

  lemma CancelSettled(b: Book, id: nat)
    requires Settled(b)
    ensures Settled(Cancel(b, id))
  {
    var c := Cancel(b, id).(log := b.log);
    TellSettled(c, if Has(b.bids, id) || Has(b.asks, id) || Has(b.stopBids, id) || Has(b.stopAsks,
        id) then Cancelled(id) else CancelRejected(id));
  }

  lemma AmendSettled(b: Book, id: nat, delta: int)
    requires BookLaws.Sound(b) && Settled(b) && (Has(b.bids, id) || Has(b.asks, id))
    ensures Settled(Amend(b, id, delta))
  {
    hide Account, BookLaws.Sound, Live;
    var o := Resting(b, id);
    WithdrawSettled(b, id);
    if delta < 0 && -delta >= o.Open() {
      TellSettled(Withdraw(b, id), Replaced(id, delta, o.price));
    } else {
      TellSettled(Regrown(b, id, delta), Replaced(id, delta, o.price));
    }
  }

  lemma RepriceSettled(b: Book, id: nat, delta: int, price: nat)
    requires BookLaws.Sound(b) && Settled(b) && (Has(b.bids, id) || Has(b.asks, id))
    requires Replaceable(Resting(b, id), delta, price) && Reprices(Resting(b, id), price)
    ensures Settled(Reprice(b, id, delta, price))
  {
    hide Account, BookLaws.Sound, Live, Settled, Squares, Books.Submit, Process, Withdraw;
    RestingIsLive(b, id);
    WithdrawSettled(b, id);
    WithdrawKept(b, id);
    var o, w := Resting(b, id), Withdraw(b, id);
    var n := o.Modify(delta, price);
    var e := Replaced(id, delta, n.price);
    TellSettled(w, e);
    Renamed(b, id, e, o, n);
    SoundTold(w, e);
    if n.Open() > 0 {
      SubmitSound(Tell(w, e), n);
      SubmitSettled(Tell(w, e), n);
      ProcessSettled(Submit(Tell(w, e), n));
    }
  }

  /** A replacement carries the account of the order it replaces. */
  lemma Renamed(b: Book, id: nat, e: Event, o: Order, n: Order)
    requires Squares(b.log, o) && n.id == o.id && n.filled == o.filled && n.cost == o.cost && !e.Filled? && !e.Accepted?
    requires Has(b.bids, id) || Has(b.asks, id)
    ensures Squares(Tell(Withdraw(b, id), e).log, n)
  {
    ToldApart(b.log, e);
  }

  lemma SoundTold(b: Book, e: Event)
    ensures BookLaws.Sound(Tell(b, e)) <==> BookLaws.Sound(b)
    ensures Live(Tell(b, e)) == Live(b)
  {
  }

  lemma ReplaceSettled(b: Book, id: nat, delta: int, price: nat)
    requires BookLaws.Sound(b) && Settled(b)
    requires Has(b.bids, id) || Has(b.asks, id) ==> Replaceable(Resting(b, id), delta, price)
    ensures Settled(Replace(b, id, delta, price))
  {
    hide Account, BookLaws.Sound, Live, Settled, Squares, Amend, Reprice, Resting;
    if !(Has(b.bids, id) || Has(b.asks, id)) {
      TellSettled(b, ReplaceRejected(id));
    } else if Reprices(Resting(b, id), price) {
      RepriceSettled(b, id, delta, price);
    } else {
      AmendSettled(b, id, delta);
    }
  }

  lemma StepSettled(b: Book, op: Op)
    requires BookLaws.Sound(b) && Settled(b) && Allowed(b, op) && (op.AddOp? ==> op.order.cost == 0)
    ensures Settled(Step(b, op))
  {
    match op
    case AddOp(o) => AddSettled(b, o);
    case CancelOp(id) => CancelSettled(b, id);
    case ReplaceOp(id, delta, price) => ReplaceSettled(b, id, delta, price);
    case MarketOp(price) => ProcessSettled(b.(market := price));
  }

  lemma {:induction false} RunsSettle(b: Book, ops: seq<Op>)
    requires BookLaws.Sound(b) && Quiet(b) && Settled(b) && Runs(b, ops)
    requires forall op :: op in ops && op.AddOp? ==> op.order.cost == 0
    ensures Settled(After(b, ops))
    decreases |ops|
  {
    if ops != [] {
      assert ops[0] in ops;
      StepSound(b, ops[0]);
      StepSettled(b, ops[0]);
      RunsSettle(Step(b, ops[0]), ops[1..]);
    }
  }

  /**
    * Whatever the run, a resting order's fills are those told under its id since it was
    * accepted, and with what is open they make up its quantity.
    */
  lemma {:induction false} ReachableSettled(ops: seq<Op>, e: Entry)
    requires Runs(EMPTY_BOOK, ops) && forall op :: op in ops && op.AddOp? ==> op.order.cost == 0
    requires e in After(EMPTY_BOOK, ops).bids + After(EMPTY_BOOK, ops).asks
    ensures Account(After(EMPTY_BOOK, ops).log, e.order.id) == Tally(e.order.filled, e.order.cost)
    ensures e.order.filled + e.order.Open() == e.order.qty
  {
    var b := After(EMPTY_BOOK, ops);
    EmptyIsSound();
    RunsKeep(EMPTY_BOOK, ops);
    RunsSettle(EMPTY_BOOK, ops);
    assert Squares(b.log, e.order);
    if e in b.bids {
      var i :| 0 <= i < |b.bids| && b.bids[i] == e;
      assert MayRest(true, b.bids[i]);
    } else {
      var i :| 0 <= i < |b.asks| && b.asks[i] == e;
      assert MayRest(false, b.asks[i]);
    }
  }
}
