/**
  * The matching engine: four book sides, the market price and the listener. Every call does
  * to the sides what the state machine of `Books` does to four ranked lists.
  */
module MatchingBooks {
  import opened Orders
  import opened Layout
  import opened NarbTrees
  import opened Blocks
  import opened Places
  import opened Queues
  import opened Matching
  import opened Books
  import opened BookLaws
  import opened Snapshots

  class MatchingBook {
    const bids: NarbTree
    const asks: NarbTree
    const stopBids: NarbTree
    const stopAsks: NarbTree
    var market: nat
    /** Everything the listener has been told. */
    var log: seq<Event>

    /** The sides share no storage and are ordered as their role demands. */
    ghost predicate Unshared()
      reads bids.chain, asks.chain, stopBids.chain, stopAsks.chain
    {
      && bids.bid && !asks.bid && !stopBids.bid && stopAsks.bid
      && bids.Repr() !! asks.Repr() !! stopBids.Repr() !! stopAsks.Repr()
      && this !in bids.Repr() + asks.Repr() + stopBids.Repr() + stopAsks.Repr()
    }

    ghost function Repr(): set<object>
      reads bids.chain, asks.chain, stopBids.chain, stopAsks.chain
    {
      {this} + bids.Repr() + asks.Repr() + stopBids.Repr() + stopAsks.Repr()
    }

    ghost predicate Wired()
      reads this, bids.chain, asks.chain, stopBids.chain, stopAsks.chain, Repr()
    {
      Unshared() && bids.Valid() && asks.Valid() && stopBids.Valid() && stopAsks.Valid()
    }

    /** The book as four ranked lists. */
    ghost function Abs(): Book
      reads this, bids.chain, asks.chain, stopBids.chain, stopAsks.chain
    {
      Book(bids.Entries(), asks.Entries(), stopBids.Entries(), stopAsks.Entries(), market, log)
    }

    ghost predicate Valid()
      reads this, bids.chain, asks.chain, stopBids.chain, stopAsks.chain, Repr()
    {
      Wired() && BookLaws.Sound(Abs()) && Quiet(Abs())
    }

    /** Two empty sides that share no storage. */
    static method TwoSides(bid: bool, cap: nat) returns (s: NarbTree, t: NarbTree, ghost repr: set<object>)
      requires 0 < cap < NPOS
      ensures s.Valid() && t.Valid() && s.bid == bid && t.bid == !bid && s.Entries() == [] && t.Entries() == []
      ensures repr == s.Repr() + t.Repr() && fresh(repr) && s.Repr() !! t.Repr()
    {
      hide NarbTree.Valid, NarbTree.Entries, NarbTree.List;
      s := new NarbTree(bid, cap);
      ghost var r := s.Repr();
      t := new NarbTree(!bid, cap);
      assert s.Repr() == r;
      repr := s.Repr() + t.Repr();
    }

    constructor (cap: nat)
      requires 0 < cap < NPOS
      ensures Valid() && fresh(Repr()) && Abs() == EMPTY_BOOK
    {
      hide NarbTree.Valid, NarbTree.Entries, NarbTree.List, NarbTree.Repr, BookLaws.Sound, Quiet;
      EmptyIsSound();
      ghost var r, r';
      var b, a, sa, sb;
      b, a, r := TwoSides(true, cap);
      sa, sb, r' := TwoSides(true, cap);
      bids, asks, stopBids, stopAsks := b, a, sb, sa;
      market, log := 0, [];
    }

    /** Trades `qty` with the maker at `loc`, position `k` of the side. */
    method ExecuteTrade(opp: NarbTree, taker: Order, loc: Loc, qty: nat, ghost k: nat) returns (t: Order, done: bool)
      requires opp.Valid() && this !in opp.Repr() && k < |opp.List()| && opp.List()[k].loc == loc
      requires qty <= opp.Entries()[k].order.Open()
      modifies this`market, this`log, opp.Repr()
      ensures opp.Valid() && opp.Repr() == old(opp.Repr())
      ensures Traded(old(opp.Entries()), opp.Entries(), k, qty) && opp.List() == old(opp.List())[k := opp.List()[k]]
      ensures |opp.List()| == |old(opp.List())| && opp.List()[k].loc == loc
      ensures var m := old(opp.Entries())[k].order; var c := Cost(qty, m.price);
        && t == taker.Fill(qty, c) && market == m.price && log == old(log) + [Filled(taker.id, m.id, qty, c)]
        && (done <==> m.Fill(qty, c).Open() == 0)
    {
      hide NarbTree.Valid, NarbTree.Entries, NarbTree.List;
      var maker := opp.Get(loc, k);
      var px := maker.price;
      var cost := Cost(qty, px);
      t := taker.Fill(qty, cost);
      maker := maker.Fill(qty, cost);
      opp.UpdateResting(loc, maker, 0 - qty, k);
      done := maker.Open() == 0;
      market := px;
      log := log + [Filled(taker.id, maker.id, qty, cost)];
    }

    /** Result of matching: the side and the order as `m` has them, the fills told. */
    ghost predicate Became(m: Matched, e: seq<Entry>, t: Order, log0: seq<Event>)
      reads this
    {
      m.opp == e && m.taker == t && m.market == market && log == log0 + m.log
    }

    method MatchRegularIncoming(opp: NarbTree, o: Order) returns (t: Order)
      requires opp.Valid() && this !in opp.Repr()
      modifies this`market, this`log, opp.Repr()
      ensures opp.Valid() && opp.Repr() == old(opp.Repr())
      ensures Became(MatchRegular(old(opp.Entries()), o, old(market)), opp.Entries(), t, old(log))
    {
      hide NarbTree.Valid, NarbTree.Entries, NarbTree.List, MatchRegular, Resumes, Crosses;
      ghost var m := MatchRegular(opp.Entries(), o, market);
      ResumeStart(opp.Entries(), o, market, log);
      t := o;
      ghost var k := 0;
      var it := opp.OrdersBegin();
      opp.AtEnd(0);
      while it != Nil && t.Open() > 0
        invariant opp.Valid() && opp.Repr() == old(opp.Repr())
        invariant k <= |opp.List()| && it == LocAt(opp.List(), k) && (it == Nil <==> k >= |opp.List()|)
        invariant Resumes(m, opp.Entries(), k, t, market, old(log), log)
        decreases |opp.List()| - k
      {
        var maker := opp.Get(it, k);
        if !Crosses(maker, t) { break; }
        if maker.aon && maker.Open() > t.Open() {
          ResumeSkip(m, opp.Entries(), k, t, market, old(log), log);
          it := opp.Next(it, k);
          k := k + 1;
          opp.AtEnd(k);
        } else {
          ResumeTrade(m, opp.Entries(), k, t, market, old(log), log);
          var qty := Min(t.Open(), maker.Open());
          it, t, k := TradeAndStep(opp, t, it, maker.id, qty, k);
        }
      }
      ResumeStop(m, opp.Entries(), k, t, market, old(log), log);
    }

    /** Advances past the maker, trades with it, and erases it if that fills it. */
    method TradeAndStep(opp: NarbTree, taker: Order, loc: Loc, id: nat, qty: nat, ghost k: nat)
      returns (it: Loc, t: Order, ghost k': nat)
      requires opp.Valid() && this !in opp.Repr() && k < |opp.List()| && opp.List()[k].loc == loc
      requires opp.Entries()[k].order.id == id && qty <= opp.Entries()[k].order.Open()
      modifies this`market, this`log, opp.Repr()
      ensures opp.Valid() && opp.Repr() == old(opp.Repr())
      ensures k' <= |opp.List()| && it == LocAt(opp.List(), k') && (it == Nil <==> k' >= |opp.List()|)
      ensures |opp.List()| - k' < |old(opp.List())| - k
      ensures TradedOut(old(opp.Entries()), opp.Entries(), k, qty, taker, t, old(log))
      ensures k' == if |opp.Entries()| < |old(opp.Entries())| then k else k + 1
    {
      hide NarbTree.Valid, NarbTree.Entries, NarbTree.List, Cost;
      it := opp.Next(loc, k);
      ghost var done;
      t, done := TradeOut(opp, taker, loc, id, qty, k);
      k' := if done then k else k + 1;
      opp.AtEnd(k');
    }

    /** The maker at `k` has traded `qty` with the taker and is gone if that fills it. */
    ghost predicate TradedOut(was: seq<Entry>, now: seq<Entry>, k: nat, qty: nat, taker: Order, t: Order,
                              log0: seq<Event>)
      reads this
    {
      k < |was| &&
      var m := was[k].order; var c := Cost(qty, m.price); var n := m.Fill(qty, c);
      && t == taker.Fill(qty, c) && market == m.price && log == log0 + [Filled(taker.id, m.id, qty, c)]
      && now == if n.Open() == 0 then was[..k] + was[k + 1..] else was[k := was[k].(order := n)]
    }

    /** Trades with the maker at `loc` and erases it if that fills it. */
    method TradeOut(opp: NarbTree, taker: Order, loc: Loc, id: nat, qty: nat, ghost k: nat)
      returns (t: Order, done: bool)
      requires opp.Valid() && this !in opp.Repr() && k < |opp.List()| && opp.List()[k].loc == loc
      requires opp.Entries()[k].order.id == id && qty <= opp.Entries()[k].order.Open()
      modifies this`market, this`log, opp.Repr()
      ensures opp.Valid() && opp.Repr() == old(opp.Repr())
      ensures TradedOut(old(opp.Entries()), opp.Entries(), k, qty, taker, t, old(log))
      ensures |opp.List()| == |old(opp.List())| - if done then 1 else 0
      ensures LocAt(opp.List(), if done then k else k + 1) == LocAt(old(opp.List()), k + 1)
    {
      hide NarbTree.Valid, NarbTree.Entries, NarbTree.List, Cost;
      t, done := ExecuteTrade(opp, taker, loc, qty, k);
      if done { EraseAt(opp, id, k); }
    }

    /** Erases the order at position `k`, whose id is `id`. */
    method EraseAt(opp: NarbTree, id: nat, ghost k: nat)
      requires opp.Valid() && k < |opp.List()| && opp.Entries()[k].order.id == id
      modifies opp.Repr()
      ensures opp.Valid() && opp.Repr() == old(opp.Repr())
      ensures opp.Entries() == old(opp.Entries())[..k] + old(opp.Entries())[k + 1..]
      ensures |opp.List()| == |old(opp.List())| - 1 && LocAt(opp.List(), k) == LocAt(old(opp.List()), k + 1)
    {
      hide NarbTree.Valid, NarbTree.Entries, NarbTree.List, Erased, Dequeue;
      ghost var s := opp.List();
      opp.IdAt(k);
      LocAfterRemoval(s, k);
      opp.Erase(id);
      ErasedAt(s, opp.List(), k, id);
    }

    /** Plans a full fill and commits it, or trades nothing. */
    method MatchAonIncoming(opp: NarbTree, o: Order) returns (t: Order)
      requires opp.Valid() && this !in opp.Repr() && UniqueIds(opp.Entries()) && AllOpen(opp.Entries())
      modifies this`market, this`log, opp.Repr()
      ensures opp.Valid() && opp.Repr() == old(opp.Repr())
      ensures Became(MatchAon(old(opp.Entries()), o, old(market)), opp.Entries(), t, old(log))
    {
      hide NarbTree.Valid, NarbTree.Entries, NarbTree.List, Plan, Planning, Holds, Commit, UniqueIds, AllOpen;
      var needed := o.Open();
      var plan, planned := MakePlan(opp, o, needed);
      t := o;
      if planned < needed { return; }
      PlanFits(opp.Entries(), o);
      t := CommitPlan(opp, o, plan);
    }

    lemma {:induction false} PlanFits(e: seq<Entry>, o: Order)
      requires UniqueIds(e) && AllOpen(e)
      ensures Holds(e, o, Plan(e, o, o.Open()))
    {
      assert [] + e == e;
      PlanHolds([], e, o);
    }

    method MakePlan(opp: NarbTree, o: Order, needed: nat) returns (plan: seq<Pick>, planned: nat)
      requires opp.Valid() && needed == o.Open()
      ensures plan == Plan(opp.Entries(), o, needed) && planned == Planned(plan) <= needed
    {
      hide NarbTree.Valid, NarbTree.Entries, NarbTree.List, Plan, Planning, Crosses;
      ghost var all := Plan(opp.Entries(), o, needed);
      PlanningStart(opp.Entries(), o, needed);
      plan, planned := [], 0;
      ghost var k := 0;
      var it := opp.OrdersBegin();
      opp.AtEnd(0);
      while it != Nil && planned < needed
        invariant k <= |opp.List()| && it == LocAt(opp.List(), k) && (it == Nil <==> k >= |opp.List()|)
        invariant Planning(all, plan, opp.Entries(), k, o, needed, planned) && planned <= needed
        decreases |opp.List()| - k
      {
        var maker := opp.Get(it, k);
        if !Crosses(maker, o) { break; }
        var avail := maker.Open();
        if maker.aon {
          if avail <= needed - planned {
            PlanningTake(all, plan, opp.Entries(), k, o, needed, planned);
            plan := plan + [Pick(maker.id, avail)];
            planned := planned + avail;
          } else {
            PlanningSkip(all, plan, opp.Entries(), k, o, needed, planned);
          }
        } else {
          PlanningTake(all, plan, opp.Entries(), k, o, needed, planned);
          var take := Min(avail, needed - planned);
          plan := plan + [Pick(maker.id, take)];
          planned := planned + take;
        }
        it := opp.Next(it, k);
        k := k + 1;
        opp.AtEnd(k);
      }
      PlanningStop(all, plan, opp.Entries(), k, o, needed, planned);
      PlanningSum(all, plan, opp.Entries(), k, o, needed, planned);
    }

    lemma {:induction false} PlanningSum(all: seq<Pick>, plan: seq<Pick>, e: seq<Entry>, k: nat, t: Order, need: nat,
                                         planned: nat)
      requires Planning(all, plan, e, k, t, need, planned)
      ensures planned == Planned(plan)
    {
    }

    method CommitPlan(opp: NarbTree, o: Order, plan: seq<Pick>) returns (t: Order)
      requires opp.Valid() && this !in opp.Repr() && Holds(opp.Entries(), o, plan)
      modifies this`market, this`log, opp.Repr()
      ensures opp.Valid() && opp.Repr() == old(opp.Repr())
      ensures Became(Commit(old(opp.Entries()), o, old(market), plan), opp.Entries(), t, old(log))
    {
      hide NarbTree.Valid, NarbTree.Entries, NarbTree.List, Commit, Committing, Holds;
      ghost var m := Commit(opp.Entries(), o, market, plan);
      CommitStart(opp.Entries(), plan, o, market, log);
      t := o;
      var i := 0;
      while i < |plan|
        invariant opp.Valid() && opp.Repr() == old(opp.Repr()) && i <= |plan|
        invariant Committing(m, opp.Entries(), plan, i, t, market, old(log), log)
      {
        CommitNext(m, opp.Entries(), plan, i, t, market, old(log), log);
        var loc := opp.FindOrder(plan[i].id);
        if loc != Nil {
          var done;
          t, done := TradeOut(opp, t, loc, plan[i].id, plan[i].qty, IndexOf(opp.Entries(), plan[i].id));
        }
        i := i + 1;
      }
      CommitStop(m, opp.Entries(), plan, t, market, old(log), log);
    }

    method MatchAgainst(opp: NarbTree, o: Order) returns (t: Order)
      requires opp.Valid() && this !in opp.Repr() && UniqueIds(opp.Entries()) && AllOpen(opp.Entries())
      modifies this`market, this`log, opp.Repr()
      ensures opp.Valid() && opp.Repr() == old(opp.Repr())
      ensures Became(Match(old(opp.Entries()), o, old(market)), opp.Entries(), t, old(log))
    {
      hide NarbTree.Valid, NarbTree.Entries, UniqueIds, AllOpen, MatchAon, MatchRegular;
      if o.aon { t := MatchAonIncoming(opp, o); } else { t := MatchRegularIncoming(opp, o); }
    }

    /** Adds an order to a side that does not know its id. */
    method Enter(side: NarbTree, o: Order, key: nat)
      requires side.Valid() && !Has(side.Entries(), o.id)
      modifies side.Repr()
      ensures side.Valid() && side.Entries() == Enqueue(side.bid, old(side.Entries()), Entry(key, o))
      ensures side.Repr() >= old(side.Repr()) && fresh(side.Repr() - old(side.Repr()))
    {
      hide NarbTree.Valid, NarbTree.Entries, Enqueue;
      side.KnowsHas(o.id);
      side.Insert(o, key);
    }

    /** Matches an order with the side `opp`, then rests what may rest of it on the side `own`. */
    method TradeAndRest(order: Order, opp: NarbTree, own: NarbTree) returns (t: Order)
      requires opp.Valid() && own.Valid() && {this} !! opp.Repr() !! own.Repr()
      requires UniqueIds(opp.Entries()) && AllOpen(opp.Entries()) && !Has(own.Entries(), order.id)
      modifies this`market, this`log, opp.Repr(), own.Repr()
      ensures opp.Valid() && own.Valid() && opp.Repr() == old(opp.Repr())
      ensures Became(Match(old(opp.Entries()), order, old(market)), opp.Entries(), t, old(log))
      ensures own.Entries() == if order.price != MARKET && !t.ioc && t.Open() > 0
        then Enqueue(own.bid, old(own.Entries()), Entry(t.price, t)) else old(own.Entries())
      ensures own.Repr() >= old(own.Repr()) && fresh(own.Repr() - old(own.Repr()))
    {
      hide NarbTree.Valid, NarbTree.Entries, Match, Enqueue, AllOpen, UniqueIds, Has;
      var isMarket := order.price == MARKET;
      MatchKeepsId(opp.Entries(), order, market);
      t := MatchAgainst(opp, order);
      if !isMarket && !t.ioc && t.Open() > 0 { Enter(own, t, t.price); }
    }

    /** Matches an order with the other side and rests what is left of it. */
    method Submit(order: Order)
      requires Wired() && BookLaws.Sound(Abs()) && order.id !in Live(Abs())
      modifies Repr()
      ensures Wired() && Abs() == Books.Submit(old(Abs()), order)
      ensures Repr() >= old(Repr()) && fresh(Repr() - old(Repr()))
    {
      hide NarbTree.Valid, NarbTree.Entries, BookLaws.Sound, Match, Enqueue, AllOpen, UniqueIds, Ids, Has;
      MatchReady(Abs());
      HasIds(bids.Entries(), order.id);
      HasIds(asks.Entries(), order.id);
      var o;
      if order.isBuy {
        MatchKeepsId(asks.Entries(), order, market);
        o := TradeAndRest(order, asks, bids);
      } else {
        MatchKeepsId(bids.Entries(), order, market);
        o := TradeAndRest(order, bids, asks);
      }
    }

    lemma MatchKeepsId(opp: seq<Entry>, o: Order, market: nat)
      requires UniqueIds(opp)
      ensures var t := Match(opp, o, market).taker;
        t.id == o.id && t.price == o.price && t.isBuy == o.isBuy && t.ioc == o.ioc
    {
      TakerKept(opp, o, market);
      if o.aon { AonIsAllOrNothing(opp, o, market); }
    }

    /** Takes the first stop off a parked side if it has triggered, and moves on to the next one. */
    method FireFront(side: NarbTree, buy: bool, it: Loc) returns (o: Order, fires: bool, next: Loc)
      requires side.Valid() && this !in side.Repr() && it == LocAt(side.List(), 0) && it != Nil
      modifies side.Repr()
      ensures side.Valid() && side.Repr() == old(side.Repr()) && old(side.Entries()) != []
      ensures o == old(side.Entries())[0].order && fires == Triggered(buy, o.stop, market)
      ensures side.Entries() == if fires then old(side.Entries())[1..] else old(side.Entries())
      ensures fires ==>
        |side.List()| < |old(side.List())| && next == LocAt(side.List(), 0) && (next == Nil <==> |side.List()| == 0)
    {
      hide NarbTree.Valid, NarbTree.Entries, NarbTree.List, Triggered;
      side.AtEnd(0);
      o := side.Get(it, 0);
      fires, next := Triggered(buy, o.stop, market), it;
      if fires {
        FrontLeaves(side.Entries());
        next := side.Next(it, 0);
        EraseAt(side, o.id, 0);
        side.AtEnd(0);
      }
    }

    /** Takes the triggered stops off a parked side, best first. */
    method FireSide(side: NarbTree, buy: bool) returns (fired: seq<Order>)
      requires side.Valid() && this !in side.Repr() && ParkedSide(buy, side.Entries())
      modifies side.Repr()
      ensures side.Valid() && side.Repr() == old(side.Repr())
      ensures var n := Firing(buy, old(side.Entries()), market);
        fired == OrdersOf(old(side.Entries())[..n]) && side.Entries() == old(side.Entries())[n..]
    {
      hide NarbTree.Valid, NarbTree.Entries, NarbTree.List, FiringOn, Firing, ParkedSide, OrdersOf, Triggered;
      ghost var all := side.Entries();
      ghost var n := Firing(buy, all, market);
      FiringStart(buy, all, market);
      fired := [];
      var it := side.OrdersBegin();
      side.AtEnd(0);
      while it != Nil
        invariant side.Valid() && side.Repr() == old(side.Repr()) && market == old(market)
        invariant it == LocAt(side.List(), 0) && (it == Nil <==> |side.List()| == 0)
        invariant FiringOn(buy, all, n, fired, side.Entries(), market) && ParkedSide(buy, side.Entries())
        decreases |side.List()|
      {
        ghost var s := side.Entries();
        var o, fires;
        o, fires, it := FireFront(side, buy, it);
        FrontParked(buy, s);
        if !fires { break; }
        FiringStep(buy, all, n, fired, s, market);
        fired := fired + [o];
      }
      FiringStop(buy, all, n, fired, side.Entries(), market);
    }

    lemma FrontParked(buy: bool, s: seq<Entry>)
      requires s != [] && ParkedSide(buy, s)
      ensures s[0].key == s[0].order.stop && ParkedSide(buy, s[1..])
    {
      assert MayPark(buy, s[0]);
      ParkedSplit(buy, s, 1);
    }

    lemma FrontLeaves(s: seq<Entry>)
      requires s != []
      ensures s[..0] + s[1..] == s[1..]
    {
    }

    method SubmitEach(fired: seq<Order>, ghost s: seq<Entry>)
      requires Wired() && BookLaws.Sound(Abs()) && Batch(s, Live(Abs())) && fired == OrdersOf(s)
      modifies Repr()
      ensures Wired() && BookLaws.Sound(Abs()) && Abs() == SubmitAll(old(Abs()), s)
      ensures Repr() >= old(Repr()) && fresh(Repr() - old(Repr()))
    {
      hide Wired, Abs, BookLaws.Sound, Batch, Live, SubmitAll, Books.Submit;
      var i := 0;
      ghost var b := Abs();
      assert s[0..] == s;
      while i < |fired|
        invariant i <= |fired| && Wired() && BookLaws.Sound(Abs())
        invariant Batch(s[i..], Live(Abs())) && SubmitAll(b, s) == SubmitAll(Abs(), s[i..])
        invariant Repr() >= old(Repr()) && fresh(Repr() - old(Repr()))
      {
        assert s[i..][1..] == s[i + 1..] && s[i..][0] == s[i];
        SubmitOne(Abs(), s[i..]);
        Submit(fired[i]);
        i := i + 1;
      }
      SubmitNone(Abs(), s[i..]);
    }

    lemma {:induction false} SubmitNone(b: Book, s: seq<Entry>)
      requires s == []
      ensures SubmitAll(b, s) == b
    {
    }

    lemma {:induction false} SubmitOne(b: Book, s: seq<Entry>)
      requires BookLaws.Sound(b) && s != [] && Batch(s, Live(b))
      ensures s[0].order.id !in Live(b)
      ensures BookLaws.Sound(Books.Submit(b, s[0].order)) && Batch(s[1..], Live(Books.Submit(b, s[0].order)))
      ensures SubmitAll(b, s) == SubmitAll(Books.Submit(b, s[0].order), s[1..])
    {
      hide BookLaws.Sound, Live, Batch, Books.Submit;
      BatchRest(s, Live(b), Live(b));
      SubmitSound(b, s[0].order);
      BatchRest(s, Live(b), Live(Books.Submit(b, s[0].order)));
    }

    /** Resubmits triggered stops, round after round until none is triggered. */
    method ProcessTriggered()
      requires Wired() && BookLaws.Sound(Abs())
      modifies Repr()
      ensures Valid() && Abs() == Process(old(Abs()))
      ensures Repr() >= old(Repr()) && fresh(Repr() - old(Repr()))
    {
      hide Wired, Abs, BookLaws.Sound, Process, Quiet;
      ghost var b := Abs();
      var more := true;
      while more
        invariant Wired() && BookLaws.Sound(Abs()) && Process(Abs()) == Process(b)
        invariant !more ==> Process(Abs()) == Abs()
        invariant Repr() >= old(Repr()) && fresh(Repr() - old(Repr()))
        decreases more, Parked(Abs())
      {
        more := FireRound();
      }
      ProcessSound(b);
    }

    /** Fires what the market has triggered and submits it; says whether there was anything. */
    method FireRound() returns (more: bool)
      requires Wired() && BookLaws.Sound(Abs())
      modifies Repr()
      ensures Wired() && BookLaws.Sound(Abs()) && Process(Abs()) == Process(old(Abs()))
      ensures if more then Parked(Abs()) < Parked(old(Abs())) else Process(Abs()) == Abs()
      ensures Repr() >= old(Repr()) && fresh(Repr() - old(Repr()))
    {
      hide Wired, Abs, BookLaws.Sound, Process, SubmitAll, Batch, ParkedSide, Firing, OrdersOf;
      ghost var c := Abs();
      ghost var n, k := Firing(true, c.stopBids, c.market), Firing(false, c.stopAsks, c.market);
      Round(c, n, k);
      var fired := Fire(n, k);
      more := fired != [];
      if more { SubmitEach(fired, c.stopBids[..n] + c.stopAsks[..k]); }
    }

    ghost function Parked(b: Book): nat {
      |b.stopBids| + |b.stopAsks|
    }

    /** One round of taking triggered stops off both sides, buys first. */
    method Fire(ghost n: nat, ghost k: nat) returns (fired: seq<Order>)
      requires Wired() && ParkedSide(true, Abs().stopBids) && ParkedSide(false, Abs().stopAsks)
      requires n == Firing(true, Abs().stopBids, Abs().market) && k == Firing(false, Abs().stopAsks, Abs().market)
      modifies Repr()
      ensures Wired() && Repr() == old(Repr())
      ensures fired == OrdersOf(old(Abs()).stopBids[..n] + old(Abs()).stopAsks[..k])
      ensures var b := old(Abs()); Abs() == b.(stopBids := b.stopBids[n..], stopAsks := b.stopAsks[k..])
    {
      hide NarbTree.Valid, NarbTree.Entries, NarbTree.List, ParkedSide, Firing, OrdersOf;
      OrdersConcat(Abs().stopBids[..n], Abs().stopAsks[..k]);
      var buys := FireSide(stopBids, true);
      var sells := FireSide(stopAsks, false);
      fired := buys + sells;
    }

    lemma OrdersConcat(s: seq<Entry>, t: seq<Entry>)
      ensures OrdersOf(s + t) == OrdersOf(s) + OrdersOf(t)
    {
    }

    lemma {:induction false} Round(b: Book, n: nat, k: nat)
      requires BookLaws.Sound(b) && n == Firing(true, b.stopBids, b.market) && k == Firing(false, b.stopAsks, b.market)
      ensures ParkedSide(true, b.stopBids) && ParkedSide(false, b.stopAsks)
      ensures var c := b.(stopBids := b.stopBids[n..], stopAsks := b.stopAsks[k..]);
        var fired := b.stopBids[..n] + b.stopAsks[..k];
        && BookLaws.Sound(c) && Batch(fired, Live(c)) && (OrdersOf(fired) == [] <==> n + k == 0)
        && Process(b) == if n + k == 0 then b else Process(SubmitAll(c, fired))
    {
      RoundSound(b, n, k);
      hide BookLaws.Sound, Batch, SubmitAll;
      if n + k == 0 { assert b.stopBids[0..] == b.stopBids && b.stopAsks[0..] == b.stopAsks; }
    }

    /** Tells the listener. */
    method Announce(e: Event)
      requires Wired()
      modifies this`log
      ensures Wired() && Repr() == old(Repr()) && Abs() == Tell(old(Abs()), e)
    {
      hide NarbTree.Valid, NarbTree.Entries;
      log := log + [e];
    }

    lemma AbsMarket()
      ensures Abs().market == market
    {
    }

    method Add(order: Order)
      requires Valid() && Fresh(order) && order.id !in Live(Abs())
      modifies Repr()
      ensures Valid() && Abs() == Books.Add(old(Abs()), order)
      ensures Repr() >= old(Repr()) && fresh(Repr() - old(Repr()))
    {
      hide Wired, Abs, BookLaws.Sound, Quiet, Process, Books.Submit, Park, Live, Tell;
      ghost var b := Abs();
      AddSound(b, order);
      AbsMarket();
      if order.qty == 0 {
        Announce(Rejected(order.id));
        return;
      }
      Announce(Accepted(order.id));
      Told(b, Accepted(order.id));
      if order.stop != 0 && (if order.isBuy then market < order.stop else market > order.stop) {
        ParkStop(order);
      } else {
        SubmitSound(Abs(), order);
        Submit(order);
        ProcessTriggered();
      }
    }

    /** Telling the listener changes nothing else. */
    lemma Told(b: Book, e: Event)
      requires BookLaws.Sound(b)
      ensures BookLaws.Sound(Tell(b, e)) && Live(Tell(b, e)) == Live(b) && Tell(b, e).market == b.market
    {
    }

    method ParkStop(o: Order)
      requires Wired() && o.id !in Live(Abs())
      modifies Repr()
      ensures Wired() && Abs() == Park(old(Abs()), o)
      ensures Repr() >= old(Repr()) && fresh(Repr() - old(Repr()))
    {
      hide NarbTree.Valid, NarbTree.Entries, Enqueue, Ids;
      HasIds(stopBids.Entries(), o.id);
      HasIds(stopAsks.Entries(), o.id);
      if o.isBuy { Enter(stopBids, o, o.stop); } else { Enter(stopAsks, o, o.stop); }
    }

    method Cancel(id: nat)
      requires Valid()
      modifies Repr()
      ensures Valid() && Repr() == old(Repr()) && Abs() == Books.Cancel(old(Abs()), id)
    {
      hide Wired, Abs, BookLaws.Sound, Quiet, Dequeue, Has, Tell;
      CancelSound(Abs(), id);
      var found := CancelResting(true, id);
      if !found { found := CancelResting(false, id); }
      if !found { found := CancelParked(true, id); }
      if !found { found := CancelParked(false, id); }
      Announce(if found then Cancelled(id) else CancelRejected(id));
    }

    /** Erases the order with an id from a resting side, if it is there. */
    method CancelResting(isBuy: bool, id: nat) returns (found: bool)
      requires Wired()
      modifies Repr()
      ensures Wired() && Repr() == old(Repr())
      ensures found <==> Has(if isBuy then old(Abs()).bids else old(Abs()).asks, id)
      ensures var b := old(Abs());
        Abs() == if !found then b else if isBuy
          then b.(bids := Dequeue(b.bids, id)) else b.(asks := Dequeue(b.asks, id))
    {
      hide NarbTree.Valid, NarbTree.Entries, NarbTree.List, Dequeue, Erased;
      if isBuy { found := CancelSide(bids, id); } else { found := CancelSide(asks, id); }
    }

    method CancelParked(isBuy: bool, id: nat) returns (found: bool)
      requires Wired()
      modifies Repr()
      ensures Wired() && Repr() == old(Repr())
      ensures found <==> Has(if isBuy then old(Abs()).stopBids else old(Abs()).stopAsks, id)
      ensures var b := old(Abs());
        Abs() == if !found then b else if isBuy
          then b.(stopBids := Dequeue(b.stopBids, id)) else b.(stopAsks := Dequeue(b.stopAsks, id))
    {
      hide NarbTree.Valid, NarbTree.Entries, NarbTree.List, Dequeue, Erased;
      if isBuy { found := CancelSide(stopBids, id); } else { found := CancelSide(stopAsks, id); }
    }

    method CancelSide(side: NarbTree, id: nat) returns (found: bool)
      requires side.Valid()
      modifies side.Repr()
      ensures side.Valid() && side.Repr() == old(side.Repr()) && (found <==> Has(old(side.Entries()), id))
      ensures side.Entries() == if found then Dequeue(old(side.Entries()), id) else old(side.Entries())
    {
      hide NarbTree.Valid, NarbTree.Entries, NarbTree.List, Dequeue, Erased;
      var loc := side.FindOrder(id);
      found := loc != Nil;
      if found { side.Erase(id); }
    }

    /** Changes size in place, or size and price by resubmitting. */
    method Replace(id: nat, delta: int, newPrice: nat)
      requires Valid()
      requires Has(Abs().bids, id) || Has(Abs().asks, id) ==> Replaceable(Resting(Abs(), id), delta, newPrice)
      modifies Repr()
      ensures Valid() && Abs() == Books.Replace(old(Abs()), id, delta, newPrice)
      ensures Repr() >= old(Repr()) && fresh(Repr() - old(Repr()))
    {
      hide Wired, Abs, BookLaws.Sound, Quiet, Has, Located, Amend, Reprice, Resting, Live;
      var isBuy, loc, o := Find(id);
      if loc == Nil {
        ReplaceSound(Abs(), id, delta, newPrice);
        Announce(ReplaceRejected(id));
        return;
      }
      if !(newPrice != MARKET && newPrice != o.price) {
        ReplaceInPlace(isBuy, loc, id, o, delta);
      } else {
        ReplaceMoved(isBuy, id, o, delta, newPrice);
      }
    }

    /** The resting order with an id is `o`. */
    ghost predicate Names(isBuy: bool, id: nat, o: Order)
      reads this, bids.chain, asks.chain, stopBids.chain, stopAsks.chain
    {
      && (isBuy <==> Has(Abs().bids, id)) && (isBuy || Has(Abs().asks, id))
      && o == Resting(Abs(), id) && o.id == id && o.Open() > 0
    }

    /** Changes the size of an order at its place in the queue, or erases it if nothing would be left. */
    method ReplaceInPlace(isBuy: bool, loc: Loc, id: nat, o: Order, delta: int)
      requires Valid() && Located(isBuy, loc, id) && Names(isBuy, id, o) && Replaceable(o, delta, MARKET)
      modifies Repr()
      ensures Valid() && Repr() == old(Repr())
      ensures Has(old(Abs()).bids, id) || Has(old(Abs()).asks, id)
      ensures Abs() == Amend(old(Abs()), id, delta)
    {
      hide Wired, Abs, Has, Withdraw, Change, Located, Resting, BookLaws.Sound, Quiet, Live;
      ReplaceSound(Abs(), id, delta, MARKET);
      var open := o.Open();
      if delta < 0 && -delta >= open {
        Drop(isBuy, id);
      } else {
        Resize(isBuy, loc, id, delta);
      }
      Announce(Replaced(id, delta, o.price));
    }

    /** Takes an order out and submits it with its new size and price. */
    method ReplaceMoved(isBuy: bool, id: nat, o: Order, delta: int, newPrice: nat)
      requires Valid() && Names(isBuy, id, o) && Reprices(o, newPrice) && Replaceable(o, delta, newPrice)
      modifies Repr()
      ensures Has(old(Abs()).bids, id) || Has(old(Abs()).asks, id)
      ensures old(Resting(Abs(), id)) == o && Valid() && Abs() == Reprice(old(Abs()), id, delta, newPrice)
      ensures Repr() >= old(Repr()) && fresh(Repr() - old(Repr()))
    {
      hide Wired, Abs, BookLaws.Sound, Quiet, Has, Withdraw, Process, Books.Submit, Live, Resting;
      ReplaceSound(Abs(), id, delta, newPrice);
      Resubmittable(Abs(), id, delta, newPrice);
      Drop(isBuy, id);
      var copy := o.Modify(delta, newPrice);
      Announce(Replaced(id, delta, copy.price));
      if copy.Open() == 0 { return; }
      Submit(copy);
      ProcessTriggered();
    }

    /** The side and place of the resting order an id names, bids before asks. */
    ghost predicate Located(isBuy: bool, loc: Loc, id: nat)
      reads bids.chain, asks.chain
    {
      && (isBuy <==> Has(bids.Entries(), id)) && (!isBuy ==> Has(asks.Entries(), id))
      && loc == if isBuy
        then LocAt(bids.List(), IndexOf(bids.Entries(), id)) else LocAt(asks.List(), IndexOf(asks.Entries(), id))
    }

    /** Finds a resting order, bids before asks. */
    method Find(id: nat) returns (isBuy: bool, loc: Loc, o: Order)
      requires Valid()
      ensures loc == Nil ==> !Has(Abs().bids, id) && !Has(Abs().asks, id)
      ensures loc != Nil ==> Located(isBuy, loc, id) && Names(isBuy, id, o)
    {
      hide NarbTree.Valid, NarbTree.Entries, NarbTree.List, Has, Resting, BookLaws.Sound, Quiet;
      isBuy := true;
      loc := bids.FindOrder(id);
      if loc == Nil {
        loc := asks.FindOrder(id);
        isBuy := false;
      }
      o := Order(0, true, 0, 0, 0, 0, 0, false, false);
      if loc != Nil {
        RestingIsLive(Abs(), id);
        o := Look(isBuy, loc, id);
      }
    }

    /** The resting order an id names. */
    method Look(isBuy: bool, loc: Loc, ghost id: nat) returns (o: Order)
      requires Wired() && Located(isBuy, loc, id) && (Has(Abs().bids, id) || Has(Abs().asks, id))
      ensures o == Resting(Abs(), id)
    {
      hide NarbTree.Valid, NarbTree.Entries, NarbTree.List;
      if isBuy { o := bids.Get(loc, IndexOf(bids.Entries(), id)); }
        else { o := asks.Get(loc, IndexOf(asks.Entries(), id)); }
    }

    method Drop(isBuy: bool, id: nat)
      requires Wired() && (isBuy <==> Has(Abs().bids, id))
      modifies Repr()
      ensures Wired() && Repr() == old(Repr()) && Abs() == Withdraw(old(Abs()), id)
    {
      hide NarbTree.Valid, NarbTree.Entries, NarbTree.List, Dequeue, Erased;
      if isBuy { bids.Erase(id); } else { asks.Erase(id); }
    }

    /** Changes the quantity of a resting order by `delta` where it is. */
    method Resize(isBuy: bool, loc: Loc, id: nat, delta: int)
      requires Wired() && Located(isBuy, loc, id) && (Has(Abs().bids, id) || Has(Abs().asks, id))
      requires var o := Resting(Abs(), id); 0 < o.Open() && o.filled < Wrap(o.qty + delta)
      modifies Repr()
      ensures Wired() && Repr() == old(Repr()) && Abs() == Regrown(old(Abs()), id, delta)
    {
      hide NarbTree.Valid, NarbTree.Entries, NarbTree.List;
      if isBuy {
        ResizeIn(bids, loc, id, delta);
      } else {
        ResizeIn(asks, loc, id, delta);
      }
    }

    method ResizeIn(side: NarbTree, loc: Loc, id: nat, delta: int)
      requires side.Valid() && Has(side.Entries(), id) && loc == LocAt(side.List(), IndexOf(side.Entries(), id))
      requires var o := side.Entries()[IndexOf(side.Entries(), id)].order;
        0 < o.Open() && o.filled < Wrap(o.qty + delta)
      modifies side.Repr()
      ensures side.Valid() && side.Repr() == old(side.Repr())
      ensures var e := old(side.Entries());
        side.Entries() == Rewrite(e, id, e[IndexOf(e, id)].order.Modify(delta, MARKET))
    {
      hide NarbTree.Valid, NarbTree.Entries, NarbTree.List;
      ghost var k := IndexOf(side.Entries(), id);
      var o := side.Get(loc, k);
      GrowsBy(o, delta);
      side.UpdateResting(loc, o.Modify(delta, MARKET), delta, k);
    }

    /** In 32 bits the order has as much more open as was asked for. */
    lemma GrowsBy(o: Order, delta: int)
      requires 0 < o.Open() && o.filled < Wrap(o.qty + delta)
      ensures Wrap(o.Modify(delta, MARKET).Open()) == Wrap(o.Open() + delta)
    {
      WrapAdd(o.qty + delta, 0 - o.filled);
    }

    lemma Resubmittable(b: Book, id: nat, delta: int, price: nat)
      requires BookLaws.Sound(b) && (Has(b.bids, id) || Has(b.asks, id)) && Replaceable(Resting(b, id), delta, price)
      requires Reprices(Resting(b, id), price)
      ensures var n := Resting(b, id).Modify(delta, price);
        var c := Tell(Withdraw(b, id), Replaced(id, delta, n.price));
        && BookLaws.Sound(c) && n.id !in Live(c) && (n.Open() > 0 ==> BookLaws.Sound(Books.Submit(c, n)))
    {
      RestingIsLive(b, id);
      WithdrawKept(b, id);
      var n := Resting(b, id).Modify(delta, price);
      Told(Withdraw(b, id), Replaced(id, delta, n.price));
      if n.Open() > 0 { SubmitSound(Tell(Withdraw(b, id), Replaced(id, delta, n.price)), n); }
    }

    method SetMarketPrice(px: nat)
      requires Valid()
      modifies Repr()
      ensures Valid() && Abs() == Books.SetMarketPrice(old(Abs()), px)
      ensures Repr() >= old(Repr()) && fresh(Repr() - old(Repr()))
    {
      hide NarbTree.Valid, NarbTree.Entries, Process;
      market := px;
      ProcessTriggered();
    }

    /** The first `size` rows of each side: exact aggregates, in strict order of price. */
    method Depth(size: nat) returns (bidRows: seq<Row>, askRows: seq<Row>)
      requires Valid()
      ensures bidRows == Top(Aggregate(Abs().bids), size) && askRows == Top(Aggregate(Abs().asks), size)
      ensures forall i, j :: 0 <= i < j < |bidRows| ==> bidRows[i].price > bidRows[j].price
      ensures forall i, j :: 0 <= i < j < |askRows| ==> askRows[i].price < askRows[j].price
    {
      hide NarbTree.Valid, NarbTree.Entries, Aggregate;
      bidRows := bids.FillDepth(size);
      askRows := asks.FillDepth(size);
      forall i, j | 0 <= i < j < |bidRows|
        ensures bidRows[i].price > bidRows[j].price
      {
        RowsOrdered(true, Abs().bids, i, j);
      }
      forall i, j | 0 <= i < j < |askRows|
        ensures askRows[i].price < askRows[j].price
      {
        RowsOrdered(false, Abs().asks, i, j);
      }
    }
  }

  function Top(s: seq<Row>, size: nat): seq<Row> {
    s[..if size < |s| then size else |s|]
  }

  /** The side after the entry at `k` has traded `qty`. */
  ghost predicate Traded(was: seq<Entry>, now: seq<Entry>, k: nat, qty: nat) {
    k < |was| && now == was[k := was[k].(order := was[k].order.Fill(qty, Cost(qty, was[k].order.price)))]
  }
}
