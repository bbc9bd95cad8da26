/**
  * What each public call of the matching book does to its state and what it tells, in the numbers
  * a caller sees: ids, prices, quantities, and the orders of the four sides.
  */
module CallEffects {
  import opened Orders
  import opened Queues
  import opened Matching
  import opened Books
  import opened BookLaws
  import opened Fates

  // ---- Limits ----

  /** Who trades is within the limit; if something of the order is left, all within it have been served. */
  lemma AllottedWithin(opp: seq<Entry>, o: Order, f: seq<nat>)
    requires Allotment(opp, o, f)
    ensures o.price != 0 && o.isBuy ==> forall i :: 0 <= i < |f| && f[i] > 0 ==> opp[i].order.price <= o.price
    ensures o.price != 0 && !o.isBuy ==> forall i :: 0 <= i < |f| && f[i] > 0 ==> opp[i].order.price >= o.price
    ensures Sum(f) < o.Open() && o.price == 0 ==> forall i :: 0 <= i < |f| ==> Served(opp, o.Open(), f, i)
    ensures Sum(f) < o.Open() && o.isBuy ==>
      forall i :: 0 <= i < |f| && opp[i].order.price <= o.price ==> Served(opp, o.Open(), f, i)
    ensures Sum(f) < o.Open() && !o.isBuy ==>
      forall i :: 0 <= i < |f| && opp[i].order.price >= o.price ==> Served(opp, o.Open(), f, i)
  {
    hide Served, Sum;
    forall i | 0 <= i < |f| && f[i] > 0 && o.price != 0
      ensures (o.isBuy ==> opp[i].order.price <= o.price) && (!o.isBuy ==> opp[i].order.price >= o.price)
    {
      assert Fair(opp, o, f, i);
    }
  }

  /** What ordinary orders have open within a limit; at limit zero, all of it. */
  ghost function OpenWithin(opp: seq<Entry>, buys: bool, limit: nat): nat {
    if opp == [] then 0
    else
      var px := opp[0].order.price;
      (if limit == 0 || (if buys then px <= limit else px >= limit) then opp[0].order.Open() else 0)
        + OpenWithin(opp[1..], buys, limit)
  }

  lemma {:induction false} AllOpenWithin(opp: seq<Entry>, buys: bool)
    ensures OpenWithin(opp, buys, 0) == TotalOpen(opp)
  {
    if opp != [] { AllOpenWithin(opp[1..], buys); }
  }

  lemma {:induction false} NoneWithin(opp: seq<Entry>, o: Order)
    requires ReachIsPrefix(opp, o) && (opp == [] || !Crosses(opp[0].order, o))
    ensures OpenWithin(opp, o.isBuy, o.price) == 0
    decreases |opp|
  {
    if opp != [] {
      RestReach(opp, o, o);
      assert |opp| > 1 ==> CrossBefore(opp, o, 0, 1);
      NoneWithin(opp[1..], o);
    }
  }

  /** Against ordinary orders an order takes all there is within its limit, and no more than it has open. */
  lemma {:induction false} TakesWithin(opp: seq<Entry>, o: Order, market: nat)
    requires ReachIsPrefix(opp, o) && PlainSide(opp)
    ensures var there := OpenWithin(opp, o.isBuy, o.price);
      MatchRegular(opp, o, market).taker.Open() == if there >= o.Open() then 0 else o.Open() - there
    decreases |opp|
  {
    if opp == [] || !Crosses(opp[0].order, o) {
      NoneWithin(opp, o);
    } else if o.Open() > 0 {
      assert opp[0] in opp;
      var q := Min(o.Open(), opp[0].order.Open());
      var t := o.Fill(q, Cost(q, opp[0].order.price));
      RestReach(opp, o, t);
      RegularStep(opp, o, market);
      TakesWithin(opp[1..], t, opp[0].order.price);
    }
  }

  /** The same of every incoming order: an all-or-none order takes all it has open, if that is there, or nothing. */
  lemma MatchTakes(buy: bool, opp: seq<Entry>, o: Order, market: nat)
    requires RestingSide(buy, opp) && PlainSide(opp) && o.isBuy != buy
    ensures var there := if o.price == 0 then TotalOpen(opp) else OpenWithin(opp, o.isBuy, o.price);
      Match(opp, o, market).taker.Open()
        == if there >= o.Open() then 0 else if o.aon then o.Open() else o.Open() - there
  {
    hide RestingSide, ReachIsPrefix, MatchRegular, MatchAon, OpenWithin, TotalOpen;
    SideReady(buy, opp);
    ReachOfSide(buy, opp, o);
    TakesWithin(opp, o, market);
    AllOpenWithin(opp, o.isBuy);
    if o.aon { AonIsAllOrNothing(opp, o, market); }
  }

  // ---- Cancelling ----

  /** The entries of all other orders, in their order. */
  ghost function Others(s: seq<Entry>, id: nat): seq<Entry> {
    if s == [] then [] else (if s[0].order.id == id then [] else [s[0]]) + Others(s[1..], id)
  }

  lemma {:induction false} NoOthers(s: seq<Entry>, id: nat)
    requires id !in Ids(s)
    ensures Others(s, id) == s
  {
    if s != [] {
      IdsConcat([s[0]], s[1..]);
      assert [s[0]] + s[1..] == s && [s[0]][0].order.id in Ids([s[0]]);
      NoOthers(s[1..], id);
    }
  }

  lemma {:induction false} DequeueOthers(s: seq<Entry>, id: nat)
    requires UniqueIds(s)
    ensures Dequeue(s, id) == Others(s, id) && Ids(Others(s, id)) == Ids(s) - {id}
  {
    HasIds(s, id);
    if !Has(s, id) {
      NoOthers(s, id);
    } else {
      DequeueIds(s, id);
      DequeueFirst(s, id);
    }
  }

  lemma {:induction false} DequeueFirst(s: seq<Entry>, id: nat)
    requires UniqueIds(s) && Has(s, id)
    ensures Dequeue(s, id) == Others(s, id)
  {
    FirstApart(s);
    var p := IndexOf(s, id);
    if p == 0 {
      NoOthers(s[1..], id);
      assert s[..0] + s[1..] == s[1..] && [] + s[1..] == s[1..];
    } else {
      DequeueFirst(s[1..], id);
      assert s[..p] + s[p + 1..] == [s[0]] + (s[1..][..p - 1] + s[1..][p..]);
    }
  }

  /** Exactly the order named leaves, from whichever side it is on, and the listener is told so. */
  lemma CancelEffect(b: Book, id: nat)
    requires Sound(b)
    ensures var c := Cancel(b, id);
      && c.bids == Others(b.bids, id) && c.asks == Others(b.asks, id)
      && c.stopBids == Others(b.stopBids, id) && c.stopAsks == Others(b.stopAsks, id)
      && Live(c) == Live(b) - {id} && c.market == b.market
      && c.log == b.log + [if id in Live(b) then Cancelled(id) else CancelRejected(id)]
  {
    hide UniqueIds, Ids, ByKey, Uncrossed, Others, Has, Dequeue;
    HasIds(b.bids, id);
    HasIds(b.asks, id);
    HasIds(b.stopBids, id);
    HasIds(b.stopAsks, id);
    DequeueOthers(b.bids, id);
    DequeueOthers(b.asks, id);
    DequeueOthers(b.stopBids, id);
    DequeueOthers(b.stopAsks, id);
    NotNamed(b, id);
  }

  lemma NotNamed(b: Book, id: nat)
    ensures id !in Ids(b.bids) ==> Others(b.bids, id) == b.bids
    ensures id !in Ids(b.asks) ==> Others(b.asks, id) == b.asks
    ensures id !in Ids(b.stopBids) ==> Others(b.stopBids, id) == b.stopBids
    ensures id !in Ids(b.stopAsks) ==> Others(b.stopAsks, id) == b.stopAsks
  {
    if id !in Ids(b.bids) { NoOthers(b.bids, id); }
    if id !in Ids(b.asks) { NoOthers(b.asks, id); }
    if id !in Ids(b.stopBids) { NoOthers(b.stopBids, id); }
    if id !in Ids(b.stopAsks) { NoOthers(b.stopAsks, id); }
  }

  // ---- Stops ----

  /** The stops of a side that the market price has reached, and those that it has not. */
  ghost function AtMarket(buy: bool, s: seq<Entry>, market: nat): seq<Entry> {
    if s == [] then []
    else
      (if (if buy then s[0].key <= market else s[0].key >= market) then [s[0]] else [])
        + AtMarket(buy, s[1..], market)
  }

  ghost function ShortOf(buy: bool, s: seq<Entry>, market: nat): seq<Entry> {
    if s == [] then []
    else
      (if (if buy then s[0].key > market else s[0].key < market) then [s[0]] else [])
        + ShortOf(buy, s[1..], market)
  }

  lemma {:induction false} NoneReached(buy: bool, s: seq<Entry>, market: nat)
    requires forall i :: 0 <= i < |s| ==> (buy ==> s[i].key > market) && (!buy ==> s[i].key < market)
    ensures AtMarket(buy, s, market) == [] && ShortOf(buy, s, market) == s
  {
    if s != [] { NoneReached(buy, s[1..], market); }
  }

  lemma SplitFirst<T>(s: seq<T>, k: nat)
    requires s != [] && k < |s|
    ensures s[..k + 1] == [s[0]] + s[1..][..k] && s[k + 1..] == s[1..][k..]
  {
  }

  /** A stop at the front that fires has been reached. */
  lemma FrontFires(buy: bool, s: seq<Entry>, market: nat)
    requires Firing(buy, s, market) > 0
    ensures s != [] && Firing(buy, s, market) == 1 + Firing(buy, s[1..], market)
    ensures AtMarket(buy, s, market) == [s[0]] + AtMarket(buy, s[1..], market)
    ensures ShortOf(buy, s, market) == ShortOf(buy, s[1..], market)
  {
  }

  /** The stops that fire are those the market price has reached: best first they are a prefix. */
  lemma {:induction false} FiringIsReached(buy: bool, s: seq<Entry>, market: nat)
    requires ByKey(!buy, s)
    ensures var n := Firing(buy, s, market);
      s[..n] == AtMarket(buy, s, market) && s[n..] == ShortOf(buy, s, market)
  {
    hide Firing, AtMarket, ShortOf, ByKey;
    var n := Firing(buy, s, market);
    if n == 0 {
      NoneFiring(buy, s, market);
      NoneReached(buy, s, market);
    } else {
      FrontFires(buy, s, market);
      SplitFirst(s, n - 1);
      ByKeyRest(!buy, s, 1);
      FiringIsReached(buy, s[1..], market);
    }
  }

  lemma NoneFiring(buy: bool, s: seq<Entry>, market: nat)
    requires ByKey(!buy, s) && Firing(buy, s, market) == 0
    ensures forall i :: 0 <= i < |s| ==> (buy ==> s[i].key > market) && (!buy ==> s[i].key < market)
  {
    forall i | 0 <= i < |s| ensures (buy ==> s[i].key > market) && (!buy ==> s[i].key < market) {
      assert i > 0 ==> KeyOrder(!buy, s, 0, i);
    }
  }

  /** A round submits the buy stops the market price has reached, then the sell stops, each side in its order. */
  lemma RoundFires(b: Book)
    requires Sound(b)
    ensures var fired := AtMarket(true, b.stopBids, b.market) + AtMarket(false, b.stopAsks, b.market);
      var c := b.(stopBids := ShortOf(true, b.stopBids, b.market), stopAsks := ShortOf(false, b.stopAsks, b.market));
      Process(b) == if fired == [] then b else Process(SubmitAll(c, fired))
  {
    hide SubmitAll, RestingSide, Firing, AtMarket, ShortOf, ByKey, Uncrossed;
    FiringIsReached(true, b.stopBids, b.market);
    FiringIsReached(false, b.stopAsks, b.market);
  }

  /** One by one: each order meets the book the one before it has left. */
  lemma {:induction false} OneByOne(b: Book, s: seq<Entry>, e: Entry)
    ensures SubmitAll(b, []) == b && SubmitAll(b, s + [e]) == Submit(SubmitAll(b, s), e.order)
    decreases |s|
  {
    hide Submit;
    if s == [] {
      assert [] + [e] == [e] && [e][1..] == [];
    } else {
      OneByOne(Submit(b, s[0].order), s[1..], e);
      assert (s + [e])[1..] == s[1..] + [e];
    }
  }

  /** Every parked buy stop is above the market price, and every parked sell stop below. */
  ghost predicate StopsWait(b: Book) {
    && (forall e :: e in b.stopBids ==> e.key == e.order.stop > b.market)
    && (forall e :: e in b.stopAsks ==> e.key == e.order.stop < b.market)
  }

  lemma QuietMeans(b: Book)
    requires Sound(b)
    ensures Quiet(b) <==> StopsWait(b)
  {
    hide RestingSide, Uncrossed, ByKey, UniqueIds, Ids;
    if Quiet(b) {
      forall e | e in b.stopBids ensures e.key == e.order.stop > b.market {
        var i :| 0 <= i < |b.stopBids| && b.stopBids[i] == e;
        assert MayPark(true, b.stopBids[i]);
      }
      forall e | e in b.stopAsks ensures e.key == e.order.stop < b.market {
        var i :| 0 <= i < |b.stopAsks| && b.stopAsks[i] == e;
        assert MayPark(false, b.stopAsks[i]);
      }
    }
    if StopsWait(b) {
      assert forall i :: 0 <= i < |b.stopBids| ==> b.stopBids[i] in b.stopBids;
      assert forall i :: 0 <= i < |b.stopAsks| ==> b.stopAsks[i] in b.stopAsks;
    }
  }

  /** After every call, whatever the run before it, no stop is parked that the market price has reached. */
  lemma {:induction false} ReachableStopsWait(ops: seq<Op>)
    requires Runs(EMPTY_BOOK, ops)
    ensures StopsWait(After(EMPTY_BOOK, ops))
  {
    EmptyIsSound();
    RunsKeep(EMPTY_BOOK, ops);
    QuietMeans(After(EMPTY_BOOK, ops));
  }

  lemma {:induction false} ReachedIn(buy: bool, s: seq<Entry>, market: nat, e: Entry)
    requires e in s && (buy ==> e.key <= market) && (!buy ==> e.key >= market)
    ensures e in AtMarket(buy, s, market)
  {
    if s[0] != e { ReachedIn(buy, s[1..], market, e); }
  }

  /** A stop that the market price has reached fires: it ends up as an order that has been submitted. */
  lemma ReachedFires(b: Book, e: Entry)
    requires Sound(b)
    requires (e in b.stopBids && e.key <= b.market) || (e in b.stopAsks && e.key >= b.market)
    ensures Grows(b, Process(b))
    ensures EndsUp(e.order, TradedOf(News(b, Process(b)), e.order.id), SpotOf(Process(b), e.order.id))
  {
    hide Sound, SubmitAll, SpotOf, TradedOf, Live, EndsUp, Batch, Firing, Process;
    var n, k := Firing(true, b.stopBids, b.market), Firing(false, b.stopAsks, b.market);
    var c := b.(stopBids := b.stopBids[n..], stopAsks := b.stopAsks[k..]);
    var fired := b.stopBids[..n] + b.stopAsks[..k];
    ReachedFirst(b, e);
    NextRound(b);
    RoundSound(b, n, k);
    SubmitAllSound(c, fired);
    FiredEnds(c, fired, e);
    var id, d := e.order.id, SubmitAll(c, fired);
    ProcessFates(d, id);
    EndsUpOn(e.order, SpotOf(d, id), SpotOf(Process(d), id), TradedOf(News(c, d), id),
        TradedOf(News(d, Process(d)), id));
    NewsOn(c, d, Process(d), id);
  }

  lemma FiredEnds(c: Book, fired: seq<Entry>, e: Entry)
    requires Sound(c) && Batch(fired, Live(c)) && e in fired
    ensures var d, id := SubmitAll(c, fired), e.order.id;
      Grows(c, d) && EndsUp(e.order, TradedOf(News(c, d), id), SpotOf(d, id))
  {
    hide Sound, SubmitAll, SpotOf, TradedOf, Live, EndsUp, Batch, Evolves;
    SubmitAllFates(c, fired, e.order.id);
    BatchNames(fired, Live(c), e);
  }

  lemma ReachedFirst(b: Book, e: Entry)
    requires Sound(b)
    requires (e in b.stopBids && e.key <= b.market) || (e in b.stopAsks && e.key >= b.market)
    ensures e in b.stopBids[..Firing(true, b.stopBids, b.market)] + b.stopAsks[..Firing(false, b.stopAsks, b.market)]
  {
    hide RestingSide, Firing, AtMarket, ShortOf, ByKey, Uncrossed;
    FiringIsReached(true, b.stopBids, b.market);
    FiringIsReached(false, b.stopAsks, b.market);
    if e in b.stopBids && e.key <= b.market { ReachedIn(true, b.stopBids, b.market, e); }
      else { ReachedIn(false, b.stopAsks, b.market, e); }
  }

  lemma BatchNames(s: seq<Entry>, live: set<nat>, e: Entry)
    requires Batch(s, live) && e in s
    ensures Has(s, e.order.id) && s[IndexOf(s, e.order.id)] == e
  {
    Sole(s, e);
  }

  /** Stops that wait for the market price keep waiting. */
  lemma WaitingKeeps(b: Book)
    requires Sound(b) && StopsWait(b)
    ensures Process(b) == b
  {
    QuietMeans(b);
  }

  /** Setting the market price fires what the price has reached, and nothing else happens by itself. */
  lemma SetPriceEffect(b: Book, px: nat)
    requires Sound(b)
    ensures var c := SetMarketPrice(b, px);
      && Grows(b, c)
      && (forall e :: e in b.stopBids && e.key <= px ==>
           EndsUp(e.order, TradedOf(News(b, c), e.order.id), SpotOf(c, e.order.id)))
      && (forall e :: e in b.stopAsks && e.key >= px ==>
           EndsUp(e.order, TradedOf(News(b, c), e.order.id), SpotOf(c, e.order.id)))
      && (StopsWait(b.(market := px)) ==> c == b.(market := px))
      && StopsWait(c)
  {
    hide EndsUp, TradedOf, SpotOf, Process, StopsWait, Sound;
    var d := b.(market := px);
    SoundAt(b, px);
    ProcessSound(d);
    QuietMeans(Process(d));
    ProcessFates(d, 0);
    forall e | (e in b.stopBids && e.key <= px) || (e in b.stopAsks && e.key >= px)
      ensures EndsUp(e.order, TradedOf(News(d, Process(d)), e.order.id), SpotOf(Process(d), e.order.id))
    {
      ReachedFires(d, e);
    }
    if StopsWait(d) { WaitingKeeps(d); }
  }

  lemma SoundAt(b: Book, px: nat)
    ensures Sound(b) <==> Sound(b.(market := px))
  {
  }

  /** Every call that is allowed leaves the stops waiting. */
  lemma CallStopsWait(b: Book, op: Op)
    requires Sound(b) && StopsWait(b) && Allowed(b, op)
    ensures Sound(Step(b, op)) && StopsWait(Step(b, op))
  {
    hide Sound, Quiet, StopsWait, Step, Allowed;
    QuietMeans(b);
    StepSound(b, op);
    QuietMeans(Step(b, op));
  }

  // ---- Adding ----

  /** A stop order whose price the market has not reached. */
  ghost predicate Waits(o: Order, market: nat) {
    o.stop != 0 && (o.isBuy ==> market < o.stop) && (!o.isBuy ==> o.stop < market)
  }

  /** An accepted order is parked, or it trades with the other side first and ends up as `EndsUp` says. */
  lemma AddEffect(b: Book, o: Order) returns (f: seq<nat>)
    requires Sound(b) && Quiet(b) && Fresh(o) && o.id !in Live(b)
    ensures o.qty == 0 ==> Add(b, o) == b.(log := b.log + [Rejected(o.id)])
    ensures o.qty > 0 && Waits(o, b.market) ==> var c, e := Add(b, o), Entry(o.stop, o);
      && c.log == b.log + [Accepted(o.id)] && c.bids == b.bids && c.asks == b.asks && c.market == b.market
      && StopSide(c, o) == Enqueue(!o.isBuy, StopSide(b, o), e)
      && (if o.isBuy then c.stopAsks == b.stopAsks else c.stopBids == b.stopBids) && SpotOf(c, o.id) == Parks(o)
    ensures o.qty > 0 && !Waits(o, b.market) ==> var c, opp := Add(b, o), OppositeSide(b, o);
      && |f| == |opp| && (Allotment(opp, o, f) || (o.aon && Sum(f) == 0))
      && b.log + [Accepted(o.id)] + Report(opp, f, o.id) <= c.log
      && EndsUp(o, TradedOf(News(b, c), o.id), SpotOf(c, o.id))
  {
    hide Sound, Quiet, Process, Submit, SpotOf, TradedOf, EndsUp, Allotment, Report, Live, Sum, Enqueue;
    f := [];
    if o.qty > 0 {
      if Waits(o, b.market) { ParkEvolves(b, o, o.id); } else { f := Submitted(b, o, Accepted(o.id)); }
    }
  }

  /** The listener is told `e`, and the order is submitted with all that follows from it. */
  lemma Submitted(b: Book, o: Order, e: Event) returns (f: seq<nat>)
    requires Sound(b) && MaySubmit(o) && o.id !in Live(b) && !e.Filled?
    ensures var c, opp := Process(Submit(Tell(b, e), o)), OppositeSide(b, o);
      && |f| == |opp| && (Allotment(opp, o, f) || (o.aon && Sum(f) == 0))
      && b.log + [e] + Report(opp, f, o.id) <= c.log
      && EndsUp(o, TradedOf(News(b, c), o.id), SpotOf(c, o.id))
  {
    hide Sound, Process, Submit, SpotOf, TradedOf, EndsUp, Allotment, Report, Live, Sum, Match, Remains, LastPrice;
    var t := Tell(b, e);
    TellSame(b, e, o.id);
    f := SubmitParts(t, o);
    SubmitEnds(t, o);
    SubmitSound(t, o);
    var c := Submit(t, o);
    ProcessFates(c, o.id);
    EndsUpOn(o, SpotOf(c, o.id), SpotOf(Process(c), o.id), TradedOf(News(t, c), o.id),
        TradedOf(News(c, Process(c)), o.id));
    NewsOn(t, c, Process(c), o.id);
    NewsOn(b, t, Process(c), o.id);
  }

  /** What is told beside trades changes no side, and no account. */
  lemma TellSame(b: Book, e: Event, id: nat)
    requires !e.Filled?
    ensures Sound(Tell(b, e)) <==> Sound(b)
    ensures Live(Tell(b, e)) == Live(b) && SpotOf(Tell(b, e), id) == SpotOf(b, id)
    ensures Grows(b, Tell(b, e)) && TradedOf(News(b, Tell(b, e)), id) == 0
  {
    assert News(b, Tell(b, e)) == [e] && [e][1..] == [];
  }

  /** Any other order only trades. */
  lemma SubmittedEvolves(b: Book, o: Order, e: Event, id: nat)
    requires Sound(b) && MaySubmit(o) && o.id !in Live(b) && !e.Filled? && id != o.id
    ensures var c := Process(Submit(Tell(b, e), o));
      Grows(b, c) && Evolves(SpotOf(b, id), SpotOf(c, id), TradedOf(News(b, c), id))
  {
    hide Sound, Process, Submit, SpotOf, TradedOf, Evolves, Live;
    var t := Tell(b, e);
    TellSame(b, e, id);
    SubmitEvolves(t, o, id);
    SubmitSound(t, o);
    var c := Submit(t, o);
    ProcessFates(c, id);
    EvolvesOn(SpotOf(t, id), SpotOf(c, id), SpotOf(Process(c), id), TradedOf(News(t, c), id),
        TradedOf(News(c, Process(c)), id));
    NewsOn(t, c, Process(c), id);
    NewsOn(b, t, Process(c), id);
  }

  lemma ParkEvolves(b: Book, o: Order, id: nat)
    requires Sound(b) && Quiet(b) && Fresh(o) && o.qty > 0 && o.id !in Live(b) && Waits(o, b.market)
    ensures var c := Park(Tell(b, Accepted(o.id)), o);
      && Grows(b, c) && SpotOf(c, o.id) == Parks(o)
      && (id != o.id ==> Evolves(SpotOf(b, id), SpotOf(c, id), TradedOf(News(b, c), id)))
  {
    hide RestingSide, ParkedSide, Uncrossed, SpotOf, TradedOf, Evolves, Enqueue, Ids;
    var t, c := Tell(b, Accepted(o.id)), Park(Tell(b, Accepted(o.id)), o);
    TellEvolves(b, Accepted(o.id), id);
    ParkKept(t, o);
    Enqueued(!o.isBuy, StopSide(b, o), Entry(o.stop, o));
    ParksAt(c, Entry(o.stop, o));
    if id != o.id { SameSpot(c, t, id); }
  }

  lemma AddEvolves(b: Book, o: Order, id: nat)
    requires Sound(b) && Quiet(b) && Fresh(o) && o.id !in Live(b) && id != o.id
    ensures var c := Add(b, o); Grows(b, c) && Evolves(SpotOf(b, id), SpotOf(c, id), TradedOf(News(b, c), id))
  {
    hide Sound, Process, Submit, SpotOf, TradedOf, Evolves, Live, Park;
    if o.qty == 0 {
      TellEvolves(b, Rejected(o.id), id);
    } else if o.stop != 0 && Stopped(o, b.market) {
      ParkEvolves(b, o, id);
    } else {
      SubmittedEvolves(b, o, Accepted(o.id), id);
    }
  }

  lemma TellEvolves(b: Book, e: Event, id: nat)
    requires Sound(b) && !e.Filled?
    ensures var c := Tell(b, e); Grows(b, c) && Evolves(SpotOf(b, id), SpotOf(c, id), TradedOf(News(b, c), id))
  {
    hide Sound, SpotOf, TradedOf;
    TellSame(b, e, id);
    SpotMeans(b, id);
    EvolvesNot(SpotOf(b, id));
  }

  // ---- Replacing ----

  /** A replacement names a resting order; any other id, that of a parked stop included, is refused. */
  lemma ReplaceRefused(b: Book, id: nat, delta: int, price: nat)
    requires Sound(b) && !SpotOf(b, id).Rests?
    ensures !Has(b.bids, id) && !Has(b.asks, id)
    ensures Replace(b, id, delta, price) == b.(log := b.log + [ReplaceRejected(id)])
  {
  }

  lemma RestsIf(b: Book, id: nat)
    requires Sound(b) && SpotOf(b, id).Rests?
    ensures Has(b.bids, id) || Has(b.asks, id)
    ensures Resting(b, id) == SpotOf(b, id).order && (Has(b.bids, id) <==> SpotOf(b, id).order.isBuy)
  {
    hide IndexOf, UniqueIds, ByKey, Ids, Uncrossed;
    OnSide(b.bids, id);
    OnSide(b.asks, id);
    assert Has(b.bids, id) ==> MayRest(true, b.bids[IndexOf(b.bids, id)]);
    assert Has(b.asks, id) ==> MayRest(false, b.asks[IndexOf(b.asks, id)]);
  }

  /** A cut of the size by all that is open takes the order out. */
  lemma ReplaceRemoves(b: Book, id: nat, delta: int, price: nat)
    requires Sound(b) && SpotOf(b, id).Rests?
    requires var o := SpotOf(b, id).order;
      Adds32(o.qty, delta) && (price == 0 || price == o.price) && o.Open() + delta <= 0
    ensures Has(b.bids, id) || Has(b.asks, id)
    ensures var o, c := SpotOf(b, id).order, Replace(b, id, delta, price);
      && c.bids == Others(b.bids, id) && c.asks == Others(b.asks, id) && c.stopBids == b.stopBids
      && c.stopAsks == b.stopAsks && Live(c) == Live(b) - {id} && c.market == b.market
      && c.log == b.log + [Replaced(id, delta, o.price)]
  {
    hide UniqueIds, Ids, ByKey, Uncrossed, Others, Dequeue, IndexOf, Has;
    RestsIf(b, id);
    SpotMeans(b, id);
    HasIds(b.bids, id);
    HasIds(b.asks, id);
    DequeueOthers(b.bids, id);
    DequeueOthers(b.asks, id);
    NotNamed(b, id);
  }

  /** The side with one order's quantity changed at its place. */
  ghost predicate ResizedAt(s: seq<Entry>, t: seq<Entry>, id: nat, qty: nat) {
    |s| == |t| && forall i :: 0 <= i < |s| ==>
      t[i] == if s[i].order.id == id then Entry(s[i].key, s[i].order.(qty := qty)) else s[i]
  }

  /** A change of the size only: the order keeps its place, with the new quantity cut to 32 bits. */
  lemma ReplaceResizes(b: Book, id: nat, delta: int, price: nat)
    requires Sound(b) && SpotOf(b, id).Rests?
    requires var o := SpotOf(b, id).order;
      Adds32(o.qty, delta) && (price == 0 || price == o.price) && o.Open() + delta > 0
    ensures Has(b.bids, id) || Has(b.asks, id)
    ensures var o, c := SpotOf(b, id).order, Replace(b, id, delta, price);
      var qty := (o.qty + delta) % 0x1_0000_0000;
      && ResizedAt(b.bids, c.bids, id, qty) && ResizedAt(b.asks, c.asks, id, qty)
      && c.stopBids == b.stopBids && c.stopAsks == b.stopAsks && c.market == b.market
      && c.log == b.log + [Replaced(id, delta, o.price)]
  {
    hide ByKey, Uncrossed, IndexOf, Has, ParkedSide;
    RestsIf(b, id);
    HasIds(b.bids, id);
    HasIds(b.asks, id);
    RewriteAt(b.bids, id, Resting(b, id).Modify(delta, MARKET));
    RewriteAt(b.asks, id, Resting(b, id).Modify(delta, MARKET));
  }

  lemma RewriteAt(s: seq<Entry>, id: nat, o: Order)
    requires UniqueIds(s)
    ensures Has(s, id) && o == s[IndexOf(s, id)].order.(qty := o.qty) ==> ResizedAt(s, Rewrite(s, id, o), id, o.qty)
    ensures id !in Ids(s) ==> ResizedAt(s, s, id, o.qty)
  {
    var p := IndexOf(s, id);
    forall i | 0 <= i < |s| && i != p ensures s[i].order.id != id || p == |s| {
      assert p < i ==> IdsDiffer(s, p, i);
    }
    if id !in Ids(s) {
      forall i | 0 <= i < |s| ensures s[i].order.id != id { assert s[i].order.id in Ids(s); }
    }
  }

  /**
    * A new price: the order is taken out and meets the other side with the new price and quantity,
    * both cut to 32 bits. What is open under the new quantity is what is told to have been traded
    * since plus what rests.
    */
  lemma ReplaceMoves(b: Book, id: nat, delta: int, price: nat) returns (f: seq<nat>)
    requires Sound(b) && SpotOf(b, id).Rests?
    requires var o := SpotOf(b, id).order; Adds32(o.qty, delta) && price != 0 && price != o.price
    ensures Has(b.bids, id) || Has(b.asks, id)
    ensures var o, c := SpotOf(b, id).order, Replace(b, id, delta, price);
      var n := o.(qty := (o.qty + delta) % 0x1_0000_0000, price := price % 0x1_0000_0000);
      var opp := OppositeSide(b, o);
      && |f| == |opp| && (n.Open() > 0 ==> Allotment(opp, n, f) || (n.aon && Sum(f) == 0))
      && (n.Open() == 0 ==> Sum(f) == 0)
      && b.log + [Replaced(id, delta, n.price)] + Report(opp, f, id) <= c.log
      && EndsUp(n, TradedOf(News(b, c), id), SpotOf(c, id))
  {
    hide Sound, Process, Submit, SpotOf, TradedOf, EndsUp, Allotment, Report, Live, Sum, Withdraw, Has;
    RestsIf(b, id);
    SpotMeans(b, id);
    var o := SpotOf(b, id).order;
    var n := o.Modify(delta, price);
    var w, e := Withdraw(b, id), Replaced(id, delta, n.price);
    WithdrawKept(b, id);
    WithdrawSides(b, id);
    if n.Open() > 0 {
      MayMove(b, id, n);
      f := Submitted(w, n, e);
    } else {
      f := seq(|OppositeSide(b, o)|, i => 0);
      Zeros(OppositeSide(b, o), f, id);
      TellSame(w, e, id);
      SpotMeans(w, id);
      MovesNothing(n);
    }
  }

  lemma MovesNothing(o: Order)
    requires o.Open() == 0
    ensures EndsUp(o, 0, Absent)
  {
  }

  lemma WithdrawSides(b: Book, id: nat)
    requires Sound(b) && (Has(b.bids, id) || Has(b.asks, id))
    ensures var w := Withdraw(b, id);
      && w.bids == Others(b.bids, id) && w.asks == Others(b.asks, id)
      && w.stopBids == b.stopBids && w.stopAsks == b.stopAsks && w.market == b.market && w.log == b.log
      && (if Has(b.bids, id) then w.asks == b.asks else w.bids == b.bids)
  {
    hide ByKey, Uncrossed, Others, Dequeue, Has;
    HasIds(b.bids, id);
    HasIds(b.asks, id);
    DequeueOthers(b.bids, id);
    DequeueOthers(b.asks, id);
    NotNamed(b, id);
  }

  lemma MayMove(b: Book, id: nat, n: Order)
    requires Sound(b) && (Has(b.bids, id) || Has(b.asks, id)) && n.Open() > 0 && n.qty < WORD && n.price < WORD
    requires n.aon == Resting(b, id).aon && n.filled == Resting(b, id).filled
    ensures MaySubmit(n)
  {
    RestingIsLive(b, id);
  }

  // ---- Orders on which a call does not act ----

  lemma {:induction false} InOthers(s: seq<Entry>, id: nat, x: Entry)
    ensures x in Others(s, id) <==> x in s && x.order.id != id
  {
    if s != [] { InOthers(s[1..], id, x); }
  }

  /** The entries of an id are the same in both books. */
  ghost predicate SameEntries(b: Book, c: Book, id: nat) {
    forall x: Entry :: x.order.id == id ==>
      && (x in b.bids <==> x in c.bids) && (x in b.asks <==> x in c.asks)
      && (x in b.stopBids <==> x in c.stopBids) && (x in b.stopAsks <==> x in c.stopAsks)
  }

  lemma SameEntriesSpot(b: Book, c: Book, id: nat)
    requires Sound(b) && Sound(c) && SameEntries(b, c, id)
    ensures SpotOf(b, id) == SpotOf(c, id)
  {
    hide Sound, SpotOf, Live;
    SpotMeans(b, id);
    SpotMeans(c, id);
    SpotCarried(b, c, id);
    SpotCarried(c, b, id);
  }

  lemma SpotCarried(b: Book, c: Book, id: nat)
    requires Sound(b) && Sound(c) && SameEntries(b, c, id)
    ensures SpotOf(b, id) != Absent ==> SpotOf(c, id) == SpotOf(b, id)
  {
    hide Sound, SpotOf, Live;
    SpotMeans(b, id);
    var x := SpotOf(b, id);
    if x.Rests? {
      RestsAt(c, Entry(x.order.price, x.order));
    } else if x.Parks? {
      ParksAt(c, Entry(x.order.stop, x.order));
    }
  }

  lemma OthersSame(b: Book, c: Book, gone: nat, id: nat)
    requires Sound(b) && Sound(c) && id != gone
    requires c.bids == Others(b.bids, gone) && c.asks == Others(b.asks, gone)
    requires c.stopBids == b.stopBids || c.stopBids == Others(b.stopBids, gone)
    requires c.stopAsks == b.stopAsks || c.stopAsks == Others(b.stopAsks, gone)
    ensures SpotOf(b, id) == SpotOf(c, id)
  {
    hide Sound, SpotOf, Others;
    forall x: Entry | x.order.id == id
      ensures (x in b.bids <==> x in c.bids) && (x in b.asks <==> x in c.asks)
      ensures (x in b.stopBids <==> x in c.stopBids) && (x in b.stopAsks <==> x in c.stopAsks)
    {
      InOthers(b.bids, gone, x);
      InOthers(b.asks, gone, x);
      InOthers(b.stopBids, gone, x);
      InOthers(b.stopAsks, gone, x);
    }
    SameEntriesSpot(b, c, id);
  }

  /** One event that is no trade has been told, and the order is where it was. */
  lemma ToldOnly(b: Book, c: Book, e: Event, id: nat)
    requires Sound(b) && c.log == b.log + [e] && !e.Filled? && SpotOf(c, id) == SpotOf(b, id)
    ensures Grows(b, c) && Evolves(SpotOf(b, id), SpotOf(c, id), TradedOf(News(b, c), id))
  {
    hide Sound, SpotOf;
    SpotMeans(b, id);
    EvolvesNot(SpotOf(b, id));
    assert News(b, c) == [e] && [e][1..] == [];
  }

  lemma CancelEvolves(b: Book, gone: nat, id: nat)
    requires Sound(b) && Quiet(b) && id != gone
    ensures var c := Cancel(b, gone); Grows(b, c) && Evolves(SpotOf(b, id), SpotOf(c, id), TradedOf(News(b, c), id))
  {
    hide Sound, Quiet, Cancel, SpotOf, TradedOf, Evolves;
    CancelEffect(b, gone);
    CancelSound(b, gone);
    OthersSame(b, Cancel(b, gone), gone, id);
    ToldOnly(b, Cancel(b, gone), if gone in Live(b) then Cancelled(gone) else CancelRejected(gone), id);
  }

  lemma ResizedSame(b: Book, c: Book, changed: nat, qty: nat, id: nat)
    requires Sound(b) && Sound(c) && id != changed && ResizedAt(b.bids, c.bids, changed, qty)
    requires ResizedAt(b.asks, c.asks, changed, qty) && c.stopBids == b.stopBids && c.stopAsks == b.stopAsks
    ensures SpotOf(b, id) == SpotOf(c, id)
  {
    hide Sound, SpotOf, ResizedAt;
    forall x: Entry | x.order.id == id ensures (x in b.bids <==> x in c.bids) && (x in b.asks <==> x in c.asks) {
      ResizedIn(b.bids, c.bids, changed, qty, x);
      ResizedIn(b.asks, c.asks, changed, qty, x);
    }
    SameEntriesSpot(b, c, id);
  }

  lemma ResizedIn(s: seq<Entry>, t: seq<Entry>, changed: nat, qty: nat, x: Entry)
    requires ResizedAt(s, t, changed, qty) && x.order.id != changed
    ensures x in s <==> x in t
  {
    if x in s {
      var i :| 0 <= i < |s| && s[i] == x;
      assert t[i] == x;
    }
    if x in t {
      var i :| 0 <= i < |t| && t[i] == x;
      assert s[i] == x;
    }
  }

  lemma ReplaceEvolves(b: Book, named: nat, delta: int, price: nat, id: nat)
    requires Sound(b) && Quiet(b) && id != named
    requires Has(b.bids, named) || Has(b.asks, named) ==> Replaceable(Resting(b, named), delta, price)
    ensures var c := Replace(b, named, delta, price);
      Grows(b, c) && Evolves(SpotOf(b, id), SpotOf(c, id), TradedOf(News(b, c), id))
  {
    hide Sound, Quiet, SpotOf, TradedOf, Evolves, Has, Resting, Replace, LeavesOpen, Live;
    ReplaceSound(b, named, delta, price);
    RestsOrNot(b, named);
    var x, c := SpotOf(b, named), Replace(b, named, delta, price);
    if !x.Rests? {
      ReplaceRefused(b, named, delta, price);
      TellEvolves(b, ReplaceRejected(named), id);
    } else {
      RestsIf(b, named);
      var o := x.order;
      if price != 0 && price != o.price {
        MovedEvolves(b, named, delta, price, id);
      } else if o.Open() + delta <= 0 {
        ReplaceRemoves(b, named, delta, price);
        OthersSame(b, c, named, id);
        ToldOnly(b, c, Replaced(named, delta, o.price), id);
      } else {
        ReplaceResizes(b, named, delta, price);
        ResizedSame(b, c, named, (o.qty + delta) % 0x1_0000_0000, id);
        ToldOnly(b, c, Replaced(named, delta, o.price), id);
      }
    }
  }

  lemma RestsOrNot(b: Book, id: nat)
    ensures SpotOf(b, id).Rests? <==> Has(b.bids, id) || Has(b.asks, id)
  {
  }

  lemma MovedEvolves(b: Book, named: nat, delta: int, price: nat, id: nat)
    requires Sound(b) && SpotOf(b, named).Rests? && id != named
    requires var o := SpotOf(b, named).order; Adds32(o.qty, delta) && price != 0 && price != o.price
    ensures Has(b.bids, named) || Has(b.asks, named)
    ensures var c := Replace(b, named, delta, price);
      Grows(b, c) && Evolves(SpotOf(b, id), SpotOf(c, id), TradedOf(News(b, c), id))
  {
    hide Sound, Process, Submit, SpotOf, TradedOf, Evolves, Live, Withdraw, Has;
    RestsIf(b, named);
    SpotMeans(b, named);
    var n := SpotOf(b, named).order.Modify(delta, price);
    var w, e := Withdraw(b, named), Replaced(named, delta, n.price);
    WithdrawKept(b, named);
    WithdrawSides(b, named);
    OthersSame(b, w, named, id);
    if n.Open() > 0 {
      MayMove(b, named, n);
      SubmittedEvolves(w, n, e, id);
    } else {
      TellEvolves(w, e, id);
    }
  }

  // ---- Over every run ----

  /** The call names the id. */
  predicate Concerns(op: Op, id: nat) {
    match op
    case AddOp(o) => o.id == id
    case CancelOp(x) => x == id
    case ReplaceOp(x, _, _) => x == id
    case MarketOp(_) => false
  }

  lemma StepEvolves(b: Book, op: Op, id: nat)
    requires Sound(b) && Quiet(b) && Allowed(b, op) && !Concerns(op, id)
    ensures var c := Step(b, op); Grows(b, c) && Evolves(SpotOf(b, id), SpotOf(c, id), TradedOf(News(b, c), id))
  {
    hide Sound, Quiet, SpotOf, TradedOf, Evolves, Add, Cancel, Replace, Process, Live;
    match op
    case AddOp(o) => AddEvolves(b, o, id);
    case CancelOp(x) => CancelEvolves(b, x, id);
    case ReplaceOp(x, delta, price) => ReplaceEvolves(b, x, delta, price, id);
    case MarketOp(px) =>
      SoundAt(b, px);
      SpotAt(b, px, id);
      ProcessFates(b.(market := px), id);
  }

  lemma SpotAt(b: Book, px: nat, id: nat)
    ensures SpotOf(b.(market := px), id) == SpotOf(b, id)
  {
  }

  /** Whatever is called, an order that no call names only trades what is told under its id, or fires. */
  lemma {:induction false} RunEvolves(b: Book, ops: seq<Op>, id: nat)
    requires Sound(b) && Quiet(b) && Runs(b, ops) && forall op :: op in ops ==> !Concerns(op, id)
    ensures var c := After(b, ops); Grows(b, c) && Evolves(SpotOf(b, id), SpotOf(c, id), TradedOf(News(b, c), id))
    decreases |ops|
  {
    hide Sound, Quiet, SpotOf, TradedOf, Evolves, Step, Allowed, Concerns;
    if ops == [] {
      Unmoved(b, id);
    } else {
      assert ops[0] in ops;
      var c := Step(b, ops[0]);
      StepSound(b, ops[0]);
      StepEvolves(b, ops[0], id);
      RunEvolves(c, ops[1..], id);
      var d := After(c, ops[1..]);
      NewsOn(b, c, d, id);
      EvolvesOn(SpotOf(b, id), SpotOf(c, id), SpotOf(d, id), TradedOf(News(b, c), id), TradedOf(News(c, d), id));
    }
  }

  /**
    * No accepted order is lost. Until a call names it, it is parked and untouched, or all it had
    * open has been told as traded or rests on its own side, unless it may not rest.
    */
  lemma {:induction false} Accounted(b: Book, o: Order, ops: seq<Op>)
    requires Sound(b) && Quiet(b) && Fresh(o) && o.qty > 0 && o.id !in Live(b)
    requires Runs(Add(b, o), ops) && forall op :: op in ops ==> !Concerns(op, o.id)
    ensures Grows(b, After(Add(b, o), ops))
    ensures var c := After(Add(b, o), ops); var v, y := TradedOf(News(b, c), o.id), SpotOf(c, o.id);
      (Waits(o, b.market) && y == Parks(o) && v == 0) || EndsUp(o, v, y)
  {
    hide Sound, Quiet, SpotOf, TradedOf, Evolves, Add, Concerns, Live, Report, Allotment, Sum, EndsUp;
    var a := Add(b, o);
    AddSound(b, o);
    var f := AddEffect(b, o);
    RunEvolves(a, ops, o.id);
    var c := After(a, ops);
    var w := TradedOf(News(a, c), o.id);
    AddGrows(b, o);
    NewsOn(b, a, c, o.id);
    if Waits(o, b.market) {
      NothingYet(b, a, o);
      ParkedOn(o, SpotOf(c, o.id), w);
    } else {
      EndsUpOn(o, SpotOf(a, o.id), SpotOf(c, o.id), TradedOf(News(b, a), o.id), w);
    }
  }

  lemma AddGrows(b: Book, o: Order)
    requires Sound(b) && Quiet(b) && Fresh(o) && o.id !in Live(b)
    ensures Grows(b, Add(b, o))
  {
    hide Sound, Quiet, Live, Add;
    AddEvolves(b, o, o.id + 1);
  }

  lemma NothingYet(b: Book, a: Book, o: Order)
    requires a.log == b.log + [Accepted(o.id)]
    ensures TradedOf(News(b, a), o.id) == 0
  {
    assert News(b, a) == [Accepted(o.id)] && [Accepted(o.id)][1..] == [];
  }

  lemma ParkedOn(o: Order, y: Spot, v: nat)
    requires Evolves(Parks(o), y, v)
    ensures (y == Parks(o) && v == 0) || EndsUp(o, v, y)
  {
  }
}
