/**
  * Where every order ends up. Whatever the calls, an order on which none of them acts stays where
  * it is and changes only by what the listener is told was traded under its id.
  */
module Fates {
  import opened Orders
  import opened Queues
  import opened Matching
  import opened Books
  import opened BookLaws

  /** Where an order is, and the order as it is there. */
  datatype Spot = Parks(order: Order) | Rests(order: Order) | Absent

  ghost function SpotOf(b: Book, id: nat): Spot {
    if Has(b.bids, id) then Rests(b.bids[IndexOf(b.bids, id)].order)
    else if Has(b.asks, id) then Rests(b.asks[IndexOf(b.asks, id)].order)
    else if Has(b.stopBids, id) then Parks(b.stopBids[IndexOf(b.stopBids, id)].order)
    else if Has(b.stopAsks, id) then Parks(b.stopAsks[IndexOf(b.stopAsks, id)].order)
    else Absent
  }

  /** What an event says was traded under an id, as taker or as maker. */
  ghost function Part(e: Event, id: nat): nat {
    if !e.Filled? then 0 else (if e.taker == id then e.qty else 0) + (if e.maker == id then e.qty else 0)
  }

  ghost function TradedOf(log: seq<Event>, id: nat): nat {
    if log == [] then 0 else Part(log[0], id) + TradedOf(log[1..], id)
  }

  /** An all-or-none order trades all it has open or nothing. */
  ghost predicate Admits(o: Order, v: nat) {
    v <= o.Open() && (o.aon ==> v == 0 || v == o.Open())
  }

  /** After it has traded `v`, what is left of the order rests. */
  ghost predicate RestsWith(o: Order, v: nat, y: Spot) {
    y.Rests? && y.order == o.(filled := o.filled + v, cost := y.order.cost)
  }

  /**
    * An order that has been matched and has traded `v`: it rests with what it has left if it may, and
    * is gone otherwise. Market orders and immediate orders do not rest.
    */
  ghost predicate EndsUp(o: Order, v: nat, y: Spot) {
    && Admits(o, v)
    && if v < o.Open() && o.price != MARKET && !o.ioc then RestsWith(o, v, y) else y == Absent
  }

  /** Trading `v` is all that has happened to the order, but that it may have fired. */
  ghost predicate Evolves(x: Spot, y: Spot, v: nat) {
    match x
    case Absent => y == Absent && v == 0
    case Rests(o) => Admits(o, v) && if v < o.Open() then RestsWith(o, v, y) else y == Absent
    case Parks(o) => (y == x && v == 0) || EndsUp(o, v, y)
  }

  lemma EvolvesNot(x: Spot)
    requires x.Rests? ==> x.order.Open() > 0
    ensures Evolves(x, x, 0)
  {
  }

  lemma EvolvesOn(x: Spot, y: Spot, z: Spot, v: nat, w: nat)
    requires Evolves(x, y, v) && Evolves(y, z, w)
    ensures Evolves(x, z, v + w)
  {
  }

  lemma EndsUpOn(o: Order, y: Spot, z: Spot, v: nat, w: nat)
    requires EndsUp(o, v, y) && Evolves(y, z, w)
    ensures EndsUp(o, v + w, z)
  {
  }

  // ---- Spots and sides ----

  lemma {:induction false} Sole(s: seq<Entry>, e: Entry)
    requires UniqueIds(s) && e in s
    ensures Has(s, e.order.id) && s[IndexOf(s, e.order.id)] == e && e.order.id in Ids(s)
  {
    var i :| 0 <= i < |s| && s[i] == e;
    AtIndex(s, i);
    assert s[i].order.id in Ids(s);
  }

  /** The side on which an order rests, and the side on which it is parked. */
  ghost function OwnSide(b: Book, o: Order): seq<Entry> {
    if o.isBuy then b.bids else b.asks
  }

  ghost function StopSide(b: Book, o: Order): seq<Entry> {
    if o.isBuy then b.stopBids else b.stopAsks
  }

  ghost function OppositeSide(b: Book, o: Order): seq<Entry> {
    if o.isBuy then b.asks else b.bids
  }

  /** An order rests on its own side, ranked by its price, and is parked ranked by its stop. */
  lemma SpotMeans(b: Book, id: nat)
    requires Sound(b)
    ensures SpotOf(b, id) == Absent <==> id !in Live(b)
    ensures SpotOf(b, id) != Absent ==> SpotOf(b, id).order.id == id && SpotOf(b, id).order.Open() > 0
    ensures SpotOf(b, id).Rests? ==> var o := SpotOf(b, id).order; Entry(o.price, o) in OwnSide(b, o)
    ensures SpotOf(b, id).Parks? ==> var o := SpotOf(b, id).order; Entry(o.stop, o) in StopSide(b, o)
  {
    HasIds(b.bids, id);
    HasIds(b.asks, id);
    HasIds(b.stopBids, id);
    HasIds(b.stopAsks, id);
    OnSide(b.bids, id);
    OnSide(b.asks, id);
    OnSide(b.stopBids, id);
    OnSide(b.stopAsks, id);
    hide UniqueIds, ByKey, Ids, Uncrossed, IndexOf;
    assert Has(b.bids, id) ==> MayRest(true, b.bids[IndexOf(b.bids, id)]);
    assert Has(b.asks, id) ==> MayRest(false, b.asks[IndexOf(b.asks, id)]);
    assert Has(b.stopBids, id) ==> MayPark(true, b.stopBids[IndexOf(b.stopBids, id)]);
    assert Has(b.stopAsks, id) ==> MayPark(false, b.stopAsks[IndexOf(b.stopAsks, id)]);
  }

  lemma OnSide(s: seq<Entry>, id: nat)
    ensures Has(s, id) ==> s[IndexOf(s, id)] in s && s[IndexOf(s, id)].order.id == id
  {
  }

  lemma RestsAt(b: Book, e: Entry)
    requires Sound(b) && (e in b.bids || e in b.asks)
    ensures SpotOf(b, e.order.id) == Rests(e.order)
  {
    var id := e.order.id;
    HasIds(b.bids, id);
    if e in b.bids { Sole(b.bids, e); } else { Sole(b.asks, e); }
    hide UniqueIds, ByKey, IndexOf, Ids;
  }

  lemma ParksAt(b: Book, e: Entry)
    requires Sound(b) && (e in b.stopBids || e in b.stopAsks)
    ensures SpotOf(b, e.order.id) == Parks(e.order)
  {
    var id := e.order.id;
    HasIds(b.bids, id);
    HasIds(b.asks, id);
    HasIds(b.stopBids, id);
    if e in b.stopBids { Sole(b.stopBids, e); } else { Sole(b.stopAsks, e); }
    hide UniqueIds, ByKey, IndexOf, Ids;
  }

  // ---- What is told ----

  lemma {:induction false} TradedConcat(a: seq<Event>, b: seq<Event>, id: nat)
    ensures TradedOf(a + b, id) == TradedOf(a, id) + TradedOf(b, id)
  {
    if a == [] {
      assert a + b == b;
    } else {
      TradedConcat(a[1..], b, id);
      assert (a + b)[1..] == a[1..] + b;
    }
  }

  /** Nothing the listener has been told is taken back. */
  ghost predicate Grows(b: Book, c: Book) {
    b.log <= c.log
  }

  /** What the listener is told from one state to the other. */
  ghost function News(b: Book, c: Book): seq<Event>
    requires Grows(b, c)
  {
    c.log[|b.log|..]
  }

  lemma NewsOn(b: Book, c: Book, d: Book, id: nat)
    requires Grows(b, c) && Grows(c, d)
    ensures Grows(b, d) && News(b, d) == News(b, c) + News(c, d)
    ensures TradedOf(News(b, d), id) == TradedOf(News(b, c), id) + TradedOf(News(c, d), id)
  {
    TradedConcat(News(b, c), News(c, d), id);
    assert News(b, d) == News(b, c) + News(c, d);
  }

  /** The fills reported are the parts: the taker's is their sum. */
  lemma {:induction false} ReportTraded(opp: seq<Entry>, f: seq<nat>, taker: nat, id: nat)
    requires |f| == |opp| && UniqueIds(opp) && taker !in Ids(opp)
    ensures TradedOf(Report(opp, f, taker), id)
      == if id == taker then Sum(f) else if Has(opp, id) then f[IndexOf(opp, id)] else 0
  {
    if opp != [] {
      FirstApart(opp);
      ReportTraded(opp[1..], f[1..], taker, id);
      var rest := Report(opp[1..], f[1..], taker);
      var first := Filled(taker, opp[0].order.id, f[0], Cost(f[0], opp[0].order.price));
      assert ([first] + rest)[1..] == rest;
      assert opp[0].order.id in Ids(opp);
      HasIds(opp[1..], id);
    }
  }

  // ---- What is left of a side ----

  lemma {:induction false} RemainsIds(opp: seq<Entry>, f: seq<nat>)
    requires |f| == |opp|
    ensures Ids(Remains(opp, f)) <= Ids(opp)
  {
    if opp != [] {
      RemainsIds(opp[1..], f[1..]);
      var l := if f[0] == 0 then [opp[0]] else Left(opp[0], f[0]);
      IdsConcat(l, Remains(opp[1..], f[1..]));
      IdsConcat([opp[0]], opp[1..]);
      assert [opp[0]] + opp[1..] == opp && [opp[0]][0] == opp[0];
      assert Ids(l) <= Ids([opp[0]]) by {
        assert opp[0].order.id in Ids([opp[0]]);
      }
    }
  }

  /** An order that has given up less than it had is left with the rest. */
  lemma {:induction false} RemainsHas(opp: seq<Entry>, f: seq<nat>, k: nat) returns (y: Entry)
    requires |f| == |opp| && k < |opp| && f[k] < opp[k].order.Open()
    ensures y in Remains(opp, f) && y.key == opp[k].key
    ensures y.order == opp[k].order.(filled := opp[k].order.filled + f[k], cost := y.order.cost)
  {
    if k == 0 {
      y := if f[0] == 0 then opp[0] else Left(opp[0], f[0])[0];
    } else {
      y := RemainsHas(opp[1..], f[1..], k - 1);
    }
  }

  /** An order that has given up all it had is gone. */
  lemma {:induction false} RemainsGone(opp: seq<Entry>, f: seq<nat>, k: nat)
    requires |f| == |opp| && UniqueIds(opp) && k < |opp| && f[k] == opp[k].order.Open() > 0
    ensures opp[k].order.id !in Ids(Remains(opp, f))
  {
    FirstApart(opp);
    RemainsIds(opp[1..], f[1..]);
    var l, rest := if f[0] == 0 then [opp[0]] else Left(opp[0], f[0]), Remains(opp[1..], f[1..]);
    IdsConcat(l, rest);
    if k > 0 {
      RemainsGone(opp[1..], f[1..], k - 1);
      assert opp[1..][k - 1].order.id in Ids(opp[1..]);
    }
  }

  // ---- Submitting an order ----

  /** Whatever is matched is allotted by limit and priority, and an all-or-none order trades all or nothing. */
  lemma MatchParts(buy: bool, opp: seq<Entry>, o: Order, market: nat) returns (f: seq<nat>)
    requires RestingSide(buy, opp) && o.isBuy != buy && MaySubmit(o)
    ensures PartsOf(Match(opp, o, market), opp, o, market, f) && Admits(o, Sum(f))
    ensures Allotment(opp, o, f) || (o.aon && Sum(f) == 0)
    ensures forall i :: 0 <= i < |f| ==> Admits(opp[i].order, f[i])
  {
    hide RestingSide, ReachIsPrefix, Remains, Report, LastPrice, Allotment, Sum;
    SideReady(buy, opp);
    ReachOfSide(buy, opp, o);
    f := PriceTimePriority(opp, o, market);
    AllotmentFair(opp, o, f);
    if o.aon {
      AonIsAllOrNothing(opp, o, market);
      if MatchRegular(opp, o, market).taker.Open() > 0 {
        f := seq(|opp|, i => 0);
        Zeros(opp, f, o.id);
        NoLastPrice(opp, f, market);
      }
    }
  }

  lemma SideReady(buy: bool, opp: seq<Entry>)
    requires RestingSide(buy, opp)
    ensures UniqueIds(opp) && AllOpen(opp) && forall i :: 0 <= i < |opp| ==> opp[i].order.isBuy == buy
  {
    forall i | 0 <= i < |opp| ensures opp[i].order.Open() > 0 && opp[i].order.isBuy == buy {
      assert MayRest(buy, opp[i]);
    }
  }

  lemma AllotmentFair(opp: seq<Entry>, o: Order, f: seq<nat>)
    requires Allotment(opp, o, f)
    ensures Sum(f) <= o.Open() && forall i :: 0 <= i < |f| ==> Admits(opp[i].order, f[i])
  {
    forall i | 0 <= i < |f| ensures Admits(opp[i].order, f[i]) {
      assert Fair(opp, o, f, i);
    }
  }

  /** The order as it is after it has been matched. */
  ghost function TakerOf(b: Book, o: Order): Order {
    Match(OppositeSide(b, o), o, b.market).taker
  }

  /** An order submitted trades parts of the other side, and rests with what it has left if it may. */
  lemma SubmitParts(b: Book, o: Order) returns (f: seq<nat>)
    requires Sound(b) && MaySubmit(o)
    ensures var opp, own, c, t := OppositeSide(b, o), OwnSide(b, o), Submit(b, o), TakerOf(b, o);
      && PartsOf(Match(opp, o, b.market), opp, o, b.market, f) && Admits(o, Sum(f))
      && (Allotment(opp, o, f) || (o.aon && Sum(f) == 0))
      && (forall i :: 0 <= i < |f| ==> Admits(opp[i].order, f[i]))
      && OppositeSide(c, o) == Remains(opp, f) && c.log == b.log + Report(opp, f, o.id)
      && c.market == LastPrice(opp, f, b.market)
      && OwnSide(c, o)
        == if Sum(f) < o.Open() && o.price != MARKET && !o.ioc then Enqueue(o.isBuy, own, Entry(o.price, t)) else own
  {
    hide Match, Allotment, RestingSide, Remains, Report, LastPrice, Enqueue;
    f := MatchParts(!o.isBuy, OppositeSide(b, o), o, b.market);
  }

  /** What a submission tells of an order: the sum of the parts of its own, a part of another's. */
  lemma SubmitNews(b: Book, o: Order, f: seq<nat>, id: nat)
    requires Sound(b) && o.id !in Live(b) && |f| == |OppositeSide(b, o)|
    requires Submit(b, o).log == b.log + Report(OppositeSide(b, o), f, o.id)
    ensures var opp := OppositeSide(b, o);
      && Grows(b, Submit(b, o))
      && TradedOf(News(b, Submit(b, o)), id)
        == if id == o.id then Sum(f) else if Has(opp, id) then f[IndexOf(opp, id)] else 0
  {
    hide Submit, Report, TradedOf, Sum, IndexOf, ByKey;
    MatchReady(b);
    var opp := OppositeSide(b, o);
    ReportTraded(opp, f, o.id, id);
    assert News(b, Submit(b, o)) == Report(opp, f, o.id);
  }

  /** The order submitted ends up on its own side, or has traded all, or may not rest. */
  lemma SubmitEnds(b: Book, o: Order)
    requires Sound(b) && MaySubmit(o) && o.id !in Live(b)
    ensures Grows(b, Submit(b, o)) && EndsUp(o, TradedOf(News(b, Submit(b, o)), o.id), SpotOf(Submit(b, o), o.id))
  {
    hide Sound, Submit, Remains, Report, LastPrice, Enqueue, SpotOf, Sum, TradedOf, Allotment, Live, Match, Has;
    var f := SubmitParts(b, o);
    SubmitNews(b, o, f, o.id);
    SubmitSound(b, o);
    var c, e := Submit(b, o), Entry(o.price, TakerOf(b, o));
    if Sum(f) < o.Open() && o.price != MARKET && !o.ioc {
      Enqueued(o.isBuy, OwnSide(b, o), e);
      RestsAt(c, e);
    } else {
      NotThere(b, o, f);
      SpotMeans(c, o.id);
    }
  }

  lemma Enqueued(high: bool, s: seq<Entry>, e: Entry)
    ensures forall x :: x in Enqueue(high, s, e) <==> x == e || x in s
  {
    var p := PlaceOf(high, s, e.key);
    assert s == s[..p] + s[p..];
  }

  /** An order that has not been left on its own side is nowhere. */
  lemma NotThere(b: Book, o: Order, f: seq<nat>)
    requires o.id !in Live(b) && OwnSide(Submit(b, o), o) == OwnSide(b, o)
    requires |f| == |OppositeSide(b, o)| && OppositeSide(Submit(b, o), o) == Remains(OppositeSide(b, o), f)
    ensures o.id !in Live(Submit(b, o))
  {
    hide Submit, Remains, Ids;
    RemainsIds(OppositeSide(b, o), f);
  }

  /** A resting order has given its part. */
  lemma MakerEvolves(b: Book, o: Order, f: seq<nat>, k: nat)
    requires Sound(b) && Sound(Submit(b, o)) && Live(Submit(b, o)) <= Live(b) + {o.id} && o.id !in Live(b)
    requires var opp := OppositeSide(b, o); k < |f| == |opp| && Admits(opp[k].order, f[k])
    requires OppositeSide(Submit(b, o), o) == Remains(OppositeSide(b, o), f)
    requires forall x :: x in OwnSide(Submit(b, o), o) ==> x.order.id == o.id || x in OwnSide(b, o)
    ensures var id := OppositeSide(b, o)[k].order.id;
      Evolves(SpotOf(b, id), SpotOf(Submit(b, o), id), f[k])
  {
    hide Sound, Submit, Remains, SpotOf, Live;
    var opp, c := OppositeSide(b, o), Submit(b, o);
    RestsAt(b, opp[k]);
    if f[k] < opp[k].order.Open() {
      var y := RemainsHas(opp, f, k);
      RestsAt(c, y);
    } else {
      SpotMeans(b, opp[k].order.id);
      MakerGone(b, o, f, k);
      SpotMeans(c, opp[k].order.id);
    }
  }

  lemma MakerGone(b: Book, o: Order, f: seq<nat>, k: nat)
    requires Sound(b) && o.id !in Live(b)
    requires var opp := OppositeSide(b, o); k < |f| == |opp| && f[k] == opp[k].order.Open() > 0
    requires OppositeSide(Submit(b, o), o) == Remains(OppositeSide(b, o), f)
    requires forall x :: x in OwnSide(Submit(b, o), o) ==> x.order.id == o.id || x in OwnSide(b, o)
    ensures OppositeSide(b, o)[k].order.id !in Live(Submit(b, o))
  {
    hide Submit, Remains, ByKey, Uncrossed, UniqueIds;
    MatchReady(b);
    var opp := OppositeSide(b, o);
    RemainsGone(opp, f, k);
    assert opp[k].order.id in Ids(opp);
    var own := OwnSide(Submit(b, o), o);
    forall i | 0 <= i < |own| ensures own[i].order.id == o.id || own[i].order.id in Ids(OwnSide(b, o)) {
      assert own[i] in own;
      if own[i] in OwnSide(b, o) { var j :| 0 <= j < |OwnSide(b, o)| && OwnSide(b, o)[j] == own[i]; }
    }
  }

  /** An order that is not on the opposite side is where it was. */
  lemma OtherEvolves(b: Book, o: Order, id: nat)
    requires Sound(b) && Sound(Submit(b, o)) && Live(Submit(b, o)) <= Live(b) + {o.id}
    requires id != o.id && !Has(OppositeSide(b, o), id)
    requires forall x :: x in OwnSide(b, o) ==> x in OwnSide(Submit(b, o), o)
    ensures Evolves(SpotOf(b, id), SpotOf(Submit(b, o), id), 0)
  {
    hide Sound, SpotOf, Live, Has, IndexOf, Ids, Rest, Match;
    var c, x := Submit(b, o), SpotOf(b, id);
    SpotMeans(b, id);
    SpotMeans(c, id);
    if x.Rests? {
      var e := Entry(x.order.price, x.order);
      HasEntry(OppositeSide(b, o), e);
      assert e in OwnSide(b, o);
      RestsAt(c, e);
    } else if x.Parks? {
      ParksAt(c, Entry(x.order.stop, x.order));
    }
  }

  lemma HasEntry(s: seq<Entry>, e: Entry)
    ensures e in s ==> Has(s, e.order.id)
  {
    HasIds(s, e.order.id);
    if e in s {
      var i :| 0 <= i < |s| && s[i] == e;
      assert s[i].order.id in Ids(s);
    }
  }

  /** Every other order has traded what is told under its id, and is otherwise where it was. */
  lemma SubmitEvolves(b: Book, o: Order, id: nat)
    requires Sound(b) && MaySubmit(o) && o.id !in Live(b) && id != o.id
    ensures Grows(b, Submit(b, o))
    ensures Evolves(SpotOf(b, id), SpotOf(Submit(b, o), id), TradedOf(News(b, Submit(b, o)), id))
  {
    hide Sound, Submit, Remains, Report, LastPrice, Enqueue, SpotOf, Sum, TradedOf, Allotment, Live, Match, IndexOf;
    hide EndsUp, Evolves;
    var f := SubmitParts(b, o);
    SubmitNews(b, o, f, id);
    SubmitSound(b, o);
    var c, opp := Submit(b, o), OppositeSide(b, o);
    Enqueued(o.isBuy, OwnSide(b, o), Entry(o.price, TakerOf(b, o)));
    if Has(opp, id) {
      MakerEvolves(b, o, f, IndexOf(opp, id));
    } else {
      OtherEvolves(b, o, id);
    }
  }

  // ---- Submitting many, and the cascade ----

  /** An order of the batch ends up as if it had been submitted alone; every other one only trades. */
  ghost predicate BatchFate(s: seq<Entry>, id: nat, x: Spot, y: Spot, v: nat) {
    if Has(s, id) then EndsUp(s[IndexOf(s, id)].order, v, y) else Evolves(x, y, v)
  }

  lemma {:induction false} SubmitAllFates(b: Book, s: seq<Entry>, id: nat)
    requires Sound(b) && Batch(s, Live(b))
    ensures Grows(b, SubmitAll(b, s))
    ensures BatchFate(s, id, SpotOf(b, id), SpotOf(SubmitAll(b, s), id), TradedOf(News(b, SubmitAll(b, s)), id))
    decreases |s|
  {
    hide Sound, Submit, SpotOf, TradedOf, Live, Evolves, EndsUp, Has, IndexOf, Batch;
    if s == [] {
      Unmoved(b, id);
      NoneNamed(id);
    } else {
      var o, c := s[0].order, Submit(b, s[0].order);
      BatchRest(s, Live(b), Live(b));
      SubmitSound(b, o);
      BatchRest(s, Live(b), Live(c));
      SubmitAllFates(c, s[1..], id);
      var d := SubmitAll(c, s[1..]);
      FirstNamed(s, Live(b), id);
      if id == o.id {
        SubmitEnds(b, o);
        EndsUpOn(o, SpotOf(c, id), SpotOf(d, id), TradedOf(News(b, c), id), TradedOf(News(c, d), id));
      } else {
        SubmitEvolves(b, o, id);
        if Has(s[1..], id) {
          NotYetThere(s, b, id);
          SpotMeans(b, id);
          AbsentStays(SpotOf(b, id), SpotOf(c, id), TradedOf(News(b, c), id));
        } else {
          EvolvesOn(SpotOf(b, id), SpotOf(c, id), SpotOf(d, id), TradedOf(News(b, c), id), TradedOf(News(c, d), id));
        }
      }
      NewsOn(b, c, d, id);
    }
  }

  lemma Unmoved(b: Book, id: nat)
    requires Sound(b)
    ensures Grows(b, b) && TradedOf(News(b, b), id) == 0 && Evolves(SpotOf(b, id), SpotOf(b, id), 0)
  {
    hide Sound, SpotOf;
    SpotMeans(b, id);
    EvolvesNot(SpotOf(b, id));
  }

  lemma NoneNamed(id: nat)
    ensures !Has([], id)
  {
  }

  lemma AbsentStays(x: Spot, y: Spot, v: nat)
    requires x == Absent && Evolves(x, y, v)
    ensures y == Absent && v == 0
  {
  }

  lemma FirstNamed(s: seq<Entry>, live: set<nat>, id: nat)
    requires s != [] && Batch(s, live)
    ensures id == s[0].order.id ==> Has(s, id) && IndexOf(s, id) == 0 && !Has(s[1..], id)
    ensures id != s[0].order.id ==> Has(s, id) == Has(s[1..], id)
    ensures id != s[0].order.id && Has(s, id) ==> s[IndexOf(s, id)] == s[1..][IndexOf(s[1..], id)]
  {
    FirstApart(s);
    HasIds(s[1..], id);
  }

  lemma NotYetThere(s: seq<Entry>, b: Book, id: nat)
    requires s != [] && Batch(s, Live(b)) && Has(s[1..], id)
    ensures id !in Live(b)
  {
    hide Live, UniqueIds;
    HasIds(s[1..], id);
    var i :| 0 <= i < |s[1..]| && s[1..][i].order.id == id;
    assert s[i + 1].order.id in Ids(s);
  }

  lemma NextRound(b: Book)
    ensures var n, k := Firing(true, b.stopBids, b.market), Firing(false, b.stopAsks, b.market);
      var c := b.(stopBids := b.stopBids[n..], stopAsks := b.stopAsks[k..]);
      Process(b) == if n + k == 0 then b else Process(SubmitAll(c, b.stopBids[..n] + b.stopAsks[..k]))
  {
    hide SubmitAll, Firing;
  }

  /** The cascade: whoever is on the book trades what is told of him, and may fire if he is parked. */
  lemma {:induction false} ProcessFates(b: Book, id: nat)
    requires Sound(b)
    ensures Grows(b, Process(b))
    ensures Evolves(SpotOf(b, id), SpotOf(Process(b), id), TradedOf(News(b, Process(b)), id))
    decreases |b.stopBids| + |b.stopAsks|
  {
    hide Sound, SubmitAll, SpotOf, TradedOf, Live, Evolves, Batch, Process, Firing, BatchFate;
    var n, k := Firing(true, b.stopBids, b.market), Firing(false, b.stopAsks, b.market);
    NextRound(b);
    if n + k == 0 {
      Unmoved(b, id);
    } else {
      var c := b.(stopBids := b.stopBids[n..], stopAsks := b.stopAsks[k..]);
      var fired := b.stopBids[..n] + b.stopAsks[..k];
      RoundSound(b, n, k);
      SubmitAllSound(c, fired);
      SubmitAllFates(c, fired, id);
      var d := SubmitAll(c, fired);
      RoundFate(b, c, fired, n, k, id, SpotOf(d, id), TradedOf(News(c, d), id));
      ProcessFates(d, id);
      EvolvesOn(SpotOf(b, id), SpotOf(d, id), SpotOf(Process(d), id), TradedOf(News(c, d), id),
          TradedOf(News(d, Process(d)), id));
      NewsOn(c, d, Process(d), id);
    }
  }

  /** A round, seen from the book before its stops were taken out. */
  lemma RoundFate(b: Book, c: Book, fired: seq<Entry>, n: nat, k: nat, id: nat, y: Spot, v: nat)
    requires Sound(b) && Sound(c) && n <= |b.stopBids| && k <= |b.stopAsks|
    requires c == b.(stopBids := b.stopBids[n..], stopAsks := b.stopAsks[k..])
    requires fired == b.stopBids[..n] + b.stopAsks[..k] && Live(c) + Ids(fired) == Live(b)
    requires BatchFate(fired, id, SpotOf(c, id), y, v)
    ensures Evolves(SpotOf(b, id), y, v)
  {
    hide Sound, SpotOf, Live, Evolves, EndsUp, IndexOf;
    if Has(fired, id) {
      var e := fired[IndexOf(fired, id)];
      OnSide(fired, id);
      ParksAt(b, e);
      FiresFrom(e.order, y, v);
    } else {
      SpotMeans(b, id);
      SpotMeans(c, id);
      HasIds(fired, id);
      SameSpot(b, c, id);
    }
  }

  lemma FiresFrom(o: Order, y: Spot, v: nat)
    requires EndsUp(o, v, y)
    ensures Evolves(Parks(o), y, v)
  {
  }

  /** Every order of the smaller book is where it is on the larger one. */
  lemma SameSpot(b: Book, c: Book, id: nat)
    requires Sound(b) && Sound(c) && (id in Live(b) <==> id in Live(c)) && b.bids == c.bids && b.asks == c.asks
    requires forall x :: x in c.stopBids + c.stopAsks ==> x in b.stopBids + b.stopAsks
    ensures SpotOf(b, id) == SpotOf(c, id)
  {
    hide Sound, SpotOf, Live;
    SpotMeans(b, id);
    SpotMeans(c, id);
    var x := SpotOf(c, id);
    if x.Rests? {
      RestsAt(b, Entry(x.order.price, x.order));
    } else if x.Parks? {
      assert Entry(x.order.stop, x.order) in c.stopBids + c.stopAsks;
      ParksAt(b, Entry(x.order.stop, x.order));
    }
  }
}
